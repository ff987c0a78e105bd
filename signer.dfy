/**
 * The payload id that signs floorsheet requests
 * (`Nepse._get_floorsheet_payload_id`, nepse_data_api/market.py): a base id
 * from the market status, the day of the month, a fixed 100-entry table and
 * one pair of salts.
 */
module Signer {
  import opened Wrappers

  /** The embedded `DUMMY_DATA` table, written in rows of ten. */
  const DummyData: seq<int> :=
    [147, 117, 239, 143, 157, 312, 161, 612, 512, 804]
    + [411, 527, 170, 511, 421, 667, 764, 621, 301, 106]
    + [133, 793, 411, 511, 312, 423, 344, 346, 653, 758]
    + [342, 222, 236, 811, 711, 611, 122, 447, 128, 199]
    + [183, 135, 489, 703, 800, 745, 152, 863, 134, 211]
    + [142, 564, 375, 793, 212, 153, 138, 153, 648, 611]
    + [151, 649, 318, 143, 117, 756, 119, 141, 717, 113]
    + [112, 146, 162, 660, 693, 261, 362, 354, 251, 641]
    + [157, 178, 631, 192, 734, 445, 192, 883, 187, 122]
    + [591, 731, 852, 384, 565, 596, 451, 772, 624, 691]

  /** The base id used when the market status has no `id` field. */
  const DefaultBaseId := 147

  /** `salts[i]` failed with IndexError: the salt list is too short for the selected pair. */
  datatype SignError = SaltIndexOutOfRange(index: nat, saltCount: nat)

  /**
   * `DUMMY_DATA[base % len(DUMMY_DATA)]`.  Python's `%` by a positive divisor
   * never yields a negative index, so the lookup always succeeds and the
   * source's fallback value 147 is never used.
   */
  function TableEntry(base: int): (v: int)
    ensures |DummyData| == 100 && 0 <= base % 100 < |DummyData|
    ensures v == DummyData[base % 100]
  {
    DummyData[base % |DummyData|]
  }

  /**
   * `e = val + dummy_id + 2 * day`: the base id and twice the day, raised by
   * the table entry at `base % 100` (never by the fallback 147).
   */
  function Seed(base: int, day: int): (e: int)
    ensures e - base - 2 * day == DummyData[base % 100]
  {
    TableEntry(base) + base + 2 * day
  }

  /** `1 if e % 10 < 4 else 3`: which pair `(salts[i], salts[i-1])` signs. */
  function SaltIndex(e: int): (i: nat)
    ensures i == 1 || i == 3
    ensures i == 1 <==> e % 10 < 4
  {
    if e % 10 < 4 then 1 else 3
  }

  /** `e + salts[i] * day - salts[i - 1]` */
  function PayloadId(base: int, day: int, salts: seq<int>): (r: Result<int, SignError>)
    ensures r.Success? <==> SaltIndex(Seed(base, day)) < |salts|
    ensures r.Failure? ==> r.error == SaltIndexOutOfRange(SaltIndex(Seed(base, day)), |salts|)
    ensures |salts| >= 4 ==> r.Success?
  {
    var e := Seed(base, day);
    var i := SaltIndex(e);
    if i < |salts| then Success(e + salts[i] * day - salts[i - 1])
    else Failure(SaltIndexOutOfRange(i, |salts|))
  }

  /** The value of a successful signing, spelled out from the table, the base and the day. */
  lemma PayloadIdFormula(base: int, day: int, salts: seq<int>)
    requires |salts| >= 4
    ensures var e := DummyData[base % 100] + base + 2 * day;
            var i := if e % 10 < 4 then 1 else 3;
            PayloadId(base, day, salts) == Success(e + salts[i] * day - salts[i - 1])
  {
  }

  /** Only the selected pair of salts matters. */
  lemma OnlySelectedPairMatters(base: int, day: int, s1: seq<int>, s2: seq<int>)
    requires |s1| >= 4 && |s2| >= 4
    requires var i := SaltIndex(Seed(base, day)); s1[i] == s2[i] && s1[i - 1] == s2[i - 1]
    ensures PayloadId(base, day, s1) == PayloadId(base, day, s2)
  {
  }

  /** Base ids 100 apart share their table entry and salt pair, so their ids are 100 apart. */
  lemma {:induction false} BasePeriod(base: int, day: int, salts: seq<int>)
    requires |salts| >= 4
    ensures PayloadId(base, day, salts).Success? && PayloadId(base + 100, day, salts).Success?
    ensures PayloadId(base + 100, day, salts).value == PayloadId(base, day, salts).value + 100
  {
    assert (base + 100) % 100 == base % 100;
    assert TableEntry(base + 100) == TableEntry(base);
    assert Seed(base + 100, day) == Seed(base, day) + 100;
    assert (Seed(base, day) + 100) % 10 == Seed(base, day) % 10;
  }

  /** The hand-worked case: `DUMMY_DATA[47] = 863`, so e = 1034, the pair (salts[3], salts[2]) signs. */
  lemma WorkedExample()
    ensures Seed(147, 12) == 1034 && SaltIndex(1034) == 3
    ensures PayloadId(147, 12, [100, 200, 300, 400, 500]) == Success(5534)
  {
    assert DummyData[47] == 863;
  }
}
