/**
 * Python's built-in `int(x)` applied to a decoded JSON value, as the token
 * parser uses it to coerce the five salts.  `None` stands for the exception
 * `int` raises (ValueError for a string that is not a decimal literal,
 * TypeError for None, lists and dicts).
 */
module PyInt {
  import opened Wrappers
  import opened Json

  /** `int(v)` */
  function ToInt(v: Value): (r: Option<int>)
    ensures v.JInt? ==> r == Some(v.i)
    ensures v.JBool? ==> r == Some(if v.b then 1 else 0)
    ensures v.JNull? || v.JCompound? ==> r == None
  {
    match v
    case JInt(i) => Some(i)
    case JBool(b) => Some(if b then 1 else 0)
    case JStr(s) => ParseDecimal(s)
    case JNull => None
    case JCompound => None
  }

  /**
   * The ASCII characters `int` strips at both ends of a string: space, tab,
   * newline, vertical tab, form feed, carriage return.  The separators
   * 0x1C..0x1F, which `str.isspace` also accepts, are not stripped.
   */
  predicate IsSpace(c: char) {
    c == ' ' || 9 <= c as int <= 13
  }

  predicate IsDigit(c: char) {
    '0' <= c <= '9'
  }

  function DigitOf(c: char): (d: nat)
    requires IsDigit(c)
    ensures d < 10
  {
    c as int - '0' as int
  }

  /** Leading space removed. */
  function StripLeft(s: string): (r: string)
    ensures |r| <= |s|
    ensures r != [] ==> !IsSpace(r[0])
  {
    if s != [] && IsSpace(s[0]) then StripLeft(s[1..]) else s
  }

  /** Trailing space removed. */
  function StripRight(s: string): (r: string)
    ensures |r| <= |s|
    ensures r != [] ==> !IsSpace(r[|r| - 1])
  {
    if s != [] && IsSpace(s[|s| - 1]) then StripRight(s[..|s| - 1]) else s
  }

  /** What `StripLeft` leaves is a suffix, and everything before it is space. */
  lemma {:induction false} StripLeftSuffix(s: string)
    ensures StripLeft(s) == s[|s| - |StripLeft(s)|..]
    ensures forall j :: 0 <= j < |s| - |StripLeft(s)| ==> IsSpace(s[j])
  {
    if s != [] && IsSpace(s[0]) {
      StripLeftSuffix(s[1..]);
    }
  }

  /** What `StripRight` leaves is a prefix, and everything after it is space. */
  lemma {:induction false} StripRightPrefix(s: string)
    ensures StripRight(s) == s[..|StripRight(s)|]
    ensures forall j :: |StripRight(s)| <= j < |s| ==> IsSpace(s[j])
  {
    if s != [] && IsSpace(s[|s| - 1]) {
      StripRightPrefix(s[..|s| - 1]);
    }
  }

  /**
   * A base-10 digit string as `int` accepts it: at least one digit, digits and
   * underscores only, every underscore between two digits.
   */
  predicate ValidDigits(s: string) {
    && s != []
    && IsDigit(s[0])
    && IsDigit(s[|s| - 1])
    && (forall i :: 0 <= i < |s| ==> IsDigit(s[i]) || s[i] == '_')
    && (forall i :: 0 <= i < |s| - 1 ==> s[i] == '_' ==> s[i + 1] != '_')
  }

  /** The number a digit string denotes, underscores ignored. */
  function DigitsValue(s: string): nat
    requires forall i :: 0 <= i < |s| ==> IsDigit(s[i]) || s[i] == '_'
  {
    if s == [] then 0
    else if s[|s| - 1] == '_' then DigitsValue(s[..|s| - 1])
    else DigitsValue(s[..|s| - 1]) * 10 + DigitOf(s[|s| - 1])
  }

  /** The default of `sys.get_int_max_str_digits()`: longer decimal strings are refused. */
  const MaxStrDigits := 4300

  /** How many digits a string holds (underscores and other characters not counted). */
  function DigitCount(s: string): (n: nat)
    ensures n <= |s|
    ensures (forall i :: 0 <= i < |s| ==> IsDigit(s[i])) ==> n == |s|
  {
    if s == [] then 0 else DigitCount(s[..|s| - 1]) + (if IsDigit(s[|s| - 1]) then 1 else 0)
  }

  /** `int(s)` for a string `s`: surrounding space, an optional sign, then at most 4300 digits. */
  function ParseDecimal(s: string): (r: Option<int>)
    ensures s == [] ==> r == None
  {
    var t := StripRight(StripLeft(s));
    var negative := t != [] && t[0] == '-';
    var body := if t != [] && (t[0] == '-' || t[0] == '+') then t[1..] else t;
    if ValidDigits(body) && DigitCount(body) <= MaxStrDigits then
      Some(if negative then 0 - DigitsValue(body) else DigitsValue(body))
    else None
  }

  /** A character that is neither a digit, `_`, a sign nor strippable space makes `int` raise. */
  predicate Foreign(c: char) {
    !IsDigit(c) && c != '_' && c != '+' && c != '-' && !IsSpace(c)
  }

  /** `int` rejects every string holding a foreign character anywhere ("x", "1.5", "\x1c10"). */
  lemma {:induction false} ForeignCharacterRejected(s: string, i: nat)
    requires i < |s| && Foreign(s[i])
    ensures ParseDecimal(s) == None
  {
    var t1 := StripLeft(s);
    var t := StripRight(t1);
    StripLeftSuffix(s);
    StripRightPrefix(t1);
    var k := i - (|s| - |t1|);
    assert 0 <= k < |t1| && t1[k] == s[i];
    assert k < |t| && t[k] == s[i];
    var body := if t != [] && (t[0] == '-' || t[0] == '+') then t[1..] else t;
    if t[0] == '-' || t[0] == '+' {
      assert k > 0 && body[k - 1] == s[i];
    } else {
      assert body[k] == s[i];
    }
    assert !ValidDigits(body);
  }

  /** `int` takes surrounding space. */
  lemma ParseAcceptsSurroundingSpace()
    ensures ParseDecimal(" 12\n") == Some(12)
  {
    assert StripRight(StripLeft(" 12\n")) == "12";
    assert DigitsValue("12") == 12 by { assert "12"[..1] == "1"; }
  }

  /** `int` takes a sign and an underscore between digits. */
  lemma ParseAcceptsSignAndUnderscore()
    ensures ParseDecimal("-1_0") == Some(-10)
  {
    assert StripRight(StripLeft("-1_0")) == "-1_0";
    assert "-1_0"[1..] == "1_0";
    assert DigitsValue("1_0") == 10 by { assert "1_0"[..2] == "1_"; assert "1_"[..1] == "1"; }
  }

  /** `int` refuses a fraction and a leading file separator (0x1C), which it does not strip. */
  lemma ParseRejectsFractionAndSeparator()
    ensures ParseDecimal("1.5") == None
    ensures ParseDecimal([28 as char, '1', '0']) == None
  {
    ForeignCharacterRejected("1.5", 1);
    ForeignCharacterRejected([28 as char, '1', '0'], 0);
  }

  /** The decimal rendering of a natural number, as Python's `str` writes it. */
  function Digits(m: nat): (r: string)
    ensures r != [] && IsDigit(r[0]) && IsDigit(r[|r| - 1])
    ensures forall i :: 0 <= i < |r| ==> IsDigit(r[i])
  {
    if m < 10 then [('0' as int + m) as char]
    else Digits(m / 10) + [('0' as int + m % 10) as char]
  }

  /** The decimal rendering of an integer, with a leading '-' when negative. */
  function Decimal(n: int): string {
    if n < 0 then "-" + Digits(-n) else Digits(n)
  }

  lemma {:induction false} DigitsValueOfDigits(m: nat)
    ensures DigitsValue(Digits(m)) == m
  {
    if m >= 10 {
      var d := Digits(m / 10);
      assert (d + [('0' as int + m % 10) as char])[..|d|] == d;
      DigitsValueOfDigits(m / 10);
    }
  }

  /** `abs(n)` */
  function Abs(n: int): nat {
    if n < 0 then -n else n
  }

  /**
   * `int(str(n)) == n`: parsing the decimal rendering of an integer of at most
   * 4300 digits gives it back; a longer rendering is refused.
   */
  lemma DecimalRoundTrip(n: int)
    ensures |Digits(Abs(n))| <= MaxStrDigits ==> ParseDecimal(Decimal(n)) == Some(n)
    ensures |Digits(Abs(n))| <= MaxStrDigits ==> ToInt(JStr(Decimal(n))) == Some(n)
    ensures |Digits(Abs(n))| > MaxStrDigits ==> ParseDecimal(Decimal(n)) == None
  {
    var s := Decimal(n);
    var m: nat := if n < 0 then -n else n;
    var d := Digits(m);
    assert s == if n < 0 then "-" + d else d;
    assert !IsSpace(s[0]) && !IsSpace(s[|s| - 1]);
    assert StripLeft(s) == s;
    assert StripRight(s) == s;
    var body := if s[0] == '-' || s[0] == '+' then s[1..] else s;
    assert body == d;
    assert ValidDigits(d);
    assert DigitCount(d) == |d|;
    DigitsValueOfDigits(m);
  }
}
