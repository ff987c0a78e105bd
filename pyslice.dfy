/**
 * Python's slice `s[i:j]` with step 1 on a sequence.  A negative bound counts
 * from the end (`i + len(s)`); a bound still out of range after that is
 * clamped to `0` or `len(s)`; the slice is empty when the clamped end does not
 * lie after the clamped start.  No slice raises an error.
 */
module PySlice {

  /** The position a slice bound `i` denotes in a sequence of length `len`. */
  function Bound(i: int, len: nat): (r: nat)
    ensures r <= len
    ensures 0 <= i <= len ==> r == i
    ensures i > len ==> r == len
    ensures i < 0 && i + len >= 0 ==> r == i + len
    ensures i + len < 0 ==> r == 0
  {
    if i < 0 then (if i + len < 0 then 0 else i + len)
    else if i > len then len
    else i
  }

  /** `s[i:j]` */
  function Slice<T>(s: seq<T>, i: int, j: int): (r: seq<T>)
    ensures |r| <= |s|
    ensures 0 <= j <= i ==> r == []
    ensures forall x :: x in r ==> x in s
  {
    var lo, hi := Bound(i, |s|), Bound(j, |s|);
    if lo < hi then s[lo..hi] else []
  }

  /** Between bounds that need neither counting from the end nor clamping, a slice is `s[i..j]`. */
  lemma SliceInRange<T>(s: seq<T>, i: int, j: int)
    requires 0 <= i <= j <= |s|
    ensures Slice(s, i, j) == s[i..j]
  {
  }

  /** `s[i:]`: the end bound is omitted, so it is the length of `s`. */
  function SliceFrom<T>(s: seq<T>, i: int): (r: seq<T>)
    ensures 0 <= i <= |s| ==> r == s[i..]
    ensures i >= |s| ==> r == []
  {
    if 0 <= i <= |s| then SliceInRange(s, i, |s|); Slice(s, i, |s|) else Slice(s, i, |s|)
  }

  /** `s[:j]`: the start bound is omitted, so it is 0. */
  function SliceTo<T>(s: seq<T>, j: int): (r: seq<T>)
    ensures 0 <= j <= |s| ==> r == s[..j]
    ensures j > |s| ==> r == s
    ensures j < 0 && |s| + j >= 0 ==> r == s[..|s| + j]
    ensures |s| + j < 0 ==> r == []
  {
    if 0 <= j <= |s| then SliceInRange(s, 0, j); Slice(s, 0, j) else Slice(s, 0, j)
  }
}
