/**
  The three Python list operations the registry relies on: subscript
  `s[i]`, subscript assignment `s[i] = v` and the slice `s[a:b]`, with
  Python's treatment of negative and out-of-range positions.
 */
module PyList {
  import opened Wrappers

  /** CPython's IndexError messages for reading and for assigning. */
  const IndexOutOfRange := "list index out of range"
  const AssignmentOutOfRange := "list assignment index out of range"

  /**
    The range of `Py_ssize_t` on a 64-bit build. A subscript outside it is
    rejected with IndexError before the list is looked at.
   */
  const SsizeMin := -0x8000_0000_0000_0000
  const SsizeMax := 0x7fff_ffff_ffff_ffff
  const IndexTooWide := "cannot fit 'int' into an index-sized integer"

  predicate FitsIndex(i: int) {
    SsizeMin <= i <= SsizeMax
  }

  function Min(a: int, b: int): int {
    if a <= b then a else b
  }

  function Max(a: int, b: int): int {
    if a <= b then b else a
  }

  /**
    The slot a subscript `i` names in a list of length `n`: a negative
    subscript counts from the end, once; anything else out of range is none.
   */
  function Resolve(n: nat, i: int): (r: Option<nat>)
    ensures r.Some? <==> -(n as int) <= i < n
    ensures r.Some? ==> r.value < n && (r.value == i || r.value == n + i)
  {
    if i < 0 then
      if n + i < 0 then None else Some(n + i)
    else if i < n then Some(i) else None
  }

  /** `s[i]`: the element, or IndexError. */
  function Get<T>(s: seq<T>, i: int): (r: Result<T, string>)
    ensures r.Success? <==> FitsIndex(i) && -(|s| as int) <= i < |s|
    ensures FitsIndex(i) && 0 <= i < |s| ==> r == Success(s[i])
    ensures FitsIndex(i) && -(|s| as int) <= i < 0 ==> r == Success(s[|s| + i])
    ensures !FitsIndex(i) ==> r == Failure(IndexTooWide)
    ensures FitsIndex(i) && r.Failure? ==> r.error == IndexOutOfRange
  {
    if !FitsIndex(i) then Failure(IndexTooWide)
    else
      match Resolve(|s|, i)
      case Some(k) => Success(s[k])
      case None => Failure(IndexOutOfRange)
  }

  /** `s[i] = v`: the list with one slot replaced, or IndexError. */
  function Set<T>(s: seq<T>, i: int, v: T): (r: Result<seq<T>, string>)
    ensures r.Success? <==> FitsIndex(i) && -(|s| as int) <= i < |s|
    ensures r.Success? ==> |r.value| == |s|
    ensures FitsIndex(i) && 0 <= i < |s| ==> r.Success? && r.value[i] == v
    ensures FitsIndex(i) && -(|s| as int) <= i < 0 ==> r.Success? && r.value[|s| + i] == v
    ensures r.Success? ==> forall j :: 0 <= j < |s| && j != i && j != |s| + i ==> r.value[j] == s[j]
    ensures !FitsIndex(i) ==> r == Failure(IndexTooWide)
    ensures FitsIndex(i) && r.Failure? ==> r.error == AssignmentOutOfRange
  {
    if !FitsIndex(i) then Failure(IndexTooWide)
    else
      match Resolve(|s|, i)
      case Some(k) => Success(s[k := v])
      case None => Failure(AssignmentOutOfRange)
  }

  /**
    A slice bound adjusted to a list of length `n` (step 1): a negative
    bound counts from the end and stops at 0, a bound past the end stops at `n`.
   */
  function ClampBound(n: nat, b: int): (r: nat)
    ensures r <= n
  {
    if b < 0 then
      if n + b < 0 then 0 else n + b
    else if b > n then n else b
  }

  /** `s[start:stop]`: the run between the adjusted bounds, empty when they cross. */
  function Slice<T>(s: seq<T>, start: int, stop: int): (r: seq<T>)
    ensures |r| == Max(0, ClampBound(|s|, stop) - ClampBound(|s|, start))
    ensures forall k :: 0 <= k < |r| ==> r[k] == s[ClampBound(|s|, start) + k]
  {
    var lo := ClampBound(|s|, start);
    var hi := ClampBound(|s|, stop);
    if lo < hi then s[lo..hi] else []
  }

  /** A slice from 0 is the prefix up to the adjusted stop bound. */
  lemma SliceFromZero<T>(s: seq<T>, stop: int)
    ensures Slice(s, 0, stop) == s[..ClampBound(|s|, stop)]
  {
  }
}
