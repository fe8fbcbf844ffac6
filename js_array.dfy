/**
 * The two JavaScript array primitives the flight-data helpers are built from:
 * `Array.prototype.slice`, with its negative (from-the-end) and clamped
 * indices, and element access `a[i]`, which yields `undefined` instead of
 * failing when `i` is out of range (modelled as `Option`).
 */
module JsArray {

  datatype Option<T> = None | Some(value: T) {
    /** The `??` operator: the value, or `fallback` when there is none. */
    function GetOr(fallback: T): (r: T)
      ensures Some? ==> r == value
      ensures None? ==> r == fallback
    {
      match this
      case Some(v) => v
      case None => fallback
    }
  }

  /**
   * Resolves one index argument of `slice` against an array of length `n`:
   * a negative index counts back from the end and is then clamped to 0,
   * a non-negative one is clamped to `n`.
   */
  function ResolveIndex(k: int, n: nat): (r: nat)
    ensures r <= n
    ensures k < 0 && -k <= n ==> r == n + k
    ensures k < 0 && -k > n ==> r == 0
    ensures 0 <= k <= n ==> r == k
    ensures k > n ==> r == n
  {
    if k < 0 then (if n + k > 0 then n + k else 0)
    else if k < n then k
    else n
  }

  /**
   * `s.slice(start, end)`: the elements from the resolved start up to (not
   * including) the resolved end, and none when the start is not before the end.
   */
  function Slice<T>(s: seq<T>, start: int, end: int): (r: seq<T>)
    ensures var from, to := ResolveIndex(start, |s|), ResolveIndex(end, |s|);
      |r| == if from < to then to - from else 0
  {
    var from, to := ResolveIndex(start, |s|), ResolveIndex(end, |s|);
    if from < to then s[from..to] else []
  }

  /** `s.slice(start)`: the end argument omitted means "up to the length". */
  function SliceFrom<T>(s: seq<T>, start: int): (r: seq<T>)
    ensures |r| == |s| - ResolveIndex(start, |s|)
  {
    Slice(s, start, |s|)
  }

  /** Item `i` of `s.slice(start, end)` is item `i` places after the resolved start of `s`. */
  lemma SliceElements<T>(s: seq<T>, start: int, end: int)
    ensures forall i :: 0 <= i < |Slice(s, start, end)| ==>
      Slice(s, start, end)[i] == s[ResolveIndex(start, |s|) + i]
  {
  }

  /** `s[i]`: the element at `i`, or nothing (`undefined`) when `i` is out of range. */
  function At<T>(s: seq<T>, i: int): (r: Option<T>)
    ensures r.Some? <==> 0 <= i < |s|
    ensures r.Some? ==> r.value == s[i]
  {
    if 0 <= i < |s| then Some(s[i]) else None
  }

  /** `s.slice(-k)` keeps exactly the last `k` elements when there are at least `k`. */
  lemma SliceLast<T>(s: seq<T>, k: int)
    requires 0 < k <= |s|
    ensures SliceFrom(s, -k) == s[|s| - k..]
    ensures |SliceFrom(s, -k)| == k
  {
  }

  /**
   * `s.slice(0, -k)` drops the last `k` elements, and is empty (not an
   * error) when there are fewer than `k` of them.
   */
  lemma SliceDropLast<T>(s: seq<T>, k: int)
    requires 0 < k
    ensures |s| >= k ==> Slice(s, 0, -k) == s[..|s| - k]
    ensures |s| < k ==> Slice(s, 0, -k) == []
  {
  }

  /** `s.slice(k)` for `k >= 0` drops the first `k` elements, or all of them when there are fewer. */
  lemma SliceDropFirst<T>(s: seq<T>, k: nat)
    ensures k <= |s| ==> SliceFrom(s, k) == s[k..]
    ensures k > |s| ==> SliceFrom(s, k) == []
  {
  }
}
