/**
 * Python's `s[i:j]` on a list, with step 1: a negative bound counts from the
 * end, bounds are clipped to the list, and an inverted range is empty.
 */
module PySlice {

  /** Python's normalisation of one slice bound against a list of length `n`. */
  function Bound(i: int, n: nat): (r: nat)
    ensures r <= n
    ensures 0 <= i <= n ==> r == i
  {
    if i < 0 then (if i + n < 0 then 0 else i + n)
    else if i > n then n
    else i
  }

  /** `s[i:j]`. */
  function Slice<T>(s: seq<T>, i: int, j: int): (r: seq<T>)
    ensures |r| == if Bound(i, |s|) < Bound(j, |s|) then Bound(j, |s|) - Bound(i, |s|) else 0
  {
    var lo, hi := Bound(i, |s|), Bound(j, |s|);
    if lo < hi then s[lo..hi] else []
  }

  /** Element `k` of a slice is element `Bound(i) + k` of the list. */
  lemma SliceAt<T>(s: seq<T>, i: int, j: int, k: nat)
    requires k < |Slice(s, i, j)|
    ensures Bound(i, |s|) + k < |s| && Slice(s, i, j)[k] == s[Bound(i, |s|) + k]
  {
  }

  /** Within range, a Python slice is Dafny's own subsequence. */
  lemma SliceInRange<T>(s: seq<T>, i: int, j: int)
    requires 0 <= i <= j <= |s|
    ensures Slice(s, i, j) == s[i..j]
  {
  }

  /** Bounds that meet or cross after clipping give the empty list. */
  lemma SliceInverted<T>(s: seq<T>, i: int, j: int)
    requires Bound(j, |s|) <= Bound(i, |s|)
    ensures Slice(s, i, j) == []
  {
  }

  /** Two adjacent slices with non-negative bounds make up the slice that spans both. */
  lemma SliceJoin<T>(s: seq<T>, i: int, j: int, k: int)
    requires 0 <= i <= j <= k
    ensures Slice(s, i, j) + Slice(s, j, k) == Slice(s, i, k)
  {
    var lo, mid, hi := Bound(i, |s|), Bound(j, |s|), Bound(k, |s|);
    assert lo <= mid <= hi;
    if lo < mid && mid < hi {
      assert s[lo..mid] + s[mid..hi] == s[lo..hi];
    }
  }

  /**
   * Slicing with non-negative bounds never reaches past index `n - 1` when
   * the upper bound is at most `n - 1`: it is the same slice of `s[..n-1]`.
   */
  lemma SliceOfPrefix<T>(s: seq<T>, i: int, j: int, m: nat)
    requires 0 <= i && 0 <= j <= m <= |s|
    ensures Slice(s, i, j) == Slice(s[..m], i, j)
  {
    var p := s[..m];
    if Bound(i, |s|) < Bound(j, |s|) {
      assert Bound(i, |p|) == Bound(i, |s|) && Bound(j, |p|) == Bound(j, |s|);
    } else {
      assert Bound(j, |p|) <= Bound(i, |p|);
    }
  }
}
