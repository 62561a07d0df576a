/**
 * `Array.prototype.filter`: visits the elements from first to last and
 * appends each one the callback accepts to the result.
 */
module JsArray {

  function Filter<T>(xs: seq<T>, keep: T -> bool): (r: seq<T>)
    ensures |r| <= |xs|
    ensures forall k :: 0 <= k < |r| ==> r[k] in xs && keep(r[k])
    ensures forall i :: 0 <= i < |xs| && keep(xs[i]) ==> xs[i] in r
    decreases |xs|
  {
    if |xs| == 0 then []
    else
      var init, last := xs[..|xs| - 1], xs[|xs| - 1];
      assert xs == init + [last];
      var r := Filter(init, keep);
      if keep(last) then r + [last] else r
  }

  /** The positions of `xs` the callback accepts, in increasing order. */
  ghost function KeptIndices<T>(xs: seq<T>, keep: T -> bool): (idx: seq<nat>)
    ensures |idx| <= |xs|
    ensures forall k :: 0 <= k < |idx| ==> idx[k] < |xs| && keep(xs[idx[k]])
    ensures forall k, l :: 0 <= k < l < |idx| ==> idx[k] < idx[l]
    ensures forall i :: 0 <= i < |xs| && keep(xs[i]) ==> i in idx
    decreases |xs|
  {
    if |xs| == 0 then []
    else
      var n := |xs| - 1;
      var idx := KeptIndices(xs[..n], keep);
      if keep(xs[n]) then idx + [n] else idx
  }

  /** `r` lists the elements of `xs` at the strictly increasing positions `idx`. */
  ghost predicate SelectsAt<T>(r: seq<T>, xs: seq<T>, idx: seq<nat>) {
    && |idx| == |r|
    && (forall k :: 0 <= k < |idx| ==> idx[k] < |xs| && r[k] == xs[idx[k]])
    && (forall k, l :: 0 <= k < l < |idx| ==> idx[k] < idx[l])
  }

  /** `r` is `xs` with some elements removed and the rest kept in their original order. */
  ghost predicate IsOrderedSubsequence<T>(r: seq<T>, xs: seq<T>) {
    exists idx :: SelectsAt(r, xs, idx)
  }

  /**
   * The filter result is exactly the accepted elements, in their original
   * order: its k-th element is the element at the k-th accepted position.
   */
  lemma {:induction false} FilterSelectsKeptIndices<T>(xs: seq<T>, keep: T -> bool)
    ensures SelectsAt(Filter(xs, keep), xs, KeptIndices(xs, keep))
    decreases |xs|
  {
    if |xs| > 0 {
      var n := |xs| - 1;
      FilterSelectsKeptIndices(xs[..n], keep);
      var r0, idx0 := Filter(xs[..n], keep), KeptIndices(xs[..n], keep);
      forall k | 0 <= k < |idx0| ensures idx0[k] < n && r0[k] == xs[idx0[k]] {
        assert r0[k] == xs[..n][idx0[k]];
      }
      if keep(xs[n]) {
        assert Filter(xs, keep) == r0 + [xs[n]];
        assert KeptIndices(xs, keep) == idx0 + [n];
      } else {
        assert Filter(xs, keep) == r0;
        assert KeptIndices(xs, keep) == idx0;
      }
    }
  }

  /** Corollary: the filter result is an ordered subsequence of its input. */
  lemma FilterIsOrderedSubsequence<T>(xs: seq<T>, keep: T -> bool)
    ensures IsOrderedSubsequence(Filter(xs, keep), xs)
  {
    FilterSelectsKeptIndices(xs, keep);
  }

  /** Two callbacks that agree on every element give the same result. */
  lemma {:induction false} FilterCongruent<T>(xs: seq<T>, p: T -> bool, q: T -> bool)
    requires forall x :: x in xs ==> p(x) == q(x)
    ensures Filter(xs, p) == Filter(xs, q)
    decreases |xs|
  {
    if |xs| > 0 {
      var n := |xs| - 1;
      assert forall x :: x in xs[..n] ==> x in xs;
      FilterCongruent(xs[..n], p, q);
      assert xs[n] in xs;
    }
  }

  /** A callback that accepts every element leaves the array unchanged. */
  lemma {:induction false} FilterKeepsAll<T>(xs: seq<T>, keep: T -> bool)
    requires forall x :: x in xs ==> keep(x)
    ensures Filter(xs, keep) == xs
    decreases |xs|
  {
    if |xs| > 0 {
      var n := |xs| - 1;
      assert forall x :: x in xs[..n] ==> x in xs;
      FilterKeepsAll(xs[..n], keep);
      assert xs[n] in xs;
      assert xs == xs[..n] + [xs[n]];
    }
  }

  /** A callback that rejects every element gives the empty array. */
  lemma {:induction false} FilterKeepsNone<T>(xs: seq<T>, keep: T -> bool)
    requires forall x :: x in xs ==> !keep(x)
    ensures Filter(xs, keep) == []
    decreases |xs|
  {
    if |xs| > 0 {
      var n := |xs| - 1;
      assert forall x :: x in xs[..n] ==> x in xs;
      FilterKeepsNone(xs[..n], keep);
      assert xs[n] in xs;
    }
  }

  /** Filtering twice with the same callback is filtering once. */
  lemma FilterIdempotent<T>(xs: seq<T>, keep: T -> bool)
    ensures Filter(Filter(xs, keep), keep) == Filter(xs, keep)
  {
    FilterKeepsAll(Filter(xs, keep), keep);
  }
}
