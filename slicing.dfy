// Python's extended slice `xs[i::w]` and the split of an upload list into
// `[xs[i::w] for i in range(w)]`, used by every uploader to hand one slice to
// each worker process.

module Slicing {

  /** xs[i::w] for a positive step w. */
  function Stride<T>(xs: seq<T>, i: nat, w: nat): seq<T>
    requires w > 0
    decreases |xs| - i
  {
    if i >= |xs| then [] else [xs[i]] + Stride(xs, i + w, w)
  }

  /** [xs[i::w] for i in range(w)]; no slices at all when w is 0. */
  function Slices<T>(xs: seq<T>, w: nat): (r: seq<seq<T>>)
    ensures |r| == w
  {
    seq(w, i requires 0 <= i < w => Stride(xs, i, w))
  }

  /** The n-th element of xs[i::w] is xs[i + n*w], and it exists exactly when
      that index is inside xs. */
  lemma {:induction false} StrideAt<T>(xs: seq<T>, i: nat, w: nat, n: nat)
    requires w > 0
    ensures n < |Stride(xs, i, w)| <==> i + n * w < |xs|
    ensures i + n * w < |xs| ==> Stride(xs, i, w)[n] == xs[i + n * w]
    decreases |xs| - i
  {
    if i < |xs| && n > 0 {
      StrideAt(xs, i + w, w, n - 1);
      MulSubDistrib(n, 1, w);
    }
  }

  /** Every element of xs[i::w] sits at an index of xs congruent to i mod w. */
  lemma {:induction false} StrideIndices<T>(xs: seq<T>, i: nat, w: nat, n: nat)
    requires w > 0 && n < |Stride(xs, i, w)|
    ensures i + n * w < |xs| && Stride(xs, i, w)[n] == xs[i + n * w]
  {
    StrideAt(xs, i, w, n);
  }

  /** Each position j of the list lands in slice j % w, at place j / w. */
  lemma SlicePosition<T>(xs: seq<T>, w: nat, j: nat)
    requires w > 0 && j < |xs|
    ensures j / w < |Slices(xs, w)[j % w]| && Slices(xs, w)[j % w][j / w] == xs[j]
  {
    var k, n := j % w, j / w;
    DivMod(j, w);
    assert Slices(xs, w)[k] == Stride(xs, k, w);
    StrideAt(xs, k, w, n);
  }

  /** Euclidean division by a positive w: the remainder lies in [0, w) and
      quotient and remainder rebuild j. */
  lemma DivMod(j: nat, w: nat)
    requires w > 0
    ensures 0 <= j % w < w && j / w >= 0 && j % w + (j / w) * w == j
  {
  }

  /** With distinct files, a file is in slice k exactly when its index is
      congruent to k: every file goes to exactly one worker. */
  lemma ExactlyOneSlice<T>(xs: seq<T>, w: nat, j: nat, k: nat)
    requires w > 0 && j < |xs| && k < w
    requires forall a, b :: 0 <= a < b < |xs| ==> xs[a] != xs[b]
    ensures xs[j] in Slices(xs, w)[k] <==> k == j % w
  {
    SlicePosition(xs, w, j);
    if xs[j] in Slices(xs, w)[k] {
      var n :| 0 <= n < |Stride(xs, k, w)| && Stride(xs, k, w)[n] == xs[j];
      StrideIndices(xs, k, w, n);
      assert k + n * w == j;
      assert (k + n * w) % w == k by { ModOfMultiple(k, n, w); }
    }
  }

  lemma ModOfMultiple(k: nat, n: nat, w: nat)
    requires k < w
    ensures (k + n * w) % w == k
  {
    var a := k + n * w;
    var q, r := a / w, a % w;
    assert a == q * w + r && 0 <= r < w;
    assert (n - q) * w == r - k by {
      assert n * w - q * w == r - k;
      MulSubDistrib(n, q, w);
    }
    SmallMultipleIsZero(n - q, w, r - k);
  }

  lemma MulSubDistrib(n: int, q: int, w: int)
    ensures (n - q) * w == n * w - q * w
  {
  }

  lemma SmallMultipleIsZero(m: int, w: int, d: int)
    requires w > 0 && m * w == d && -w < d < w
    ensures m == 0 && d == 0
  {
    if m >= 1 {
      assert m * w >= w by { MulMono(m, w); }
    } else if m <= -1 {
      assert (-m) * w == -(m * w);
      MulMono(-m, w);
    }
  }

  lemma MulMono(m: int, w: int)
    requires m >= 1 && w >= 0
    ensures m * w >= w
  {
    assert m * w == (m - 1) * w + w;
    assert (m - 1) * w >= 0;
  }

  /** No element is lost or invented: the slices hold exactly the elements of xs. */
  lemma SlicesCover<T>(xs: seq<T>, w: nat, x: T)
    requires w > 0
    ensures x in xs <==> exists k :: 0 <= k < w && x in Slices(xs, w)[k]
  {
    if x in xs {
      var j :| 0 <= j < |xs| && xs[j] == x;
      var k := j % w;
      SlicePosition(xs, w, j);
      DivMod(j, w);
      assert 0 <= k < w && x in Slices(xs, w)[k];
    }
    forall k | 0 <= k < w && x in Slices(xs, w)[k] ensures x in xs {
      var st := Slices(xs, w)[k];
      assert st == Stride(xs, k, w);
      var n :| 0 <= n < |st| && st[n] == x;
      StrideIndices(xs, k, w, n);
    }
  }
}
