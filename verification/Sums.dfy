/** Sums of a weight over a sequence. */
module Sums {
  function Sum<T>(xs: seq<T>, w: T -> int): int {
    if xs == [] then 0 else Sum(xs[..|xs| - 1], w) + w(xs[|xs| - 1])
  }

  lemma {:induction false} SumUpdate<T>(xs: seq<T>, i: nat, x: T, w: T -> int)
    requires i < |xs|
    ensures Sum(xs[i := x], w) == Sum(xs, w) - w(xs[i]) + w(x)
  {
    var n := |xs| - 1;
    if i == n {
      assert xs[i := x][..n] == xs[..n];
    } else {
      assert xs[i := x][..n] == xs[..n][i := x];
      SumUpdate(xs[..n], i, x, w);
    }
  }

  lemma SumPush<T>(xs: seq<T>, x: T, w: T -> int)
    ensures Sum(xs + [x], w) == Sum(xs, w) + w(x)
  {
    assert (xs + [x])[..|xs|] == xs;
  }

  /** Pointwise equal weights have equal sums. */
  lemma {:induction false} SumSame<T>(xs: seq<T>, ys: seq<T>, v: T -> int, w: T -> int)
    requires |xs| == |ys| && forall i :: 0 <= i < |xs| ==> v(xs[i]) == w(ys[i])
    ensures Sum(xs, v) == Sum(ys, w)
  {
    if xs != [] {
      var n := |xs| - 1;
      SumSame(xs[..n], ys[..n], v, w);
    }
  }

  /** A sum of non-negative weights is at least the weight of any one element, and of any two. */
  lemma {:induction false} SumAtLeast<T>(xs: seq<T>, i: nat, w: T -> int)
    requires i < |xs| && forall k :: 0 <= k < |xs| ==> w(xs[k]) >= 0
    ensures Sum(xs, w) >= w(xs[i])
    decreases |xs|
  {
    var n := |xs| - 1;
    if i < n {
      SumAtLeast(xs[..n], i, w);
    } else if n > 0 {
      SumAtLeast(xs[..n], 0, w);
      assert w(xs[..n][0]) >= 0;
    }
  }

  lemma {:induction false} SumAtLeastTwo<T>(xs: seq<T>, i: nat, j: nat, w: T -> int)
    requires i < j < |xs| && forall k :: 0 <= k < |xs| ==> w(xs[k]) >= 0
    ensures Sum(xs, w) >= w(xs[i]) + w(xs[j])
    decreases |xs|
  {
    var n := |xs| - 1;
    if j < n {
      SumAtLeastTwo(xs[..n], i, j, w);
    } else {
      SumAtLeast(xs[..n], i, w);
    }
  }

  /** A positive sum of weights has an element of positive weight. */
  lemma {:induction false} SumWitness<T>(xs: seq<T>, w: T -> int) returns (i: nat)
    requires Sum(xs, w) > 0
    ensures i < |xs| && w(xs[i]) > 0
  {
    var n := |xs| - 1;
    if w(xs[n]) > 0 {
      i := n;
    } else {
      i := SumWitness(xs[..n], w);
    }
  }
}
