/** Sums of numbers, for the measures of progress. */
module Sums {
  function Sum(xs: seq<int>): int {
    if xs == [] then 0 else Sum(xs[..|xs| - 1]) + xs[|xs| - 1]
  }

  lemma {:induction false} SumUpdate(xs: seq<int>, i: nat, x: int)
    requires i < |xs|
    ensures Sum(xs[i := x]) == Sum(xs) - xs[i] + x
    decreases |xs|
  {
    var k := |xs| - 1;
    if i == k {
      assert xs[i := x][..k] == xs[..k];
    } else {
      SumUpdate(xs[..k], i, x);
      assert xs[i := x][..k] == xs[..k][i := x];
    }
  }

  /** Raising each number by at most d raises the sum by at most d for each of them. */
  lemma {:induction false} SumClose(xs: seq<int>, ys: seq<int>, d: int)
    requires |xs| == |ys| && forall i :: 0 <= i < |xs| ==> xs[i] <= ys[i] + d
    ensures Sum(xs) <= Sum(ys) + d * |xs|
    decreases |xs|
  {
    if xs == [] {
    } else {
      SumClose(xs[..|xs| - 1], ys[..|ys| - 1], d);
      assert d * |xs| == d * (|xs| - 1) + d;
    }
  }

  lemma {:induction false} SumConstant(xs: seq<int>, d: int)
    requires forall i :: 0 <= i < |xs| ==> xs[i] == d
    ensures Sum(xs) == d * |xs|
    decreases |xs|
  {
    if xs == [] {
    } else {
      SumConstant(xs[..|xs| - 1], d);
      assert d * |xs| == d * (|xs| - 1) + d;
    }
  }
}
