/** Sums of a measure over a table, and how editing the table moves them. */
module Sums {
  function Sum<T>(xs: seq<T>, f: T -> int): int {
    if xs == [] then 0 else Sum(xs[..|xs| - 1], f) + f(xs[|xs| - 1])
  }

  lemma SumSnoc<T>(xs: seq<T>, x: T, f: T -> int)
    ensures Sum(xs + [x], f) == Sum(xs, f) + f(x)
  {
    assert (xs + [x])[..|xs|] == xs;
  }

  lemma {:induction false} SumAppend<T>(xs: seq<T>, ys: seq<T>, f: T -> int)
    ensures Sum(xs + ys, f) == Sum(xs, f) + Sum(ys, f)
  {
    if ys == [] {
      assert xs + ys == xs;
    } else {
      SumAppend(xs, ys[..|ys| - 1], f);
      SumSnoc(xs + ys[..|ys| - 1], ys[|ys| - 1], f);
      assert xs + ys == (xs + ys[..|ys| - 1]) + [ys[|ys| - 1]];
    }
  }

  lemma {:induction false} SumUpdate<T>(xs: seq<T>, i: nat, x: T, f: T -> int)
    requires i < |xs|
    ensures Sum(xs[i := x], f) == Sum(xs, f) - f(xs[i]) + f(x)
  {
    var n := |xs|;
    if i == n - 1 {
      assert xs[i := x][..n - 1] == xs[..n - 1];
    } else {
      SumUpdate(xs[..n - 1], i, x, f);
      assert xs[i := x][..n - 1] == xs[..n - 1][i := x];
    }
  }

  lemma {:induction false} SumAgrees<T>(xs: seq<T>, f: T -> int, g: T -> int)
    requires forall i :: 0 <= i < |xs| ==> f(xs[i]) == g(xs[i])
    ensures Sum(xs, f) == Sum(xs, g)
  {
    if xs != [] {
      SumAgrees(xs[..|xs| - 1], f, g);
    }
  }

  /** Two measures that differ on one row only. */
  lemma {:induction false} SumDiffersAt<T>(xs: seq<T>, i: nat, f: T -> int, g: T -> int)
    requires i < |xs| && forall j :: 0 <= j < |xs| && j != i ==> f(xs[j]) == g(xs[j])
    ensures Sum(xs, g) == Sum(xs, f) - f(xs[i]) + g(xs[i])
  {
    if i == |xs| - 1 {
      SumAgrees(xs[..i], f, g);
    } else {
      SumDiffersAt(xs[..|xs| - 1], i, f, g);
    }
  }

  lemma {:induction false} SumIsNatural<T>(xs: seq<T>, f: T -> int)
    requires forall i :: 0 <= i < |xs| ==> f(xs[i]) >= 0
    ensures Sum(xs, f) >= 0
    ensures Sum(xs, f) == 0 ==> forall i :: 0 <= i < |xs| ==> f(xs[i]) == 0
  {
    if xs != [] {
      SumIsNatural(xs[..|xs| - 1], f);
    }
  }

  lemma {:induction false} SumOfEqual<T>(xs: seq<T>, f: T -> int, v: int)
    requires forall i :: 0 <= i < |xs| ==> f(xs[i]) == v
    ensures Sum(xs, f) == |xs| * v
  {
    if xs != [] {
      SumOfEqual(xs[..|xs| - 1], f, v);
    }
  }
}
