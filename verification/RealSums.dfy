/** Sums of real measures over sequences. */
module RealSums {
  import opened Sums

  function RealSum<T>(xs: seq<T>, f: T -> real): real {
    if xs == [] then 0.0 else RealSum(xs[..|xs| - 1], f) + f(xs[|xs| - 1])
  }

  lemma {:induction false} RealSumOfSnoc<T>(xs: seq<T>, x: T, f: T -> real)
    ensures RealSum(xs + [x], f) == RealSum(xs, f) + f(x)
  {
    assert (xs + [x])[..|xs + [x]| - 1] == xs;
  }

  lemma {:induction false} RealSumOfConcat<T>(xs: seq<T>, ys: seq<T>, f: T -> real)
    ensures RealSum(xs + ys, f) == RealSum(xs, f) + RealSum(ys, f)
  {
    if ys == [] {
      assert xs + ys == xs;
    } else {
      RealSumOfConcat(xs, ys[..|ys| - 1], f);
      assert (xs + ys)[..|xs + ys| - 1] == xs + ys[..|ys| - 1];
    }
  }

  lemma {:induction false} RealSumOfMapped<S, T>(xs: seq<S>, ys: seq<T>, f: S -> real, g: T -> real)
    requires |xs| == |ys|
    requires forall i :: 0 <= i < |xs| ==> f(xs[i]) == g(ys[i])
    ensures RealSum(xs, f) == RealSum(ys, g)
  {
    if xs != [] {
      RealSumOfMapped(xs[..|xs| - 1], ys[..|ys| - 1], f, g);
    }
  }

  lemma {:induction false} RealSumTakenOut<T>(xs: seq<T>, i: nat, f: T -> real)
    requires i < |xs|
    ensures RealSum(xs, f) == RealSum(xs[..i] + xs[i + 1..], f) + f(xs[i])
  {
    var left, right := xs[..i], xs[i + 1..];
    assert xs == left + [xs[i]] + right;
    RealSumOfConcat(left, right, f);
    RealSumOfConcat(left + [xs[i]], right, f);
    RealSumOfSnoc(left, xs[i], f);
  }

  /** The order of the summands does not matter. */
  lemma {:induction false} RealSumOfPermutation<T>(xs: seq<T>, ys: seq<T>, f: T -> real)
    requires multiset(xs) == multiset(ys)
    ensures RealSum(xs, f) == RealSum(ys, f)
  {
    assert |multiset(xs)| == |xs| && |multiset(ys)| == |ys|;
    if xs != [] {
      var last := xs[|xs| - 1];
      assert last in multiset(xs);
      var i :| 0 <= i < |ys| && ys[i] == last;
      TakenOut(ys, i);
      TakenOut(xs, |xs| - 1);
      assert xs[..|xs| - 1] + [] == xs[..|xs| - 1];
      RealSumOfPermutation(xs[..|xs| - 1], ys[..i] + ys[i + 1..], f);
      RealSumTakenOut(ys, i, f);
    }
  }

  /** Raising the measure of one of several distinct elements raises the sum by as much. */
  lemma {:induction false} RealSumRaised<T>(xs: seq<T>, f: T -> real, g: T -> real, x: T, d: real)
    requires Distinct(xs) && x in xs && g(x) == f(x) + d
    requires forall y :: y in xs && y != x ==> f(y) == g(y)
    ensures RealSum(xs, g) == RealSum(xs, f) + d
  {
    var before, last := xs[..|xs| - 1], xs[|xs| - 1];
    assert xs == before + [last];
    if last == x {
      assert forall i :: 0 <= i < |before| ==> before[i] == xs[i] && before[i] != x;
      RealSumOfMapped(before, before, f, g);
    } else {
      RealSumRaised(before, f, g, x, d);
    }
  }
}
