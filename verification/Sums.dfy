/** Sums over sequences and finite sets. */
module Sums {

  function SumBy<T>(xs: seq<T>, f: T -> nat): nat {
    if xs == [] then 0 else SumBy(xs[..|xs| - 1], f) + f(xs[|xs| - 1])
  }

  ghost function SumOver<T>(s: set<T>, f: T -> nat): nat {
    if s == {} then 0
    else
      var x :| x in s;
      f(x) + SumOver(s - {x}, f)
  }

  ghost predicate Distinct<T>(xs: seq<T>) {
    forall i, j :: 0 <= i < j < |xs| ==> xs[i] != xs[j]
  }

  ghost function Elements<T>(xs: seq<T>): set<T> {
    set x | x in xs
  }

  /** Any element of the set can be taken out first. */
  lemma {:induction false} SumOverTakes<T>(s: set<T>, f: T -> nat, x: T)
    requires x in s
    ensures SumOver(s, f) == f(x) + SumOver(s - {x}, f)
  {
    var y :| y in s && SumOver(s, f) == f(y) + SumOver(s - {y}, f);
    if x != y {
      SumOverTakes(s - {y}, f, x);
      SumOverTakes(s - {x}, f, y);
      assert s - {y} - {x} == s - {x} - {y};
    }
  }

  lemma {:induction false} SumOverAgrees<T>(s: set<T>, f: T -> nat, g: T -> nat)
    requires forall x :: x in s ==> f(x) == g(x)
    ensures SumOver(s, f) == SumOver(s, g)
  {
    if s != {} {
      var x :| x in s;
      SumOverTakes(s, f, x);
      SumOverTakes(s, g, x);
      SumOverAgrees(s - {x}, f, g);
    }
  }

  /** Raising the measure of one element raises the sum by as much. */
  lemma {:induction false} SumOverRaised<T>(s: set<T>, f: T -> nat, g: T -> nat, x: T, d: nat)
    requires x in s && g(x) == f(x) + d
    requires forall y :: y in s && y != x ==> f(y) == g(y)
    ensures SumOver(s, g) == SumOver(s, f) + d
  {
    SumOverTakes(s, f, x);
    SumOverTakes(s, g, x);
    SumOverAgrees(s - {x}, f, g);
  }

  lemma {:induction false} SumOfDistinct<T>(xs: seq<T>, f: T -> nat)
    requires Distinct(xs)
    ensures SumBy(xs, f) == SumOver(Elements(xs), f)
  {
    if xs == [] {
    } else {
      var last := xs[|xs| - 1];
      SumOfDistinct(xs[..|xs| - 1], f);
      SumOverTakes(Elements(xs), f, last);
      assert xs == xs[..|xs| - 1] + [last];
      assert Elements(xs) - {last} == Elements(xs[..|xs| - 1]);
    }
  }

  lemma {:induction false} SumOfConcat<T>(xs: seq<T>, ys: seq<T>, f: T -> nat)
    ensures SumBy(xs + ys, f) == SumBy(xs, f) + SumBy(ys, f)
  {
    if ys == [] {
      assert xs + ys == xs;
    } else {
      SumOfConcat(xs, ys[..|ys| - 1], f);
      assert (xs + ys)[..|xs + ys| - 1] == xs + ys[..|ys| - 1];
    }
  }

  lemma {:induction false} SumOfSnoc<T>(xs: seq<T>, x: T, f: T -> nat)
    ensures SumBy(xs + [x], f) == SumBy(xs, f) + f(x)
  {
  }

  lemma {:induction false} SumOfMapped<S, T>(xs: seq<S>, ys: seq<T>, f: S -> nat, g: T -> nat)
    requires |xs| == |ys|
    requires forall i :: 0 <= i < |xs| ==> f(xs[i]) == g(ys[i])
    ensures SumBy(xs, f) == SumBy(ys, g)
  {
    if xs != [] {
      SumOfMapped(xs[..|xs| - 1], ys[..|ys| - 1], f, g);
    }
  }

  lemma TakenOut<T>(xs: seq<T>, i: nat)
    requires i < |xs|
    ensures multiset(xs[..i] + xs[i + 1..]) == multiset(xs) - multiset{xs[i]}
  {
    assert xs == xs[..i] + ([xs[i]] + xs[i + 1..]);
  }

  lemma {:induction false} SumOfMiddle<T>(left: seq<T>, x: T, right: seq<T>, f: T -> nat)
    ensures SumBy(left + [x] + right, f) == SumBy(left + right, f) + f(x)
  {
    SumOfConcat(left, right, f);
    SumOfConcat(left + [x], right, f);
    SumOfSnoc(left, x, f);
  }

  lemma {:induction false} SumTakenOut<T>(xs: seq<T>, i: nat, f: T -> nat)
    requires i < |xs|
    ensures SumBy(xs, f) == SumBy(xs[..i] + xs[i + 1..], f) + f(xs[i])
  {
    var left, right := xs[..i], xs[i + 1..];
    assert xs == left + [xs[i]] + right;
    SumOfMiddle(left, xs[i], right, f);
  }

  /** The order of the summands does not matter. */
  lemma {:induction false} SumOfPermutation<T>(xs: seq<T>, ys: seq<T>, f: T -> nat)
    requires multiset(xs) == multiset(ys)
    ensures SumBy(xs, f) == SumBy(ys, f)
  {
    assert |multiset(xs)| == |xs| && |multiset(ys)| == |ys|;
    if xs != [] {
      var last := xs[|xs| - 1];
      assert last in multiset(xs);
      var i :| 0 <= i < |ys| && ys[i] == last;
      TakenOut(ys, i);
      TakenOut(xs, |xs| - 1);
      assert xs[..|xs| - 1] + [] == xs[..|xs| - 1];
      SumOfPermutation(xs[..|xs| - 1], ys[..i] + ys[i + 1..], f);
      SumTakenOut(ys, i, f);
    }
  }

  lemma DistinctIsSet<T>(xs: seq<T>)
    requires Distinct(xs)
    ensures multiset(xs) == multiset(Elements(xs))
  {
    if xs == [] {
    } else {
      var before, last := xs[..|xs| - 1], xs[|xs| - 1];
      assert xs == before + [last];
      DistinctIsSet(before);
      ElementsOfSnoc(before, last);
      assert last !in before;
      SetWithOneMore(Elements(before), last);
    }
  }

  lemma ElementsOfSnoc<T>(xs: seq<T>, x: T)
    ensures Elements(xs + [x]) == Elements(xs) + {x}
  {
  }

  lemma SetWithOneMore<T>(s: set<T>, x: T)
    requires x !in s
    ensures multiset(s + {x}) == multiset(s) + multiset{x}
  {
  }

  lemma ElementsOfConcat<T>(xs: seq<T>, ys: seq<T>)
    ensures Elements(xs + ys) == Elements(xs) + Elements(ys)
  {
  }

  lemma DistinctConcat<T>(xs: seq<T>, ys: seq<T>)
    requires Distinct(xs) && Distinct(ys) && forall x :: x in xs ==> x !in ys
    ensures Distinct(xs + ys)
  {
    var all := xs + ys;
    forall i, j | 0 <= i < j < |all|
      ensures all[i] != all[j]
    {
      if i < |xs| <= j {
        assert all[i] in xs && all[j] == ys[j - |xs|];
      }
    }
  }

  /** The elements of a set in some order, each once. */
  lemma Enumerate<T>(s: set<T>) returns (xs: seq<T>)
    ensures Distinct(xs) && Elements(xs) == s
    decreases |s|
  {
    if s == {} {
      xs := [];
    } else {
      var x :| x in s;
      var rest := Enumerate(s - {x});
      assert x in rest ==> x in Elements(rest);
      DistinctConcat(rest, [x]);
      ElementsOfSnoc(rest, x);
      xs := rest + [x];
    }
  }
}
