/** Collecting what the elements of a sequence contribute, which does not depend on their order. */
module Collecting {
  import opened Words
  import opened Sums

  /** The contributions of all elements, one after another. */
  function Collect<S, T>(xs: seq<S>, f: S -> seq<T>): seq<T> {
    if xs == [] then [] else Collect(xs[..|xs| - 1], f) + f(xs[|xs| - 1])
  }

  lemma {:induction false} CollectSnoc<S, T>(xs: seq<S>, x: S, f: S -> seq<T>)
    ensures Collect(xs + [x], f) == Collect(xs, f) + f(x)
  {
    assert (xs + [x])[..|xs + [x]| - 1] == xs;
  }

  lemma ConcatSnoc<S>(xs: seq<S>, ys: seq<S>, y: S)
    ensures xs + (ys + [y]) == (xs + ys) + [y]
  {
  }

  lemma Associative<S>(xs: seq<S>, ys: seq<S>, zs: seq<S>)
    ensures xs + (ys + zs) == (xs + ys) + zs
  {
  }

  lemma {:induction false} CollectConcat<S, T>(xs: seq<S>, ys: seq<S>, f: S -> seq<T>)
    ensures Collect(xs + ys, f) == Collect(xs, f) + Collect(ys, f)
  {
    if ys == [] {
      assert xs + ys == xs;
    } else {
      var before, last := ys[..|ys| - 1], ys[|ys| - 1];
      assert ys == before + [last];
      CollectConcat(xs, before, f);
      ConcatSnoc(xs, before, last);
      CollectSnoc(xs + before, last, f);
      CollectSnoc(before, last, f);
      Associative(Collect(xs, f), Collect(before, f), f(last));
    }
  }

  lemma {:induction false} CollectTakenOut<S, T>(xs: seq<S>, i: nat, f: S -> seq<T>)
    requires i < |xs|
    ensures multiset(Collect(xs, f)) == multiset(Collect(xs[..i] + xs[i + 1..], f)) + multiset(f(xs[i]))
  {
    var left, right := xs[..i], xs[i + 1..];
    assert xs == left + [xs[i]] + right;
    CollectConcat(left + [xs[i]], right, f);
    CollectSnoc(left, xs[i], f);
    CollectConcat(left, right, f);
  }

  lemma RestsAgree<S>(xs: seq<S>, ys: seq<S>, i: nat)
    requires multiset(xs) == multiset(ys) && xs != [] && i < |ys| && ys[i] == xs[0]
    ensures multiset(xs[1..]) == multiset(ys[..i] + ys[i + 1..])
  {
    TakenOut(ys, i);
    assert xs == [xs[0]] + xs[1..];
  }

  /** Permuting the elements permutes what is collected. */
  lemma {:induction false} CollectPermutes<S, T>(xs: seq<S>, ys: seq<S>, f: S -> seq<T>)
    requires multiset(xs) == multiset(ys)
    ensures multiset(Collect(xs, f)) == multiset(Collect(ys, f))
  {
    if xs == [] {
      EmptyIsEmpty(xs, ys);
    } else {
      var before, last := xs[..|xs| - 1], xs[|xs| - 1];
      assert xs == before + [last];
      CollectSnoc(before, last, f);
      var i := PositionIn(xs, ys, last);
      TakenOut(ys, i);
      CollectPermutes(before, ys[..i] + ys[i + 1..], f);
      CollectTakenOut(ys, i, f);
    }
  }

  lemma EmptyIsEmpty<S>(xs: seq<S>, ys: seq<S>)
    requires multiset(xs) == multiset(ys) && xs == []
    ensures ys == []
  {
    assert |multiset(ys)| == |ys|;
  }

  lemma PositionIn<S>(xs: seq<S>, ys: seq<S>, x: S) returns (i: nat)
    requires multiset(xs) == multiset(ys) && x in xs
    ensures i < |ys| && ys[i] == x
  {
    assert x in multiset(ys);
    i :| i < |ys| && ys[i] == x;
  }

  /** What is collected comes from some element. */
  lemma {:induction false} CollectedFrom<S, T>(xs: seq<S>, f: S -> seq<T>, y: T)
    ensures y in Collect(xs, f) <==> exists x :: x in xs && y in f(x)
  {
    if xs != [] {
      var before, last := xs[..|xs| - 1], xs[|xs| - 1];
      CollectedFrom(before, f, y);
      assert xs == before + [last];
    }
  }

  // ----- The first contribution -----

  /** What the first element contributes that contributes anything. */
  function FirstOf<S, T>(xs: seq<S>, f: S -> Option<T>): Option<T> {
    if xs == [] then None else NextOf(FirstOf(xs[..|xs| - 1], f), f(xs[|xs| - 1]))
  }

  function NextOf<T>(first: Option<T>, next: Option<T>): Option<T> {
    if first.Some? then first else next
  }

  lemma {:induction false} FirstOfSnoc<S, T>(xs: seq<S>, x: S, f: S -> Option<T>)
    ensures FirstOf(xs + [x], f) == NextOf(FirstOf(xs, f), f(x))
  {
    assert (xs + [x])[..|xs + [x]| - 1] == xs;
  }

  lemma {:induction false} FirstOfConcat<S, T>(xs: seq<S>, ys: seq<S>, f: S -> Option<T>)
    ensures FirstOf(xs + ys, f) == NextOf(FirstOf(xs, f), FirstOf(ys, f))
  {
    if ys == [] {
      assert xs + ys == xs;
    } else {
      var before, last := ys[..|ys| - 1], ys[|ys| - 1];
      assert ys == before + [last];
      FirstOfConcat(xs, before, f);
      ConcatSnoc(xs, before, last);
      FirstOfSnoc(xs + before, last, f);
      FirstOfSnoc(before, last, f);
    }
  }

  lemma FirstComesFrom<S, T>(xs: seq<S>, f: S -> Option<T>) returns (x: S)
    requires FirstOf(xs, f).Some?
    ensures x in xs && f(x) == FirstOf(xs, f)
  {
    var before, last := xs[..|xs| - 1], xs[|xs| - 1];
    assert xs == before + [last];
    if FirstOf(before, f).Some? {
      x := FirstComesFrom(before, f);
    } else {
      x := last;
    }
  }

  lemma {:induction false} FirstExists<S, T>(xs: seq<S>, f: S -> Option<T>, x: S)
    requires x in xs && f(x).Some?
    ensures FirstOf(xs, f).Some?
  {
    var before, last := xs[..|xs| - 1], xs[|xs| - 1];
    assert xs == before + [last];
    if x in before {
      FirstExists(before, f, x);
    }
  }

  lemma {:induction false} NothingFirst<S, T>(xs: seq<S>, f: S -> Option<T>)
    requires forall x :: x in xs ==> f(x).None?
    ensures FirstOf(xs, f).None?
  {
    if xs != [] {
      var before, last := xs[..|xs| - 1], xs[|xs| - 1];
      assert xs == before + [last];
      NothingFirst(before, f);
    }
  }
}
