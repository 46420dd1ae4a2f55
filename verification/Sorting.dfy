/** Stable sorting by a comparison, as the standard library's `sort_by` does. */
module Sorting {

  ghost predicate TotalPreorder<T(!new)>(leq: (T, T) -> bool) {
    && (forall x, y :: leq(x, y) || leq(y, x))
    && (forall x, y, z :: leq(x, y) && leq(y, z) ==> leq(x, z))
  }

  ghost predicate SortedBy<T>(leq: (T, T) -> bool, xs: seq<T>) {
    forall i, j :: 0 <= i < j < |xs| ==> leq(xs[i], xs[j])
  }

  /** Puts `x` before the first element that is not smaller. */
  function Insert<T>(leq: (T, T) -> bool, x: T, xs: seq<T>): seq<T> {
    if xs == [] || leq(x, xs[0]) then [x] + xs else [xs[0]] + Insert(leq, x, xs[1..])
  }

  /** Elements that compare equal keep their order. */
  function StableSort<T>(leq: (T, T) -> bool, xs: seq<T>): seq<T> {
    if xs == [] then [] else Insert(leq, xs[0], StableSort(leq, xs[1..]))
  }

  lemma {:induction false} InsertPermutes<T>(leq: (T, T) -> bool, x: T, xs: seq<T>)
    ensures multiset(Insert(leq, x, xs)) == multiset{x} + multiset(xs)
  {
    if xs != [] && !leq(x, xs[0]) {
      InsertPermutes(leq, x, xs[1..]);
      assert xs == [xs[0]] + xs[1..];
    }
  }

  lemma {:induction false} SortPermutes<T>(leq: (T, T) -> bool, xs: seq<T>)
    ensures multiset(StableSort(leq, xs)) == multiset(xs)
    ensures |StableSort(leq, xs)| == |xs|
  {
    if xs != [] {
      SortPermutes(leq, xs[1..]);
      InsertPermutes(leq, xs[0], StableSort(leq, xs[1..]));
      assert xs == [xs[0]] + xs[1..];
      assert |multiset(StableSort(leq, xs))| == |StableSort(leq, xs)|;
      assert |multiset(xs)| == |xs|;
    }
  }

  lemma {:induction false} MemberOfInsert<T>(leq: (T, T) -> bool, x: T, xs: seq<T>, y: T)
    requires y in Insert(leq, x, xs)
    ensures y == x || y in xs
  {
    InsertPermutes(leq, x, xs);
    assert y in multiset(Insert(leq, x, xs));
  }

  lemma {:induction false} InsertSorted<T(!new)>(leq: (T, T) -> bool, x: T, xs: seq<T>)
    requires TotalPreorder(leq) && SortedBy(leq, xs)
    ensures SortedBy(leq, Insert(leq, x, xs))
  {
    if xs == [] {
    } else if leq(x, xs[0]) {
      var all := [x] + xs;
      forall i, j | 0 <= i < j < |all|
        ensures leq(all[i], all[j])
      {
        assert all[j] == xs[j - 1];
        assert j > 1 ==> leq(xs[0], xs[j - 1]);
      }
    } else {
      var rest := Insert(leq, x, xs[1..]);
      InsertSorted(leq, x, xs[1..]);
      var all := [xs[0]] + rest;
      forall i, j | 0 <= i < j < |all|
        ensures leq(all[i], all[j])
      {
        assert all[j] == rest[j - 1] && rest[j - 1] in rest;
        if i == 0 {
          MemberOfInsert(leq, x, xs[1..], rest[j - 1]);
          assert leq(xs[0], x);
        } else {
          assert all[i] == rest[i - 1];
        }
      }
    }
  }

  lemma {:induction false} SortIsSorted<T(!new)>(leq: (T, T) -> bool, xs: seq<T>)
    requires TotalPreorder(leq)
    ensures SortedBy(leq, StableSort(leq, xs))
  {
    if xs != [] {
      SortIsSorted(leq, xs[1..]);
      InsertSorted(leq, xs[0], StableSort(leq, xs[1..]));
    }
  }

  /** Sorting leaves a sorted sequence alone. */
  lemma {:induction false} SortedStays<T>(leq: (T, T) -> bool, xs: seq<T>)
    requires SortedBy(leq, xs)
    ensures StableSort(leq, xs) == xs
  {
    if xs != [] {
      assert SortedBy(leq, xs[1..]);
      SortedStays(leq, xs[1..]);
      assert |xs| > 1 ==> leq(xs[0], xs[1]);
      assert xs == [xs[0]] + xs[1..];
    }
  }

  /** Whether the comparison tells any two different elements apart. */
  ghost predicate Separates<T>(leq: (T, T) -> bool, xs: seq<T>) {
    forall x, y :: x in xs && y in xs && leq(x, y) && leq(y, x) ==> x == y
  }

  lemma SameElements<T>(xs: seq<T>, ys: seq<T>, x: T)
    requires multiset(xs) == multiset(ys)
    ensures x in xs <==> x in ys
  {
    assert x in multiset(xs) <==> x in multiset(ys);
  }

  lemma HeadIsLeast<T(!new)>(leq: (T, T) -> bool, xs: seq<T>, y: T)
    requires TotalPreorder(leq) && SortedBy(leq, xs) && y in xs
    ensures leq(xs[0], y)
  {
  }

  lemma TailsAgree<T>(xs: seq<T>, ys: seq<T>)
    requires multiset(xs) == multiset(ys) && xs != [] && ys != [] && xs[0] == ys[0]
    ensures multiset(xs[1..]) == multiset(ys[1..])
  {
    assert xs == [xs[0]] + xs[1..] && ys == [ys[0]] + ys[1..];
    assert multiset(xs[1..]) == multiset(xs) - multiset{xs[0]};
    assert multiset(ys[1..]) == multiset(ys) - multiset{ys[0]};
  }

  /** A separating comparison allows only one sorted order of the same elements. */
  lemma SortedOrderIsUnique<T(!new)>(leq: (T, T) -> bool, xs: seq<T>, ys: seq<T>)
    requires TotalPreorder(leq)
    requires SortedBy(leq, xs) && SortedBy(leq, ys)
    requires multiset(xs) == multiset(ys)
    requires Separates(leq, xs)
    ensures xs == ys
  {
    assert |multiset(xs)| == |xs| && |multiset(ys)| == |ys|;
    if xs != [] {
      SameElements(xs, ys, xs[0]);
      SameElements(xs, ys, ys[0]);
      HeadIsLeast(leq, xs, ys[0]);
      HeadIsLeast(leq, ys, xs[0]);
      TailsAgree(xs, ys);
      SortedOrderIsUnique(leq, xs[1..], ys[1..]);
      assert xs == [xs[0]] + xs[1..] && ys == [ys[0]] + ys[1..];
    }
  }
}
