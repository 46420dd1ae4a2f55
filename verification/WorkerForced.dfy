/**
 * Exactly when the order of the worker ids is the same whatever order the hash
 * maps are visited in, for every input.
 *
 * Two hash maps matter: the one of leftover statistics, whose order decides which
 * text names a worker that several texts share, and the one of workers, whose
 * order decides between workers that tie.
 */
module WorkerForced {
  import opened Words
  import opened Sums
  import opened Collecting
  import opened Sorting
  import opened MinerHistory
  import opened MinerWorkers
  import opened WorkerBuild
  import opened WorkerTotals
  import opened WorkerSessions
  import opened WorkerNames

  // ----- Ranks -----

  /** What the sessions of a worker contribute to its rank: activity, connection and age. */
  datatype Standing = Standing(active: bool, connected: bool, seen: nat)

  function StandingOf(w: Worker): Standing {
    Standing(w.active, w.connected, w.lastSeenSeconds.GetOr(U64_MAX))
  }

  function RankWith(s: Standing, name: Name): Rank {
    Rank(s.active, s.connected, s.seen, name.0, name.1)
  }

  predicate RankLess(a: Rank, b: Rank) {
    RankLeq(a, b) && a != b
  }

  lemma FinalizedNames(id: string, entry: Entry)
    ensures Finalized(id, entry).workerLabel == entry.workerLabel && Finalized(id, entry).payout == entry.payout
    ensures Finalized(id, entry).id == id
  {
  }

  lemma FinalizedRank(id: string, entry: Entry)
    ensures RankOf(Finalized(id, entry))
            == RankWith(StandingOf(Finalized(id, entry)), (entry.workerLabel, entry.payout))
  {
    FinalizedNames(id, entry);
  }

  lemma StandingsAgree(id: string, entry: Entry, other: Entry)
    requires multiset(entry.sessions) == multiset(other.sessions)
    ensures StandingOf(Finalized(id, entry)) == StandingOf(Finalized(id, other))
  {
    TimesAgree(id, Finalized(id, entry), entry, Finalized(id, other), other);
  }

  // ----- Arrangements -----

  function Swapped<T>(xs: seq<T>, i: nat, j: nat): seq<T>
    requires i < j < |xs|
  {
    xs[i := xs[j]][j := xs[i]]
  }

  lemma SwappedElements<T>(xs: seq<T>, i: nat, j: nat)
    requires i < j < |xs|
    ensures multiset(Swapped(xs, i, j)) == multiset(xs)
  {
  }

  /** Swapping two elements that compare equal keeps a sequence sorted. */
  lemma SwappedSorted<T(!new)>(leq: (T, T) -> bool, xs: seq<T>, i: nat, j: nat)
    requires TotalPreorder(leq) && SortedBy(leq, xs) && i < j < |xs| && leq(xs[j], xs[i])
    ensures SortedBy(leq, Swapped(xs, i, j))
  {
  }

  lemma SwappedIsArrangement(list: seq<Worker>, workers: Workers, i: nat, j: nat)
    requires IsArrangement(list, workers) && i < j < |list| && WorkerLeq(list[j], list[i])
    ensures IsArrangement(Swapped(list, i, j), workers)
  {
    WorkerLeqIsTotalPreorder();
    SwappedSorted(WorkerLeq, list, i, j);
    SwappedElements(list, i, j);
    PermutedLists(list, Swapped(list, i, j), workers);
  }

  lemma ListAll(workers: Workers, ids: set<string>) returns (list: seq<Worker>)
    requires ids <= workers.Keys
    ensures Lists(list, workers, ids)
    decreases |ids|
  {
    if ids == {} {
      list := [];
    } else {
      var id :| id in ids;
      var rest := ListAll(workers, ids - {id});
      list := rest + [Finalized(id, workers[id])];
      assert Lists(list, workers, ids) by {
        assert ids - {id} + {id} == ids;
        ListsExtend(rest, workers, ids - {id}, id);
      }
    }
  }

  lemma SomeArrangement(workers: Workers) returns (list: seq<Worker>)
    ensures IsArrangement(list, workers)
  {
    var all := ListAll(workers, workers.Keys);
    SortedIsArrangement(all, workers);
    list := StableSort(WorkerLeq, all);
  }

  ghost predicate OrderedIn<T>(xs: seq<T>, a: T, b: T) {
    exists i, j :: 0 <= i < j < |xs| && xs[i] == a && xs[j] == b
  }

  lemma IdsInOrder(list: seq<Worker>, i: nat, j: nat)
    requires i < j < |list|
    ensures OrderedIn(Ids(list), list[i].id, list[j].id)
  {
    assert Ids(list)[i] == list[i].id && Ids(list)[j] == list[j].id;
  }

  lemma SwappedInOrder(list: seq<Worker>, workers: Workers, i: nat, j: nat)
    requires IsArrangement(list, workers) && i < j < |list| && RankLeq(RankOf(list[j]), RankOf(list[i]))
    ensures IsArrangement(Swapped(list, i, j), workers)
    ensures OrderedIn(Ids(Swapped(list, i, j)), list[j].id, list[i].id)
  {
    SwappedIsArrangement(list, workers, i, j);
    IdsInOrder(Swapped(list, i, j), i, j);
  }

  /** Of two ids whose ranks allow it, the first can come first. */
  lemma ArrangementPutting(workers: Workers, a: string, b: string) returns (list: seq<Worker>)
    requires a in workers && b in workers && a != b
    requires RankLeq(RankOf(Finalized(a, workers[a])), RankOf(Finalized(b, workers[b])))
    ensures IsArrangement(list, workers) && OrderedIn(Ids(list), a, b)
  {
    list := SomeArrangement(workers);
    var i :| 0 <= i < |list| && list[i].id == a;
    var j :| 0 <= j < |list| && list[j].id == b;
    if i < j {
      IdsInOrder(list, i, j);
    } else {
      SwappedInOrder(list, workers, j, i);
      list := Swapped(list, j, i);
    }
  }

  // ----- The names a worker can get -----

  ghost predicate IsVisit(input: Input, order: seq<ChannelKey>) {
    && IsOrderOf(order, Leftover(input.rows, ByChannel(input.stats)))
    && forall key :: key in order ==> key in Leftover(input.rows, ByChannel(input.stats))
  }

  /** The names that leftover statistics have for a worker. */
  function StatNames(env: Env, rest: StatMap, id: string): set<Name> {
    set key | key in rest && WorkerId(env, rest[key].userIdentity) == id :: LabelAndPayout(env, rest[key].userIdentity)
  }

  function RowName(input: Input, id: string): Option<Name> {
    NameOf(input.env, RowPushes(input.rows, ByChannel(input.stats), input.now), id)
  }

  function KnownName(input: Input, order: seq<ChannelKey>, id: string): Option<Name>
    requires forall key :: key in order ==> key in Leftover(input.rows, ByChannel(input.stats))
  {
    NameOf(input.env, KnownPushes(AdmittedIn(input, order), input.now), id)
  }

  function OneName(name: Option<Name>): set<Name> {
    if name.Some? then {name.value} else {}
  }

  /**
   * The names a worker can get: that of the first row with it; without a row, that
   * of any leftover statistic with it; without either, that of the known miner.
   */
  function NamesOf(input: Input, order: seq<ChannelKey>, id: string): set<Name>
    requires forall key :: key in order ==> key in Leftover(input.rows, ByChannel(input.stats))
  {
    var stats := StatNames(input.env, Leftover(input.rows, ByChannel(input.stats)), id);
    if RowName(input, id).Some? then OneName(RowName(input, id))
    else if stats != {} then stats
    else OneName(KnownName(input, order, id))
  }

  function StatName(env: Env, order: seq<ChannelKey>, rest: StatMap, now: U64, id: string): Option<Name>
    requires forall key :: key in order ==> key in rest
  {
    NameOf(env, StatPushes(order, rest, now), id)
  }

  lemma NameBySource(input: Input, order: seq<ChannelKey>, id: string)
    requires IsVisit(input, order)
    ensures var rest := Leftover(input.rows, ByChannel(input.stats));
            var stat := StatName(input.env, order, rest, input.now, id);
            NameOf(input.env, AllPushes(input, order), id)
            == if RowName(input, id).Some? then RowName(input, id)
               else if stat.Some? then stat
               else KnownName(input, order, id)
  {
    var rest := Leftover(input.rows, ByChannel(input.stats));
    var rows := RowPushes(input.rows, ByChannel(input.stats), input.now);
    FirstOfConcat(rows, StatPushes(order, rest, input.now), NameFor(input.env, id));
    FirstOfConcat(LivePushes(input, order), KnownPushes(AdmittedIn(input, order), input.now), NameFor(input.env, id));
  }

  lemma StatNameIsOne(env: Env, order: seq<ChannelKey>, rest: StatMap, now: U64, id: string)
    requires (forall key :: key in order ==> key in rest) && StatName(env, order, rest, now, id).Some?
    ensures StatName(env, order, rest, now, id).value in StatNames(env, rest, id)
  {
    var pushes := StatPushes(order, rest, now);
    var p := NamingPush(env, pushes, id);
    var i :| 0 <= i < |pushes| && pushes[i] == p;
    assert order[i] in order && rest[order[i]].userIdentity == p.userIdentity;
  }

  lemma StatNameExists(env: Env, order: seq<ChannelKey>, rest: StatMap, now: U64, id: string)
    requires IsOrderOf(order, rest) && forall key :: key in order ==> key in rest
    requires StatNames(env, rest, id) != {}
    ensures StatName(env, order, rest, now, id).Some?
  {
    var key :| key in rest && WorkerId(env, rest[key].userIdentity) == id;
    assert key in Elements(order);
    var i :| 0 <= i < |order| && order[i] == key;
    var pushes := StatPushes(order, rest, now);
    assert pushes[i] in pushes;
    PushNames(env, pushes, pushes[i]);
  }

  lemma StatNameIsPossible(env: Env, order: seq<ChannelKey>, rest: StatMap, now: U64, id: string)
    requires IsOrderOf(order, rest) && forall key :: key in order ==> key in rest
    ensures StatName(env, order, rest, now, id).Some? <==> StatNames(env, rest, id) != {}
    ensures StatName(env, order, rest, now, id).Some? ==>
              StatName(env, order, rest, now, id).value in StatNames(env, rest, id)
  {
    if StatName(env, order, rest, now, id).Some? {
      StatNameIsOne(env, order, rest, now, id);
    }
    if StatNames(env, rest, id) != {} {
      StatNameExists(env, order, rest, now, id);
    }
  }

  /** Whatever the visiting order, a worker gets one of its names. */
  lemma NameIsPossible(input: Input, order: seq<ChannelKey>, id: string)
    requires IsVisit(input, order) && NameOf(input.env, AllPushes(input, order), id).Some?
    ensures NameOf(input.env, AllPushes(input, order), id).value in NamesOf(input, order, id)
  {
    NameBySource(input, order, id);
    StatNameIsPossible(input.env, order, Leftover(input.rows, ByChannel(input.stats)), input.now, id);
  }

  // ----- Choosing names -----

  /** Statistics that, when visited first, give the worker the name: at most one is needed. */
  ghost predicate Chooses(input: Input, keys: seq<ChannelKey>, id: string, name: Name) {
    var rest := Leftover(input.rows, ByChannel(input.stats));
    && |keys| <= 1
    && (forall key :: key in keys ==> && key in rest && WorkerId(input.env, rest[key].userIdentity) == id
                                      && LabelAndPayout(input.env, rest[key].userIdentity) == name)
    && (keys == [] ==> RowName(input, id).Some? || StatNames(input.env, rest, id) == {})
  }

  lemma ChoiceExists(input: Input, order: seq<ChannelKey>, id: string, name: Name) returns (keys: seq<ChannelKey>)
    requires IsVisit(input, order) && name in NamesOf(input, order, id)
    ensures Chooses(input, keys, id, name)
  {
    var rest := Leftover(input.rows, ByChannel(input.stats));
    if RowName(input, id).Some? || StatNames(input.env, rest, id) == {} {
      keys := [];
    } else {
      var key :| && key in rest && WorkerId(input.env, rest[key].userIdentity) == id
                 && LabelAndPayout(input.env, rest[key].userIdentity) == name;
      keys := [key];
    }
  }

  lemma VisitStartingWith(input: Input, front: seq<ChannelKey>) returns (order: seq<ChannelKey>)
    requires Distinct(front) && forall key :: key in front ==> key in Leftover(input.rows, ByChannel(input.stats))
    ensures IsVisit(input, order) && front <= order
  {
    var rest := Leftover(input.rows, ByChannel(input.stats));
    var tail := Enumerate(rest.Keys - Elements(front));
    order := front + tail;
    ElementsOfConcat(front, tail);
    assert forall key :: key in front ==> key in Elements(front);
    assert forall key :: key in tail ==> key in Elements(tail);
    DistinctConcat(front, tail);
    OrderIsLeftover(input, order);
  }

  lemma StatPushesPrefix(front: seq<ChannelKey>, tail: seq<ChannelKey>, rest: StatMap, now: U64)
    requires forall key :: key in front + tail ==> key in rest
    ensures forall key :: key in front ==> key in rest
    ensures forall key :: key in tail ==> key in rest
    ensures StatPushes(front + tail, rest, now) == StatPushes(front, rest, now) + StatPushes(tail, rest, now)
  {
    assert forall key :: key in front ==> key in front + tail;
    assert forall key :: key in tail ==> key in front + tail;
  }

  lemma NameFromPrefix(
      env: Env, front: seq<ChannelKey>, order: seq<ChannelKey>, rest: StatMap, now: U64, id: string)
    requires front <= order && forall key :: key in order ==> key in rest
    ensures forall key :: key in front ==> key in rest
    ensures StatName(env, front, rest, now, id).Some? ==>
              StatName(env, order, rest, now, id) == StatName(env, front, rest, now, id)
  {
    var tail := order[|front|..];
    assert order == front + tail;
    StatPushesPrefix(front, tail, rest, now);
    FirstOfConcat(StatPushes(front, rest, now), StatPushes(tail, rest, now), NameFor(env, id));
  }

  lemma NoNameOf(env: Env, keys: seq<ChannelKey>, rest: StatMap, now: U64, id: string)
    requires forall key :: key in keys ==> key in rest && WorkerId(env, rest[key].userIdentity) != id
    ensures StatName(env, keys, rest, now, id).None?
  {
    var pushes := StatPushes(keys, rest, now);
    forall p | p in pushes
      ensures NameFor(env, id)(p).None?
    {
      var i :| 0 <= i < |pushes| && pushes[i] == p;
      assert keys[i] in keys;
    }
    NothingFirst(pushes, NameFor(env, id));
  }

  lemma NameOfOne(env: Env, key: ChannelKey, rest: StatMap, now: U64)
    requires key in rest
    ensures StatName(env, [key], rest, now, WorkerId(env, rest[key].userIdentity))
            == Some(LabelAndPayout(env, rest[key].userIdentity))
  {
    var p := StatPush(rest[key], now);
    assert StatPushes([key], rest, now) == [] + [p];
    FirstOfSnoc([], p, NameFor(env, WorkerId(env, rest[key].userIdentity)));
  }

  lemma ChosenStatName(
      env: Env, rest: StatMap, first: seq<ChannelKey>, keys: seq<ChannelKey>, order: seq<ChannelKey>, now: U64,
      id: string, name: Name)
    requires first + keys <= order && forall key :: key in order ==> key in rest
    requires forall key :: key in first ==> key in rest && WorkerId(env, rest[key].userIdentity) != id
    requires |keys| == 1 && keys[0] in rest
    requires WorkerId(env, rest[keys[0]].userIdentity) == id && LabelAndPayout(env, rest[keys[0]].userIdentity) == name
    ensures StatName(env, order, rest, now, id) == Some(name)
  {
    NameFromPrefix(env, first + keys, order, rest, now, id);
    StatPushesPrefix(first, keys, rest, now);
    FirstOfConcat(StatPushes(first, rest, now), StatPushes(keys, rest, now), NameFor(env, id));
    NoNameOf(env, first, rest, now, id);
    assert keys == [keys[0]];
    NameOfOne(env, keys[0], rest, now);
  }

  /** The statistics belong to other workers. */
  predicate OfOthers(input: Input, keys: seq<ChannelKey>, id: string) {
    var rest := Leftover(input.rows, ByChannel(input.stats));
    forall key :: key in keys ==> key in rest && WorkerId(input.env, rest[key].userIdentity) != id
  }

  /** A visit that starts with the chosen statistics, after some of other workers, gives the chosen name. */
  lemma ChosenName(
      input: Input, first: seq<ChannelKey>, keys: seq<ChannelKey>, order: seq<ChannelKey>, id: string, name: Name)
    requires IsVisit(input, order) && first + keys <= order && Chooses(input, keys, id, name)
    requires name in NamesOf(input, order, id) && OfOthers(input, first, id)
    ensures NameOf(input.env, AllPushes(input, order), id) == Some(name)
  {
    var rest := Leftover(input.rows, ByChannel(input.stats));
    NameBySource(input, order, id);
    StatNameIsPossible(input.env, order, rest, input.now, id);
    if RowName(input, id).None? && StatNames(input.env, rest, id) != {} {
      assert keys[0] in keys;
      ChosenStatName(input.env, rest, first, keys, order, input.now, id, name);
    }
  }

  // ----- Two visits -----

  lemma NamesOfAgree(input: Input, order: seq<ChannelKey>, other: seq<ChannelKey>, id: string)
    requires IsVisit(input, order) && IsVisit(input, other)
    ensures NamesOf(input, order, id) == NamesOf(input, other, id)
  {
    SamePushes(input, order, other);
  }

  /** Any two names of two workers can come about together. */
  lemma NamesTogether(input: Input, order: seq<ChannelKey>, a: string, x: Name, b: string, y: Name)
    returns (other: seq<ChannelKey>)
    requires IsVisit(input, order) && a != b
    requires x in NamesOf(input, order, a) && y in NamesOf(input, order, b)
    ensures IsVisit(input, other)
    ensures NameOf(input.env, AllPushes(input, other), a) == Some(x)
    ensures NameOf(input.env, AllPushes(input, other), b) == Some(y)
  {
    var keysA := ChoiceExists(input, order, a, x);
    var keysB := ChoiceExists(input, order, b, y);
    ChoicesAreDistinct(input, keysA, a, x, keysB, b, y);
    other := VisitStartingWith(input, keysA + keysB);
    NamesOfAgree(input, order, other, a);
    NamesOfAgree(input, order, other, b);
    assert [] + keysA == keysA && keysA <= keysA + keysB;
    PrefixOfPrefix(keysA, keysB, other);
    ChosenName(input, [], keysA, other, a, x);
    ChosenName(input, keysA, keysB, other, b, y);
  }

  lemma PrefixOfPrefix(xs: seq<ChannelKey>, ys: seq<ChannelKey>, all: seq<ChannelKey>)
    requires xs + ys <= all
    ensures xs <= all
  {
  }

  lemma ChoicesAreDistinct(
      input: Input, keys: seq<ChannelKey>, a: string, x: Name, more: seq<ChannelKey>, b: string, y: Name)
    requires a != b && Chooses(input, keys, a, x) && Chooses(input, more, b, y)
    ensures Distinct(keys + more) && OfOthers(input, keys, b)
    ensures forall key :: key in keys + more ==> key in Leftover(input.rows, ByChannel(input.stats))
  {
    DistinctConcat(keys, more);
  }

  // ----- The standing of a worker -----

  ghost function WorkerIds(input: Input, order: seq<ChannelKey>): set<string>
    requires IsVisit(input, order)
  {
    Grouped(input.env, AllPushes(input, order)).Keys
  }

  function StandingIn(input: Input, order: seq<ChannelKey>, id: string): Standing
    requires forall key :: key in order ==> key in Leftover(input.rows, ByChannel(input.stats))
  {
    StandingOf(Finalized(id, Entry("", "", "", SessionsOf(input.env, AllPushes(input, order), id))))
  }

  lemma StandingsInAgree(
      input: Input, order: seq<ChannelKey>, other: seq<ChannelKey>, id: string)
    requires IsVisit(input, order) && IsVisit(input, other)
    ensures StandingIn(input, order, id) == StandingIn(input, other, id)
  {
    SamePushes(input, order, other);
    CollectPermutes(AllPushes(input, order), AllPushes(input, other), SessionFor(input.env, id));
    StandingsAgree(id, Entry("", "", "", SessionsOf(input.env, AllPushes(input, order), id)),
                   Entry("", "", "", SessionsOf(input.env, AllPushes(input, other), id)));
  }

  /** The rank of a worker is its standing with the name it got. */
  lemma RankInBuild(input: Input, order: seq<ChannelKey>, id: string)
    requires IsVisit(input, order) && id in WorkerIds(input, order)
    ensures var name := NameOf(input.env, AllPushes(input, order), id);
            && name.Some? && name.value in NamesOf(input, order, id)
            && RankOf(Finalized(id, Grouped(input.env, AllPushes(input, order))[id]))
               == RankWith(StandingIn(input, order, id), name.value)
  {
    var pushes := AllPushes(input, order);
    var entry := Grouped(input.env, pushes)[id];
    GroupedName(input.env, pushes, id);
    GroupedSessions(input.env, pushes, id);
    NameIsPossible(input, order, id);
    FinalizedRank(id, entry);
    StandingsAgree(id, entry, Entry("", "", "", SessionsOf(input.env, pushes, id)));
  }

  // ----- The condition -----

  /** Under whatever names the two workers get, the first one comes first. */
  ghost predicate Below(input: Input, order: seq<ChannelKey>, a: string, b: string)
    requires IsVisit(input, order)
  {
    forall x, y :: x in NamesOf(input, order, a) && y in NamesOf(input, order, b) ==>
                     RankLess(RankWith(StandingIn(input, order, a), x), RankWith(StandingIn(input, order, b), y))
  }

  /** Of any two workers one comes first under whatever names they get. */
  ghost predicate Forced(input: Input, order: seq<ChannelKey>)
    requires IsVisit(input, order)
  {
    forall a, b :: a in WorkerIds(input, order) && b in WorkerIds(input, order) && a != b ==>
                     Below(input, order, a, b) || Below(input, order, b, a)
  }

  /** Every build of the input lists the ids in the same order. */
  ghost predicate OneOrder(input: Input) {
    forall o, l, o', l' :: IsBuild(input, o, l) && IsBuild(input, o', l') ==> Ids(l) == Ids(l')
  }

  // ----- The condition suffices -----

  /** The worker at a position of some build, in terms of the given visit. */
  lemma RankInOther(
      input: Input, order: seq<ChannelKey>, other: seq<ChannelKey>, list: seq<Worker>, i: nat) returns (name: Name)
    requires IsVisit(input, order) && IsBuild(input, other, list) && i < |list|
    ensures list[i].id in WorkerIds(input, order) && name in NamesOf(input, order, list[i].id)
    ensures RankOf(list[i]) == RankWith(StandingIn(input, order, list[i].id), name)
  {
    OrderIsLeftover(input, other);
    SamePushes(input, order, other);
    SameKeys(input.env, AllPushes(input, order), AllPushes(input, other));
    var id := list[i].id;
    RankInBuild(input, other, id);
    NamesOfAgree(input, order, other, id);
    StandingsInAgree(input, order, other, id);
    name := NameOf(input.env, AllPushes(input, other), id).value;
  }

  lemma BelowInList(
      input: Input, order: seq<ChannelKey>, other: seq<ChannelKey>, list: seq<Worker>, i: nat, j: nat)
    requires IsVisit(input, order) && Forced(input, order) && IsBuild(input, other, list) && i < j < |list|
    ensures Below(input, order, list[i].id, list[j].id)
  {
    var x := RankInOther(input, order, other, list, i);
    var y := RankInOther(input, order, other, list, j);
    assert WorkerLeq(list[i], list[j]);
    RankLeqIsTotal(RankOf(list[i]), RankOf(list[j]));
    assert list[i].id != list[j].id;
    assert !Below(input, order, list[j].id, list[i].id);
  }

  /** Sorted by an asymmetric relation: earlier elements stand before later ones. */
  ghost predicate StrictlySorted<T>(before: (T, T) -> bool, xs: seq<T>) {
    forall i, j :: 0 <= i < j < |xs| ==> before(xs[i], xs[j]) && !before(xs[j], xs[i])
  }

  lemma StrictHead<T>(before: (T, T) -> bool, xs: seq<T>, ys: seq<T>)
    requires StrictlySorted(before, xs) && StrictlySorted(before, ys) && multiset(xs) == multiset(ys)
    requires xs != [] && ys != []
    ensures xs[0] == ys[0]
  {
    SameElements(xs, ys, xs[0]);
    SameElements(xs, ys, ys[0]);
    var i :| 0 <= i < |ys| && ys[i] == xs[0];
    var j :| 0 <= j < |xs| && xs[j] == ys[0];
  }

  lemma StrictOrderIsUnique<T>(before: (T, T) -> bool, xs: seq<T>, ys: seq<T>)
    requires StrictlySorted(before, xs) && StrictlySorted(before, ys) && multiset(xs) == multiset(ys)
    ensures xs == ys
  {
    assert |multiset(xs)| == |xs| && |multiset(ys)| == |ys|;
    if xs != [] {
      StrictHead(before, xs, ys);
      TailsAgree(xs, ys);
      StrictOrderIsUnique(before, xs[1..], ys[1..]);
      assert xs == [xs[0]] + xs[1..] && ys == [ys[0]] + ys[1..];
    }
  }

  ghost function BelowIn(input: Input, order: seq<ChannelKey>): (string, string) -> bool
    requires IsVisit(input, order)
  {
    (a, b) => Below(input, order, a, b)
  }

  lemma BelowIsStrict(
      input: Input, order: seq<ChannelKey>, other: seq<ChannelKey>, list: seq<Worker>, i: nat, j: nat)
    requires IsVisit(input, order) && IsBuild(input, other, list) && i < |list| && j < |list|
    requires Below(input, order, list[i].id, list[j].id)
    ensures !Below(input, order, list[j].id, list[i].id)
  {
    var x := RankInOther(input, order, other, list, i);
    var y := RankInOther(input, order, other, list, j);
    RankLeqIsTotal(RankOf(list[i]), RankOf(list[j]));
  }

  lemma ForcedSorts(input: Input, order: seq<ChannelKey>, other: seq<ChannelKey>, list: seq<Worker>)
    requires IsVisit(input, order) && Forced(input, order) && IsBuild(input, other, list)
    ensures StrictlySorted(BelowIn(input, order), Ids(list))
  {
    forall i, j | 0 <= i < j < |Ids(list)|
      ensures Below(input, order, Ids(list)[i], Ids(list)[j]) && !Below(input, order, Ids(list)[j], Ids(list)[i])
    {
      BelowInList(input, order, other, list, i, j);
      BelowIsStrict(input, order, other, list, i, j);
    }
  }

  lemma ForcedIsEnough(input: Input, order: seq<ChannelKey>)
    requires IsVisit(input, order) && Forced(input, order)
    ensures OneOrder(input)
  {
    forall o, l, o', l' | IsBuild(input, o, l) && IsBuild(input, o', l')
      ensures Ids(l) == Ids(l')
    {
      ForcedSorts(input, order, o, l);
      ForcedSorts(input, order, o', l');
      WorkersAgree(input, o, l, o', l');
      StrictOrderIsUnique(BelowIn(input, order), Ids(l), Ids(l'));
    }
  }

  // ----- The condition is needed -----

  /** Names under which the second worker may come first lead to a build in which it does. */
  lemma BuildPutting(input: Input, order: seq<ChannelKey>, a: string, b: string)
    returns (other: seq<ChannelKey>, list: seq<Worker>)
    requires IsVisit(input, order) && a != b && !Below(input, order, a, b)
    requires a in WorkerIds(input, order) && b in WorkerIds(input, order)
    ensures IsBuild(input, other, list) && OrderedIn(Ids(list), b, a)
  {
    var x, y :| && x in NamesOf(input, order, a) && y in NamesOf(input, order, b)
                && !RankLess(RankWith(StandingIn(input, order, a), x), RankWith(StandingIn(input, order, b), y));
    other := NamesTogether(input, order, a, x, b, y);
    RankLeqIsTotal(RankWith(StandingIn(input, order, a), x), RankWith(StandingIn(input, order, b), y));
    SamePushes(input, order, other);
    SameKeys(input.env, AllPushes(input, order), AllPushes(input, other));
    StandingsInAgree(input, order, other, a);
    StandingsInAgree(input, order, other, b);
    RankInBuild(input, other, a);
    RankInBuild(input, other, b);
    list := ArrangementPutting(Grouped(input.env, AllPushes(input, other)), b, a);
  }

  lemma OppositeOrders(ids: seq<string>, a: string, b: string)
    requires Distinct(ids) && OrderedIn(ids, a, b)
    ensures !OrderedIn(ids, b, a)
  {
  }

  lemma ForcedIsNeeded(input: Input, order: seq<ChannelKey>)
    requires IsVisit(input, order) && OneOrder(input)
    ensures Forced(input, order)
  {
    forall a, b | a in WorkerIds(input, order) && b in WorkerIds(input, order) && a != b
      ensures Below(input, order, a, b) || Below(input, order, b, a)
    {
      if !Below(input, order, a, b) && !Below(input, order, b, a) {
        var o, l := BuildPutting(input, order, a, b);
        var o', l' := BuildPutting(input, order, b, a);
        OrderIsLeftover(input, o);
        IdsAreDistinct(l, Grouped(input.env, AllPushes(input, o)));
        OppositeOrders(Ids(l), b, a);
        assert false;
      }
    }
  }

  /**
   * The order of the worker ids is the same for every order in which the hash
   * maps are visited, if and only if of any two workers one comes first under
   * every name that either can get. The condition is about the input: `order`
   * merely lists the leftover statistics, in any way.
   */
  lemma OrderIsForcedIff(input: Input, order: seq<ChannelKey>)
    requires IsVisit(input, order)
    ensures OneOrder(input) <==> Forced(input, order)
  {
    if Forced(input, order) {
      ForcedIsEnough(input, order);
    }
    if OneOrder(input) {
      ForcedIsNeeded(input, order);
    }
  }
}
