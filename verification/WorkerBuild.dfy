/**
 * Joining monitoring rows, pool statistics and known miners into workers. The
 * method visits the hash maps in an arbitrary order; what it promises holds for
 * every order, and no share and no session is lost or counted twice.
 */
module WorkerBuild {
  import opened Words
  import opened Sums
  import opened Sorting
  import opened Text
  import opened MinerIdentity
  import opened MinerHistory
  import opened MinerWorkers

  const INVALID_LABEL: string := "invalid identity"
  const NO_ADDRESS: string := "-"

  /** A session on its way to the worker that its identity text names. */
  datatype Push = Push(userIdentity: string, session: Session)

  type StatMap = map<ChannelKey, Stat>
  type Workers = map<string, Entry>

  function LabelAndPayout(env: Env, userIdentity: string): (string, string) {
    match Parse(env.decode, userIdentity, env.network)
    case Accepted(id) => (id.workerLabel, id.payout)
    case Rejected(_) => (INVALID_LABEL, NO_ADDRESS)
  }

  /** The id of the worker a session belongs to. */
  function WorkerId(env: Env, userIdentity: string): string {
    var (workerLabel, payout) := LabelAndPayout(env, userIdentity);
    if payout != NO_ADDRESS then MinerId(env.network, payout, workerLabel)
    else if Trim(userIdentity) != [] then userIdentity
    else payout + ":" + workerLabel
  }

  function Pushed(env: Env, workers: Workers, p: Push): Workers {
    var id := WorkerId(env, p.userIdentity);
    var (workerLabel, payout) := LabelAndPayout(env, p.userIdentity);
    var entry := if id in workers then workers[id] else Entry(workerLabel, payout, p.userIdentity, []);
    workers[id := entry.(sessions := entry.sessions + [p.session])]
  }

  /** All pushes in order, starting from no workers. */
  function Grouped(env: Env, pushes: seq<Push>): Workers {
    if pushes == [] then map[]
    else Pushed(env, Grouped(env, pushes[..|pushes| - 1]), pushes[|pushes| - 1])
  }

  // ----- The three sources as pushes -----

  /** Statistics by channel; of several with one key the last one stays. */
  function ByChannel(stats: seq<Stat>): StatMap {
    if stats == [] then map[]
    else
      var last := stats[|stats| - 1];
      ByChannel(stats[..|stats| - 1])[last.key := last]
  }

  function Lookup(stats: StatMap, key: ChannelKey): Option<Stat> {
    if key in stats then Some(stats[key]) else None
  }

  /** The statistics no row has taken. */
  function Leftover(rows: seq<MinerRow>, stats: StatMap): StatMap {
    if rows == [] then stats
    else
      var before := Leftover(rows[..|rows| - 1], stats);
      before - {rows[|rows| - 1].key}
  }

  /** Each row takes the statistic of its channel, if none before it did. */
  function RowPushes(rows: seq<MinerRow>, stats: StatMap, now: U64): seq<Push> {
    if rows == [] then []
    else
      var before, row := rows[..|rows| - 1], rows[|rows| - 1];
      var stat := Lookup(Leftover(before, stats), row.key);
      RowPushes(before, stats, now) + [Push(row.userIdentity, SessionFromRow(row, stat, now))]
  }

  function StatPush(stat: Stat, now: U64): Push {
    Push(stat.userIdentity, SessionFromStat(stat, now))
  }

  function StatPushes(order: seq<ChannelKey>, stats: StatMap, now: U64): seq<Push>
    requires forall key :: key in order ==> key in stats
  {
    seq(|order|, i requires 0 <= i < |order| => StatPush(stats[order[i]], now))
  }

  function KnownPush(known: Known, now: U64): Push {
    Push(known.row.userIdentity, SessionFromKnown(known, now))
  }

  function KnownIds(env: Env, known: seq<Known>): set<string> {
    set k | k in known :: WorkerId(env, k.row.userIdentity)
  }

  /** The known miners that are admitted: those without a worker when their turn comes. */
  function Admitted(env: Env, ids: set<string>, known: seq<Known>): seq<Known> {
    if known == [] then []
    else
      var before, last := Admitted(env, ids, known[..|known| - 1]), known[|known| - 1];
      if last.minerId in ids + KnownIds(env, before) then before else before + [last]
  }

  function KnownPushes(known: seq<Known>, now: U64): seq<Push> {
    seq(|known|, i requires 0 <= i < |known| => KnownPush(known[i], now))
  }

  /** The channels left over, each once, in the order in which a hash map yields them. */
  ghost predicate IsOrderOf(order: seq<ChannelKey>, stats: StatMap) {
    Distinct(order) && Elements(order) == stats.Keys
  }

  datatype Input = Input(env: Env, rows: seq<MinerRow>, stats: seq<Stat>, known: seq<Known>, now: U64)

  /** The pushes before known miners are considered. */
  function LivePushes(input: Input, order: seq<ChannelKey>): seq<Push>
    requires forall key :: key in order ==> key in Leftover(input.rows, ByChannel(input.stats))
  {
    var stats := ByChannel(input.stats);
    RowPushes(input.rows, stats, input.now) + StatPushes(order, Leftover(input.rows, stats), input.now)
  }

  function AdmittedIn(input: Input, order: seq<ChannelKey>): seq<Known>
    requires forall key :: key in order ==> key in Leftover(input.rows, ByChannel(input.stats))
  {
    Admitted(input.env, Grouped(input.env, LivePushes(input, order)).Keys, input.known)
  }

  function AllPushes(input: Input, order: seq<ChannelKey>): seq<Push>
    requires forall key :: key in order ==> key in Leftover(input.rows, ByChannel(input.stats))
  {
    LivePushes(input, order) + KnownPushes(AdmittedIn(input, order), input.now)
  }

  // ----- The order of workers -----

  /** What the final sort looks at. */
  datatype Rank = Rank(active: bool, connected: bool, seen: nat, workerLabel: string, payout: string)

  function RankOf(w: Worker): Rank {
    Rank(w.active, w.connected, w.lastSeenSeconds.GetOr(U64_MAX), w.workerLabel, w.payout)
  }

  /** Active first, then connected, then seen most recently, then by label and address. */
  predicate RankLeq(a: Rank, b: Rank) {
    if a.active != b.active then a.active
    else if a.connected != b.connected then a.connected
    else if a.seen != b.seen then a.seen < b.seen
    else if a.workerLabel != b.workerLabel then StringLeq(a.workerLabel, b.workerLabel)
    else StringLeq(a.payout, b.payout)
  }

  predicate WorkerLeq(a: Worker, b: Worker) {
    RankLeq(RankOf(a), RankOf(b))
  }

  /** The list holds the finalized workers of some ids, each once. */
  ghost predicate Lists(list: seq<Worker>, workers: Workers, ids: set<string>) {
    && ids <= workers.Keys
    && (forall i :: 0 <= i < |list| ==> list[i].id in ids && list[i] == Finalized(list[i].id, workers[list[i].id]))
    && (forall i, j :: 0 <= i < j < |list| ==> list[i].id != list[j].id)
    && (forall id :: id in ids ==> exists i :: 0 <= i < |list| && list[i].id == id)
  }

  /** The finalized workers of a map, each once, in some sorted order. */
  ghost predicate IsArrangement(list: seq<Worker>, workers: Workers) {
    SortedBy(WorkerLeq, list) && Lists(list, workers, workers.Keys)
  }

  /** A list that the build may return: for some order of the leftover channels. */
  ghost predicate IsBuild(input: Input, order: seq<ChannelKey>, list: seq<Worker>) {
    && IsOrderOf(order, Leftover(input.rows, ByChannel(input.stats)))
    && IsArrangement(list, Grouped(input.env, AllPushes(input, order)))
  }

  lemma RankLeqIsTotal(a: Rank, b: Rank)
    ensures RankLeq(a, b) || RankLeq(b, a)
    ensures RankLeq(a, b) && RankLeq(b, a) ==> a == b
  {
    StringLeqIsTotal(a.workerLabel, b.workerLabel);
    StringLeqIsTotal(a.payout, b.payout);
  }

  lemma RankLeqIsTransitive(a: Rank, b: Rank, c: Rank)
    requires RankLeq(a, b) && RankLeq(b, c)
    ensures RankLeq(a, c)
  {
    if a.active == b.active == c.active && a.connected == b.connected == c.connected && a.seen == b.seen == c.seen {
      StringLeqIsTotal(a.workerLabel, b.workerLabel);
      StringLeqIsTotal(b.workerLabel, c.workerLabel);
      if StringLeq(a.workerLabel, b.workerLabel) && StringLeq(b.workerLabel, c.workerLabel) {
        StringLeqIsTransitive(a.workerLabel, b.workerLabel, c.workerLabel);
        StringLeqIsTotal(a.workerLabel, c.workerLabel);
      }
      if StringLeq(a.payout, b.payout) && StringLeq(b.payout, c.payout) {
        StringLeqIsTransitive(a.payout, b.payout, c.payout);
      }
    }
  }

  lemma WorkerLeqIsTotalPreorder()
    ensures TotalPreorder(WorkerLeq)
  {
    forall x: Worker, y: Worker
      ensures WorkerLeq(x, y) || WorkerLeq(y, x)
    {
      RankLeqIsTotal(RankOf(x), RankOf(y));
    }
    forall x: Worker, y: Worker, z: Worker | WorkerLeq(x, y) && WorkerLeq(y, z)
      ensures WorkerLeq(x, z)
    {
      RankLeqIsTransitive(RankOf(x), RankOf(y), RankOf(z));
    }
  }

  // ----- The build -----

  method CollectStats(stats: seq<Stat>) returns (byChannel: StatMap)
    ensures byChannel == ByChannel(stats)
  {
    byChannel := map[];
    for i := 0 to |stats|
      invariant byChannel == ByChannel(stats[..i])
    {
      byChannel := byChannel[stats[i].key := stats[i]];
      assert stats[..i + 1][..i] == stats[..i];
    }
    assert stats[..|stats|] == stats;
  }

  lemma {:induction false} RowPushesExtend(rows: seq<MinerRow>, row: MinerRow, stats: StatMap, now: U64)
    ensures RowPushes(rows + [row], stats, now)
            == RowPushes(rows, stats, now)
               + [Push(row.userIdentity, SessionFromRow(row, Lookup(Leftover(rows, stats), row.key), now))]
    ensures Leftover(rows + [row], stats) == Leftover(rows, stats) - {row.key}
  {
  }

  method PushRows(env: Env, rows: seq<MinerRow>, stats: StatMap, now: U64) returns (workers: Workers, rest: StatMap)
    ensures workers == Grouped(env, RowPushes(rows, stats, now))
    ensures rest == Leftover(rows, stats)
  {
    workers, rest := map[], stats;
    for i := 0 to |rows|
      invariant workers == Grouped(env, RowPushes(rows[..i], stats, now))
      invariant rest == Leftover(rows[..i], stats)
    {
      var row := rows[i];
      var stat := Lookup(rest, row.key);
      ghost var before := RowPushes(rows[..i], stats, now);
      var p := Push(row.userIdentity, SessionFromRow(row, stat, now));
      assert rows[..i + 1] == rows[..i] + [row];
      RowPushesExtend(rows[..i], row, stats, now);
      GroupedExtends(env, before, p);
      rest := rest - {row.key};
      workers := Pushed(env, workers, p);
    }
    assert rows[..|rows|] == rows;
  }

  lemma {:induction false} GroupedExtends(env: Env, pushes: seq<Push>, p: Push)
    ensures Grouped(env, pushes + [p]) == Pushed(env, Grouped(env, pushes), p)
  {
  }

  lemma StatPushesExtend(pushes: seq<Push>, order: seq<ChannelKey>, key: ChannelKey, stats: StatMap, now: U64)
    requires (forall k :: k in order ==> k in stats) && key in stats
    ensures pushes + StatPushes(order + [key], stats, now)
            == pushes + StatPushes(order, stats, now) + [StatPush(stats[key], now)]
  {
  }

  lemma DistinctExtends(order: seq<ChannelKey>, key: ChannelKey)
    requires Distinct(order) && key !in Elements(order)
    ensures Distinct(order + [key]) && Elements(order + [key]) == Elements(order) + {key}
  {
  }

  /** Visits the leftover statistics in the order the hash map happens to give. */
  method PushStats(env: Env, start: Workers, stats: StatMap, now: U64, ghost pushes: seq<Push>)
    returns (workers: Workers, ghost order: seq<ChannelKey>)
    requires start == Grouped(env, pushes)
    ensures IsOrderOf(order, stats)
    ensures workers == Grouped(env, pushes + StatPushes(order, stats, now))
  {
    workers, order := start, [];
    var todo := stats.Keys;
    assert pushes + StatPushes([], stats, now) == pushes;
    while todo != {}
      invariant todo <= stats.Keys
      invariant Distinct(order) && Elements(order) == stats.Keys - todo
      invariant forall key :: key in order ==> key in Elements(order)
      invariant workers == Grouped(env, pushes + StatPushes(order, stats, now))
      decreases todo
    {
      var key :| key in todo;
      var p := StatPush(stats[key], now);
      GroupedExtends(env, pushes + StatPushes(order, stats, now), p);
      StatPushesExtend(pushes, order, key, stats, now);
      DistinctExtends(order, key);
      workers := Pushed(env, workers, p);
      order := order + [key];
      todo := todo - {key};
    }
  }

  lemma {:induction false} GroupedKeys(env: Env, pushes: seq<Push>)
    ensures Grouped(env, pushes).Keys == set p | p in pushes :: WorkerId(env, p.userIdentity)
  {
    if pushes != [] {
      GroupedKeys(env, pushes[..|pushes| - 1]);
      assert pushes == pushes[..|pushes| - 1] + [pushes[|pushes| - 1]];
    }
  }

  lemma {:induction false} KeysWithKnown(env: Env, live: seq<Push>, known: seq<Known>, now: U64)
    ensures Grouped(env, live + KnownPushes(known, now)).Keys == Grouped(env, live).Keys + KnownIds(env, known)
  {
    GroupedKeys(env, live);
    GroupedKeys(env, live + KnownPushes(known, now));
    var pushes := KnownPushes(known, now);
    forall k | k in known
      ensures KnownPush(k, now) in pushes
    {
      var i :| 0 <= i < |known| && known[i] == k;
      assert pushes[i] == KnownPush(k, now);
    }
    forall p | p in pushes
      ensures WorkerId(env, p.userIdentity) in KnownIds(env, known)
    {
      var i :| 0 <= i < |pushes| && pushes[i] == p;
      assert known[i] in known;
    }
  }

  lemma KnownPushesExtend(live: seq<Push>, known: seq<Known>, last: Known, now: U64)
    ensures live + KnownPushes(known + [last], now) == live + KnownPushes(known, now) + [KnownPush(last, now)]
  {
  }

  /** Adds the known miners that have no worker yet. */
  method PushKnown(env: Env, start: Workers, known: seq<Known>, now: U64, ghost live: seq<Push>)
    returns (workers: Workers)
    requires start == Grouped(env, live)
    ensures workers == Grouped(env, live + KnownPushes(Admitted(env, start.Keys, known), now))
  {
    workers := start;
    assert live + KnownPushes([], now) == live;
    for i := 0 to |known|
      invariant workers == Grouped(env, live + KnownPushes(Admitted(env, start.Keys, known[..i]), now))
    {
      ghost var before := Admitted(env, start.Keys, known[..i]);
      assert known[..i + 1][..i] == known[..i];
      KeysWithKnown(env, live, before, now);
      if known[i].minerId !in workers {
        GroupedExtends(env, live + KnownPushes(before, now), KnownPush(known[i], now));
        KnownPushesExtend(live, before, known[i], now);
        workers := Pushed(env, workers, KnownPush(known[i], now));
      }
    }
    assert known[..|known|] == known;
  }

  lemma FinalizedId(id: string, entry: Entry)
    ensures Finalized(id, entry).id == id
  {
  }

  lemma ListsExtend(list: seq<Worker>, workers: Workers, ids: set<string>, id: string)
    requires Lists(list, workers, ids) && id in workers && id !in ids
    ensures Lists(list + [Finalized(id, workers[id])], workers, ids + {id})
  {
    FinalizedId(id, workers[id]);
    ListsOneMore(list, workers, ids, Finalized(id, workers[id]));
  }

  lemma OnlyOneMore(list: seq<Worker>, w: Worker, ids: set<string>)
    requires forall id :: id in ids ==> exists i :: 0 <= i < |list| && list[i].id == id
    ensures forall id :: id in ids + {w.id} ==> exists i :: 0 <= i < |list + [w]| && (list + [w])[i].id == id
  {
    var all := list + [w];
    assert all[|list|].id == w.id;
    assert forall i :: 0 <= i < |list| ==> all[i] == list[i];
    forall id | id in ids
      ensures exists i :: 0 <= i < |all| && all[i].id == id
    {
      var i :| 0 <= i < |list| && list[i].id == id;
      assert all[i].id == id;
    }
  }

  lemma FinalizedOneMore(list: seq<Worker>, workers: Workers, ids: set<string>, w: Worker)
    requires ids <= workers.Keys && w.id in workers && w == Finalized(w.id, workers[w.id])
    requires forall i :: 0 <= i < |list| ==> list[i].id in ids && list[i] == Finalized(list[i].id, workers[list[i].id])
    ensures var all := list + [w];
            forall i :: 0 <= i < |all| ==> && all[i].id in ids + {w.id}
                                           && all[i] == Finalized(all[i].id, workers[all[i].id])
  {
  }

  lemma DistinctOneMore(list: seq<Worker>, w: Worker)
    requires forall i, j :: 0 <= i < j < |list| ==> list[i].id != list[j].id
    requires forall i :: 0 <= i < |list| ==> list[i].id != w.id
    ensures var all := list + [w];
            forall i, j :: 0 <= i < j < |all| ==> all[i].id != all[j].id
  {
  }

  lemma ListsOneMore(list: seq<Worker>, workers: Workers, ids: set<string>, w: Worker)
    requires Lists(list, workers, ids) && w.id in workers && w.id !in ids && w == Finalized(w.id, workers[w.id])
    ensures Lists(list + [w], workers, ids + {w.id})
  {
    OnlyOneMore(list, w, ids);
    FinalizedOneMore(list, workers, ids, w);
    DistinctOneMore(list, w);
  }

  /** Finalizes every worker, visiting the map in some order. */
  method FinalizeAll(workers: Workers) returns (list: seq<Worker>)
    ensures Lists(list, workers, workers.Keys)
  {
    list := [];
    var todo := workers.Keys;
    while todo != {}
      invariant todo <= workers.Keys
      invariant Lists(list, workers, workers.Keys - todo)
      decreases todo
    {
      var id :| id in todo;
      ListsExtend(list, workers, workers.Keys - todo, id);
      assert workers.Keys - (todo - {id}) == workers.Keys - todo + {id};
      list := list + [Finalized(id, workers[id])];
      todo := todo - {id};
    }
    assert workers.Keys - todo == workers.Keys;
  }

  /** Sorting a list of finalized workers makes it an arrangement. */
  lemma {:induction false} SortedIsArrangement(list: seq<Worker>, workers: Workers)
    requires Lists(list, workers, workers.Keys)
    ensures IsArrangement(StableSort(WorkerLeq, list), workers)
  {
    WorkerLeqIsTotalPreorder();
    SortIsSorted(WorkerLeq, list);
    SortPermutes(WorkerLeq, list);
    PermutedLists(list, StableSort(WorkerLeq, list), workers);
  }

  lemma PermutedLists(list: seq<Worker>, other: seq<Worker>, workers: Workers)
    requires Lists(list, workers, workers.Keys) && multiset(other) == multiset(list)
    ensures Lists(other, workers, workers.Keys)
  {
    forall i | 0 <= i < |other|
      ensures other[i].id in workers && other[i] == Finalized(other[i].id, workers[other[i].id])
    {
      SameElements(other, list, other[i]);
    }
    forall id | id in workers
      ensures exists i :: 0 <= i < |other| && other[i].id == id
    {
      var i :| 0 <= i < |list| && list[i].id == id;
      SameElements(other, list, list[i]);
    }
    forall i, j | 0 <= i < j < |other|
      ensures other[i].id != other[j].id
    {
      OnceIn(list, other[i]);
      if other[i] == other[j] {
        TwiceIn(other, i, j);
      }
    }
  }

  lemma TwiceIn(list: seq<Worker>, i: nat, j: nat)
    requires i < j < |list| && list[i] == list[j]
    ensures multiset(list)[list[i]] >= 2
  {
    assert list == list[..i] + [list[i]] + list[i + 1..j] + [list[j]] + list[j + 1..];
  }

  lemma OnceIn(list: seq<Worker>, w: Worker)
    requires forall i, j :: 0 <= i < j < |list| ==> list[i].id != list[j].id
    ensures multiset(list)[w] <= 1
  {
    if list != [] {
      var rest := list[1..];
      OnceIn(rest, w);
      assert list == [list[0]] + rest;
      assert forall j :: 0 <= j < |rest| ==> rest[j] == list[j + 1];
      assert list[0] !in rest;
    }
  }

  /** The workers of the dashboard, for some order of the hash maps involved. */
  method BuildMinerWorkers(input: Input) returns (list: seq<Worker>)
    ensures exists order :: IsBuild(input, order, list)
  {
    ghost var order;
    var stats := CollectStats(input.stats);
    var workers, rest := PushRows(input.env, input.rows, stats, input.now);
    ghost var pushes := RowPushes(input.rows, stats, input.now);
    workers, order := PushStats(input.env, workers, rest, input.now, pushes);
    workers := PushKnown(input.env, workers, input.known, input.now, LivePushes(input, order));
    list := FinalizeAll(workers);
    SortedIsArrangement(list, workers);
    list := StableSort(WorkerLeq, list);
    assert IsBuild(input, order, list);
  }
}
