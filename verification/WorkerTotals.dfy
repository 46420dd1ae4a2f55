/** Conservation: the workers returned account for every row, statistic and admitted miner exactly once. */
module WorkerTotals {
  import opened Words
  import opened Sums
  import opened Sorting
  import opened MinerIdentity
  import opened MinerHistory
  import opened MinerWorkers
  import opened WorkerBuild

  type Measure = Session -> nat

  function One(s: Session): nat {
    1
  }

  function AcceptedOfRow(row: MinerRow): nat {
    row.accepted
  }

  function AcceptedOfStat(stat: Stat): nat {
    stat.accepted
  }

  function RejectedOfStat(stat: Stat): nat {
    stat.rejected
  }

  function OneStat(stat: Stat): nat {
    1
  }

  function AcceptedOfKnown(known: Known): nat {
    known.row.accepted
  }

  function RejectedOfKnown(known: Known): nat {
    known.row.rejected
  }

  function SharesOfWorker(w: Worker): nat {
    w.totalShares
  }

  function RejectedOfWorker(w: Worker): nat {
    w.totalRejected
  }

  function SessionsOfWorker(w: Worker): nat {
    w.sessionCount
  }

  function Measured(m: Measure): Push -> nat {
    (p: Push) => m(p.session)
  }

  /** The total of a measure over one worker's sessions. */
  function EntryTotal(workers: Workers, m: Measure): string -> nat {
    (id: string) => if id in workers then SumBy(workers[id].sessions, m) else 0
  }

  function Total(m: Measure): Worker -> nat {
    (w: Worker) => SumBy(w.sessions, m)
  }

  // ----- Workers against pushes -----

  lemma PushedTotal(env: Env, workers: Workers, p: Push, m: Measure)
    ensures var after := Pushed(env, workers, p);
            SumOver(after.Keys, EntryTotal(after, m)) == SumOver(workers.Keys, EntryTotal(workers, m)) + m(p.session)
  {
    var after := Pushed(env, workers, p);
    var id := WorkerId(env, p.userIdentity);
    var f, g := EntryTotal(workers, m), EntryTotal(after, m);
    var sessions := if id in workers then workers[id].sessions else [];
    assert after[id].sessions == sessions + [p.session];
    SumOfSnoc(sessions, p.session, m);
    assert g(id) == f(id) + m(p.session);
    if id in workers {
      assert after.Keys == workers.Keys;
      SumOverRaised(workers.Keys, f, g, id, m(p.session));
    } else {
      SumOverTakes(after.Keys, g, id);
      assert after.Keys - {id} == workers.Keys;
      SumOverAgrees(workers.Keys, f, g);
    }
  }

  lemma {:induction false} GroupedTotal(env: Env, pushes: seq<Push>, m: Measure)
    ensures SumOver(Grouped(env, pushes).Keys, EntryTotal(Grouped(env, pushes), m)) == SumBy(pushes, Measured(m))
  {
    if pushes != [] {
      var before, last := pushes[..|pushes| - 1], pushes[|pushes| - 1];
      GroupedTotal(env, before, m);
      PushedTotal(env, Grouped(env, before), last, m);
    }
  }

  function Ids(list: seq<Worker>): seq<string> {
    seq(|list|, i requires 0 <= i < |list| => list[i].id)
  }

  lemma FinalizedTotal(id: string, entry: Entry, m: Measure)
    ensures SumBy(Finalized(id, entry).sessions, m) == SumBy(entry.sessions, m)
  {
    SortPermutes(SessionLeq, entry.sessions);
    SumOfPermutation(StableSort(SessionLeq, entry.sessions), entry.sessions, m);
  }

  lemma IdsAreDistinct(list: seq<Worker>, workers: Workers)
    requires Lists(list, workers, workers.Keys)
    ensures Distinct(Ids(list)) && Elements(Ids(list)) == workers.Keys
  {
    var ids := Ids(list);
    forall id | id in workers
      ensures id in Elements(ids)
    {
      var i :| 0 <= i < |list| && list[i].id == id;
      assert ids[i] == id;
    }
  }

  lemma {:induction false} ListedTotal(list: seq<Worker>, workers: Workers, m: Measure)
    requires Lists(list, workers, workers.Keys)
    ensures SumBy(list, Total(m)) == SumOver(workers.Keys, EntryTotal(workers, m))
  {
    var ids := Ids(list);
    forall i | 0 <= i < |list|
      ensures Total(m)(list[i]) == EntryTotal(workers, m)(ids[i])
    {
      FinalizedTotal(list[i].id, workers[list[i].id], m);
    }
    SumOfMapped(list, ids, Total(m), EntryTotal(workers, m));
    IdsAreDistinct(list, workers);
    SumOfDistinct(ids, EntryTotal(workers, m));
  }

  // ----- Pushes against the sources -----

  function KnownMeasure(m: Measure, now: U64): Known -> nat {
    (k: Known) => m(SessionFromKnown(k, now))
  }

  function StatMeasure(m: Measure, now: U64): Stat -> nat {
    (s: Stat) => m(SessionFromStat(s, now))
  }

  function ChannelTotal(stats: StatMap, m: Measure, now: U64, key: ChannelKey): nat {
    if key in stats then m(SessionFromStat(stats[key], now)) else 0
  }

  function MapMeasure(stats: StatMap, m: Measure, now: U64): ChannelKey -> nat {
    (key: ChannelKey) => ChannelTotal(stats, m, now, key)
  }

  lemma PushesSplit(input: Input, order: seq<ChannelKey>, m: Measure)
    requires IsOrderOf(order, Leftover(input.rows, ByChannel(input.stats)))
    requires forall key :: key in order ==> key in Leftover(input.rows, ByChannel(input.stats))
    ensures var rest := Leftover(input.rows, ByChannel(input.stats));
            SumBy(AllPushes(input, order), Measured(m))
            == SumBy(RowPushes(input.rows, ByChannel(input.stats), input.now), Measured(m))
               + SumOver(rest.Keys, MapMeasure(rest, m, input.now))
               + SumBy(AdmittedIn(input, order), KnownMeasure(m, input.now))
  {
    var stats := ByChannel(input.stats);
    var rest := Leftover(input.rows, stats);
    var rows := RowPushes(input.rows, stats, input.now);
    var left := StatPushes(order, rest, input.now);
    var admitted := AdmittedIn(input, order);
    SumOfConcat(rows, left, Measured(m));
    SumOfConcat(rows + left, KnownPushes(admitted, input.now), Measured(m));
    SumOfMapped(left, order, Measured(m), MapMeasure(rest, m, input.now));
    SumOfDistinct(order, MapMeasure(rest, m, input.now));
    SumOfMapped(KnownPushes(admitted, input.now), admitted, Measured(m), KnownMeasure(m, input.now));
  }

  function RowKeys(rows: seq<MinerRow>): set<ChannelKey> {
    set row | row in rows :: row.key
  }

  /** A statistic is left over exactly when no row has its channel. */
  lemma {:induction false} LeftoverKeys(rows: seq<MinerRow>, stats: StatMap)
    ensures Leftover(rows, stats) == stats - RowKeys(rows)
  {
    if rows != [] {
      var before, last := rows[..|rows| - 1], rows[|rows| - 1];
      LeftoverKeys(before, stats);
      assert rows == before + [last];
      assert RowKeys(rows) == RowKeys(before) + {last.key};
    }
  }

  /** Taking one statistic out of the map takes its rejected shares out of the sum. */
  lemma RowTakesRejected(held: StatMap, row: MinerRow, now: U64)
    ensures var rest := held - {row.key};
            SumOver(held.Keys, MapMeasure(held, RejectedOf, now))
            == SumOver(rest.Keys, MapMeasure(rest, RejectedOf, now))
               + SessionFromRow(row, Lookup(held, row.key), now).rejected
  {
    var rest := held - {row.key};
    var f, g := MapMeasure(held, RejectedOf, now), MapMeasure(rest, RejectedOf, now);
    if row.key in held {
      SumOverTakes(held.Keys, f, row.key);
      assert rest.Keys == held.Keys - {row.key};
    } else {
      assert rest.Keys == held.Keys;
    }
    SumOverAgrees(rest.Keys, f, g);
  }

  /** Rejected shares taken by rows and those left over make up all rejected shares. */
  lemma {:induction false} RejectedIsShared(rows: seq<MinerRow>, stats: StatMap, now: U64)
    ensures var rest := Leftover(rows, stats);
            SumBy(RowPushes(rows, stats, now), Measured(RejectedOf))
            + SumOver(rest.Keys, MapMeasure(rest, RejectedOf, now))
            == SumOver(stats.Keys, MapMeasure(stats, RejectedOf, now))
  {
    if rows != [] {
      var before, row := rows[..|rows| - 1], rows[|rows| - 1];
      RejectedIsShared(before, stats, now);
      var held := Leftover(before, stats);
      RowTakesRejected(held, row, now);
      var p := Push(row.userIdentity, SessionFromRow(row, Lookup(held, row.key), now));
      SumOfSnoc(RowPushes(before, stats, now), p, Measured(RejectedOf));
      assert Measured(RejectedOf)(p) == p.session.rejected;
    }
  }

  /** Accepted shares of a row are its own, whether or not a statistic matches. */
  lemma {:induction false} AcceptedOfRows(rows: seq<MinerRow>, stats: StatMap, now: U64)
    ensures SumBy(RowPushes(rows, stats, now), Measured(AcceptedOf)) == SumBy(rows, AcceptedOfRow)
    ensures SumBy(RowPushes(rows, stats, now), Measured(One)) == |rows|
  {
    if rows != [] {
      var before, row := rows[..|rows| - 1], rows[|rows| - 1];
      AcceptedOfRows(before, stats, now);
      var p := Push(row.userIdentity, SessionFromRow(row, Lookup(Leftover(before, stats), row.key), now));
      SumOfSnoc(RowPushes(before, stats, now), p, Measured(AcceptedOf));
      SumOfSnoc(RowPushes(before, stats, now), p, Measured(One));
      assert p.session.accepted == row.accepted;
      assert Measured(AcceptedOf)(p) == AcceptedOf(p.session) == row.accepted;
      assert Measured(One)(p) == One(p.session) == 1;
      assert RowPushes(rows, stats, now) == RowPushes(before, stats, now) + [p];
    }
  }

  ghost predicate DistinctKeys(stats: seq<Stat>) {
    forall i, j :: 0 <= i < j < |stats| ==> stats[i].key != stats[j].key
  }

  lemma {:induction false} ByChannelKeys(stats: seq<Stat>)
    ensures ByChannel(stats).Keys == set s | s in stats :: s.key
  {
    if stats != [] {
      ByChannelKeys(stats[..|stats| - 1]);
      assert stats == stats[..|stats| - 1] + [stats[|stats| - 1]];
    }
  }

  /** A measure that counts a statistic only when no row has its channel. */
  function Unmatched(keys: set<ChannelKey>, f: Stat -> nat): Stat -> nat {
    (s: Stat) => if s.key in keys then 0 else f(s)
  }

  /** One more statistic on a channel of its own adds its measure, unless its channel is cut out. */
  lemma ByChannelAdds(held: StatMap, last: Stat, keys: set<ChannelKey>, m: Measure, now: U64)
    requires last.key !in held
    ensures var before, after := held - keys, held[last.key := last] - keys;
            SumOver(after.Keys, MapMeasure(after, m, now))
            == SumOver(before.Keys, MapMeasure(before, m, now)) + Unmatched(keys, StatMeasure(m, now))(last)
  {
    var before, after := held - keys, held[last.key := last] - keys;
    var f, g := MapMeasure(before, m, now), MapMeasure(after, m, now);
    if last.key in keys {
      assert after == before;
    } else {
      SumOverTakes(after.Keys, g, last.key);
      assert after.Keys - {last.key} == before.Keys;
      SumOverAgrees(before.Keys, f, g);
    }
  }

  /** With distinct channels, sums over the map without some channels are sums over the list. */
  lemma {:induction false} ByChannelSum(stats: seq<Stat>, keys: set<ChannelKey>, m: Measure, now: U64)
    requires DistinctKeys(stats)
    ensures var rest := ByChannel(stats) - keys;
            SumOver(rest.Keys, MapMeasure(rest, m, now)) == SumBy(stats, Unmatched(keys, StatMeasure(m, now)))
  {
    if stats == [] {
      assert (ByChannel(stats) - keys).Keys == {};
    } else {
      var before, last := stats[..|stats| - 1], stats[|stats| - 1];
      ByChannelSum(before, keys, m, now);
      ByChannelKeys(before);
      assert last.key !in ByChannel(before);
      ByChannelAdds(ByChannel(before), last, keys, m, now);
    }
  }

  // ----- Conservation -----

  lemma OrderIsLeftover(input: Input, order: seq<ChannelKey>)
    requires IsOrderOf(order, Leftover(input.rows, ByChannel(input.stats)))
    ensures forall key :: key in order ==> key in Leftover(input.rows, ByChannel(input.stats))
  {
  }

  /** The total of a measure over the workers returned, by source. */
  lemma {:induction false} BuildTotal(input: Input, order: seq<ChannelKey>, list: seq<Worker>, m: Measure)
    requires IsBuild(input, order, list) && DistinctKeys(input.stats)
    ensures forall key :: key in order ==> key in Leftover(input.rows, ByChannel(input.stats))
    ensures SumBy(list, Total(m))
            == SumBy(RowPushes(input.rows, ByChannel(input.stats), input.now), Measured(m))
               + SumBy(input.stats, Unmatched(RowKeys(input.rows), StatMeasure(m, input.now)))
               + SumBy(AdmittedIn(input, order), KnownMeasure(m, input.now))
  {
    OrderIsLeftover(input, order);
    ListedTotal(list, Grouped(input.env, AllPushes(input, order)), m);
    GroupedTotal(input.env, AllPushes(input, order), m);
    PushesSplit(input, order, m);
    LeftoverKeys(input.rows, ByChannel(input.stats));
    ByChannelSum(input.stats, RowKeys(input.rows), m, input.now);
  }

  /** The session read from a statistic carries its share counts. */
  lemma StatFields(stat: Stat, keys: set<ChannelKey>, now: U64)
    ensures Unmatched(keys, StatMeasure(AcceptedOf, now))(stat) == Unmatched(keys, AcceptedOfStat)(stat)
    ensures Unmatched(keys, StatMeasure(One, now))(stat) == Unmatched(keys, OneStat)(stat)
    ensures Unmatched({}, StatMeasure(RejectedOf, now))(stat) == RejectedOfStat(stat)
  {
    var session := SessionFromStat(stat, now);
    assert StatMeasure(AcceptedOf, now)(stat) == AcceptedOf(session);
    assert StatMeasure(RejectedOf, now)(stat) == RejectedOf(session);
    assert StatMeasure(One, now)(stat) == One(session);
    assert Unmatched(keys, AcceptedOfStat)(stat) == if stat.key in keys then 0 else AcceptedOfStat(stat);
    assert Unmatched(keys, OneStat)(stat) == if stat.key in keys then 0 else OneStat(stat);
  }

  lemma {:induction false} AllStatsRejected(stats: seq<Stat>, now: U64)
    requires DistinctKeys(stats)
    ensures SumOver(ByChannel(stats).Keys, MapMeasure(ByChannel(stats), RejectedOf, now))
            == SumBy(stats, RejectedOfStat)
  {
    ByChannelSum(stats, {}, RejectedOf, now);
    assert ByChannel(stats) - {} == ByChannel(stats);
    forall i | 0 <= i < |stats|
      ensures Unmatched({}, StatMeasure(RejectedOf, now))(stats[i]) == RejectedOfStat(stats[i])
    {
      StatFields(stats[i], {}, now);
    }
    SumOfMapped(stats, stats, Unmatched({}, StatMeasure(RejectedOf, now)), RejectedOfStat);
  }

  lemma {:induction false} RowsAndLeftoverRejected(rows: seq<MinerRow>, stats: seq<Stat>, now: U64)
    requires DistinctKeys(stats)
    ensures SumBy(RowPushes(rows, ByChannel(stats), now), Measured(RejectedOf))
            + SumBy(stats, Unmatched(RowKeys(rows), StatMeasure(RejectedOf, now)))
            == SumBy(stats, RejectedOfStat)
  {
    RejectedIsShared(rows, ByChannel(stats), now);
    LeftoverKeys(rows, ByChannel(stats));
    ByChannelSum(stats, RowKeys(rows), RejectedOf, now);
    AllStatsRejected(stats, now);
  }

  lemma {:induction false} SumOfOnes<T>(xs: seq<T>, f: T -> nat)
    requires forall i :: 0 <= i < |xs| ==> f(xs[i]) == 1
    ensures SumBy(xs, f) == |xs|
  {
    if xs != [] {
      SumOfOnes(xs[..|xs| - 1], f);
    }
  }

  /** The totals of finalized workers are the sums over their sessions. */
  lemma {:induction false} WorkerFieldsAreTotals(list: seq<Worker>, workers: Workers)
    requires Lists(list, workers, workers.Keys)
    ensures SumBy(list, SharesOfWorker) == SumBy(list, Total(AcceptedOf))
    ensures SumBy(list, RejectedOfWorker) == SumBy(list, Total(RejectedOf))
    ensures SumBy(list, SessionsOfWorker) == SumBy(list, Total(One))
  {
    SumOfMapped(list, list, SharesOfWorker, Total(AcceptedOf));
    SumOfMapped(list, list, RejectedOfWorker, Total(RejectedOf));
    forall i | 0 <= i < |list|
      ensures SessionsOfWorker(list[i]) == Total(One)(list[i])
    {
      SumOfOnes(list[i].sessions, One);
    }
    SumOfMapped(list, list, SessionsOfWorker, Total(One));
  }

  lemma {:induction false} KnownFields(known: seq<Known>, now: U64)
    ensures SumBy(known, KnownMeasure(RejectedOf, now)) == SumBy(known, RejectedOfKnown)
    ensures SumBy(known, KnownMeasure(AcceptedOf, now)) == SumBy(known, AcceptedOfKnown)
    ensures SumBy(known, KnownMeasure(One, now)) == |known|
  {
    forall i | 0 <= i < |known|
      ensures KnownMeasure(RejectedOf, now)(known[i]) == RejectedOfKnown(known[i])
      ensures KnownMeasure(AcceptedOf, now)(known[i]) == AcceptedOfKnown(known[i])
      ensures KnownMeasure(One, now)(known[i]) == 1
    {
      var session := SessionFromKnown(known[i], now);
      assert KnownMeasure(RejectedOf, now)(known[i]) == RejectedOf(session);
      assert KnownMeasure(AcceptedOf, now)(known[i]) == AcceptedOf(session);
      assert KnownMeasure(One, now)(known[i]) == One(session);
    }
    SumOfMapped(known, known, KnownMeasure(RejectedOf, now), RejectedOfKnown);
    SumOfMapped(known, known, KnownMeasure(AcceptedOf, now), AcceptedOfKnown);
    SumOfOnes(known, KnownMeasure(One, now));
  }

  lemma {:induction false} UnmatchedFields(stats: seq<Stat>, keys: set<ChannelKey>, now: U64)
    ensures SumBy(stats, Unmatched(keys, StatMeasure(AcceptedOf, now))) == SumBy(stats, Unmatched(keys, AcceptedOfStat))
    ensures SumBy(stats, Unmatched(keys, StatMeasure(One, now))) == SumBy(stats, Unmatched(keys, OneStat))
  {
    forall i | 0 <= i < |stats|
      ensures Unmatched(keys, StatMeasure(AcceptedOf, now))(stats[i]) == Unmatched(keys, AcceptedOfStat)(stats[i])
      ensures Unmatched(keys, StatMeasure(One, now))(stats[i]) == Unmatched(keys, OneStat)(stats[i])
    {
      StatFields(stats[i], keys, now);
    }
    SumOfMapped(stats, stats, Unmatched(keys, StatMeasure(AcceptedOf, now)), Unmatched(keys, AcceptedOfStat));
    SumOfMapped(stats, stats, Unmatched(keys, StatMeasure(One, now)), Unmatched(keys, OneStat));
  }

  /**
   * With distinct channels, each statistic is consumed exactly once: the
   * rejected shares of all workers are those of all statistics and of the
   * admitted known miners.
   */
  lemma {:induction false} RejectedIsConserved(input: Input, order: seq<ChannelKey>, list: seq<Worker>)
    requires IsBuild(input, order, list) && DistinctKeys(input.stats)
    ensures forall key :: key in order ==> key in Leftover(input.rows, ByChannel(input.stats))
    ensures SumBy(list, RejectedOfWorker)
            == SumBy(input.stats, RejectedOfStat) + SumBy(AdmittedIn(input, order), RejectedOfKnown)
  {
    BuildTotal(input, order, list, RejectedOf);
    RowsAndLeftoverRejected(input.rows, input.stats, input.now);
    KnownFields(AdmittedIn(input, order), input.now);
    WorkerFieldsAreTotals(list, Grouped(input.env, AllPushes(input, order)));
  }

  /**
   * Accepted shares and sessions come from the rows, from the statistics
   * without a row and from the admitted known miners.
   */
  lemma {:induction false} AcceptedAndSessionsAreConserved(input: Input, order: seq<ChannelKey>, list: seq<Worker>)
    requires IsBuild(input, order, list) && DistinctKeys(input.stats)
    ensures forall key :: key in order ==> key in Leftover(input.rows, ByChannel(input.stats))
    ensures SumBy(list, SharesOfWorker)
            == SumBy(input.rows, AcceptedOfRow)
               + SumBy(input.stats, Unmatched(RowKeys(input.rows), AcceptedOfStat))
               + SumBy(AdmittedIn(input, order), AcceptedOfKnown)
    ensures SumBy(list, SessionsOfWorker)
            == |input.rows|
               + SumBy(input.stats, Unmatched(RowKeys(input.rows), OneStat))
               + |AdmittedIn(input, order)|
  {
    BuildTotal(input, order, list, AcceptedOf);
    BuildTotal(input, order, list, One);
    AcceptedOfRows(input.rows, ByChannel(input.stats), input.now);
    UnmatchedFields(input.stats, RowKeys(input.rows), input.now);
    KnownFields(AdmittedIn(input, order), input.now);
    WorkerFieldsAreTotals(list, Grouped(input.env, AllPushes(input, order)));
  }
}
