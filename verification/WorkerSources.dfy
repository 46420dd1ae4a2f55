/**
 * The workers returned against the records they are built from: every session
 * shows one monitored channel, statistic or known miner, and every figure of a
 * worker is that of its sources.
 */
module WorkerSources {
  import opened Words
  import opened Sums
  import opened RealSums
  import opened Collecting
  import opened MinerHistory
  import opened MinerWorkers
  import opened WorkerBuild
  import opened WorkerTotals
  import opened WorkerSessions
  import opened WorkerNames

  // ----- Sources -----

  /** A record that a session is read from; a monitored channel with the statistic that belongs to it. */
  datatype Source =
    | RowSource(row: MinerRow, matched: Option<Stat>)
    | StatSource(stat: Stat)
    | KnownSource(known: Known)

  function TextOf(s: Source): string {
    match s
    case RowSource(row, _) => row.userIdentity
    case StatSource(stat) => stat.userIdentity
    case KnownSource(known) => known.row.userIdentity
  }

  predicate IsLive(s: Source) {
    match s
    case RowSource(row, _) => row.connected
    case StatSource(stat) => stat.closedAt.None?
    case KnownSource(known) => known.row.connected
  }

  /** The hashrate of a source while it is live. */
  function RateOf(s: Source): real {
    if !IsLive(s) then 0.0
    else
      match s
      case RowSource(row, _) => row.hashrate
      case StatSource(stat) => stat.hashrate
      case KnownSource(known) => known.row.hashrate
  }

  function DiffOf(s: Source): real {
    match s
    case RowSource(row, _) => row.bestDiff
    case StatSource(stat) => stat.bestDiff
    case KnownSource(known) => known.row.bestDiff
  }

  function SharesOf(s: Source): nat {
    match s
    case RowSource(row, _) => row.accepted
    case StatSource(stat) => stat.accepted
    case KnownSource(known) => known.row.accepted
  }

  function RefusedOf(s: Source): nat {
    match s
    case RowSource(_, stat) => if stat.Some? then stat.value.rejected else 0
    case StatSource(stat) => stat.rejected
    case KnownSource(known) => known.row.rejected
  }

  /** The times of a statistic. */
  predicate TimesOfStat(s: Session, stat: Stat, now: U64) {
    && s.openedAt == Some(stat.openedAt) && s.closedAt == stat.closedAt && s.lastSeen == Some(stat.lastSeen)
    && (stat.closedAt.Some? && stat.closedAt.value >= stat.openedAt ==>
          s.uptime == Some(stat.closedAt.value - stat.openedAt))
    && (stat.closedAt.None? && now >= stat.openedAt ==> s.uptime == Some(now - stat.openedAt))
    && (stat.closedAt.GetOr(now) < stat.openedAt ==> s.uptime == Some(0))
  }

  /** The times are those of the statistic; without one a row has only its own last-seen time. */
  predicate ShowsTimes(s: Session, source: Source, now: U64) {
    match source
    case RowSource(row, stat) =>
      if stat.Some? then TimesOfStat(s, stat.value, now)
      else s.openedAt.None? && s.closedAt.None? && s.uptime.None? && s.lastSeen == row.lastSeen
    case StatSource(stat) => TimesOfStat(s, stat, now)
    case KnownSource(known) =>
      && s.openedAt == known.row.openedAt && s.closedAt == known.row.closedAt && s.lastSeen == Some(known.row.lastSeen)
      && (!known.row.connected ==> s.uptime == known.row.uptime)
      && (known.row.connected && known.row.openedAt.None? ==> s.uptime.None?)
      && (known.row.connected && known.row.openedAt.Some? ==>
            s.uptime == Some(if now >= known.row.openedAt.value then now - known.row.openedAt.value else 0))
  }

  predicate ShowsChannel(s: Session, source: Source) {
    match source
    case RowSource(row, _) => s.id == OfChannel(row.key) && s.client == row.key.client && s.channel == row.key.channel
    case StatSource(stat) => s.id == OfChannel(stat.key) && s.client == stat.key.client && s.channel == stat.key.channel
    case KnownSource(known) => s.id == OfKnown(known.minerId) && s.client == 0 && s.channel == 0
  }

  /** The session shows exactly what its source says. */
  predicate Shows(s: Session, source: Source, now: U64) {
    && ShowsChannel(s, source) && ShowsTimes(s, source, now)
    && (s.connected <==> IsLive(source)) && s.hashrate == RateOf(source) && s.bestDiff == DiffOf(source)
    && s.accepted == SharesOf(source) && s.rejected == RefusedOf(source)
  }

  // ----- The sources of a build -----

  /** The last statistic of a channel. */
  function LastStat(stats: seq<Stat>, key: ChannelKey): Option<Stat> {
    if stats == [] then None
    else if stats[|stats| - 1].key == key then Some(stats[|stats| - 1])
    else LastStat(stats[..|stats| - 1], key)
  }

  /** The statistic of a row: the last of its channel, unless an earlier row has the same channel. */
  function MatchOf(rows: seq<MinerRow>, stats: seq<Stat>, i: nat): Option<Stat>
    requires i < |rows|
  {
    if exists j :: 0 <= j < i && rows[j].key == rows[i].key then None else LastStat(stats, rows[i].key)
  }

  function RowSources(rows: seq<MinerRow>, stats: seq<Stat>): seq<Source> {
    seq(|rows|, i requires 0 <= i < |rows| => RowSource(rows[i], MatchOf(rows, stats, i)))
  }

  function StatSources(order: seq<ChannelKey>, stats: seq<Stat>): seq<Source>
    requires forall key :: key in order ==> LastStat(stats, key).Some?
  {
    seq(|order|, i requires 0 <= i < |order| => StatSource(LastStat(stats, order[i]).value))
  }

  function KnownSources(known: seq<Known>): seq<Source> {
    seq(|known|, i requires 0 <= i < |known| => KnownSource(known[i]))
  }

  lemma {:induction false} LastStatIsByChannel(stats: seq<Stat>, key: ChannelKey)
    ensures LastStat(stats, key) == Lookup(ByChannel(stats), key)
  {
    if stats != [] {
      LastStatIsByChannel(stats[..|stats| - 1], key);
    }
  }

  lemma OrderHasStats(input: Input, order: seq<ChannelKey>)
    requires IsOrderOf(order, Leftover(input.rows, ByChannel(input.stats)))
    ensures forall key :: key in order ==> key in Leftover(input.rows, ByChannel(input.stats))
    ensures forall key :: key in order ==> LastStat(input.stats, key).Some?
    ensures forall key :: key in order ==>
                            LastStat(input.stats, key).value == Leftover(input.rows, ByChannel(input.stats))[key]
  {
    OrderIsLeftover(input, order);
    LeftoverKeys(input.rows, ByChannel(input.stats));
    forall key | key in order
      ensures LastStat(input.stats, key).Some?
      ensures LastStat(input.stats, key).value == Leftover(input.rows, ByChannel(input.stats))[key]
    {
      LastStatIsByChannel(input.stats, key);
    }
  }

  /** All sources, in the order in which they are pushed. */
  function Sources(input: Input, order: seq<ChannelKey>): seq<Source>
    requires forall key :: key in order ==> key in Leftover(input.rows, ByChannel(input.stats))
    requires forall key :: key in order ==> LastStat(input.stats, key).Some?
  {
    RowSources(input.rows, input.stats) + StatSources(order, input.stats) + KnownSources(AdmittedIn(input, order))
  }

  // ----- Pushes show sources -----

  ghost predicate Aligned(pushes: seq<Push>, sources: seq<Source>, now: U64) {
    && |pushes| == |sources|
    && forall i :: 0 <= i < |pushes| ==>
                     pushes[i].userIdentity == TextOf(sources[i]) && Shows(pushes[i].session, sources[i], now)
  }

  lemma AlignedConcat(pushes: seq<Push>, sources: seq<Source>, more: seq<Push>, others: seq<Source>, now: U64)
    requires Aligned(pushes, sources, now) && Aligned(more, others, now)
    ensures Aligned(pushes + more, sources + others, now)
  {
  }

  lemma RowShows(row: MinerRow, stat: Option<Stat>, now: U64)
    ensures Shows(SessionFromRow(row, stat, now), RowSource(row, stat), now)
  {
  }

  lemma StatShows(stat: Stat, now: U64)
    ensures Shows(SessionFromStat(stat, now), StatSource(stat), now)
  {
  }

  lemma KnownShows(known: Known, now: U64)
    ensures Shows(SessionFromKnown(known, now), KnownSource(known), now)
  {
  }

  lemma {:induction false} MatchIsTaken(rows: seq<MinerRow>, stats: seq<Stat>, i: nat)
    requires i < |rows|
    ensures MatchOf(rows, stats, i) == Lookup(Leftover(rows[..i], ByChannel(stats)), rows[i].key)
  {
    LeftoverKeys(rows[..i], ByChannel(stats));
    LastStatIsByChannel(stats, rows[i].key);
    assert rows[i].key in RowKeys(rows[..i]) <==> exists j :: 0 <= j < i && rows[j].key == rows[i].key by {
      if j :| 0 <= j < i && rows[j].key == rows[i].key {
        assert rows[..i][j] in rows[..i];
      }
    }
  }

  lemma {:induction false} RowsAlign(rows: seq<MinerRow>, stats: seq<Stat>, now: U64)
    ensures Aligned(RowPushes(rows, ByChannel(stats), now), RowSources(rows, stats), now)
  {
    if rows != [] {
      var before, last := rows[..|rows| - 1], |rows| - 1;
      RowsAlign(before, stats, now);
      MatchIsTaken(rows, stats, last);
      RowShows(rows[last], MatchOf(rows, stats, last), now);
      RowSourcesSnoc(rows, stats);
      AlignedConcat(RowPushes(before, ByChannel(stats), now), RowSources(before, stats),
                    [Push(rows[last].userIdentity, SessionFromRow(rows[last], MatchOf(rows, stats, last), now))],
                    [RowSource(rows[last], MatchOf(rows, stats, last))], now);
    }
  }

  lemma RowSourcesSnoc(rows: seq<MinerRow>, stats: seq<Stat>)
    requires rows != []
    ensures var last := |rows| - 1;
            RowSources(rows, stats)
            == RowSources(rows[..last], stats) + [RowSource(rows[last], MatchOf(rows, stats, last))]
  {
    var before := rows[..|rows| - 1];
    forall i | 0 <= i < |before|
      ensures MatchOf(before, stats, i) == MatchOf(rows, stats, i)
    {
      assert forall j :: 0 <= j <= i ==> before[j] == rows[j];
    }
  }

  lemma StatsAlign(input: Input, order: seq<ChannelKey>)
    requires IsOrderOf(order, Leftover(input.rows, ByChannel(input.stats)))
    ensures forall key :: key in order ==> key in Leftover(input.rows, ByChannel(input.stats))
    ensures forall key :: key in order ==> LastStat(input.stats, key).Some?
    ensures Aligned(StatPushes(order, Leftover(input.rows, ByChannel(input.stats)), input.now),
                    StatSources(order, input.stats), input.now)
  {
    OrderHasStats(input, order);
    forall i | 0 <= i < |order|
      ensures Shows(SessionFromStat(LastStat(input.stats, order[i]).value, input.now),
                    StatSource(LastStat(input.stats, order[i]).value), input.now)
    {
      StatShows(LastStat(input.stats, order[i]).value, input.now);
    }
  }

  lemma KnownAlign(known: seq<Known>, now: U64)
    ensures Aligned(KnownPushes(known, now), KnownSources(known), now)
  {
    forall i | 0 <= i < |known|
      ensures Shows(SessionFromKnown(known[i], now), KnownSource(known[i]), now)
    {
      KnownShows(known[i], now);
    }
  }

  lemma SourcesAlign(input: Input, order: seq<ChannelKey>)
    requires IsOrderOf(order, Leftover(input.rows, ByChannel(input.stats)))
    ensures forall key :: key in order ==> key in Leftover(input.rows, ByChannel(input.stats))
    ensures forall key :: key in order ==> LastStat(input.stats, key).Some?
    ensures Aligned(AllPushes(input, order), Sources(input, order), input.now)
  {
    var rest := Leftover(input.rows, ByChannel(input.stats));
    StatsAlign(input, order);
    RowsAlign(input.rows, input.stats, input.now);
    KnownAlign(AdmittedIn(input, order), input.now);
    AlignedConcat(RowPushes(input.rows, ByChannel(input.stats), input.now), RowSources(input.rows, input.stats),
                  StatPushes(order, rest, input.now), StatSources(order, input.stats), input.now);
    AlignedConcat(LivePushes(input, order), RowSources(input.rows, input.stats) + StatSources(order, input.stats),
                  KnownPushes(AdmittedIn(input, order), input.now), KnownSources(AdmittedIn(input, order)), input.now);
  }

  // ----- The sources of a worker -----

  function SourceFor(env: Env, id: string): Source -> seq<Source> {
    (s: Source) => if WorkerId(env, TextOf(s)) == id then [s] else []
  }

  /** The sources whose identity names the worker, in order. */
  function SourcesOf(env: Env, sources: seq<Source>, id: string): seq<Source> {
    Collect(sources, SourceFor(env, id))
  }

  ghost predicate AllShown(sessions: seq<Session>, sources: seq<Source>, now: U64) {
    |sessions| == |sources| && forall k :: 0 <= k < |sessions| ==> Shows(sessions[k], sources[k], now)
  }

  lemma SessionsShowSources(
      env: Env, pushes: seq<Push>, sources: seq<Source>, now: U64, id: string)
    requires Aligned(pushes, sources, now)
    ensures AllShown(SessionsOf(env, pushes, id), SourcesOf(env, sources, id), now)
  {
    if pushes != [] {
      var last := |pushes| - 1;
      SessionsShowSources(env, pushes[..last], sources[..last], now, id);
      assert AllShown(SessionFor(env, id)(pushes[last]), SourceFor(env, id)(sources[last]), now);
    }
  }

  // ----- Figures of a worker from its sources -----

  lemma {:induction false} HashrateIsSum(sessions: seq<Session>)
    ensures TotalHashrate(Connected(sessions)) == RealSum(sessions, HashrateOf)
  {
    if sessions == [] {
    } else {
      var before, last := sessions[..|sessions| - 1], sessions[|sessions| - 1];
      HashrateIsSum(before);
      assert sessions == before + ([last] + []);
      HashrateConcat(before, [last] + []);
      HashrateOfCons(last, []);
    }
  }

  lemma {:induction false} SumsOfShown(sessions: seq<Session>, sources: seq<Source>, now: U64)
    requires AllShown(sessions, sources, now)
    ensures SumBy(sessions, AcceptedOf) == SumBy(sources, SharesOf)
    ensures SumBy(sessions, RejectedOf) == SumBy(sources, RefusedOf)
    ensures TotalHashrate(Connected(sessions)) == RealSum(sources, RateOf)
  {
    SumOfMapped(sessions, sources, AcceptedOf, SharesOf);
    SumOfMapped(sessions, sources, RejectedOf, RefusedOf);
    HashrateIsSum(sessions);
    RealSumOfMapped(sessions, sources, HashrateOf, RateOf);
  }

  /** The largest of zero and the difficulties of the sources. */
  ghost predicate IsBestDiff(d: real, sources: seq<Source>) {
    && d >= 0.0 && (forall s :: s in sources ==> DiffOf(s) <= d)
    && (d > 0.0 ==> exists s :: s in sources && DiffOf(s) == d)
  }

  lemma BestOfShown(id: string, entry: Entry, sources: seq<Source>, now: U64)
    requires AllShown(entry.sessions, sources, now)
    ensures IsBestDiff(Finalized(id, entry).bestDiff, sources)
  {
    var w := Finalized(id, entry);
    FinalizedMeasures(id, entry);
    forall s | s in sources
      ensures DiffOf(s) <= w.bestDiff
    {
      var k :| 0 <= k < |sources| && sources[k] == s;
      assert entry.sessions[k] in entry.sessions;
    }
    if w.bestDiff > 0.0 {
      var t :| t in entry.sessions && t.bestDiff == w.bestDiff;
      var k :| 0 <= k < |entry.sessions| && entry.sessions[k] == t;
      assert sources[k] in sources && DiffOf(sources[k]) == w.bestDiff;
    }
  }

  lemma LiveOfShown(sessions: seq<Session>, sources: seq<Source>, now: U64)
    requires AllShown(sessions, sources, now)
    ensures (exists s :: s in sessions && s.connected) <==> (exists s :: s in sources && IsLive(s))
  {
    if s :| s in sessions && s.connected {
      var k :| 0 <= k < |sessions| && sessions[k] == s;
      assert sources[k] in sources && IsLive(sources[k]);
    }
    if s :| s in sources && IsLive(s) {
      var k :| 0 <= k < |sources| && sources[k] == s;
      assert sessions[k] in sessions && sessions[k].connected;
    }
  }

  /** The worker sums up its sources. */
  ghost predicate SumsUp(w: Worker, sources: seq<Source>) {
    && w.sessionCount == |sources|
    && w.totalShares == SumBy(sources, SharesOf)
    && w.totalRejected == SumBy(sources, RefusedOf)
    && w.totalHashrate == RealSum(sources, RateOf)
    && (w.connected <==> exists s :: s in sources && IsLive(s))
    && IsBestDiff(w.bestDiff, sources)
  }

  /** Its sessions are those of its sources, in some order. */
  ghost predicate SessionsShow(w: Worker, sources: seq<Source>, now: U64) {
    exists shown: seq<Session> :: multiset(shown) == multiset(w.sessions) && AllShown(shown, sources, now)
  }

  lemma EntrySumsUp(id: string, entry: Entry, sources: seq<Source>, now: U64)
    requires AllShown(entry.sessions, sources, now)
    ensures SumsUp(Finalized(id, entry), sources) && SessionsShow(Finalized(id, entry), sources, now)
  {
    FinalizedSummarises(id, entry);
    FinalizedMeasures(id, entry);
    SumsOfShown(entry.sessions, sources, now);
    LiveOfShown(entry.sessions, sources, now);
    BestOfShown(id, entry, sources, now);
  }

  // ----- Who a worker is -----

  function TextFor(env: Env, id: string): Push -> Option<string> {
    (p: Push) => if WorkerId(env, p.userIdentity) == id then Some(p.userIdentity) else None
  }

  function EntryText(workers: Workers, id: string): Option<string> {
    if id in workers then Some(workers[id].userIdentity) else None
  }

  lemma PushedText(env: Env, workers: Workers, p: Push, id: string)
    ensures EntryText(Pushed(env, workers, p), id) == NextOf(EntryText(workers, id), TextFor(env, id)(p))
  {
  }

  /** A worker keeps the identity text under which it is first pushed. */
  lemma {:induction false} GroupedText(env: Env, pushes: seq<Push>, id: string)
    ensures EntryText(Grouped(env, pushes), id) == FirstOf(pushes, TextFor(env, id))
  {
    if pushes != [] {
      GroupedText(env, pushes[..|pushes| - 1], id);
      PushedText(env, Grouped(env, pushes[..|pushes| - 1]), pushes[|pushes| - 1], id);
    }
  }

  lemma {:induction false} FirstSource(env: Env, pushes: seq<Push>, sources: seq<Source>, now: U64, id: string)
    requires Aligned(pushes, sources, now)
    ensures var mine := SourcesOf(env, sources, id);
            FirstOf(pushes, TextFor(env, id)) == if mine == [] then None else Some(TextOf(mine[0]))
  {
    if pushes != [] {
      var last := |pushes| - 1;
      FirstSource(env, pushes[..last], sources[..last], now, id);
    }
  }

  lemma {:induction false} FirstNameIsOfFirstText(env: Env, pushes: seq<Push>, id: string)
    ensures NameOf(env, pushes, id)
            == match FirstOf(pushes, TextFor(env, id))
               case Some(text) => Some(LabelAndPayout(env, text))
               case None => None
  {
    if pushes != [] {
      FirstNameIsOfFirstText(env, pushes[..|pushes| - 1], id);
    }
  }

  lemma FinalizedIdentity(id: string, entry: Entry)
    ensures var w := Finalized(id, entry);
            && w.id == id && w.workerLabel == entry.workerLabel && w.payout == entry.payout
            && w.userIdentity == entry.userIdentity
  {
  }

  /** The worker is named by its first source. */
  ghost predicate NamedBy(env: Env, w: Worker, sources: seq<Source>) {
    && sources != [] && w.userIdentity == TextOf(sources[0])
    && (w.workerLabel, w.payout) == LabelAndPayout(env, TextOf(sources[0]))
    && w.id == WorkerId(env, TextOf(sources[0]))
  }

  lemma {:induction false} GroupedNamedBy(env: Env, pushes: seq<Push>, sources: seq<Source>, now: U64, id: string)
    requires Aligned(pushes, sources, now) && id in Grouped(env, pushes)
    ensures NamedBy(env, Finalized(id, Grouped(env, pushes)[id]), SourcesOf(env, sources, id))
  {
    GroupedText(env, pushes, id);
    GroupedName(env, pushes, id);
    FirstSource(env, pushes, sources, now, id);
    FirstNameIsOfFirstText(env, pushes, id);
    FinalizedIdentity(id, Grouped(env, pushes)[id]);
    var mine := SourcesOf(env, sources, id);
    CollectedFrom(sources, SourceFor(env, id), mine[0]);
  }

  /**
   * Every worker of a build against the records with its id: it is named by the
   * first of them, each of its sessions shows one of them and each is shown once,
   * and its counts, sums, connection and best difficulty are those of the records.
   */
  lemma WorkerShowsItsSources(input: Input, order: seq<ChannelKey>, list: seq<Worker>, i: nat)
    requires IsBuild(input, order, list) && i < |list|
    ensures forall key :: key in order ==> key in Leftover(input.rows, ByChannel(input.stats))
    ensures forall key :: key in order ==> LastStat(input.stats, key).Some?
    ensures var mine := SourcesOf(input.env, Sources(input, order), list[i].id);
            NamedBy(input.env, list[i], mine) && SumsUp(list[i], mine) && SessionsShow(list[i], mine, input.now)
  {
    SourcesAlign(input, order);
    var pushes, sources, id := AllPushes(input, order), Sources(input, order), list[i].id;
    SessionsShowSources(input.env, pushes, sources, input.now, id);
    GroupedSessions(input.env, pushes, id);
    GroupedNamedBy(input.env, pushes, sources, input.now, id);
    EntrySumsUp(id, Grouped(input.env, pushes)[id], SourcesOf(input.env, sources, id), input.now);
  }

  // ----- Conservation of hashrate -----

  function RateFor(env: Env, sources: seq<Source>): string -> real {
    (id: string) => RealSum(SourcesOf(env, sources, id), RateOf)
  }

  lemma RateForSnoc(env: Env, sources: seq<Source>, last: Source, id: string)
    ensures RateFor(env, sources + [last])(id)
            == RateFor(env, sources)(id) + if WorkerId(env, TextOf(last)) == id then RateOf(last) else 0.0
  {
    CollectSnoc(sources, last, SourceFor(env, id));
    if WorkerId(env, TextOf(last)) == id {
      RealSumOfSnoc(SourcesOf(env, sources, id), last, RateOf);
    } else {
      assert SourcesOf(env, sources + [last], id) == SourcesOf(env, sources, id);
    }
  }

  lemma {:induction false} NothingSums(ids: seq<string>, f: string -> real)
    requires forall id :: id in ids ==> f(id) == 0.0
    ensures RealSum(ids, f) == 0.0
  {
    if ids != [] {
      NothingSums(ids[..|ids| - 1], f);
    }
  }

  lemma {:induction false} RatesOneMore(env: Env, sources: seq<Source>, last: Source, ids: seq<string>)
    requires Distinct(ids) && WorkerId(env, TextOf(last)) in ids
    ensures RealSum(ids, RateFor(env, sources + [last])) == RealSum(ids, RateFor(env, sources)) + RateOf(last)
  {
    forall id | id in ids
      ensures RateFor(env, sources + [last])(id)
              == RateFor(env, sources)(id) + if WorkerId(env, TextOf(last)) == id then RateOf(last) else 0.0
    {
      RateForSnoc(env, sources, last, id);
    }
    RealSumRaised(ids, RateFor(env, sources), RateFor(env, sources + [last]), WorkerId(env, TextOf(last)),
                  RateOf(last));
  }

  /** Distinct ids that cover all sources share their hashrate out. */
  lemma {:induction false} RatesArePartitioned(env: Env, sources: seq<Source>, ids: seq<string>)
    requires Distinct(ids) && forall s :: s in sources ==> WorkerId(env, TextOf(s)) in ids
    ensures RealSum(ids, RateFor(env, sources)) == RealSum(sources, RateOf)
  {
    if sources == [] {
      NothingSums(ids, RateFor(env, sources));
    } else {
      var before, last := sources[..|sources| - 1], sources[|sources| - 1];
      assert sources == before + [last];
      RatesArePartitioned(env, before, ids);
      RatesOneMore(env, before, last, ids);
    }
  }

  function RateOfWorker(w: Worker): real {
    w.totalHashrate
  }

  lemma PushIsListed(input: Input, order: seq<ChannelKey>, list: seq<Worker>, p: Push)
    requires IsBuild(input, order, list)
    requires forall key :: key in order ==> key in Leftover(input.rows, ByChannel(input.stats))
    requires p in AllPushes(input, order)
    ensures WorkerId(input.env, p.userIdentity) in Ids(list)
  {
    GroupedKeys(input.env, AllPushes(input, order));
    IdsAreDistinct(list, Grouped(input.env, AllPushes(input, order)));
    assert WorkerId(input.env, p.userIdentity) in Elements(Ids(list));
  }

  lemma SourcesAreListed(input: Input, order: seq<ChannelKey>, list: seq<Worker>, s: Source)
    requires IsBuild(input, order, list)
    ensures forall key :: key in order ==> key in Leftover(input.rows, ByChannel(input.stats))
    ensures forall key :: key in order ==> LastStat(input.stats, key).Some?
    ensures s in Sources(input, order) ==> WorkerId(input.env, TextOf(s)) in Ids(list)
  {
    SourcesAlign(input, order);
    var pushes := AllPushes(input, order);
    if s in Sources(input, order) {
      var k :| 0 <= k < |pushes| && Sources(input, order)[k] == s;
      assert pushes[k] in pushes;
      PushIsListed(input, order, list, pushes[k]);
    }
  }

  lemma {:induction false} RateOfWorkers(input: Input, order: seq<ChannelKey>, list: seq<Worker>)
    requires IsBuild(input, order, list)
    ensures forall key :: key in order ==> key in Leftover(input.rows, ByChannel(input.stats))
    ensures forall key :: key in order ==> LastStat(input.stats, key).Some?
    ensures RealSum(list, RateOfWorker) == RealSum(Sources(input, order), RateOf)
  {
    OrderHasStats(input, order);
    var sources, ids := Sources(input, order), Ids(list);
    forall i | 0 <= i < |list|
      ensures RateOfWorker(list[i]) == RateFor(input.env, sources)(ids[i])
    {
      WorkerShowsItsSources(input, order, list, i);
    }
    RealSumOfMapped(list, ids, RateOfWorker, RateFor(input.env, sources));
    forall s | s in sources
      ensures WorkerId(input.env, TextOf(s)) in ids
    {
      SourcesAreListed(input, order, list, s);
    }
    IdsAreDistinct(list, Grouped(input.env, AllPushes(input, order)));
    RatesArePartitioned(input.env, sources, ids);
  }

  // ----- Hashrate by kind of source -----

  function RateOfRow(row: MinerRow): real {
    if row.connected then row.hashrate else 0.0
  }

  /** The hashrate of a statistic that is still open and whose channel is not among the given ones. */
  function RateUnless(keys: set<ChannelKey>): Stat -> real {
    (stat: Stat) => if stat.key in keys || stat.closedAt.Some? then 0.0 else stat.hashrate
  }

  function RateOfKnown(known: Known): real {
    if known.row.connected then known.row.hashrate else 0.0
  }

  /** The channels of the statistics, in order, without the given ones. */
  function KeysWithout(stats: seq<Stat>, keys: set<ChannelKey>): seq<ChannelKey> {
    if stats == [] then []
    else
      var last := stats[|stats| - 1];
      KeysWithout(stats[..|stats| - 1], keys) + if last.key in keys then [] else [last.key]
  }

  function KeysOf(stats: seq<Stat>): set<ChannelKey> {
    set s | s in stats :: s.key
  }

  lemma KeysOfSnoc(stats: seq<Stat>, last: Stat)
    ensures KeysOf(stats + [last]) == KeysOf(stats) + {last.key}
  {
  }

  lemma {:induction false} KeysWithoutAre(stats: seq<Stat>, keys: set<ChannelKey>)
    ensures Elements(KeysWithout(stats, keys)) == KeysOf(stats) - keys
  {
    if stats != [] {
      var before, last := stats[..|stats| - 1], stats[|stats| - 1];
      KeysWithoutAre(before, keys);
      assert stats == before + [last];
      KeysOfSnoc(before, last);
      if last.key in keys {
        assert KeysWithout(stats, keys) == KeysWithout(before, keys);
      } else {
        ElementsOfSnoc(KeysWithout(before, keys), last.key);
      }
    }
  }

  lemma {:induction false} NewKey(stats: seq<Stat>, keys: set<ChannelKey>, last: Stat)
    requires DistinctKeys(stats + [last])
    ensures last.key !in KeysWithout(stats, keys) && DistinctKeys(stats)
  {
    var all := stats + [last];
    assert all[|stats|] == last && forall i :: 0 <= i < |stats| ==> all[i] == stats[i];
    KeysWithoutAre(stats, keys);
    assert last.key in KeysWithout(stats, keys) ==> last.key in Elements(KeysWithout(stats, keys));
  }

  lemma {:induction false} KeysWithoutDistinct(stats: seq<Stat>, keys: set<ChannelKey>)
    requires DistinctKeys(stats)
    ensures Distinct(KeysWithout(stats, keys))
  {
    if stats != [] {
      var before, last := stats[..|stats| - 1], stats[|stats| - 1];
      assert stats == before + [last];
      NewKey(before, keys, last);
      KeysWithoutDistinct(before, keys);
    }
  }

  function RateAt(stats: seq<Stat>): ChannelKey -> real {
    (key: ChannelKey) =>
      if LastStat(stats, key).Some? then RateOf(StatSource(LastStat(stats, key).value)) else 0.0
  }

  lemma {:induction false} RatesByKey(stats: seq<Stat>, all: seq<Stat>, keys: set<ChannelKey>)
    requires forall s :: s in stats ==> LastStat(all, s.key) == Some(s)
    ensures RealSum(KeysWithout(stats, keys), RateAt(all)) == RealSum(stats, RateUnless(keys))
  {
    if stats != [] {
      var before, last := stats[..|stats| - 1], stats[|stats| - 1];
      assert stats == before + [last];
      RatesByKey(before, all, keys);
      if last.key !in keys {
        RealSumOfSnoc(KeysWithout(before, keys), last.key, RateAt(all));
      } else {
        assert KeysWithout(stats, keys) == KeysWithout(before, keys);
      }
    }
  }

  lemma {:induction false} LastStatIsOnly(stats: seq<Stat>, s: Stat)
    requires DistinctKeys(stats) && s in stats
    ensures LastStat(stats, s.key) == Some(s)
  {
    var before, last := stats[..|stats| - 1], stats[|stats| - 1];
    assert stats == before + [last];
    if s != last {
      LastStatIsOnly(before, s);
      var i :| 0 <= i < |before| && stats[i] == s;
    }
  }

  lemma RateOfStats(input: Input, order: seq<ChannelKey>)
    requires IsOrderOf(order, Leftover(input.rows, ByChannel(input.stats))) && DistinctKeys(input.stats)
    requires forall key :: key in order ==> LastStat(input.stats, key).Some?
    ensures RealSum(StatSources(order, input.stats), RateOf)
            == RealSum(input.stats, RateUnless(RowKeys(input.rows)))
  {
    var keys := RowKeys(input.rows);
    RealSumOfMapped(StatSources(order, input.stats), order, RateOf, RateAt(input.stats));
    LeftoverKeys(input.rows, ByChannel(input.stats));
    ByChannelKeys(input.stats);
    KeysWithoutAre(input.stats, keys);
    KeysWithoutDistinct(input.stats, keys);
    DistinctIsSet(order);
    DistinctIsSet(KeysWithout(input.stats, keys));
    RealSumOfPermutation(order, KeysWithout(input.stats, keys), RateAt(input.stats));
    forall s | s in input.stats
      ensures LastStat(input.stats, s.key) == Some(s)
    {
      LastStatIsOnly(input.stats, s);
    }
    RatesByKey(input.stats, input.stats, keys);
  }

  /**
   * With distinct channels, the hashrate of all workers is that of the connected
   * rows, of the open statistics without a row, and of the connected known miners
   * that were admitted.
   */
  lemma {:induction false} HashrateIsConserved(input: Input, order: seq<ChannelKey>, list: seq<Worker>)
    requires IsBuild(input, order, list) && DistinctKeys(input.stats)
    ensures forall key :: key in order ==> key in Leftover(input.rows, ByChannel(input.stats))
    ensures RealSum(list, RateOfWorker)
            == RealSum(input.rows, RateOfRow)
               + RealSum(input.stats, RateUnless(RowKeys(input.rows)))
               + RealSum(AdmittedIn(input, order), RateOfKnown)
  {
    OrderHasStats(input, order);
    RateOfWorkers(input, order, list);
    var rows, stats := RowSources(input.rows, input.stats), StatSources(order, input.stats);
    var known := KnownSources(AdmittedIn(input, order));
    RealSumOfConcat(rows + stats, known, RateOf);
    RealSumOfConcat(rows, stats, RateOf);
    RealSumOfMapped(rows, input.rows, RateOf, RateOfRow);
    RateOfStats(input, order);
    RealSumOfMapped(known, AdmittedIn(input, order), RateOf, RateOfKnown);
  }
}
