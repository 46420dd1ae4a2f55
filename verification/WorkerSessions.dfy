/**
 * What a worker collects does not depend on the order in which hash maps are
 * visited: its sessions are the same up to their order, and so are its figures.
 */
module WorkerSessions {
  import opened Words
  import opened Sums
  import opened Collecting
  import opened Sorting
  import opened MinerHistory
  import opened MinerWorkers
  import opened WorkerBuild
  import opened WorkerTotals
  import opened WorkerQuotes

  // ----- The sessions of a worker -----

  /** What a push contributes to one worker. */
  function SessionFor(env: Env, id: string): Push -> seq<Session> {
    (p: Push) => if WorkerId(env, p.userIdentity) == id then [p.session] else []
  }

  /** The sessions whose identity names the worker, in the order in which they are pushed. */
  function SessionsOf(env: Env, pushes: seq<Push>, id: string): seq<Session> {
    Collect(pushes, SessionFor(env, id))
  }

  function EntrySessions(workers: Workers, id: string): seq<Session> {
    if id in workers then workers[id].sessions else []
  }

  lemma PushedSessions(env: Env, workers: Workers, p: Push, id: string)
    ensures EntrySessions(Pushed(env, workers, p), id) == EntrySessions(workers, id) + SessionFor(env, id)(p)
  {
  }

  /** A worker's sessions are exactly those pushed to it, each as often, in that order. */
  lemma {:induction false} GroupedSessions(env: Env, pushes: seq<Push>, id: string)
    ensures EntrySessions(Grouped(env, pushes), id) == SessionsOf(env, pushes, id)
  {
    if pushes != [] {
      var before, last := pushes[..|pushes| - 1], pushes[|pushes| - 1];
      GroupedSessions(env, before, id);
      PushedSessions(env, Grouped(env, before), last, id);
    }
  }

  // ----- The pushes of two visiting orders -----

  function StatFor(stats: StatMap, now: U64): ChannelKey -> seq<Push> {
    (key: ChannelKey) => if key in stats then [StatPush(stats[key], now)] else []
  }

  lemma {:induction false} StatPushesCollected(order: seq<ChannelKey>, stats: StatMap, now: U64)
    requires forall key :: key in order ==> key in stats
    ensures StatPushes(order, stats, now) == Collect(order, StatFor(stats, now))
  {
    if order == [] {
    } else {
      var before, last := order[..|order| - 1], order[|order| - 1];
      assert order == before + [last];
      StatPushesCollected(before, stats, now);
      StatPushesSnoc(before, last, stats, now);
    }
  }

  lemma StatPushesSnoc(order: seq<ChannelKey>, key: ChannelKey, stats: StatMap, now: U64)
    requires (forall k :: k in order ==> k in stats) && key in stats
    ensures StatPushes(order + [key], stats, now) == StatPushes(order, stats, now) + StatFor(stats, now)(key)
  {
  }

  lemma OrdersPermute(order: seq<ChannelKey>, other: seq<ChannelKey>, stats: StatMap)
    requires IsOrderOf(order, stats) && IsOrderOf(other, stats)
    ensures multiset(order) == multiset(other)
  {
    DistinctIsSet(order);
    DistinctIsSet(other);
  }

  lemma ConcatPermutes<T>(xs: seq<T>, ys: seq<T>, xs': seq<T>, ys': seq<T>)
    requires multiset(xs) == multiset(xs') && multiset(ys) == multiset(ys')
    ensures multiset(xs + ys) == multiset(xs' + ys')
  {
  }

  lemma StatPushesPermute(order: seq<ChannelKey>, other: seq<ChannelKey>, stats: StatMap, now: U64)
    requires IsOrderOf(order, stats) && IsOrderOf(other, stats)
    requires (forall key :: key in order ==> key in stats) && (forall key :: key in other ==> key in stats)
    ensures multiset(StatPushes(order, stats, now)) == multiset(StatPushes(other, stats, now))
  {
    OrdersPermute(order, other, stats);
    CollectPermutes(order, other, StatFor(stats, now));
    StatPushesCollected(order, stats, now);
    StatPushesCollected(other, stats, now);
  }

  lemma {:induction false} SameKeys(env: Env, pushes: seq<Push>, other: seq<Push>)
    requires multiset(pushes) == multiset(other)
    ensures Grouped(env, pushes).Keys == Grouped(env, other).Keys
  {
    GroupedKeys(env, pushes);
    GroupedKeys(env, other);
    assert forall p :: p in pushes <==> p in multiset(pushes);
    assert forall p :: p in other <==> p in multiset(other);
  }

  /** Two visiting orders push the same sessions under the same identities, and admit the same known miners. */
  lemma SamePushes(input: Input, order: seq<ChannelKey>, other: seq<ChannelKey>)
    requires IsOrderOf(order, Leftover(input.rows, ByChannel(input.stats)))
    requires IsOrderOf(other, Leftover(input.rows, ByChannel(input.stats)))
    ensures forall key :: key in order + other ==> key in Leftover(input.rows, ByChannel(input.stats))
    ensures multiset(LivePushes(input, order)) == multiset(LivePushes(input, other))
    ensures AdmittedIn(input, order) == AdmittedIn(input, other)
    ensures multiset(AllPushes(input, order)) == multiset(AllPushes(input, other))
  {
    OrderIsLeftover(input, order);
    OrderIsLeftover(input, other);
    var stats := ByChannel(input.stats);
    var rest, rows := Leftover(input.rows, stats), RowPushes(input.rows, stats, input.now);
    StatPushesPermute(order, other, rest, input.now);
    ConcatPermutes(rows, StatPushes(order, rest, input.now), rows, StatPushes(other, rest, input.now));
    SameKeys(input.env, LivePushes(input, order), LivePushes(input, other));
    var known := KnownPushes(AdmittedIn(input, order), input.now);
    ConcatPermutes(LivePushes(input, order), known, LivePushes(input, other), known);
  }

  // ----- The figures of a worker -----

  /**
   * Everything a worker shows except its label, address and identity text: the
   * same sessions, in the same order if no two sort alike, the same figures, and
   * the same opening, closing and last-seen times unless sessions that sort alike
   * tie for them.
   */
  ghost predicate SameFigures(w: Worker, v: Worker) {
    && multiset(w.sessions) == multiset(v.sessions)
    && (Separates(SessionLeq, w.sessions) ==> w.sessions == v.sessions)
    && SameTotals(w, v) && SameMeasures(w, v) && SameTimes(w, v)
    && (Unambiguous(w.sessions) ==> SameQuotes(w, v))
  }

  predicate SameTotals(w: Worker, v: Worker) {
    && w.sessionCount == v.sessionCount && w.totalShares == v.totalShares && w.totalRejected == v.totalRejected
    && w.rejectionPercent == v.rejectionPercent
  }

  predicate SameMeasures(w: Worker, v: Worker) {
    w.totalHashrate == v.totalHashrate && w.bestDiff == v.bestDiff
  }

  predicate SameTimes(w: Worker, v: Worker) {
    && w.connected == v.connected && w.uptime == v.uptime && w.lastSeenSeconds == v.lastSeenSeconds
    && w.active == v.active && w.state == v.state
  }

  lemma FinalizedPercent(id: string, entry: Entry)
    ensures var w := Finalized(id, entry);
            w.id == id && w.rejectionPercent == RejectionPercent(w.totalShares, w.totalRejected)
  {
  }

  lemma TotalsAgree(id: string, w: Worker, entry: Entry, v: Worker, other: Entry)
    requires w == Finalized(id, entry) && v == Finalized(id, other)
    requires multiset(entry.sessions) == multiset(other.sessions)
    ensures multiset(w.sessions) == multiset(v.sessions) && SameTotals(w, v)
  {
    FinalizedPercent(id, entry);
    FinalizedPercent(id, other);
    FinalizedSummarises(id, entry);
    FinalizedSummarises(id, other);
    SumOfPermutation(entry.sessions, other.sessions, AcceptedOf);
    SumOfPermutation(entry.sessions, other.sessions, RejectedOf);
    assert |multiset(entry.sessions)| == |entry.sessions| && |multiset(other.sessions)| == |other.sessions|;
  }

  lemma SameMembers<T>(xs: seq<T>, ys: seq<T>)
    requires multiset(xs) == multiset(ys)
    ensures forall x :: x in xs <==> x in ys
  {
    assert forall x :: x in xs <==> x in multiset(xs);
    assert forall x :: x in ys <==> x in multiset(ys);
  }

  lemma MeasuresAgree(id: string, w: Worker, entry: Entry, v: Worker, other: Entry)
    requires w == Finalized(id, entry) && v == Finalized(id, other)
    requires multiset(entry.sessions) == multiset(other.sessions)
    ensures SameMeasures(w, v)
  {
    FinalizedMeasures(id, entry);
    FinalizedMeasures(id, other);
    HashrateOfPermutation(entry.sessions, other.sessions);
    SameMembers(entry.sessions, other.sessions);
  }

  lemma UptimeAtMost(w: Worker, sessions: seq<Session>, v: Worker, other: seq<Session>)
    requires UptimeOk(w, sessions) && UptimeOk(v, other)
    requires forall s :: IsDisplayed(s, sessions) <==> IsDisplayed(s, other)
    requires v.uptime.Some?
    ensures w.uptime.Some? && w.uptime.value >= v.uptime.value
  {
  }

  lemma LastSeenAtMost(w: Worker, sessions: seq<Session>, v: Worker, other: seq<Session>)
    requires LastSeenOk(w, sessions) && LastSeenOk(v, other)
    requires forall s :: IsDisplayed(s, sessions) <==> IsDisplayed(s, other)
    requires v.lastSeenSeconds.Some?
    ensures w.lastSeenSeconds.Some? && w.lastSeenSeconds.value <= v.lastSeenSeconds.value
  {
  }

  lemma DisplayedTimesAgree(w: Worker, sessions: seq<Session>, v: Worker, other: seq<Session>)
    requires UptimeOk(w, sessions) && UptimeOk(v, other) && LastSeenOk(w, sessions) && LastSeenOk(v, other)
    requires forall s :: IsDisplayed(s, sessions) <==> IsDisplayed(s, other)
    ensures w.uptime == v.uptime && w.lastSeenSeconds == v.lastSeenSeconds
  {
    if v.uptime.Some? {
      UptimeAtMost(w, sessions, v, other);
    }
    if w.uptime.Some? {
      UptimeAtMost(v, other, w, sessions);
    }
    if v.lastSeenSeconds.Some? {
      LastSeenAtMost(w, sessions, v, other);
    }
    if w.lastSeenSeconds.Some? {
      LastSeenAtMost(v, other, w, sessions);
    }
  }

  lemma DisplayedAgrees(sessions: seq<Session>, other: seq<Session>)
    requires forall s :: s in sessions <==> s in other
    ensures forall s :: IsDisplayed(s, sessions) <==> IsDisplayed(s, other)
  {
  }

  lemma TimesAgree(id: string, w: Worker, entry: Entry, v: Worker, other: Entry)
    requires w == Finalized(id, entry) && v == Finalized(id, other)
    requires multiset(entry.sessions) == multiset(other.sessions)
    ensures SameTimes(w, v)
  {
    SameMembers(entry.sessions, other.sessions);
    assert w.uptime == v.uptime && w.lastSeenSeconds == v.lastSeenSeconds by {
      TimesFromDisplayed(id, entry);
      TimesFromDisplayed(id, other);
      DisplayedAgrees(entry.sessions, other.sessions);
      DisplayedTimesAgree(w, entry.sessions, v, other.sessions);
    }
    FinalizedSummarises(id, entry);
    FinalizedSummarises(id, other);
  }

  lemma QuotesAgree(id: string, w: Worker, entry: Entry, v: Worker, other: Entry)
    requires w == Finalized(id, entry) && v == Finalized(id, other)
    requires multiset(entry.sessions) == multiset(other.sessions) && Unambiguous(entry.sessions)
    ensures SameQuotes(w, v)
  {
    TimesAgree(id, w, entry, v, other);
    SameMembers(entry.sessions, other.sessions);
    DisplayedAgrees(entry.sessions, other.sessions);
    QuotedSessions(id, entry);
    QuotedSessions(id, other);
    if w.uptime.Some? {
      QuotedUptimesAgree(w, entry.sessions, v, other.sessions);
    }
    if w.lastSeenSeconds.Some? {
      QuotedAgesAgree(w, entry.sessions, v, other.sessions);
    }
    TimesFromDisplayed(id, entry);
    TimesFromDisplayed(id, other);
  }

  lemma UnambiguousAgrees(sessions: seq<Session>, other: seq<Session>)
    requires (forall s :: s in sessions <==> s in other) && Unambiguous(sessions)
    ensures Unambiguous(other)
  {
    DisplayedAgrees(sessions, other);
  }

  lemma SortedSessionsAgree(id: string, w: Worker, entry: Entry, v: Worker, other: Entry)
    requires w == Finalized(id, entry) && v == Finalized(id, other)
    requires multiset(entry.sessions) == multiset(other.sessions) && Separates(SessionLeq, w.sessions)
    ensures w.sessions == v.sessions
  {
    FinalizedSummarises(id, entry);
    FinalizedSummarises(id, other);
    SessionLeqIsTotalPreorder();
    SortedOrderIsUnique(SessionLeq, w.sessions, v.sessions);
  }

  lemma FiguresAgree(id: string, w: Worker, entry: Entry, v: Worker, other: Entry)
    requires w == Finalized(id, entry) && v == Finalized(id, other)
    requires multiset(entry.sessions) == multiset(other.sessions)
    ensures SameFigures(w, v)
  {
    TotalsAgree(id, w, entry, v, other);
    MeasuresAgree(id, w, entry, v, other);
    TimesAgree(id, w, entry, v, other);
    if Separates(SessionLeq, w.sessions) {
      SortedSessionsAgree(id, w, entry, v, other);
    }
    if Unambiguous(w.sessions) {
      FinalizedSummarises(id, entry);
      SameMembers(w.sessions, entry.sessions);
      UnambiguousAgrees(w.sessions, entry.sessions);
      QuotesAgree(id, w, entry, v, other);
    }
  }

  lemma {:induction false} GroupedAgree(env: Env, pushes: seq<Push>, other: seq<Push>, id: string)
    requires multiset(pushes) == multiset(other)
    requires id in Grouped(env, pushes) && id in Grouped(env, other)
    ensures multiset(Grouped(env, pushes)[id].sessions) == multiset(Grouped(env, other)[id].sessions)
  {
    GroupedSessions(env, pushes, id);
    GroupedSessions(env, other, id);
    CollectPermutes(pushes, other, SessionFor(env, id));
  }

  /**
   * Whatever order the hash maps are visited in, a build returns workers of the
   * same ids, and the worker of each id has the same sessions, each as often, and
   * the same figures. No identity need parse for this.
   */
  lemma WorkersAgree(
      input: Input, order: seq<ChannelKey>, list: seq<Worker>, other: seq<ChannelKey>, list': seq<Worker>)
    requires IsBuild(input, order, list) && IsBuild(input, other, list')
    ensures multiset(Ids(list)) == multiset(Ids(list'))
    ensures forall i, j :: 0 <= i < |list| && 0 <= j < |list'| && list[i].id == list'[j].id ==>
                             SameFigures(list[i], list'[j])
  {
    SamePushes(input, order, other);
    var pushes, pushes' := AllPushes(input, order), AllPushes(input, other);
    var w, v := Grouped(input.env, pushes), Grouped(input.env, pushes');
    SameKeys(input.env, pushes, pushes');
    IdsAreDistinct(list, w);
    IdsAreDistinct(list', v);
    DistinctIsSet(Ids(list));
    DistinctIsSet(Ids(list'));
    forall i, j | 0 <= i < |list| && 0 <= j < |list'| && list[i].id == list'[j].id
      ensures SameFigures(list[i], list'[j])
    {
      var id := list[i].id;
      GroupedAgree(input.env, pushes, pushes', id);
      FiguresAgree(id, list[i], w[id], list'[j], v[id]);
    }
  }
}
