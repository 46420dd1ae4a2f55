/** The times, rates and percentages of a returned worker fit together, whichever sources its sessions come from. */
module WorkerConsistency {
  import opened Words
  import opened Collecting
  import opened Sorting
  import opened MinerIdentity
  import opened MinerHistory
  import opened HistoryInvariants
  import opened MinerWorkers
  import opened WorkerBuild
  import opened WorkerTotals
  import opened WorkerSessions
  import opened WorkerOrder

  /** Uptime runs from the opening to the closing time, or to now while there is none. */
  ghost predicate UptimeFits(uptime: Option<nat>, openedAt: Option<nat>, closedAt: Option<nat>, now: U64) {
    uptime.Some? ==> openedAt.Some? && uptime.value == SatSub(closedAt.GetOr(now), openedAt.value)
  }

  ghost predicate AgeFits(seconds: Option<nat>, lastSeen: Option<nat>, now: U64) {
    seconds == if lastSeen.Some? then Some(SatSub(now, lastSeen.value)) else None
  }

  ghost predicate SessionOk(s: Session, now: U64) {
    && (!s.connected ==> s.hashrate == 0.0)
    && s.rejectionPercent == PercentOf(s)
    && UptimeFits(s.uptime, s.openedAt, s.closedAt, now)
    && AgeFits(s.lastSeenSeconds, s.lastSeen, now)
  }

  ghost predicate KnownOk(known: seq<Known>) {
    forall k :: k in known ==> FlagsOk(k.row)
  }

  ghost predicate PushesOk(pushes: seq<Push>, now: U64) {
    forall i :: 0 <= i < |pushes| ==> SessionOk(pushes[i].session, now)
  }

  lemma {:induction false} RowPushesOk(rows: seq<MinerRow>, stats: StatMap, now: U64)
    ensures PushesOk(RowPushes(rows, stats, now), now)
  {
    if rows != [] {
      RowPushesOk(rows[..|rows| - 1], stats, now);
    }
  }

  lemma {:induction false} AdmittedOk(env: Env, ids: set<string>, known: seq<Known>)
    requires KnownOk(known)
    ensures KnownOk(Admitted(env, ids, known))
  {
    AdmittedAreKnown(env, ids, known);
  }

  lemma KnownPushesOk(known: seq<Known>, now: U64)
    requires KnownOk(known)
    ensures PushesOk(KnownPushes(known, now), now)
  {
  }

  /** Sessions are consistent whatever source they are read from. */
  lemma AllPushesOk(input: Input, order: seq<ChannelKey>)
    requires KnownOk(input.known)
    requires forall key :: key in order ==> key in Leftover(input.rows, ByChannel(input.stats))
    ensures PushesOk(AllPushes(input, order), input.now)
  {
    RowPushesOk(input.rows, ByChannel(input.stats), input.now);
    AdmittedOk(input.env, Grouped(input.env, LivePushes(input, order)).Keys, input.known);
    KnownPushesOk(AdmittedIn(input, order), input.now);
  }

  lemma {:induction false} ConnectedHashrateIsAll(sessions: seq<Session>)
    requires forall i :: 0 <= i < |sessions| && !sessions[i].connected ==> sessions[i].hashrate == 0.0
    ensures TotalHashrate(Connected(sessions)) == TotalHashrate(sessions)
  {
    if sessions != [] {
      ConnectedHashrateIsAll(sessions[1..]);
      HashrateOfCons(sessions[0], sessions[1..]);
      assert sessions == [sessions[0]] + sessions[1..];
    }
  }

  ghost predicate WorkerOk(w: Worker, now: U64) {
    && UptimeFits(w.uptime, w.openedAt, w.closedAt, now)
    && AgeFits(w.lastSeenSeconds, w.lastSeen, now)
    && (w.active <==> w.connected || (w.lastSeen.Some? && now <= w.lastSeen.value + GRACE_SECONDS))
    && w.totalHashrate == TotalHashrate(w.sessions)
    && (forall i :: 0 <= i < |w.sessions| ==> SessionOk(w.sessions[i], now))
  }

  lemma FinalizedSessions(id: string, entry: Entry)
    ensures Finalized(id, entry).sessions == StableSort(SessionLeq, entry.sessions)
    ensures Finalized(id, entry).totalHashrate == TotalHashrate(Connected(Finalized(id, entry).sessions))
  {
  }

  lemma SummaryOk(w: Worker, sessions: seq<Session>, now: U64)
    requires forall s :: s in sessions ==> SessionOk(s, now)
    requires UptimeOk(w, sessions) && LastSeenOk(w, sessions)
    ensures UptimeFits(w.uptime, w.openedAt, w.closedAt, now) && AgeFits(w.lastSeenSeconds, w.lastSeen, now)
  {
  }

  lemma FinalizedOk(id: string, entry: Entry, now: U64)
    requires forall s :: s in entry.sessions ==> SessionOk(s, now)
    ensures WorkerOk(Finalized(id, entry), now)
  {
    var w := Finalized(id, entry);
    FinalizedSessions(id, entry);
    SortedSessionMembers(entry.sessions);
    assert forall i :: 0 <= i < |w.sessions| ==> w.sessions[i] in w.sessions;
    ConnectedHashrateIsAll(w.sessions);
    assert UptimeFits(w.uptime, w.openedAt, w.closedAt, now) && AgeFits(w.lastSeenSeconds, w.lastSeen, now) by {
      TimesFromDisplayed(id, entry);
      SummaryOk(w, entry.sessions, now);
    }
    assert w.active <==> w.connected || (w.lastSeenSeconds.Some? && w.lastSeenSeconds.value <= GRACE_SECONDS) by {
      FinalizedSummarises(id, entry);
    }
  }

  lemma {:induction false} GroupedOk(env: Env, pushes: seq<Push>, now: U64, id: string)
    requires PushesOk(pushes, now) && id in Grouped(env, pushes)
    ensures forall s :: s in Grouped(env, pushes)[id].sessions ==> SessionOk(s, now)
  {
    GroupedSessions(env, pushes, id);
    forall s | s in Grouped(env, pushes)[id].sessions
      ensures SessionOk(s, now)
    {
      CollectedFrom(pushes, SessionFor(env, id), s);
    }
  }

  /**
   * For every worker a build returns: its uptime is the time between its opening
   * and its closing time or now, its age is that of its last-seen time, it is
   * active exactly when it is connected or was seen within the grace period, and
   * its hashrate is that of all its sessions, because disconnected ones have none.
   */
  lemma WorkersAreConsistent(input: Input, order: seq<ChannelKey>, list: seq<Worker>)
    requires IsBuild(input, order, list) && KnownOk(input.known)
    ensures forall i :: 0 <= i < |list| ==> WorkerOk(list[i], input.now)
  {
    OrderIsLeftover(input, order);
    AllPushesOk(input, order);
    var pushes := AllPushes(input, order);
    forall i | 0 <= i < |list|
      ensures WorkerOk(list[i], input.now)
    {
      GroupedOk(input.env, pushes, input.now, list[i].id);
      FinalizedOk(list[i].id, Grouped(input.env, pushes)[list[i].id], input.now);
    }
  }

  /** The rows of a reachable miner table may be passed to a build as they are. */
  lemma {:induction false} ReachableKnownOk(env: Env, ops: seq<Op>, known: seq<Known>)
    requires Canonical(env.decode)
    requires forall k :: k in known ==> k.minerId in Run(env, ops).table && Run(env, ops).table[k.minerId] == k.row
    ensures KnownOk(known)
  {
    ReachableRowsOk(env, ops);
    forall k | k in known
      ensures FlagsOk(k.row)
    {
      assert RowOk(env, k.minerId, Run(env, ops).table[k.minerId]);
    }
  }
}
