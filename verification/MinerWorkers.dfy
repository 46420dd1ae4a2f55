/**
 * The sessions and workers of the dashboard: how a session is read from each of
 * the three sources and how a worker summarises its sessions.
 */
module MinerWorkers {
  import opened Words
  import opened Sums
  import opened Collecting
  import opened Sorting
  import opened MinerHistory

  const GRACE_SECONDS: nat := 120

  datatype ChannelKey = ChannelKey(client: U64, channel: U32, kind: string)

  /** A channel as the monitoring interface reports it. */
  datatype MinerRow = MinerRow(
    id: string,
    key: ChannelKey,
    connected: bool,
    workerLabel: string,
    payout: string,
    userIdentity: string,
    hashrate: real,
    accepted: nat,
    bestDiff: real,
    blocks: nat,
    lastSeen: Option<U64>)

  /** A channel as the pool's own statistics report it. */
  datatype Stat = Stat(
    key: ChannelKey,
    userIdentity: string,
    openedAt: U64,
    closedAt: Option<U64>,
    lastSeen: U64,
    hashrate: real,
    accepted: nat,
    bestDiff: real,
    rejected: nat)

  /** A row of the persistent table with its key. */
  datatype Known = Known(minerId: string, row: Row)

  datatype SessionId = OfChannel(key: ChannelKey) | OfKnown(minerId: string)

  datatype Session = Session(
    id: SessionId,
    client: U64,
    channel: U32,
    hashrate: real,
    bestDiff: real,
    accepted: nat,
    rejected: nat,
    rejectionPercent: real,
    openedAt: Option<nat>,
    closedAt: Option<nat>,
    lastSeen: Option<nat>,
    uptime: Option<nat>,
    lastSeenSeconds: Option<nat>,
    connected: bool)

  // ----- Percentages -----

  function RejectionPercent(accepted: nat, rejected: nat): real {
    if accepted + rejected == 0 then 0.0
    else rejected as real / (accepted + rejected) as real * 100.0
  }

  // ----- Sessions from the three sources -----

  function StatUptime(stat: Stat, now: U64): nat {
    SatSub(stat.closedAt.GetOr(now), stat.openedAt)
  }

  function SessionFromRow(row: MinerRow, stat: Option<Stat>, now: U64): Session {
    var rejected := if stat.Some? then stat.value.rejected else 0;
    var lastSeen := if stat.Some? then Some(stat.value.lastSeen) else row.lastSeen;
    Session(
      OfChannel(row.key), row.key.client, row.key.channel,
      if row.connected then row.hashrate else 0.0,
      row.bestDiff, row.accepted, rejected, RejectionPercent(row.accepted, rejected),
      if stat.Some? then Some(stat.value.openedAt) else None,
      if stat.Some? then stat.value.closedAt else None,
      lastSeen,
      if stat.Some? then Some(StatUptime(stat.value, now)) else None,
      if lastSeen.Some? then Some(SatSub(now, lastSeen.value)) else None,
      row.connected)
  }

  function SessionFromStat(stat: Stat, now: U64): Session {
    Session(
      OfChannel(stat.key), stat.key.client, stat.key.channel,
      if stat.closedAt.None? then stat.hashrate else 0.0,
      stat.bestDiff, stat.accepted, stat.rejected, RejectionPercent(stat.accepted, stat.rejected),
      Some(stat.openedAt), stat.closedAt, Some(stat.lastSeen),
      Some(StatUptime(stat, now)), Some(SatSub(now, stat.lastSeen)),
      stat.closedAt.None?)
  }

  function Seconds(t: Option<Time>): Option<nat> {
    if t.Some? then Some(t.value) else None
  }

  function SessionFromKnown(known: Known, now: U64): Session {
    var row := known.row;
    Session(
      OfKnown(known.minerId), 0, 0,
      if row.connected then row.hashrate else 0.0,
      row.bestDiff, row.accepted, row.rejected, RejectionPercent(row.accepted, row.rejected),
      Seconds(row.openedAt), Seconds(row.closedAt), Some(row.lastSeen),
      if !row.connected then row.uptime
      else if row.openedAt.Some? then Some(SatSub(now, row.openedAt.value))
      else None,
      Some(SatSub(now, row.lastSeen)),
      row.connected)
  }

  // ----- Workers -----

  /** What a worker collects before it is finalized. */
  datatype Entry = Entry(workerLabel: string, payout: string, userIdentity: string, sessions: seq<Session>)

  datatype ConnectionState = Online | RecentlySeen | Offline

  datatype Worker = Worker(
    id: string,
    workerLabel: string,
    payout: string,
    userIdentity: string,
    sessions: seq<Session>,
    sessionCount: nat,
    totalHashrate: real,
    bestDiff: real,
    totalShares: nat,
    totalRejected: nat,
    rejectionPercent: real,
    openedAt: Option<nat>,
    closedAt: Option<nat>,
    lastSeen: Option<nat>,
    uptime: Option<nat>,
    lastSeenSeconds: Option<nat>,
    connected: bool,
    active: bool,
    state: ConnectionState)

  /** Connected sessions first, then by client and channel. */
  predicate SessionLeq(a: Session, b: Session) {
    if a.connected != b.connected then a.connected
    else if a.client != b.client then a.client < b.client
    else a.channel <= b.channel
  }

  function Connected(sessions: seq<Session>): seq<Session> {
    if sessions == [] then []
    else (if sessions[0].connected then [sessions[0]] else []) + Connected(sessions[1..])
  }

  function Displayed(sessions: seq<Session>): seq<Session> {
    if Connected(sessions) == [] then sessions else Connected(sessions)
  }

  function TotalHashrate(sessions: seq<Session>): real {
    if sessions == [] then 0.0 else sessions[0].hashrate + TotalHashrate(sessions[1..])
  }

  /** Best difficulty, with zero as the floor. */
  function BestDiff(sessions: seq<Session>): real {
    if sessions == [] then 0.0
    else
      var rest := BestDiff(sessions[1..]);
      if sessions[0].bestDiff >= rest then sessions[0].bestDiff else rest
  }

  /** The session with the longest uptime, the last one among equals. */
  function LongestUp(sessions: seq<Session>): Option<Session> {
    if sessions == [] then None
    else
      var rest := LongestUp(sessions[1..]);
      if sessions[0].uptime.None? then rest
      else if rest.None? || sessions[0].uptime.value > rest.value.uptime.GetOr(0) then Some(sessions[0])
      else rest
  }

  /** The session seen most recently, the first one among equals. */
  function LatestSeen(sessions: seq<Session>): Option<Session> {
    if sessions == [] then None
    else
      var rest := LatestSeen(sessions[1..]);
      if sessions[0].lastSeenSeconds.None? then rest
      else if rest.None? || sessions[0].lastSeenSeconds.value <= rest.value.lastSeenSeconds.GetOr(0)
      then Some(sessions[0])
      else rest
  }

  function AcceptedOf(s: Session): nat {
    s.accepted
  }

  function RejectedOf(s: Session): nat {
    s.rejected
  }

  function Finalized(id: string, entry: Entry): Worker {
    var sessions := StableSort(SessionLeq, entry.sessions);
    var connected := Connected(sessions) != [];
    var shares, rejected := SumBy(sessions, AcceptedOf), SumBy(sessions, RejectedOf);
    var up, seen := LongestUp(Displayed(sessions)), LatestSeen(Displayed(sessions));
    var seconds := if seen.Some? then seen.value.lastSeenSeconds else None;
    var active := connected || (seconds.Some? && seconds.value <= GRACE_SECONDS);
    Worker(
      id, entry.workerLabel, entry.payout, entry.userIdentity, sessions, |sessions|,
      TotalHashrate(Connected(sessions)), BestDiff(sessions), shares, rejected, RejectionPercent(shares, rejected),
      if up.Some? then up.value.openedAt else None,
      if up.Some? then up.value.closedAt else None,
      if seen.Some? then seen.value.lastSeen else None,
      if up.Some? then up.value.uptime else None,
      seconds, connected, active,
      if connected then Online else if active then RecentlySeen else Offline)
  }

  // ----- What a finalized worker says -----

  lemma SessionLeqIsTotalPreorder()
    ensures TotalPreorder(SessionLeq)
  {
  }

  lemma {:induction false} ConnectedMembers(sessions: seq<Session>)
    ensures forall s :: s in Connected(sessions) <==> s in sessions && s.connected
  {
    if sessions != [] {
      ConnectedMembers(sessions[1..]);
      assert sessions == [sessions[0]] + sessions[1..];
    }
  }

  /** The displayed sessions: the connected ones, or all of them if none is. */
  ghost predicate IsDisplayed(s: Session, sessions: seq<Session>) {
    s in sessions && ((exists t :: t in sessions && t.connected) ==> s.connected)
  }

  lemma DisplayedMembers(sessions: seq<Session>)
    ensures forall s :: s in Displayed(sessions) <==> IsDisplayed(s, sessions)
  {
    ConnectedMembers(sessions);
    if Connected(sessions) != [] {
      assert Connected(sessions)[0] in Connected(sessions);
    }
  }

  lemma {:induction false} LongestUpIsLongest(sessions: seq<Session>)
    ensures LongestUp(sessions).None? <==> forall s :: s in sessions ==> s.uptime.None?
    ensures LongestUp(sessions).Some? ==>
              var up := LongestUp(sessions).value;
              && up in sessions && up.uptime.Some?
              && forall s :: s in sessions && s.uptime.Some? ==> s.uptime.value <= up.uptime.value
  {
    if sessions != [] {
      LongestUpIsLongest(sessions[1..]);
      assert sessions == [sessions[0]] + sessions[1..];
    }
  }

  lemma {:induction false} LatestSeenIsLatest(sessions: seq<Session>)
    ensures LatestSeen(sessions).None? <==> forall s :: s in sessions ==> s.lastSeenSeconds.None?
    ensures LatestSeen(sessions).Some? ==>
              var seen := LatestSeen(sessions).value;
              && seen in sessions && seen.lastSeenSeconds.Some?
              && forall s :: s in sessions && s.lastSeenSeconds.Some? ==>
                               seen.lastSeenSeconds.value <= s.lastSeenSeconds.value
  {
    if sessions != [] {
      LatestSeenIsLatest(sessions[1..]);
      assert sessions == [sessions[0]] + sessions[1..];
    }
  }

  lemma {:induction false} SortedSessionMembers(sessions: seq<Session>)
    ensures forall s :: s in StableSort(SessionLeq, sessions) <==> s in sessions
  {
    SortPermutes(SessionLeq, sessions);
    forall s
      ensures s in StableSort(SessionLeq, sessions) <==> s in sessions
    {
      SameElements(StableSort(SessionLeq, sessions), sessions, s);
    }
  }

  /** The uptime and its opening and closing time come from one displayed session that has been up longest. */
  ghost predicate UptimeOk(w: Worker, sessions: seq<Session>) {
    if w.uptime.None? then
      w.openedAt.None? && w.closedAt.None? && forall s :: IsDisplayed(s, sessions) ==> s.uptime.None?
    else
      && (forall s :: IsDisplayed(s, sessions) && s.uptime.Some? ==> s.uptime.value <= w.uptime.value)
      && exists s :: IsDisplayed(s, sessions) && s.uptime == w.uptime
                     && s.openedAt == w.openedAt && s.closedAt == w.closedAt
  }

  /** The last-seen time and its age come from one displayed session that was seen most recently. */
  ghost predicate LastSeenOk(w: Worker, sessions: seq<Session>) {
    if w.lastSeenSeconds.None? then
      w.lastSeen.None? && forall s :: IsDisplayed(s, sessions) ==> s.lastSeenSeconds.None?
    else
      && (forall s :: IsDisplayed(s, sessions) && s.lastSeenSeconds.Some? ==>
                        w.lastSeenSeconds.value <= s.lastSeenSeconds.value)
      && exists s :: IsDisplayed(s, sessions) && s.lastSeenSeconds == w.lastSeenSeconds && s.lastSeen == w.lastSeen
  }

  /**
   * A finalized worker keeps exactly its sessions, in display order, sums their
   * shares, is connected iff one of them is, and takes uptime and last-seen from
   * the displayed sessions. It is active iff it is connected or was seen within
   * the grace period.
   */
  lemma FinalizedSummarises(id: string, entry: Entry)
    ensures var w := Finalized(id, entry);
            && multiset(w.sessions) == multiset(entry.sessions) && SortedBy(SessionLeq, w.sessions)
            && w.sessionCount == |entry.sessions|
            && w.totalShares == SumBy(entry.sessions, AcceptedOf)
            && w.totalRejected == SumBy(entry.sessions, RejectedOf)
            && (w.connected <==> exists s :: s in entry.sessions && s.connected)
            && (w.active <==> w.connected || (w.lastSeenSeconds.Some? && w.lastSeenSeconds.value <= GRACE_SECONDS))
            && w.state == (if w.connected then Online else if w.active then RecentlySeen else Offline)
            && UptimeOk(w, entry.sessions)
            && LastSeenOk(w, entry.sessions)
  {
    var sessions := StableSort(SessionLeq, entry.sessions);
    SortPermutes(SessionLeq, entry.sessions);
    SessionLeqIsTotalPreorder();
    SortIsSorted(SessionLeq, entry.sessions);
    SumOfPermutation(sessions, entry.sessions, AcceptedOf);
    SumOfPermutation(sessions, entry.sessions, RejectedOf);
    SortedSessionMembers(entry.sessions);
    ConnectedIffSome(sessions);
    TimesFromDisplayed(id, entry);
  }

  lemma {:induction false} ConnectedIffSome(sessions: seq<Session>)
    ensures Connected(sessions) != [] <==> exists s :: s in sessions && s.connected
  {
    ConnectedMembers(sessions);
    if Connected(sessions) != [] {
      assert Connected(sessions)[0] in Connected(sessions);
    }
  }

  lemma TimesFromDisplayed(id: string, entry: Entry)
    ensures UptimeOk(Finalized(id, entry), entry.sessions)
    ensures LastSeenOk(Finalized(id, entry), entry.sessions)
  {
    var sessions := StableSort(SessionLeq, entry.sessions);
    SortedSessionMembers(entry.sessions);
    DisplayedMembers(sessions);
    forall s
      ensures s in Displayed(sessions) <==> IsDisplayed(s, entry.sessions)
    {
      assert IsDisplayed(s, sessions) <==> IsDisplayed(s, entry.sessions);
    }
    LongestUpIsLongest(Displayed(sessions));
    LatestSeenIsLatest(Displayed(sessions));
  }

  function HashrateOf(s: Session): real {
    if s.connected then s.hashrate else 0.0
  }

  lemma {:induction false} HashrateOfCons(s: Session, sessions: seq<Session>)
    ensures TotalHashrate(Connected([s] + sessions)) == HashrateOf(s) + TotalHashrate(Connected(sessions))
  {
    assert ([s] + sessions)[1..] == sessions;
    if s.connected {
      assert ([s] + Connected(sessions))[1..] == Connected(sessions);
    } else {
      assert Connected([s] + sessions) == Connected(sessions);
    }
  }

  lemma {:induction false} HashrateConcat(sessions: seq<Session>, more: seq<Session>)
    ensures TotalHashrate(Connected(sessions + more))
            == TotalHashrate(Connected(sessions)) + TotalHashrate(Connected(more))
  {
    if sessions == [] {
      assert sessions + more == more;
    } else {
      var head, tail := sessions[0], sessions[1..];
      assert sessions == [head] + tail;
      assert sessions + more == [head] + (tail + more);
      HashrateConcat(tail, more);
      HashrateOfCons(head, tail);
      HashrateOfCons(head, tail + more);
    }
  }

  lemma {:induction false} HashrateTakenOut(sessions: seq<Session>, i: nat)
    requires i < |sessions|
    ensures TotalHashrate(Connected(sessions))
            == HashrateOf(sessions[i]) + TotalHashrate(Connected(sessions[..i] + sessions[i + 1..]))
  {
    var left, right := sessions[..i], sessions[i + 1..];
    assert sessions == left + ([sessions[i]] + right);
    HashrateConcat(left, [sessions[i]] + right);
    HashrateOfCons(sessions[i], right);
    HashrateConcat(left, right);
  }

  /** The order of the sessions does not matter for their hashrate. */
  lemma {:induction false} HashrateOfPermutation(sessions: seq<Session>, other: seq<Session>)
    requires multiset(sessions) == multiset(other)
    ensures TotalHashrate(Connected(sessions)) == TotalHashrate(Connected(other))
  {
    if sessions == [] {
      EmptyIsEmpty(sessions, other);
    } else {
      var i := PositionIn(sessions, other, sessions[0]);
      RestsAgree(sessions, other, i);
      HashrateOfPermutation(sessions[1..], other[..i] + other[i + 1..]);
      HashrateWithHead(sessions, other, i, other[..i] + other[i + 1..]);
    }
  }

  lemma {:induction false} HashrateWithHead(sessions: seq<Session>, other: seq<Session>, i: nat, rest: seq<Session>)
    requires sessions != [] && i < |other| && other[i] == sessions[0] && rest == other[..i] + other[i + 1..]
    requires TotalHashrate(Connected(sessions[1..])) == TotalHashrate(Connected(rest))
    ensures TotalHashrate(Connected(sessions)) == TotalHashrate(Connected(other))
  {
    HashrateTakenOut(other, i);
    HashrateOfCons(sessions[0], sessions[1..]);
    assert sessions == [sessions[0]] + sessions[1..];
  }

  lemma {:induction false} BestDiffIsBest(sessions: seq<Session>)
    ensures BestDiff(sessions) >= 0.0
    ensures forall s :: s in sessions ==> s.bestDiff <= BestDiff(sessions)
    ensures BestDiff(sessions) > 0.0 ==> exists s :: s in sessions && s.bestDiff == BestDiff(sessions)
  {
    if sessions != [] {
      BestDiffIsBest(sessions[1..]);
      assert sessions == [sessions[0]] + sessions[1..];
    }
  }

  /** The order of the sessions affects neither the hashrate, which counts connected ones only, nor the best share. */
  lemma FinalizedMeasures(id: string, entry: Entry)
    ensures var w := Finalized(id, entry);
            && w.totalHashrate == TotalHashrate(Connected(entry.sessions))
            && w.bestDiff >= 0.0
            && (forall s :: s in entry.sessions ==> s.bestDiff <= w.bestDiff)
            && (w.bestDiff > 0.0 ==> exists s :: s in entry.sessions && s.bestDiff == w.bestDiff)
  {
    var sessions := StableSort(SessionLeq, entry.sessions);
    SortPermutes(SessionLeq, entry.sessions);
    HashrateOfPermutation(sessions, entry.sessions);
    SortedSessionMembers(entry.sessions);
    BestDiffIsBest(sessions);
    assert Finalized(id, entry).bestDiff == BestDiff(sessions);
    if BestDiff(sessions) > 0.0 {
      var s :| s in sessions && s.bestDiff == BestDiff(sessions);
      assert s in entry.sessions && s.bestDiff == Finalized(id, entry).bestDiff;
    }
  }

  // ----- The rejection percentage of a worker -----

  predicate HasShares(s: Session) {
    s.accepted + s.rejected > 0
  }

  function PercentOf(s: Session): real {
    RejectionPercent(s.accepted, s.rejected)
  }

  /** The percentage of two share counts together lies between those of each. */
  lemma PercentOfUnion(a: nat, r: nat, b: nat, q: nat, lo: real, hi: real)
    requires a + r > 0 ==> lo <= RejectionPercent(a, r) <= hi
    requires b + q > 0 ==> lo <= RejectionPercent(b, q) <= hi
    requires a + r + b + q > 0
    ensures lo <= RejectionPercent(a + b, r + q) <= hi
  {
    if a + r == 0 {
      assert a + b == b && r + q == q;
    } else if b + q == 0 {
      assert a + b == a && r + q == r;
    } else {
      PercentBounds(a, r, lo, hi);
      PercentBounds(b, q, lo, hi);
      var n, m := (a + r) as real, (b + q) as real;
      assert lo * (n + m) == lo * n + lo * m;
      assert hi * (n + m) == hi * n + hi * m;
      assert ((a + b) + (r + q)) as real == n + m;
      BoundsToPercent(a + b, r + q, lo, hi);
    }
  }

  lemma PercentBounds(a: nat, r: nat, lo: real, hi: real)
    requires a + r > 0 && lo <= RejectionPercent(a, r) <= hi
    ensures lo * (a + r) as real <= r as real * 100.0 <= hi * (a + r) as real
  {
    var n := (a + r) as real;
    var p := RejectionPercent(a, r);
    assert p * n == r as real * 100.0;
    assert (p - lo) * n >= 0.0;
    assert (hi - p) * n >= 0.0;
  }

  lemma BoundsToPercent(a: nat, r: nat, lo: real, hi: real)
    requires a + r > 0 && lo * (a + r) as real <= r as real * 100.0 <= hi * (a + r) as real
    ensures lo <= RejectionPercent(a, r) <= hi
  {
    var n := (a + r) as real;
    var p := RejectionPercent(a, r);
    assert p * n == r as real * 100.0;
    NonNegativeFactor(p - lo, n);
    NonNegativeFactor(hi - p, n);
  }

  lemma NonNegativeFactor(x: real, n: real)
    requires n > 0.0 && x * n >= 0.0
    ensures x >= 0.0
  {
  }

  lemma {:induction false} TotalPercentBetween(sessions: seq<Session>, lo: real, hi: real)
    requires forall s :: s in sessions && HasShares(s) ==> lo <= PercentOf(s) <= hi
    ensures var a, r := SumBy(sessions, AcceptedOf), SumBy(sessions, RejectedOf);
            a + r > 0 ==> lo <= RejectionPercent(a, r) <= hi
    ensures SumBy(sessions, AcceptedOf) + SumBy(sessions, RejectedOf) > 0 <==> exists s :: s in sessions && HasShares(s)
  {
    if sessions != [] {
      var rest, last := sessions[..|sessions| - 1], sessions[|sessions| - 1];
      assert sessions == rest + [last];
      assert last in sessions;
      TotalPercentBetween(rest, lo, hi);
      var a, r := SumBy(rest, AcceptedOf), SumBy(rest, RejectedOf);
      if a + r + last.accepted + last.rejected > 0 {
        PercentOfUnion(a, r, last.accepted, last.rejected, lo, hi);
      }
    }
  }

  lemma ExtremePercents(sessions: seq<Session>) returns (low: Session, high: Session)
    requires exists s :: s in sessions && HasShares(s)
    ensures low in sessions && HasShares(low) && high in sessions && HasShares(high)
    ensures forall s :: s in sessions && HasShares(s) ==> PercentOf(low) <= PercentOf(s) <= PercentOf(high)
  {
    var rest, last := sessions[..|sessions| - 1], sessions[|sessions| - 1];
    assert sessions == rest + [last];
    if s :| s in rest && HasShares(s) {
      low, high := ExtremePercents(rest);
      if HasShares(last) {
        low := if PercentOf(last) < PercentOf(low) then last else low;
        high := if PercentOf(last) > PercentOf(high) then last else high;
      }
    } else {
      low, high := last, last;
    }
  }

  /** A percentage between the smallest and the largest of the sessions that have shares. */
  ghost predicate PercentInRange(percent: real, sessions: seq<Session>) {
    exists low, high ::
      && low in sessions && HasShares(low) && high in sessions && HasShares(high)
      && PercentOf(low) <= percent <= PercentOf(high)
      && forall s :: s in sessions && HasShares(s) ==> PercentOf(low) <= PercentOf(s) <= PercentOf(high)
  }

  lemma {:induction false} TotalPercentInRange(sessions: seq<Session>)
    ensures var percent := RejectionPercent(SumBy(sessions, AcceptedOf), SumBy(sessions, RejectedOf));
            if exists s :: s in sessions && HasShares(s) then PercentInRange(percent, sessions) else percent == 0.0
  {
    if exists s :: s in sessions && HasShares(s) {
      var low, high := ExtremePercents(sessions);
      TotalPercentBetween(sessions, PercentOf(low), PercentOf(high));
    } else {
      TotalPercentBetween(sessions, 0.0, 0.0);
    }
  }

  /**
   * A worker's rejection percentage lies between the smallest and the largest
   * percentage of its sessions that have any shares; without shares it is zero.
   */
  lemma WorkerPercentIsBetweenSessions(id: string, entry: Entry)
    ensures var percent := Finalized(id, entry).rejectionPercent;
            if exists s :: s in entry.sessions && HasShares(s) then PercentInRange(percent, entry.sessions)
            else percent == 0.0
  {
    var sessions := StableSort(SessionLeq, entry.sessions);
    SortPermutes(SessionLeq, entry.sessions);
    SumOfPermutation(sessions, entry.sessions, AcceptedOf);
    SumOfPermutation(sessions, entry.sessions, RejectedOf);
    TotalPercentInRange(entry.sessions);
  }
}
