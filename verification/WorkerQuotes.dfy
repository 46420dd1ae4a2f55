/**
 * Which session a worker quotes its opening, closing and last-seen times from,
 * when several have been up equally long or were seen equally recently.
 */
module WorkerQuotes {
  import opened Words
  import opened Sorting
  import opened MinerWorkers

  /** The session that the opening and closing times are from: of the displayed ones up longest, the last in order. */
  ghost predicate QuotesUptime(w: Worker, sessions: seq<Session>, s: Session) {
    && IsDisplayed(s, sessions) && s.uptime == w.uptime && s.openedAt == w.openedAt && s.closedAt == w.closedAt
    && forall t :: IsDisplayed(t, sessions) && t.uptime == s.uptime ==> SessionLeq(t, s)
  }

  /** The session that the last-seen time is from: of the displayed ones seen last, the first in order. */
  ghost predicate QuotesLastSeen(w: Worker, sessions: seq<Session>, s: Session) {
    && IsDisplayed(s, sessions) && s.lastSeenSeconds == w.lastSeenSeconds && s.lastSeen == w.lastSeen
    && forall t :: IsDisplayed(t, sessions) && t.lastSeenSeconds == s.lastSeenSeconds ==> SessionLeq(s, t)
  }

  lemma {:induction false} LongestUpIsLast(sessions: seq<Session>)
    requires SortedBy(SessionLeq, sessions) && LongestUp(sessions).Some?
    ensures var up := LongestUp(sessions).value;
            forall s :: s in sessions && s.uptime == up.uptime ==> SessionLeq(s, up)
  {
    var tail := sessions[1..];
    var up := LongestUp(sessions).value;
    LongestUpIsLongest(sessions);
    LongestUpIsLongest(tail);
    assert sessions == [sessions[0]] + tail;
    assert SortedBy(SessionLeq, tail);
    if LongestUp(tail).Some? && LongestUp(tail).value == up {
      LongestUpIsLast(tail);
      var k :| 0 <= k < |tail| && tail[k] == up;
      assert SessionLeq(sessions[0], sessions[k + 1]);
    }
  }

  lemma {:induction false} LatestSeenIsFirst(sessions: seq<Session>)
    requires SortedBy(SessionLeq, sessions) && LatestSeen(sessions).Some?
    ensures var seen := LatestSeen(sessions).value;
            forall s :: s in sessions && s.lastSeenSeconds == seen.lastSeenSeconds ==> SessionLeq(seen, s)
  {
    var tail := sessions[1..];
    var seen := LatestSeen(sessions).value;
    LatestSeenIsLatest(sessions);
    LatestSeenIsLatest(tail);
    assert sessions == [sessions[0]] + tail;
    assert SortedBy(SessionLeq, tail);
    if seen == sessions[0] {
      forall s | s in tail
        ensures SessionLeq(seen, s)
      {
        var k :| 0 <= k < |tail| && tail[k] == s;
        assert SessionLeq(sessions[0], sessions[k + 1]);
      }
    } else {
      LatestSeenIsFirst(tail);
    }
  }

  lemma SortedCons(s: Session, rest: seq<Session>)
    requires SortedBy(SessionLeq, rest) && forall t :: t in rest ==> SessionLeq(s, t)
    ensures SortedBy(SessionLeq, [s] + rest)
  {
    assert forall j :: 0 <= j < |rest| ==> rest[j] in rest;
  }

  lemma HeadIsFirst(sessions: seq<Session>, t: Session)
    requires SortedBy(SessionLeq, sessions) && sessions != [] && t in sessions[1..]
    ensures SessionLeq(sessions[0], t)
  {
    var k :| 0 <= k < |sessions[1..]| && sessions[1..][k] == t;
    assert SessionLeq(sessions[0], sessions[k + 1]);
  }

  lemma {:induction false} ConnectedSorted(sessions: seq<Session>)
    requires SortedBy(SessionLeq, sessions)
    ensures SortedBy(SessionLeq, Connected(sessions))
  {
    if sessions != [] {
      ConnectedSorted(sessions[1..]);
      ConnectedMembers(sessions[1..]);
      forall t | t in Connected(sessions[1..])
        ensures SessionLeq(sessions[0], t)
      {
        HeadIsFirst(sessions, t);
      }
      SortedCons(sessions[0], Connected(sessions[1..]));
    }
  }

  /** Every worker quotes its times from such sessions. */
  lemma QuotedSessions(id: string, entry: Entry)
    ensures var w := Finalized(id, entry);
            && (w.uptime.Some? ==> exists s :: QuotesUptime(w, entry.sessions, s))
            && (w.lastSeenSeconds.Some? ==> exists s :: QuotesLastSeen(w, entry.sessions, s))
  {
    var w := Finalized(id, entry);
    var sessions := StableSort(SessionLeq, entry.sessions);
    SessionLeqIsTotalPreorder();
    SortIsSorted(SessionLeq, entry.sessions);
    ConnectedSorted(sessions);
    SortedSessionMembers(entry.sessions);
    DisplayedMembers(sessions);
    assert forall s :: IsDisplayed(s, sessions) <==> IsDisplayed(s, entry.sessions);
    LongestUpIsLongest(Displayed(sessions));
    LatestSeenIsLatest(Displayed(sessions));
    if w.uptime.Some? {
      LongestUpIsLast(Displayed(sessions));
      assert QuotesUptime(w, entry.sessions, LongestUp(Displayed(sessions)).value);
    }
    if w.lastSeenSeconds.Some? {
      LatestSeenIsFirst(Displayed(sessions));
      assert QuotesLastSeen(w, entry.sessions, LatestSeen(Displayed(sessions)).value);
    }
  }

  /** Displayed sessions that sort alike and tie in uptime or age show the same times. */
  ghost predicate Unambiguous(sessions: seq<Session>) {
    forall s, t :: IsDisplayed(s, sessions) && IsDisplayed(t, sessions) && SessionLeq(s, t) && SessionLeq(t, s) ==>
                     && (s.uptime.Some? && s.uptime == t.uptime ==>
                           s.openedAt == t.openedAt && s.closedAt == t.closedAt)
                     && (s.lastSeenSeconds.Some? && s.lastSeenSeconds == t.lastSeenSeconds ==>
                           s.lastSeen == t.lastSeen)
  }

  predicate SameQuotes(w: Worker, v: Worker) {
    w.openedAt == v.openedAt && w.closedAt == v.closedAt && w.lastSeen == v.lastSeen
  }

  lemma QuotedUptimesAgree(w: Worker, sessions: seq<Session>, v: Worker, other: seq<Session>)
    requires forall s :: IsDisplayed(s, sessions) <==> IsDisplayed(s, other)
    requires w.uptime.Some? && w.uptime == v.uptime && Unambiguous(sessions)
    requires exists s :: QuotesUptime(w, sessions, s)
    requires exists s :: QuotesUptime(v, other, s)
    ensures w.openedAt == v.openedAt && w.closedAt == v.closedAt
  {
    var s :| QuotesUptime(w, sessions, s);
    var t :| QuotesUptime(v, other, t);
    assert SessionLeq(s, t) && SessionLeq(t, s);
  }

  lemma QuotedAgesAgree(w: Worker, sessions: seq<Session>, v: Worker, other: seq<Session>)
    requires forall s :: IsDisplayed(s, sessions) <==> IsDisplayed(s, other)
    requires w.lastSeenSeconds.Some? && w.lastSeenSeconds == v.lastSeenSeconds && Unambiguous(sessions)
    requires exists s :: QuotesLastSeen(w, sessions, s)
    requires exists s :: QuotesLastSeen(v, other, s)
    ensures w.lastSeen == v.lastSeen
  {
    var s :| QuotesLastSeen(w, sessions, s);
    var t :| QuotesLastSeen(v, other, t);
    assert SessionLeq(s, t) && SessionLeq(t, s);
  }
}
