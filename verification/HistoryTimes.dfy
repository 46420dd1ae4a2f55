/**
 * The rest of a row read off the history: the identity and the hashrate of its
 * last open, when it was closed and how long it had been up, and when its miner
 * was last seen.
 */
module HistoryTimes {
  import opened Words
  import opened MinerHistory
  import opened HistoryLog

  /** When an effect shows that the miner was there. */
  function SightOf(e: Effect): Option<Time> {
    match e
    case Opened(t, _, _) => Some(t)
    case Closed(t) => Some(t)
    case Reported(_, _, _, t) => Some(t)
    case Refused(_, t) => Some(t)
    case _ => None
  }

  /** The last sight of the miner among the first effects is at `i`. */
  ghost predicate LastSight(es: Effects, i: nat, t: Time) {
    i < |es| && SightOf(es[i]) == Some(t) && forall j :: i < j < |es| ==> SightOf(es[j]).None?
  }

  /** Nothing has closed the miner since its open at `o`. */
  ghost predicate StillOpen(es: Effects, o: nat, row: Row)
    requires o < |es| && es[o].Opened?
  {
    && (forall j :: o < j < |es| ==> !es[j].Closed? && !es[j].Restarted?)
    && row.connected && row.closedAt.None? && row.uptime.None? && row.hashrate == es[o].hashrate
  }

  /** The last close since the open at `o` is at `c`: the uptime runs from the one to the other. */
  ghost predicate ClosedAt(es: Effects, o: nat, c: nat, row: Row)
    requires o < |es| && es[o].Opened?
  {
    && o < c < |es| && es[c].Closed? && (forall j :: c < j < |es| ==> !es[j].Closed?)
    && !row.connected && row.hashrate == 0.0
    && row.closedAt == Some(es[c].t)
    && row.uptime == Some(if es[c].t >= es[o].t then es[c].t - es[o].t else 0)
  }

  /** Restarts but no close since the open at `o`, the first at `r`: closed at the last sight before, without uptime. */
  ghost predicate CutOffAt(es: Effects, o: nat, r: nat, i: nat, row: Row)
    requires o < |es| && es[o].Opened?
  {
    && (forall j :: o < j < |es| ==> !es[j].Closed?)
    && o < r < |es| && es[r].Restarted? && (forall j :: o < j < r ==> !es[j].Restarted?)
    && !row.connected && row.hashrate == 0.0 && row.uptime.None?
    && row.closedAt.Some? && o <= i && LastSight(es[..r], i, row.closedAt.value)
  }

  /** Whether and when the row says that its miner was closed since the open at `o`. */
  ghost predicate EndsAs(es: Effects, o: nat, row: Row)
    requires o < |es| && es[o].Opened?
  {
    || StillOpen(es, o, row)
    || (exists c: nat :: ClosedAt(es, o, c, row))
    || (exists r: nat, i: nat :: CutOffAt(es, o, r, i, row))
  }

  ghost predicate SeenAsOf(es: Effects, o: nat, row: Row) {
    exists i: nat :: o <= i && LastSight(es, i, row.lastSeen)
  }

  /** What the log says about the times of a row. */
  ghost predicate Dates(es: Effects, row: Row) {
    exists o: nat :: && LastOpen(es, o) && row.userIdentity == es[o].userIdentity && row.openedAt == Some(es[o].t)
                     && EndsAs(es, o, row) && SeenAsOf(es, o, row)
  }

  // ----- One more effect -----

  /** How an effect changes the fields in question. */
  predicate Redates(before: Row, after: Row, e: Effect) {
    && after.userIdentity == before.userIdentity && after.openedAt == before.openedAt
    && after.lastSeen == SightOf(e).GetOr(before.lastSeen)
    && match e
       case Closed(t) =>
         && !after.connected && after.hashrate == 0.0 && after.closedAt == Some(t)
         && (before.openedAt.Some? ==>
               after.uptime == Some(if t >= before.openedAt.value then t - before.openedAt.value else 0))
       case Restarted =>
         && !after.connected && after.hashrate == 0.0 && after.uptime == before.uptime
         && after.closedAt == Some(before.closedAt.GetOr(before.lastSeen))
       case _ =>
         && after.connected == before.connected && after.hashrate == before.hashrate
         && after.closedAt == before.closedAt && after.uptime == before.uptime
  }

  predicate OpensAs(after: Row, e: Effect)
    requires e.Opened?
  {
    && after.userIdentity == e.userIdentity && after.openedAt == Some(e.t) && after.lastSeen == e.t
    && after.connected && after.closedAt.None? && after.uptime.None? && after.hashrate == e.hashrate
  }

  lemma RowRedates(env: Env, row: Option<Row>, sessions: Sessions, op: Op, id: string)
    ensures var e, after := EffectOn(env, row, sessions, op, id), RowAfter(env, row, sessions, op, id);
            after.Some? ==>
              if e.Opened? then OpensAs(after.value, e) else row.Some? && Redates(row.value, after.value, e)
  {
  }

  lemma SightExtends(es: Effects, o: nat, before: Row, after: Row, e: Effect)
    requires o < |es| && SeenAsOf(es, o, before) && Redates(before, after, e)
    ensures SeenAsOf(es + [e], o, after)
  {
    var all := es + [e];
    if SightOf(e).Some? {
      assert LastSight(all, |es|, after.lastSeen);
    } else {
      var i: nat :| o <= i && LastSight(es, i, before.lastSeen);
      assert LastSight(all, i, after.lastSeen);
    }
  }

  lemma CloseExtends(es: Effects, o: nat, before: Row, after: Row, e: Effect)
    requires o < |es| && es[o].Opened? && before.openedAt == Some(es[o].t)
    requires Redates(before, after, e) && e.Closed?
    ensures EndsAs(es + [e], o, after)
  {
    assert (es + [e])[o] == es[o];
    assert ClosedAt(es + [e], o, |es|, after);
  }

  lemma RestartExtends(es: Effects, o: nat, before: Row, after: Row)
    requires o < |es| && es[o].Opened? && SeenAsOf(es, o, before)
    requires StillOpen(es, o, before) && Redates(before, after, Restarted)
    ensures EndsAs(es + [Restarted], o, after)
  {
    var all := es + [Restarted];
    assert all[..|es|] == es && all[o] == es[o];
    var i: nat :| o <= i && LastSight(es, i, before.lastSeen);
    assert CutOffAt(all, o, |es|, i, after);
  }

  lemma ClosedExtends(es: Effects, o: nat, c: nat, before: Row, after: Row, e: Effect)
    requires o < |es| && es[o].Opened? && ClosedAt(es, o, c, before)
    requires Redates(before, after, e) && !e.Closed?
    ensures EndsAs(es + [e], o, after)
  {
    var all := es + [e];
    assert all[o] == es[o] && all[c] == es[c];
    assert ClosedAt(all, o, c, after);
  }

  lemma CutOffExtends(es: Effects, o: nat, r: nat, i: nat, before: Row, after: Row, e: Effect)
    requires o < |es| && es[o].Opened? && CutOffAt(es, o, r, i, before)
    requires Redates(before, after, e) && !e.Closed?
    ensures EndsAs(es + [e], o, after)
  {
    var all := es + [e];
    assert all[..r] == es[..r] && all[o] == es[o] && all[r] == es[r];
    assert CutOffAt(all, o, r, i, after);
  }

  lemma EndExtends(es: Effects, o: nat, before: Row, after: Row, e: Effect)
    requires o < |es| && es[o].Opened? && before.openedAt == Some(es[o].t)
    requires EndsAs(es, o, before) && SeenAsOf(es, o, before) && Redates(before, after, e)
    ensures EndsAs(es + [e], o, after)
  {
    assert (es + [e])[o] == es[o];
    if e.Closed? {
      CloseExtends(es, o, before, after, e);
    } else if StillOpen(es, o, before) {
      if e.Restarted? {
        RestartExtends(es, o, before, after);
      } else {
        assert StillOpen(es + [e], o, after);
      }
    } else if c: nat :| ClosedAt(es, o, c, before) {
      ClosedExtends(es, o, c, before, after, e);
    } else {
      var r: nat, i: nat :| CutOffAt(es, o, r, i, before);
      CutOffExtends(es, o, r, i, before, after, e);
    }
  }

  lemma OpenDates(es: Effects, after: Row, e: Effect)
    requires e.Opened? && OpensAs(after, e)
    ensures Dates(es + [e], after)
  {
    var all := es + [e];
    assert LastOpen(all, |es|) && all[|es|] == e;
    assert StillOpen(all, |es|, after) && LastSight(all, |es|, after.lastSeen);
  }

  lemma OtherDates(es: Effects, before: Row, after: Row, e: Effect)
    requires Dates(es, before) && Redates(before, after, e) && !e.Opened?
    ensures Dates(es + [e], after)
  {
    var all := es + [e];
    var o: nat :| && LastOpen(es, o) && before.userIdentity == es[o].userIdentity && before.openedAt == Some(es[o].t)
                  && EndsAs(es, o, before) && SeenAsOf(es, o, before);
    EndExtends(es, o, before, after, e);
    SightExtends(es, o, before, after, e);
    assert all[o] == es[o] && LastOpen(all, o);
  }

  // ----- Every history -----

  lemma PrefixDates(env: Env, ops: seq<Op>, n: nat, id: string)
    requires n <= |ops|
    ensures RowAt(env, ops, n, id).Some? ==> Dates(EffectsOf(env, ops, id)[..n], RowAt(env, ops, n, id).value)
    decreases n
  {
    var es := EffectsOf(env, ops, id);
    if n == 0 {
      assert ops[..0] == [];
    } else {
      var m: nat := n - 1;
      PrefixDates(env, ops, m, id);
      EffectFollowsLog(env, ops, m, id);
      RowStep(env, ops, m, id);
      RowRedates(env, RowAt(env, ops, m, id), Run(env, ops[..m]).sessions, ops[m], id);
      assert es[..n] == es[..m] + [es[m]];
      if RowAt(env, ops, n, id).Some? {
        if es[m].Opened? {
          OpenDates(es[..m], RowAt(env, ops, n, id).value, es[m]);
        } else {
          OtherDates(es[..m], RowAt(env, ops, m, id).value, RowAt(env, ops, n, id).value, es[m]);
        }
      }
    }
  }

  /**
   * The times of every row follow the log of operations. The identity text and the
   * opening time are those of the miner's last open. Without a close or restart
   * since, the row is connected, has no closing time and no uptime, and the
   * hashrate of that open. After a close routed to it, the closing time is that of
   * the last one, the uptime the time from the open to it, and there is no
   * hashrate. After a restart alone, the closing time is when the miner was last
   * seen before the first one, without uptime. And it was last seen at the last
   * open, close or report routed to it.
   */
  lemma {:induction false} TimesFollowLog(env: Env, ops: seq<Op>, id: string)
    requires id in Run(env, ops).table
    ensures Dates(EffectsOf(env, ops, id), Run(env, ops).table[id])
  {
    PrefixDates(env, ops, |ops|, id);
    assert EffectsOf(env, ops, id)[..|ops|] == EffectsOf(env, ops, id);
    assert ops[..|ops|] == ops;
  }
}
