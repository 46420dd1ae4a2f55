/**
 * The miner table read off the history: which operation each field of a row
 * comes from, across reconnects, restarts and deletes.
 */
module HistoryLog {
  import opened Words
  import opened MinerIdentity
  import opened MinerHistory

  /** What an operation of the history means for one miner. */
  datatype Effect =
    | Opened(t: Time, userIdentity: string, hashrate: real)
    | Closed(t: Time)
    | Restarted
    | Removed
    | Reported(accepted: nat, bestDiff: real, blocks: nat, t: Time)
    | Refused(rejected: nat, t: Time)
    | Nothing

  // ----- Which miner a channel is live for -----

  /** The operation makes the channel live for a miner. */
  predicate Takes(env: Env, op: Op, key: SessionKey, id: string) {
    && op.Emit? && op.event.ChannelOpened? && op.event.key == key
    && IdFromIdentity(env.decode, env.network, op.event.userIdentity) == Some(id)
  }

  /** The operation ends whatever the channel was live for. */
  predicate Ends(env: Env, op: Op, key: SessionKey) {
    match op
    case Restart => true
    case Delete(_) => false
    case Emit(e) =>
      match e
      case ChannelOpened(other, userIdentity, _, _) =>
        other == key && IdFromIdentity(env.decode, env.network, userIdentity).Some?
      case ChannelClosed(other, _) => other == key
      case DownstreamClosed(d, _) => key.downstream == d
      case _ => false
  }

  /** Operation `i` made the channel live for the miner and nothing has ended that since. */
  ghost predicate LiveSince(env: Env, ops: seq<Op>, i: nat, key: SessionKey, id: string) {
    i < |ops| && Takes(env, ops[i], key, id) && forall j :: i < j < |ops| ==> !Ends(env, ops[j], key)
  }

  ghost predicate IsLive(env: Env, ops: seq<Op>, key: SessionKey, id: string) {
    exists i: nat :: LiveSince(env, ops, i, key, id)
  }

  lemma {:induction false} RunSessionStep(env: Env, ops: seq<Op>, op: Op, key: SessionKey, id: string)
    ensures RoutedTo(Run(env, ops + [op]).sessions, key, id)
            <==> Takes(env, op, key, id) || (RoutedTo(Run(env, ops).sessions, key, id) && !Ends(env, op, key))
  {
  }

  lemma LiveSinceExtends(env: Env, ops: seq<Op>, op: Op, key: SessionKey, id: string)
    ensures IsLive(env, ops + [op], key, id)
            <==> Takes(env, op, key, id) || (IsLive(env, ops, key, id) && !Ends(env, op, key))
  {
    var all := ops + [op];
    if Takes(env, op, key, id) {
      assert LiveSince(env, all, |ops|, key, id);
    } else {
      if i: nat :| LiveSince(env, ops, i, key, id) && !Ends(env, op, key) {
        assert LiveSince(env, all, i, key, id);
      }
      if i: nat :| LiveSince(env, all, i, key, id) {
        assert all[|ops|] == op;
        forall j | i < j < |ops|
          ensures !Ends(env, ops[j], key)
        {
          assert all[j] == ops[j];
        }
        assert LiveSince(env, ops, i, key, id);
      }
    }
  }

  lemma {:induction false} OneMoreFollowsLog(env: Env, ops: seq<Op>, op: Op, key: SessionKey, id: string)
    requires RoutedTo(Run(env, ops).sessions, key, id) <==> IsLive(env, ops, key, id)
    ensures RoutedTo(Run(env, ops + [op]).sessions, key, id) <==> IsLive(env, ops + [op], key, id)
  {
    RunSessionStep(env, ops, op, key, id);
    LiveSinceExtends(env, ops, op, key, id);
  }

  /** Routing read off the log: a channel is live for the miner of its last open that nothing has ended. */
  lemma {:induction false} SessionsFollowLog(env: Env, ops: seq<Op>, key: SessionKey, id: string)
    ensures RoutedTo(Run(env, ops).sessions, key, id) <==> IsLive(env, ops, key, id)
  {
    if ops != [] {
      var before, last := ops[..|ops| - 1], ops[|ops| - 1];
      SessionsFollowLog(env, before, key, id);
      OneMoreFollowsLog(env, before, last, key, id);
      assert before + [last] == ops;
    }
  }

  // ----- What each operation means for one miner -----

  /** At operation `n` the channel is live for the miner, by the log alone. */
  ghost predicate Routed(env: Env, ops: seq<Op>, n: nat, key: SessionKey, id: string)
    requires n <= |ops|
  {
    IsLive(env, ops[..n], key, id)
  }

  predicate OpensMiner(env: Env, op: Op, id: string) {
    op.Emit? && op.event.ChannelOpened? && IdFromIdentity(env.decode, env.network, op.event.userIdentity) == Some(id)
  }

  /** A restart, or a close of a channel that is live for the miner. */
  ghost predicate Disconnects(env: Env, ops: seq<Op>, n: nat, id: string)
    requires n < |ops|
  {
    match ops[n]
    case Restart => true
    case Delete(_) => false
    case Emit(e) =>
      match e
      case ChannelClosed(key, _) => Routed(env, ops, n, key, id)
      case DownstreamClosed(d, _) => exists key: SessionKey :: key.downstream == d && Routed(env, ops, n, key, id)
      case _ => false
  }

  /** Of the opens, closes and restarts that concern the miner, the last one before operation `n` is an open. */
  ghost predicate Online(env: Env, ops: seq<Op>, n: nat, id: string)
    requires n <= |ops|
  {
    exists o: nat ::
      && o < n && OpensMiner(env, ops[o], id)
      && forall j :: o < j < n ==> !Disconnects(env, ops, j, id)
  }

  /**
   * What an operation of the log means for one miner: an open of it, a close of a
   * channel that is live for it, a restart, a delete while it is not online, or a
   * share report on a channel that is live for it. Nothing of the table is
   * consulted.
   */
  ghost function EffectOf(env: Env, ops: seq<Op>, n: nat, id: string): Effect
    requires n < |ops|
  {
    match ops[n]
    case Restart => Restarted
    case Delete(other) => if other == id && !Online(env, ops, n, id) then Removed else Nothing
    case Emit(e) =>
      match e
      case ChannelOpened(_, userIdentity, hashrate, t) =>
        if OpensMiner(env, ops[n], id) then Opened(t, userIdentity, hashrate) else Nothing
      case ChannelClosed(_, t) => if Disconnects(env, ops, n, id) then Closed(t) else Nothing
      case DownstreamClosed(_, t) => if Disconnects(env, ops, n, id) then Closed(t) else Nothing
      case ShareAccepted(key, accepted, bestDiff, blocks, t) =>
        if Routed(env, ops, n, key, id) && accepted <= I64_MAX && blocks <= I64_MAX
        then Reported(accepted, bestDiff, blocks, t) else Nothing
      case ShareRejected(key, rejected, t) =>
        if Routed(env, ops, n, key, id) && rejected <= I64_MAX then Refused(rejected, t) else Nothing
      case BlockFound(_) => Nothing
  }

  // ----- When a row is connected -----

  function RowAt(env: Env, ops: seq<Op>, n: nat, id: string): Option<Row>
    requires n <= |ops|
  {
    RowIn(Run(env, ops[..n]).table, id)
  }

  predicate IsConnected(row: Option<Row>) {
    row.Some? && row.value.connected
  }

  lemma {:induction false} RoutedIsSession(env: Env, ops: seq<Op>, n: nat, key: SessionKey, id: string)
    requires n <= |ops|
    ensures Routed(env, ops, n, key, id) <==> RoutedTo(Run(env, ops[..n]).sessions, key, id)
  {
    SessionsFollowLog(env, ops[..n], key, id);
  }

  /** Whether an operation disconnects a miner, by the sessions it meets. */
  predicate ClosesRow(sessions: Sessions, op: Op, id: string) {
    match op
    case Restart => true
    case Delete(_) => false
    case Emit(e) =>
      match e
      case ChannelClosed(key, _) => RoutedTo(sessions, key, id)
      case DownstreamClosed(d, _) => id in IdsOn(sessions, d)
      case _ => false
  }

  lemma {:induction false} DisconnectsClosesRow(env: Env, ops: seq<Op>, n: nat, id: string)
    requires n < |ops|
    ensures Disconnects(env, ops, n, id) <==> ClosesRow(Run(env, ops[..n]).sessions, ops[n], id)
  {
    var sessions := Run(env, ops[..n]).sessions;
    forall key
      ensures Routed(env, ops, n, key, id) <==> RoutedTo(sessions, key, id)
    {
      RoutedIsSession(env, ops, n, key, id);
    }
    if ops[n].Emit? && ops[n].event.DownstreamClosed? {
      var d := ops[n].event.downstream;
      assert id in IdsOn(sessions, d) <==> exists key: SessionKey :: key.downstream == d && RoutedTo(sessions, key, id);
    }
  }

  lemma ConnectedMove(env: Env, row: Option<Row>, sessions: Sessions, op: Op, id: string)
    ensures IsConnected(RowAfter(env, row, sessions, op, id))
            <==> OpensMiner(env, op, id) || (IsConnected(row) && !ClosesRow(sessions, op, id))
  {
  }

  lemma OnlineMove(env: Env, ops: seq<Op>, n: nat, id: string)
    requires n < |ops|
    ensures Online(env, ops, n + 1, id)
            <==> OpensMiner(env, ops[n], id) || (Online(env, ops, n, id) && !Disconnects(env, ops, n, id))
  {
  }

  /** A row is connected exactly when the log says that its miner is online. */
  lemma ConnectedFollowsLog(env: Env, ops: seq<Op>, n: nat, id: string)
    requires n <= |ops|
    ensures IsConnected(RowAt(env, ops, n, id)) <==> Online(env, ops, n, id)
    decreases n
  {
    if n == 0 {
      assert ops[..0] == [];
    } else {
      var m: nat := n - 1;
      ConnectedFollowsLog(env, ops, m, id);
      OnlineMove(env, ops, m, id);
      DisconnectsClosesRow(env, ops, m, id);
      ConnectedMove(env, RowAt(env, ops, m, id), Run(env, ops[..m]).sessions, ops[m], id);
      RowStep(env, ops, m, id);
    }
  }

  lemma {:induction false} RowStep(env: Env, ops: seq<Op>, n: nat, id: string)
    requires n < |ops|
    ensures RowAt(env, ops, n + 1, id)
            == RowAfter(env, RowAt(env, ops, n, id), Run(env, ops[..n]).sessions, ops[n], id)
  {
    assert ops[..n + 1][..n] == ops[..n];
    RowsAreIndependent(env, Run(env, ops[..n]), ops[n], id);
  }

  // ----- Fields of a row against a sequence of effects -----

  type Effects = seq<Effect>

  /** The last open among the first effects. */
  ghost predicate LastOpen(es: Effects, o: nat) {
    o < |es| && es[o].Opened? && forall i :: o < i < |es| ==> !es[i].Opened?
  }

  predicate ReportIs(e: Effect, row: Row) {
    e.Reported? && e.accepted == row.accepted && e.bestDiff == row.bestDiff && e.blocks == row.blocks
  }

  predicate RefusalIs(e: Effect, row: Row) {
    e.Refused? && e.rejected == row.rejected
  }

  /** The last report after `o`, or zeros if there is none. */
  ghost predicate ReportsSince(es: Effects, o: nat, row: Row) {
    || ((forall i :: o < i < |es| ==> !es[i].Reported?) && row.accepted == 0 && row.bestDiff == 0.0 && row.blocks == 0)
    || exists i :: && o < i < |es| && ReportIs(es[i], row)
                   && forall j :: i < j < |es| ==> !es[j].Reported?
  }

  ghost predicate RefusalsSince(es: Effects, o: nat, row: Row) {
    || ((forall i :: o < i < |es| ==> !es[i].Refused?) && row.rejected == 0)
    || exists i :: && o < i < |es| && RefusalIs(es[i], row)
                   && forall j :: i < j < |es| ==> !es[j].Refused?
  }

  ghost predicate NotRemovedAfter(es: Effects, o: nat) {
    forall i :: o < i < |es| ==> !es[i].Removed?
  }

  ghost predicate RemovedBetween(es: Effects, i: nat, f: nat) {
    exists d :: i < d < f && d < |es| && es[d].Removed?
  }

  /** The earliest open since the last removal. */
  ghost predicate FirstOpen(es: Effects, f: nat) {
    && f < |es| && es[f].Opened?
    && NotRemovedAfter(es, f)
    && forall i :: 0 <= i < f && es[i].Opened? ==> RemovedBetween(es, i, f)
  }

  /** What the log says about a miner's row. */
  ghost predicate Explains(es: Effects, row: Option<Row>) {
    && (row.Some? <==> exists o: nat :: o < |es| && es[o].Opened? && NotRemovedAfter(es, o))
    && (row.Some? ==>
          && (exists o: nat :: && LastOpen(es, o) && row.value.openedAt == Some(es[o].t)
                               && ReportsSince(es, o, row.value) && RefusalsSince(es, o, row.value))
          && (exists f: nat :: FirstOpen(es, f) && row.value.firstSeen == es[f].t))
  }

  /** How an effect changes the fields in question. */
  predicate Moves(before: Option<Row>, after: Option<Row>, e: Effect) {
    match e
    case Opened(t, _, _) =>
      && after.Some? && after.value.openedAt == Some(t)
      && after.value.firstSeen == (if before.Some? then before.value.firstSeen else t)
      && after.value.accepted == 0 && after.value.bestDiff == 0.0 && after.value.blocks == 0
      && after.value.rejected == 0
    case Removed => after.None?
    case Reported(n, d, b, _) => Carries(before, after, (r: Row) => r.(accepted := n, bestDiff := d, blocks := b))
    case Refused(n, _) => Carries(before, after, (r: Row) => r.(rejected := n))
    case _ => Carries(before, after, (r: Row) => r)
  }

  /** The row stays where it is, and its logged fields become those of `change`. */
  predicate Carries(before: Option<Row>, after: Option<Row>, change: Row -> Row) {
    && before.Some? == after.Some?
    && (before.Some? ==>
          var b, a := change(before.value), after.value;
          && a.openedAt == b.openedAt && a.firstSeen == b.firstSeen
          && a.accepted == b.accepted && a.bestDiff == b.bestDiff && a.blocks == b.blocks
          && a.rejected == b.rejected)
  }

  lemma PresenceExtends(es: Effects, before: Option<Row>, after: Option<Row>, e: Effect)
    requires before.Some? <==> exists o: nat :: o < |es| && es[o].Opened? && NotRemovedAfter(es, o)
    requires Moves(before, after, e)
    ensures var all := es + [e];
            after.Some? <==> exists o: nat :: o < |all| && all[o].Opened? && NotRemovedAfter(all, o)
  {
    var all := es + [e];
    if e.Opened? {
      assert all[|es|].Opened? && NotRemovedAfter(all, |es|);
    } else if e.Removed? {
      assert all[|es|].Removed?;
    } else {
      if o: nat :| o < |es| && es[o].Opened? && NotRemovedAfter(es, o) {
        assert all[o].Opened? && NotRemovedAfter(all, o);
      }
      if o: nat :| o < |all| && all[o].Opened? && NotRemovedAfter(all, o) {
        forall i | o < i < |es|
          ensures !es[i].Removed?
        {
          assert all[i] == es[i];
        }
        assert es[o].Opened? && NotRemovedAfter(es, o);
      }
    }
  }

  lemma ReportsExtend(es: Effects, o: nat, before: Row, after: Row, e: Effect)
    requires o < |es| && ReportsSince(es, o, before)
    requires Moves(Some(before), Some(after), e) && !e.Opened?
    ensures ReportsSince(es + [e], o, after)
  {
    var all := es + [e];
    if e.Reported? {
      assert ReportIs(all[|es|], after);
    } else if i :| && o < i < |es| && ReportIs(es[i], before)
                   && forall j :: i < j < |es| ==> !es[j].Reported? {
      assert all[i] == es[i];
    }
  }

  lemma RefusalsExtend(es: Effects, o: nat, before: Row, after: Row, e: Effect)
    requires o < |es| && RefusalsSince(es, o, before)
    requires Moves(Some(before), Some(after), e) && !e.Opened?
    ensures RefusalsSince(es + [e], o, after)
  {
    var all := es + [e];
    if e.Refused? {
      assert RefusalIs(all[|es|], after);
    } else if i :| && o < i < |es| && RefusalIs(es[i], before)
                   && forall j :: i < j < |es| ==> !es[j].Refused? {
      assert all[i] == es[i];
    }
  }

  lemma FirstOpenExtends(es: Effects, f: nat, e: Effect)
    requires FirstOpen(es, f) && !e.Removed?
    ensures FirstOpen(es + [e], f)
  {
    var all := es + [e];
    forall i | 0 <= i < f && all[i].Opened?
      ensures RemovedBetween(all, i, f)
    {
      assert es[i].Opened?;
      var d :| i < d < f && d < |es| && es[d].Removed?;
      assert all[d].Removed?;
    }
  }

  lemma FreshOpenIsFirst(es: Effects, e: Effect)
    requires e.Opened? && forall o: nat :: o < |es| && es[o].Opened? ==> !NotRemovedAfter(es, o)
    ensures FirstOpen(es + [e], |es|)
  {
    var all := es + [e];
    forall i | 0 <= i < |es| && all[i].Opened?
      ensures RemovedBetween(all, i, |es|)
    {
      assert es[i].Opened?;
      var d :| i < d < |es| && es[d].Removed?;
      assert all[d].Removed?;
    }
  }

  lemma OpenExplains(es: Effects, before: Option<Row>, after: Row, e: Effect)
    requires Explains(es, before) && Moves(before, Some(after), e) && e.Opened?
    ensures Explains(es + [e], Some(after))
  {
    var all := es + [e];
    PresenceExtends(es, before, Some(after), e);
    assert LastOpen(all, |es|) && all[|es|].t == e.t;
    assert ReportsSince(all, |es|, after) && RefusalsSince(all, |es|, after);
    if before.Some? {
      var f: nat :| FirstOpen(es, f) && before.value.firstSeen == es[f].t;
      FirstOpenExtends(es, f, e);
      assert all[f] == es[f];
    } else {
      FreshOpenIsFirst(es, e);
    }
  }

  lemma OtherExplains(es: Effects, before: Row, after: Row, e: Effect)
    requires Explains(es, Some(before)) && Moves(Some(before), Some(after), e) && !e.Opened?
    ensures Explains(es + [e], Some(after))
  {
    var all := es + [e];
    PresenceExtends(es, Some(before), Some(after), e);
    var o: nat :| && LastOpen(es, o) && before.openedAt == Some(es[o].t)
                  && ReportsSince(es, o, before) && RefusalsSince(es, o, before);
    ReportsExtend(es, o, before, after, e);
    RefusalsExtend(es, o, before, after, e);
    assert all[o] == es[o];
    assert LastOpen(all, o);
    var f: nat :| FirstOpen(es, f) && before.firstSeen == es[f].t;
    FirstOpenExtends(es, f, e);
    assert all[f] == es[f];
  }

  lemma MoveExplains(es: Effects, before: Option<Row>, after: Option<Row>, e: Effect)
    requires Explains(es, before) && Moves(before, after, e)
    ensures Explains(es + [e], after)
  {
    if e.Opened? {
      OpenExplains(es, before, after.value, e);
    } else if after.Some? {
      OtherExplains(es, before.value, after.value, e);
    } else {
      PresenceExtends(es, before, after, e);
    }
  }

  // ----- The log -----

  /** The effects of the whole log on one miner. */
  ghost function EffectsOf(env: Env, ops: seq<Op>, id: string): Effects {
    seq(|ops|, i requires 0 <= i < |ops| => EffectOf(env, ops, i, id))
  }

  /** The effect of an operation by the row and the sessions it meets. */
  function EffectOn(env: Env, row: Option<Row>, sessions: Sessions, op: Op, id: string): Effect {
    match op
    case Restart => Restarted
    case Delete(other) => if other == id && !IsConnected(row) then Removed else Nothing
    case Emit(e) =>
      match e
      case ChannelOpened(_, userIdentity, hashrate, t) =>
        if OpensMiner(env, op, id) then Opened(t, userIdentity, hashrate) else Nothing
      case ChannelClosed(_, t) => if ClosesRow(sessions, op, id) then Closed(t) else Nothing
      case DownstreamClosed(_, t) => if ClosesRow(sessions, op, id) then Closed(t) else Nothing
      case ShareAccepted(key, accepted, bestDiff, blocks, t) =>
        if RoutedTo(sessions, key, id) && accepted <= I64_MAX && blocks <= I64_MAX
        then Reported(accepted, bestDiff, blocks, t) else Nothing
      case ShareRejected(key, rejected, t) =>
        if RoutedTo(sessions, key, id) && rejected <= I64_MAX then Refused(rejected, t) else Nothing
      case BlockFound(_) => Nothing
  }

  lemma {:induction false} EffectFollowsLog(env: Env, ops: seq<Op>, n: nat, id: string)
    requires n < |ops|
    ensures EffectOf(env, ops, n, id) == EffectOn(env, RowAt(env, ops, n, id), Run(env, ops[..n]).sessions, ops[n], id)
  {
    ConnectedFollowsLog(env, ops, n, id);
    DisconnectsClosesRow(env, ops, n, id);
    if ops[n].Emit? && (ops[n].event.ShareAccepted? || ops[n].event.ShareRejected?) {
      RoutedIsSession(env, ops, n, ops[n].event.key, id);
    }
  }

  lemma RowMoves(env: Env, row: Option<Row>, sessions: Sessions, op: Op, id: string)
    ensures Moves(row, RowAfter(env, row, sessions, op, id), EffectOn(env, row, sessions, op, id))
  {
  }

  lemma StepMoves(env: Env, ops: seq<Op>, n: nat, id: string)
    requires n < |ops|
    ensures Moves(RowAt(env, ops, n, id), RowAt(env, ops, n + 1, id), EffectOf(env, ops, n, id))
  {
    EffectFollowsLog(env, ops, n, id);
    RowStep(env, ops, n, id);
    RowMoves(env, RowAt(env, ops, n, id), Run(env, ops[..n]).sessions, ops[n], id);
  }

  lemma PrefixExplains(env: Env, ops: seq<Op>, n: nat, id: string)
    requires n <= |ops|
    ensures Explains(EffectsOf(env, ops, id)[..n], RowAt(env, ops, n, id))
    decreases n
  {
    var es := EffectsOf(env, ops, id);
    if n == 0 {
      assert ops[..0] == [];
      assert es[..0] == [];
    } else {
      PrefixExplains(env, ops, n - 1, id);
      StepMoves(env, ops, n - 1, id);
      assert es[..n] == es[..n - 1] + [es[n - 1]];
      MoveExplains(es[..n - 1], RowAt(env, ops, n - 1, id), RowAt(env, ops, n, id), es[n - 1]);
    }
  }

  /**
   * Refinement to the log of operations. A miner is in the table exactly when some
   * open of it has not been undone by a delete while it was not online, and its
   * row is connected exactly when it is online. Its opening time is that of its
   * last open; accepted, best difficulty and blocks are those of the last report
   * routed to it since, rejected likewise, and zero without one; and it was first
   * seen at the earliest open since its last removal.
   */
  lemma {:induction false} TableFollowsLog(env: Env, ops: seq<Op>, id: string)
    ensures Explains(EffectsOf(env, ops, id), RowIn(Run(env, ops).table, id))
    ensures IsConnected(RowIn(Run(env, ops).table, id)) <==> Online(env, ops, |ops|, id)
  {
    PrefixExplains(env, ops, |ops|, id);
    ConnectedFollowsLog(env, ops, |ops|, id);
    assert EffectsOf(env, ops, id)[..|ops|] == EffectsOf(env, ops, id);
    assert ops[..|ops|] == ops;
  }
}
