/**
 * What every history of restarts, events and deletes keeps: the shape of each
 * row, and how connected rows and live channels correspond.
 */
module HistoryInvariants {
  import opened Words
  import opened Text
  import opened MinerIdentity
  import opened MinerHistory

  // ----- The shape of rows -----

  /** The key is the canonical id of the payout and label, and of the identity last written. */
  ghost predicate IdentityOk(env: Env, id: string, row: Row) {
    && id == MinerId(env.network, row.payout, row.workerLabel)
    && CanonicalAddress(env.decode, env.network, row.payout)
    && row.workerLabel != [] && Trimmed(row.workerLabel)
    && IdFromIdentity(env.decode, env.network, row.userIdentity) == Some(id)
  }

  /** Connected, closing time, hashrate and uptime agree with each other. */
  ghost predicate FlagsOk(row: Row) {
    && row.openedAt.Some?
    && (row.connected <==> row.closedAt.None?)
    && (!row.connected ==> row.hashrate == 0.0)
    && (row.uptime.Some? ==>
          row.closedAt.Some? && row.uptime.value == SatSub(row.closedAt.value, row.openedAt.value))
  }

  ghost predicate RowOk(env: Env, id: string, row: Row) {
    IdentityOk(env, id, row) && FlagsOk(row)
  }

  ghost predicate RowsOk(env: Env, table: Table) {
    forall id :: id in table ==> RowOk(env, id, table[id])
  }

  lemma OpenedRowOk(env: Env, previous: Option<Row>, userIdentity: string, hashrate: real, t: Time, id: string)
    requires Canonical(env.decode)
    requires IdFromIdentity(env.decode, env.network, userIdentity) == Some(id)
    ensures RowOk(env, id, OpenedRow(previous, Parse(env.decode, userIdentity, env.network).identity,
                                     userIdentity, hashrate, t))
  {
    ParsedIsCanonical(env.decode, env.network, userIdentity);
  }

  predicate SameIdentity(row: Row, other: Row) {
    row.payout == other.payout && row.workerLabel == other.workerLabel && row.userIdentity == other.userIdentity
  }

  /** Only an open writes the identity of a row; every other change keeps the flags consistent. */
  lemma OtherMovesKeepIdentity(env: Env, row: Option<Row>, sessions: Sessions, op: Op, id: string)
    requires !(op.Emit? && op.event.ChannelOpened?)
    ensures var after := RowAfter(env, row, sessions, op, id);
            after.Some? ==>
              && row.Some? && SameIdentity(after.value, row.value)
              && (FlagsOk(row.value) ==> FlagsOk(after.value))
  {
  }

  lemma StepKeepsRow(env: Env, s: Store, op: Op, id: string)
    requires Canonical(env.decode)
    requires id in s.table ==> RowOk(env, id, s.table[id])
    ensures id in Step(env, s, op).table ==> RowOk(env, id, Step(env, s, op).table[id])
  {
    RowsAreIndependent(env, s, op, id);
    if op.Emit? && op.event.ChannelOpened? {
      if IdFromIdentity(env.decode, env.network, op.event.userIdentity) == Some(id) {
        OpenedRowOk(env, RowIn(s.table, id), op.event.userIdentity, op.event.hashrate, op.event.openedAt, id);
      }
    } else {
      OtherMovesKeepIdentity(env, RowIn(s.table, id), s.sessions, op, id);
    }
  }

  /** Every reachable row is well formed. */
  lemma {:induction false} ReachableRowsOk(env: Env, ops: seq<Op>)
    requires Canonical(env.decode)
    ensures RowsOk(env, Run(env, ops).table)
  {
    if ops == [] {
    } else {
      ReachableRowsOk(env, ops[..|ops| - 1]);
      forall id | id in Run(env, ops).table
        ensures RowOk(env, id, Run(env, ops).table[id])
      {
        StepKeepsRow(env, Run(env, ops[..|ops| - 1]), ops[|ops| - 1], id);
      }
    }
  }

  // ----- The order of times in a row -----

  function TimeOf(op: Op): Option<Time> {
    if !op.Emit? then None
    else
      match op.event
      case ChannelOpened(_, _, _, t) => Some(t)
      case ChannelClosed(_, t) => Some(t)
      case DownstreamClosed(_, t) => Some(t)
      case ShareAccepted(_, _, _, _, t) => Some(t)
      case ShareRejected(_, _, t) => Some(t)
      case BlockFound(_) => None
  }

  /** Event times never decrease and never exceed `now`. */
  ghost predicate Chronological(ops: seq<Op>, now: Time) {
    && (forall i :: 0 <= i < |ops| && TimeOf(ops[i]).Some? ==> TimeOf(ops[i]).value <= now)
    && forall i, j :: 0 <= i < j < |ops| && TimeOf(ops[i]).Some? && TimeOf(ops[j]).Some?
                      ==> TimeOf(ops[i]).value <= TimeOf(ops[j]).value
  }

  ghost predicate TimesOk(row: Row, now: Time) {
    && row.openedAt.Some?
    && row.firstSeen <= row.openedAt.value <= row.lastSeen <= now
    && (row.closedAt.Some? ==> row.openedAt.value <= row.closedAt.value <= row.lastSeen)
  }

  lemma MoveKeepsTimes(
      env: Env, row: Option<Row>, sessions: Sessions, op: Op, id: string, before: Time, now: Time)
    requires row.Some? ==> TimesOk(row.value, before)
    requires before <= now
    requires TimeOf(op).Some? ==> before <= TimeOf(op).value <= now
    ensures var after := RowAfter(env, row, sessions, op, id);
            after.Some? ==> TimesOk(after.value, now)
  {
  }

  lemma StepKeepsTimes(env: Env, s: Store, op: Op, id: string, before: Time, now: Time)
    requires id in s.table ==> TimesOk(s.table[id], before)
    requires before <= now
    requires TimeOf(op).Some? ==> before <= TimeOf(op).value <= now
    ensures id in Step(env, s, op).table ==> TimesOk(Step(env, s, op).table[id], now)
  {
    RowsAreIndependent(env, s, op, id);
    MoveKeepsTimes(env, RowIn(s.table, id), s.sessions, op, id, before, now);
  }

  /** With nondecreasing event times: first seen <= opened <= closed (when set) <= last seen. */
  lemma {:induction false} ReachableTimesOk(env: Env, ops: seq<Op>, now: Time)
    requires Chronological(ops, now)
    ensures forall id :: id in Run(env, ops).table ==> TimesOk(Run(env, ops).table[id], now)
  {
    if ops == [] {
    } else {
      var last := ops[|ops| - 1];
      var before := if TimeOf(last).Some? then TimeOf(last).value else now;
      ReachableTimesOk(env, ops[..|ops| - 1], before);
      forall id | id in Run(env, ops).table
        ensures TimesOk(Run(env, ops).table[id], now)
      {
        StepKeepsTimes(env, Run(env, ops[..|ops| - 1]), last, id, before, now);
      }
    }
  }

  // ----- Connected rows and live channels -----

  ghost predicate HasLive(sessions: Sessions, id: string) {
    exists key :: key in sessions && sessions[key] == id
  }

  /** Every connected row has a live channel. */
  ghost predicate ConnectedIsLive(s: Store) {
    forall id :: id in s.table && s.table[id].connected ==> HasLive(s.sessions, id)
  }

  /** Every live channel has a connected row. */
  ghost predicate LiveIsConnected(s: Store) {
    forall key :: key in s.sessions ==> s.sessions[key] in s.table && s.table[s.sessions[key]].connected
  }

  /** Some other live channel carries the same miner. */
  ghost predicate HasOther(sessions: Sessions, key: SessionKey, id: string) {
    exists other :: other in sessions && other != key && sessions[other] == id
  }

  /**
   * The operation opens a channel under a key that is live for another,
   * connected miner which has no other live channel.
   */
  ghost predicate Orphans(env: Env, s: Store, op: Op) {
    && op.Emit? && op.event.ChannelOpened?
    && var key := op.event.key;
       var newId := IdFromIdentity(env.decode, env.network, op.event.userIdentity);
       && newId.Some? && key in s.sessions && s.sessions[key] != newId.value
       && s.sessions[key] in s.table && s.table[s.sessions[key]].connected
       && !HasOther(s.sessions, key, s.sessions[key])
  }

  /** The operation closes some channel of a miner and leaves another one live. */
  ghost predicate Strands(s: Store, op: Op) {
    && op.Emit?
    && match op.event
       case ChannelClosed(key, _) => key in s.sessions && HasOther(s.sessions, key, s.sessions[key])
       case DownstreamClosed(d, _) =>
         exists closed, kept :: && closed in s.sessions && kept in s.sessions
                                && closed.downstream == d && kept.downstream != d
                                && s.sessions[closed] == s.sessions[kept]
       case _ => false
  }

  lemma LiveAfterOpen(env: Env, s: Store, e: Event, id: string)
    requires e.ChannelOpened? && IdFromIdentity(env.decode, env.network, e.userIdentity).Some?
    requires HasLive(s.sessions, id)
    requires e.key in s.sessions && s.sessions[e.key] == id ==>
               || IdFromIdentity(env.decode, env.network, e.userIdentity).value == id
               || HasOther(s.sessions, e.key, id)
    ensures HasLive(AfterEvent(env, s, e).sessions, id)
  {
    var t := AfterEvent(env, s, e);
    if e.key in s.sessions && s.sessions[e.key] == id {
      if IdFromIdentity(env.decode, env.network, e.userIdentity).value == id {
        assert t.sessions[e.key] == id;
      } else {
        var other :| other in s.sessions && other != e.key && s.sessions[other] == id;
        assert t.sessions[other] == id;
      }
    } else {
      var key :| key in s.sessions && s.sessions[key] == id;
      assert t.sessions[key] == id;
    }
  }

  lemma OrphanIsNotLive(env: Env, s: Store, op: Op)
    requires Orphans(env, s, op)
    ensures !ConnectedIsLive(Step(env, s, op))
  {
    var t := Step(env, s, op);
    var key := op.event.key;
    var id := s.sessions[key];
    assert id in t.table && t.table[id].connected;
    assert !HasLive(t.sessions, id);
  }

  lemma OpenKeepsConnectedLive(env: Env, s: Store, op: Op)
    requires ConnectedIsLive(s) && op.Emit? && op.event.ChannelOpened? && !Orphans(env, s, op)
    ensures ConnectedIsLive(Step(env, s, op))
  {
    var t := Step(env, s, op);
    var newId := IdFromIdentity(env.decode, env.network, op.event.userIdentity);
    if newId.Some? {
      forall id | id in t.table && t.table[id].connected
        ensures HasLive(t.sessions, id)
      {
        if id == newId.value {
          assert t.sessions[op.event.key] == id;
        } else {
          assert id in s.table && s.table[id] == t.table[id];
          LiveAfterOpen(env, s, op.event, id);
        }
      }
    }
  }

  lemma CloseKeepsConnectedLive(env: Env, s: Store, op: Op)
    requires ConnectedIsLive(s) && !(op.Emit? && op.event.ChannelOpened?)
    ensures ConnectedIsLive(Step(env, s, op))
  {
    var t := Step(env, s, op);
    forall id | id in t.table && t.table[id].connected
      ensures HasLive(t.sessions, id)
    {
      assert id in s.table && s.table[id].connected;
      var key :| key in s.sessions && s.sessions[key] == id;
      assert key in t.sessions && t.sessions[key] == id;
    }
  }

  /** A step keeps every connected row backed by a live channel exactly when it orphans none. */
  lemma ConnectedStaysLiveIff(env: Env, s: Store, op: Op)
    requires ConnectedIsLive(s)
    ensures ConnectedIsLive(Step(env, s, op)) <==> !Orphans(env, s, op)
  {
    if Orphans(env, s, op) {
      OrphanIsNotLive(env, s, op);
    } else if op.Emit? && op.event.ChannelOpened? {
      OpenKeepsConnectedLive(env, s, op);
    } else {
      CloseKeepsConnectedLive(env, s, op);
    }
  }

  lemma StrandedIsDisconnected(env: Env, s: Store, op: Op)
    requires Strands(s, op)
    ensures !LiveIsConnected(Step(env, s, op))
  {
    var t := Step(env, s, op);
    match op.event
    case ChannelClosed(key, _) =>
      var other :| other in s.sessions && other != key && s.sessions[other] == s.sessions[key];
      assert other in t.sessions;
      assert t.sessions[other] in t.table ==> !t.table[t.sessions[other]].connected;
    case DownstreamClosed(d, _) =>
      var closed, kept :| && closed in s.sessions && kept in s.sessions
                          && closed.downstream == d && kept.downstream != d
                          && s.sessions[closed] == s.sessions[kept];
      assert s.sessions[closed] in IdsOn(s.sessions, d);
      assert kept in t.sessions;
      assert t.sessions[kept] in t.table ==> !t.table[t.sessions[kept]].connected;
  }

  lemma UnstrandedStaysConnected(env: Env, s: Store, op: Op)
    requires LiveIsConnected(s) && !Strands(s, op)
    ensures LiveIsConnected(Step(env, s, op))
  {
    var t := Step(env, s, op);
    forall key | key in t.sessions
      ensures t.sessions[key] in t.table && t.table[t.sessions[key]].connected
    {
      if key in s.sessions {
        assert s.sessions[key] in s.table && s.table[s.sessions[key]].connected;
      }
    }
  }

  /** A step keeps every live channel backed by a connected row exactly when it strands none. */
  lemma LiveStaysConnectedIff(env: Env, s: Store, op: Op)
    requires LiveIsConnected(s)
    ensures LiveIsConnected(Step(env, s, op)) <==> !Strands(s, op)
  {
    if Strands(s, op) {
      StrandedIsDisconnected(env, s, op);
    } else {
      UnstrandedStaysConnected(env, s, op);
    }
  }

  // ----- Whole runs -----

  /** No operation of the history orphans a connected miner when its turn comes. */
  ghost predicate NeverOrphans(env: Env, ops: seq<Op>) {
    forall n :: 0 <= n < |ops| ==> !Orphans(env, Run(env, ops[..n]), ops[n])
  }

  /** No operation of the history strands a live channel when its turn comes. */
  ghost predicate NeverStrands(env: Env, ops: seq<Op>) {
    forall n :: 0 <= n < |ops| ==> !Strands(Run(env, ops[..n]), ops[n])
  }

  lemma {:induction false} PrefixRun(env: Env, ops: seq<Op>, n: nat)
    requires n < |ops|
    ensures Run(env, ops[..n + 1]) == Step(env, Run(env, ops[..n]), ops[n])
  {
    assert ops[..n + 1][..n] == ops[..n];
  }

  lemma {:induction false} PrefixConnectedIsLive(env: Env, ops: seq<Op>, n: nat)
    requires n <= |ops| && NeverOrphans(env, ops)
    ensures ConnectedIsLive(Run(env, ops[..n]))
    decreases n
  {
    if n > 0 {
      PrefixConnectedIsLive(env, ops, n - 1);
      PrefixRun(env, ops, n - 1);
      ConnectedStaysLiveIff(env, Run(env, ops[..n - 1]), ops[n - 1]);
    }
  }

  /**
   * Over a whole run every connected row has a live channel at every moment, if
   * and only if no operation of it orphans a connected miner.
   */
  lemma {:induction false} ConnectedAlwaysLiveIff(env: Env, ops: seq<Op>)
    ensures (forall n :: 0 <= n <= |ops| ==> ConnectedIsLive(Run(env, ops[..n]))) <==> NeverOrphans(env, ops)
  {
    if NeverOrphans(env, ops) {
      forall n | 0 <= n <= |ops|
        ensures ConnectedIsLive(Run(env, ops[..n]))
      {
        PrefixConnectedIsLive(env, ops, n);
      }
    } else {
      var n :| 0 <= n < |ops| && Orphans(env, Run(env, ops[..n]), ops[n]);
      PrefixRun(env, ops, n);
      OrphanIsNotLive(env, Run(env, ops[..n]), ops[n]);
      assert !ConnectedIsLive(Run(env, ops[..n + 1]));
    }
  }

  lemma {:induction false} PrefixLiveIsConnected(env: Env, ops: seq<Op>, n: nat)
    requires n <= |ops| && NeverStrands(env, ops)
    ensures LiveIsConnected(Run(env, ops[..n]))
    decreases n
  {
    if n > 0 {
      PrefixLiveIsConnected(env, ops, n - 1);
      PrefixRun(env, ops, n - 1);
      LiveStaysConnectedIff(env, Run(env, ops[..n - 1]), ops[n - 1]);
    }
  }

  /**
   * Over a whole run every live channel has a connected row at every moment, if
   * and only if no operation of it strands a live channel.
   */
  lemma {:induction false} LiveAlwaysConnectedIff(env: Env, ops: seq<Op>)
    ensures (forall n :: 0 <= n <= |ops| ==> LiveIsConnected(Run(env, ops[..n]))) <==> NeverStrands(env, ops)
  {
    if NeverStrands(env, ops) {
      forall n | 0 <= n <= |ops|
        ensures LiveIsConnected(Run(env, ops[..n]))
      {
        PrefixLiveIsConnected(env, ops, n);
      }
    } else {
      var n :| 0 <= n < |ops| && Strands(Run(env, ops[..n]), ops[n]);
      PrefixRun(env, ops, n);
      StrandedIsDisconnected(env, Run(env, ops[..n]), ops[n]);
      assert !LiveIsConnected(Run(env, ops[..n + 1]));
    }
  }

  /** No open in the history re-uses a key that is live for another miner. */
  ghost predicate KeysAreFresh(env: Env, ops: seq<Op>) {
    forall i :: 0 <= i < |ops| && ops[i].Emit? && ops[i].event.ChannelOpened? ==>
                  var sessions := Run(env, ops[..i]).sessions;
                  var key := ops[i].event.key;
                  key in sessions ==>
                    IdFromIdentity(env.decode, env.network, ops[i].event.userIdentity)
                    in {None, Some(sessions[key])}
  }

  /** No open in the history is for a miner that is live under another key. */
  ghost predicate ChannelsNeverOverlap(env: Env, ops: seq<Op>) {
    forall i :: 0 <= i < |ops| && ops[i].Emit? && ops[i].event.ChannelOpened? ==>
                  var newId := IdFromIdentity(env.decode, env.network, ops[i].event.userIdentity);
                  newId.Some? ==> !HasOther(Run(env, ops[..i]).sessions, ops[i].event.key, newId.value)
  }

  lemma FreshPrefix(env: Env, ops: seq<Op>)
    requires ops != []
    requires KeysAreFresh(env, ops)
    ensures KeysAreFresh(env, ops[..|ops| - 1])
  {
    var before := ops[..|ops| - 1];
    assert forall i :: 0 <= i < |before| ==> before[..i] == ops[..i] && before[i] == ops[i];
  }

  lemma NoOverlapPrefix(env: Env, ops: seq<Op>)
    requires ops != []
    requires ChannelsNeverOverlap(env, ops)
    ensures ChannelsNeverOverlap(env, ops[..|ops| - 1])
  {
    var before := ops[..|ops| - 1];
    assert forall i :: 0 <= i < |before| ==> before[..i] == ops[..i] && before[i] == ops[i];
  }

  /** With fresh keys, over every run a connected row has a live channel. */
  lemma {:induction false} ConnectedRowsAreLive(env: Env, ops: seq<Op>)
    requires KeysAreFresh(env, ops)
    ensures ConnectedIsLive(Run(env, ops))
  {
    if ops == [] {
    } else {
      FreshPrefix(env, ops);
      ConnectedRowsAreLive(env, ops[..|ops| - 1]);
      ConnectedStaysLiveIff(env, Run(env, ops[..|ops| - 1]), ops[|ops| - 1]);
    }
  }

  /** No two live keys carry the same miner. */
  ghost predicate OneChannelEach(sessions: Sessions) {
    forall key, other :: key in sessions && other in sessions && sessions[key] == sessions[other] ==> key == other
  }

  lemma {:induction false} LiveChannelsAreConnected(env: Env, ops: seq<Op>)
    requires ChannelsNeverOverlap(env, ops)
    ensures OneChannelEach(Run(env, ops).sessions)
    ensures LiveIsConnected(Run(env, ops))
  {
    if ops == [] {
    } else {
      NoOverlapPrefix(env, ops);
      LiveChannelsAreConnected(env, ops[..|ops| - 1]);
      var s, op := Run(env, ops[..|ops| - 1]), ops[|ops| - 1];
      assert !Strands(s, op);
      LiveStaysConnectedIff(env, s, op);
      var t := Step(env, s, op);
      forall key, other | key in t.sessions && other in t.sessions && t.sessions[key] == t.sessions[other]
        ensures key == other
      {
        if op.Emit? && op.event.ChannelOpened? {
          var newId := IdFromIdentity(env.decode, env.network, op.event.userIdentity);
          assert newId.Some? ==> !HasOther(s.sessions, op.event.key, newId.value);
        }
      }
    }
  }

  /**
   * With fresh keys and channels that never overlap, over every run a row is
   * connected exactly when its miner has a live channel, and deleting a miner
   * with a live channel changes nothing.
   */
  lemma {:induction false} ConnectedIffLive(env: Env, ops: seq<Op>, id: string)
    requires KeysAreFresh(env, ops) && ChannelsNeverOverlap(env, ops)
    ensures var s := Run(env, ops);
            && (id in s.table && s.table[id].connected <==> HasLive(s.sessions, id))
            && (HasLive(s.sessions, id) ==> Step(env, s, Delete(id)) == s)
  {
    ConnectedRowsAreLive(env, ops);
    LiveChannelsAreConnected(env, ops);
  }

  // ----- Runs that break the correspondence -----

  function OpenOp(key: SessionKey, userIdentity: string, t: Time): Op {
    Emit(ChannelOpened(key, userIdentity, 0.0, t))
  }

  lemma {:induction false} RunOfThree(env: Env, a: Op, b: Op, c: Op)
    ensures Run(env, [a] + [b] + [c]) == Step(env, Step(env, Step(env, Store(map[], map[]), a), b), c)
  {
    assert [] + [a] == [a];
    RunExtends(env, [], a);
    RunExtends(env, [a], b);
    RunExtends(env, [a] + [b], c);
  }

  lemma OpenedStep(env: Env, s: Store, key: SessionKey, text: string, t: Time, id: string)
    requires IdFromIdentity(env.decode, env.network, text) == Some(id)
    ensures var after := Step(env, s, OpenOp(key, text, t));
            after.sessions == s.sessions[key := id] && id in after.table
  {
  }

  lemma ClosedStep(env: Env, s: Store, key: SessionKey, t: Time)
    requires key in s.sessions && s.sessions[key] in s.table
    ensures var after, id := Step(env, s, Emit(ChannelClosed(key, t))), s.sessions[key];
            after.sessions == s.sessions - {key} && id in after.table && !after.table[id].connected
  {
  }

  /** A miner that opens two channels and closes one is marked disconnected while the other is live. */
  lemma {:induction false} OverlapDisconnectsLive(
      env: Env, address: string, workerLabel: string, key: SessionKey, other: SessionKey, t: Time)
    requires CanonicalAddress(env.decode, env.network, address) && key != other
    ensures var text := Dotted(address, workerLabel);
            var s := Run(env, [OpenOp(key, text, t)] + [OpenOp(other, text, t)] + [Emit(ChannelClosed(key, t))]);
            other in s.sessions && s.sessions[other] in s.table && !s.table[s.sessions[other]].connected
  {
    var text := Dotted(address, workerLabel);
    FormsAgree(env.decode, env.network, address, workerLabel);
    OverlapOf(env, text, key, other, t, IdFromIdentity(env.decode, env.network, text).value);
  }

  lemma {:induction false} OverlapOf(
      env: Env, text: string, key: SessionKey, other: SessionKey, t: Time, id: string)
    requires IdFromIdentity(env.decode, env.network, text) == Some(id) && key != other
    ensures var s := Run(env, [OpenOp(key, text, t)] + [OpenOp(other, text, t)] + [Emit(ChannelClosed(key, t))]);
            other in s.sessions && s.sessions[other] == id && id in s.table && !s.table[id].connected
  {
    var first, again, close := OpenOp(key, text, t), OpenOp(other, text, t), Emit(ChannelClosed(key, t));
    var s0 := Store(map[], map[]);
    var s1 := Step(env, s0, first);
    RunOfThree(env, first, again, close);
    OpenedStep(env, s0, key, text, t, id);
    OpenedStep(env, s1, other, text, t, id);
    ClosedStep(env, Step(env, s1, again), key, t);
  }

  /** A channel key opened again for another miner leaves the first one connected without a live channel. */
  lemma {:induction false} ReusedKeyOrphans(
      env: Env, address: string, workerLabel: string, otherLabel: string, key: SessionKey, t: Time)
    requires CanonicalAddress(env.decode, env.network, address) && LabelOf(workerLabel) != LabelOf(otherLabel)
    ensures var id := MinerId(env.network, address, LabelOf(workerLabel));
            var text, text' := Dotted(address, workerLabel), Dotted(address, otherLabel);
            var s := Run(env, [OpenOp(key, text, t)] + [OpenOp(key, text', t)]);
            id in s.table && s.table[id].connected && !HasLive(s.sessions, id)
  {
    var first, second := OpenOp(key, Dotted(address, workerLabel), t), OpenOp(key, Dotted(address, otherLabel), t);
    FormsAgree(env.decode, env.network, address, workerLabel);
    FormsAgree(env.decode, env.network, address, otherLabel);
    LabelIsStable(workerLabel);
    LabelIsStable(otherLabel);
    TrimmedStays(LabelOf(workerLabel));
    TrimmedStays(LabelOf(otherLabel));
    if MinerId(env.network, address, LabelOf(workerLabel)) == MinerId(env.network, address, LabelOf(otherLabel)) {
      MinerIdIsInjective(env.network, address, LabelOf(workerLabel), env.network, address, LabelOf(otherLabel));
    }
    assert [] + [first] == [first];
    RunExtends(env, [], first);
    RunExtends(env, [first], second);
  }
}
