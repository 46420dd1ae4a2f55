/**
 * The persistent miner table and the writer's session map: every SQL statement
 * is an update of a map of rows, every event handler a method proved against a
 * function on the pair of maps.
 */
module MinerHistory {
  import opened Words
  import opened Sums
  import opened MinerIdentity

  const I64_MAX: nat := 0x7FFF_FFFF_FFFF_FFFF

  /** Times in seconds, within the range SQLite stores exactly. */
  type Time = t: nat | t <= 0x7FFF_FFFF_FFFF_FFFF

  datatype Row = Row(
    userIdentity: string,
    payout: string,
    workerLabel: string,
    connected: bool,
    firstSeen: Time,
    lastSeen: Time,
    openedAt: Option<Time>,
    closedAt: Option<Time>,
    uptime: Option<nat>,
    hashrate: real,
    accepted: nat,
    bestDiff: real,
    blocks: nat,
    rejected: nat)

  datatype SessionKey = SessionKey(downstream: U64, channel: U32, kind: string)

  datatype Event =
    | ChannelOpened(key: SessionKey, userIdentity: string, hashrate: real, openedAt: Time)
    | ChannelClosed(key: SessionKey, closedAt: Time)
    | DownstreamClosed(downstream: U64, closedAt: Time)
    | ShareAccepted(key: SessionKey, accepted: U64, bestDiff: real, blocks: U64, seenAt: Time)
    | ShareRejected(key: SessionKey, rejected: U64, seenAt: Time)
    | BlockFound(key: SessionKey)

  type Table = map<string, Row>
  type Sessions = map<SessionKey, string>

  datatype Store = Store(table: Table, sessions: Sessions)

  /** The network the pool runs on and its address decoder. */
  datatype Env = Env(network: Network, decode: Decoder)

  // ----- SQL statements as functions on the table -----

  function OpenedRow(previous: Option<Row>, id: Identity, userIdentity: string, hashrate: real, t: Time): Row {
    Row(userIdentity, id.payout, id.workerLabel, true,
        if previous.Some? then previous.value.firstSeen else t, t, Some(t), None, None, hashrate, 0, 0.0, 0, 0)
  }

  function Upserted(table: Table, key: string, id: Identity, userIdentity: string, hashrate: real, t: Time): Table {
    table[key := OpenedRow(if key in table then Some(table[key]) else None, id, userIdentity, hashrate, t)]
  }

  function ClosedRow(row: Row, t: Time): Row {
    row.(connected := false,
         lastSeen := t,
         closedAt := Some(t),
         uptime := if row.openedAt.None? then row.uptime else Some(SatSub(t, row.openedAt.value)),
         hashrate := 0.0)
  }

  /** Closing the rows of several miners at the same time. */
  function CloseRows(table: Table, ids: set<string>, t: Time): Table {
    map id | id in table :: if id in ids then ClosedRow(table[id], t) else table[id]
  }

  /** The row of a disconnected miner after a restart. */
  function ResetRow(row: Row): Row {
    row.(connected := false,
         hashrate := 0.0,
         closedAt := if row.closedAt.Some? then row.closedAt else Some(row.lastSeen))
  }

  function ResetRows(table: Table): Table {
    map id | id in table :: ResetRow(table[id])
  }

  function WithoutOffline(table: Table, id: string): Table {
    if id in table && !table[id].connected then table - {id} else table
  }

  function AcceptedRow(row: Row, accepted: nat, bestDiff: real, blocks: nat, t: Time): Row {
    row.(accepted := accepted, bestDiff := bestDiff, blocks := blocks, lastSeen := t)
  }

  function RejectedRow(row: Row, rejected: nat, t: Time): Row {
    row.(rejected := rejected, lastSeen := t)
  }

  // ----- Events -----

  /** The miners with a live channel on a downstream. */
  function IdsOn(sessions: Sessions, downstream: U64): set<string> {
    set key | key in sessions && key.downstream == downstream :: sessions[key]
  }

  function IdSet(ids: seq<string>): set<string> {
    set id | id in ids
  }

  function WithoutDownstream(sessions: Sessions, downstream: U64): Sessions {
    map key | key in sessions && key.downstream != downstream :: sessions[key]
  }

  /** Events on a live channel are routed to its miner. */
  predicate RoutedTo(sessions: Sessions, key: SessionKey, id: string) {
    key in sessions && sessions[key] == id
  }

  function AfterOpen(env: Env, s: Store, key: SessionKey, userIdentity: string, hashrate: real, t: Time): Store {
    match Parse(env.decode, userIdentity, env.network)
    case Rejected(_) => s
    case Accepted(id) =>
      var m := IdOf(env.network, id);
      Store(Upserted(s.table, m, id, userIdentity, hashrate, t), s.sessions[key := m])
  }

  function AfterClose(s: Store, key: SessionKey, t: Time): Store {
    if key !in s.sessions then s
    else Store(CloseRows(s.table, {s.sessions[key]}, t), s.sessions - {key})
  }

  function AfterEvent(env: Env, s: Store, e: Event): Store {
    match e
    case ChannelOpened(key, userIdentity, hashrate, t) => AfterOpen(env, s, key, userIdentity, hashrate, t)
    case ChannelClosed(key, t) => AfterClose(s, key, t)
    case DownstreamClosed(d, t) =>
      Store(CloseRows(s.table, IdsOn(s.sessions, d), t), WithoutDownstream(s.sessions, d))
    case ShareAccepted(key, accepted, bestDiff, blocks, t) =>
      if key in s.sessions && s.sessions[key] in s.table && accepted <= I64_MAX && blocks <= I64_MAX then
        var m := s.sessions[key];
        s.(table := s.table[m := AcceptedRow(s.table[m], accepted, bestDiff, blocks, t)])
      else s
    case ShareRejected(key, rejected, t) =>
      if key in s.sessions && s.sessions[key] in s.table && rejected <= I64_MAX then
        var m := s.sessions[key];
        s.(table := s.table[m := RejectedRow(s.table[m], rejected, t)])
      else s
    case BlockFound(_) => s
  }

  /** What can happen to the store: the process restarts, an event arrives, the UI deletes a miner. */
  datatype Op = Restart | Emit(event: Event) | Delete(id: string)

  function Step(env: Env, s: Store, op: Op): Store {
    match op
    case Restart => Store(ResetRows(s.table), map[])
    case Emit(e) => AfterEvent(env, s, e)
    case Delete(id) => s.(table := WithoutOffline(s.table, id))
  }

  /** The store after a history of operations, starting from an empty database. */
  function Run(env: Env, ops: seq<Op>): Store {
    if ops == [] then Store(map[], map[]) else Step(env, Run(env, ops[..|ops| - 1]), ops[|ops| - 1])
  }

  // ----- One row under one operation -----

  function RowIn(table: Table, id: string): Option<Row> {
    if id in table then Some(table[id]) else None
  }

  function MapRow(row: Option<Row>, move: Row -> Row): Option<Row> {
    if row.Some? then Some(move(row.value)) else None
  }

  /** The row of one miner after an event, from its row and the sessions before. */
  function RowAfterEvent(env: Env, row: Option<Row>, sessions: Sessions, e: Event, id: string): Option<Row> {
    match e
    case ChannelOpened(_, userIdentity, hashrate, t) =>
      if IdFromIdentity(env.decode, env.network, userIdentity) == Some(id)
      then Some(OpenedRow(row, Parse(env.decode, userIdentity, env.network).identity, userIdentity, hashrate, t))
      else row
    case ChannelClosed(key, t) =>
      if RoutedTo(sessions, key, id) then MapRow(row, r => ClosedRow(r, t)) else row
    case DownstreamClosed(d, t) =>
      if id in IdsOn(sessions, d) then MapRow(row, r => ClosedRow(r, t)) else row
    case ShareAccepted(key, accepted, bestDiff, blocks, t) =>
      if RoutedTo(sessions, key, id) && accepted <= I64_MAX && blocks <= I64_MAX
      then MapRow(row, r => AcceptedRow(r, accepted, bestDiff, blocks, t)) else row
    case ShareRejected(key, rejected, t) =>
      if RoutedTo(sessions, key, id) && rejected <= I64_MAX
      then MapRow(row, r => RejectedRow(r, rejected, t)) else row
    case BlockFound(_) => row
  }

  function RowAfter(env: Env, row: Option<Row>, sessions: Sessions, op: Op, id: string): Option<Row> {
    match op
    case Restart => MapRow(row, r => ResetRow(r))
    case Emit(e) => RowAfterEvent(env, row, sessions, e, id)
    case Delete(other) => if other == id && row.Some? && !row.value.connected then None else row
  }

  /** Operations act on each row separately: a row depends on its own past and on the routing only. */
  lemma RowsAreIndependent(env: Env, s: Store, op: Op, id: string)
    ensures RowIn(Step(env, s, op).table, id) == RowAfter(env, RowIn(s.table, id), s.sessions, op, id)
  {
  }

  // ----- The stateful writer -----

  class History {
    const env: Env
    var table: Table
    var sessions: Sessions

    function Now(): Store
      reads this
    {
      Store(table, sessions)
    }

    constructor (env: Env)
      ensures Now() == Run(env, []) && this.env == env
    {
      this.env := env;
      table, sessions := map[], map[];
    }

    /** Opening the database again: no session survives, so every row is disconnected. */
    method Reopen()
      modifies this
      ensures Now() == Step(env, old(Now()), Restart)
    {
      var todo := table.Keys;
      while todo != {}
        invariant todo <= table.Keys == old(table).Keys
        invariant sessions == old(sessions)
        invariant forall id :: id in table ==>
                                 table[id] == if id in todo then old(table)[id] else ResetRow(old(table)[id])
        decreases todo
      {
        var id :| id in todo;
        table := table[id := ResetRow(table[id])];
        todo := todo - {id};
      }
      sessions := map[];
    }

    method UpsertOpenMiner(key: string, id: Identity, userIdentity: string, hashrate: real, t: Time)
      modifies this`table
      ensures table == Upserted(old(table), key, id, userIdentity, hashrate, t)
    {
      if key in table {
        var row := table[key];
        table := table[key := row.(
                         userIdentity := userIdentity, payout := id.payout, workerLabel := id.workerLabel,
                         connected := true, lastSeen := t, openedAt := Some(t), closedAt := None,
                         uptime := None, hashrate := hashrate,
                         accepted := 0, bestDiff := 0.0, blocks := 0, rejected := 0)];
      } else {
        table := table[key := Row(userIdentity, id.payout, id.workerLabel, true, t, t, Some(t), None, None,
                                  hashrate, 0, 0.0, 0, 0)];
      }
    }

    method CloseMiner(id: string, t: Time)
      modifies this`table
      ensures table == CloseRows(old(table), {id}, t)
    {
      if id in table {
        table := table[id := ClosedRow(table[id], t)];
      }
    }

    /** Takes the channels of a downstream out of the session map, in some order. */
    method ExtractDownstream(downstream: U64) returns (ids: seq<string>)
      modifies this`sessions
      ensures sessions == WithoutDownstream(old(sessions), downstream)
      ensures IdSet(ids) == IdsOn(old(sessions), downstream)
    {
      ids := [];
      var todo := sessions.Keys;
      while todo != {}
        invariant todo <= old(sessions).Keys
        invariant forall key :: key in sessions <==>
                                  key in old(sessions) && (key in todo || key.downstream != downstream)
        invariant forall key :: key in sessions ==> sessions[key] == old(sessions)[key]
        invariant forall id :: id in ids <==>
                                 exists key :: && key in old(sessions) && key !in todo
                                               && key.downstream == downstream && old(sessions)[key] == id
        decreases todo
      {
        var key :| key in todo;
        if key.downstream == downstream {
          ids := ids + [sessions[key]];
          sessions := sessions - {key};
        }
        todo := todo - {key};
      }
    }

    /** Closes the listed miners one statement at a time. */
    method CloseMiners(ids: seq<string>, t: Time)
      modifies this`table
      ensures table == CloseRows(old(table), IdSet(ids), t)
    {
      var i := 0;
      while i < |ids|
        invariant 0 <= i <= |ids|
        invariant table == CloseRows(old(table), IdSet(ids[..i]), t)
      {
        CloseMiner(ids[i], t);
        ClosingTwice(old(table), IdSet(ids[..i]), {ids[i]}, t);
        assert IdSet(ids[..i + 1]) == IdSet(ids[..i]) + {ids[i]};
        i := i + 1;
      }
      assert ids[..|ids|] == ids;
    }

    method ApplyEvent(e: Event)
      modifies this
      ensures Now() == AfterEvent(env, old(Now()), e)
    {
      match e
      case ChannelOpened(key, userIdentity, hashrate, t) =>
        var parsed := Parse(env.decode, userIdentity, env.network);
        if parsed.Accepted? {
          var m := IdOf(env.network, parsed.identity);
          sessions := sessions[key := m];
          UpsertOpenMiner(m, parsed.identity, userIdentity, hashrate, t);
        }
      case ChannelClosed(key, t) =>
        if key in sessions {
          var m := sessions[key];
          sessions := sessions - {key};
          CloseMiner(m, t);
        }
      case DownstreamClosed(d, t) =>
        var ids := ExtractDownstream(d);
        CloseMiners(ids, t);
      case ShareAccepted(key, accepted, bestDiff, blocks, t) =>
        if key in sessions && accepted <= I64_MAX && blocks <= I64_MAX {
          var m := sessions[key];
          if m in table {
            table := table[m := AcceptedRow(table[m], accepted, bestDiff, blocks, t)];
          }
        }
      case ShareRejected(key, rejected, t) =>
        if key in sessions && rejected <= I64_MAX {
          var m := sessions[key];
          if m in table {
            table := table[m := RejectedRow(table[m], rejected, t)];
          }
        }
      case BlockFound(_) =>
    }

    method DeleteOfflineMiner(id: string) returns (deleted: bool)
      modifies this`table
      ensures Now() == Step(env, old(Now()), Delete(id))
      ensures deleted <==> id in old(table) && !old(table)[id].connected
    {
      deleted := id in table && !table[id].connected;
      if deleted {
        table := table - {id};
      }
    }
  }

  // ----- Closing channels in any order -----

  lemma ClosingTwice(table: Table, ids: set<string>, more: set<string>, t: Time)
    ensures CloseRows(CloseRows(table, ids, t), more, t) == CloseRows(table, ids + more, t)
  {
  }

  function CloseEach(s: Store, keys: seq<SessionKey>, t: Time): Store
    decreases |keys|
  {
    if keys == [] then s else CloseEach(AfterClose(s, keys[0], t), keys[1..], t)
  }

  /** The miners of the live channels among some keys. */
  function IdsOf(sessions: Sessions, keys: seq<SessionKey>): set<string> {
    set key | key in keys && key in sessions :: sessions[key]
  }

  lemma IdsOfCons(sessions: Sessions, key: SessionKey, rest: seq<SessionKey>)
    ensures IdsOf(sessions, [key] + rest)
            == if key in sessions then {sessions[key]} + IdsOf(sessions - {key}, rest) else IdsOf(sessions, rest)
  {
  }

  lemma {:induction false} CloseEachClosesAll(s: Store, keys: seq<SessionKey>, t: Time)
    ensures CloseEach(s, keys, t).sessions == s.sessions - (set key | key in keys)
    ensures CloseEach(s, keys, t).table == CloseRows(s.table, IdsOf(s.sessions, keys), t)
    decreases |keys|
  {
    if keys == [] {
    } else {
      var key, rest := keys[0], keys[1..];
      CloseEachClosesAll(AfterClose(s, key, t), rest, t);
      assert keys == [key] + rest;
      IdsOfCons(s.sessions, key, rest);
      if key in s.sessions {
        ClosingTwice(s.table, {s.sessions[key]}, IdsOf(s.sessions - {key}, rest), t);
      }
    }
  }

  /**
   * Closing a downstream reaches the same sessions and table as closing each of
   * its live channels at the same time, in every order and even repeatedly.
   */
  lemma {:induction false} DownstreamCloseIsAnyOrder(
      env: Env, s: Store, downstream: U64, keys: seq<SessionKey>, t: Time)
    requires forall key :: key in s.sessions ==> (key in keys <==> key.downstream == downstream)
    ensures CloseEach(s, keys, t) == AfterEvent(env, s, DownstreamClosed(downstream, t))
  {
    CloseEachClosesAll(s, keys, t);
    assert IdsOf(s.sessions, keys) == IdsOn(s.sessions, downstream);
  }

  // ----- Deletes that race with the closing of a downstream -----

  /** The statements that two connections interleave: the writer closes miners, the UI deletes. */
  datatype Statement = CloseStatement(id: string) | DeleteStatement(id: string)

  function ExecuteOne(table: Table, statement: Statement, t: Time): Table {
    match statement
    case CloseStatement(id) => CloseRows(table, {id}, t)
    case DeleteStatement(id) => WithoutOffline(table, id)
  }

  function Execute(table: Table, statements: seq<Statement>, t: Time): Table {
    if statements == [] then table
    else ExecuteOne(Execute(table, statements[..|statements| - 1], t), statements[|statements| - 1], t)
  }

  /** The ids closed, and those that some delete names before any close of them, or after one. */
  datatype Phases = Phases(early: set<string>, closed: set<string>, late: set<string>)

  function NextPhases(p: Phases, statement: Statement): Phases {
    match statement
    case CloseStatement(id) => p.(closed := p.closed + {id})
    case DeleteStatement(id) => if id in p.closed then p.(late := p.late + {id}) else p.(early := p.early + {id})
  }

  function PhasesOf(statements: seq<Statement>): Phases {
    if statements == [] then Phases({}, {}, {})
    else NextPhases(PhasesOf(statements[..|statements| - 1]), statements[|statements| - 1])
  }

  /** Deleting several miners, those that are offline. */
  function DeleteAll(table: Table, ids: set<string>): Table {
    map id | id in table && (id !in ids || table[id].connected) :: table[id]
  }

  /** Deletes, then one undisturbed close, then deletes. */
  function InOrder(table: Table, p: Phases, t: Time): Table {
    DeleteAll(CloseRows(DeleteAll(table, p.early), p.closed, t), p.late)
  }

  lemma InOrderThenClose(table: Table, p: Phases, id: string, t: Time)
    requires p.late <= p.closed
    ensures CloseRows(InOrder(table, p, t), {id}, t) == InOrder(table, p.(closed := p.closed + {id}), t)
  {
  }

  lemma InOrderThenDelete(table: Table, p: Phases, id: string, t: Time)
    requires p.late <= p.closed
    ensures WithoutOffline(InOrder(table, p, t), id)
            == InOrder(table, if id in p.closed then p.(late := p.late + {id}) else p.(early := p.early + {id}), t)
  {
  }

  lemma InOrderThenStatement(table: Table, p: Phases, statement: Statement, t: Time)
    requires p.late <= p.closed
    ensures ExecuteOne(InOrder(table, p, t), statement, t) == InOrder(table, NextPhases(p, statement), t)
  {
    match statement
    case CloseStatement(id) => InOrderThenClose(table, p, id, t);
    case DeleteStatement(id) => InOrderThenDelete(table, p, id, t);
  }

  lemma {:induction false} LateIsClosed(statements: seq<Statement>)
    ensures PhasesOf(statements).late <= PhasesOf(statements).closed
  {
    if statements != [] {
      LateIsClosed(statements[..|statements| - 1]);
    }
  }

  /** The closed ids are those of the closing statements; every deleted id is in one phase. */
  lemma {:induction false} PhasesCover(statements: seq<Statement>)
    ensures forall id :: id in PhasesOf(statements).closed <==> CloseStatement(id) in statements
    ensures forall id :: id in PhasesOf(statements).early + PhasesOf(statements).late
                         <==> DeleteStatement(id) in statements
  {
    if statements != [] {
      PhasesCover(statements[..|statements| - 1]);
      assert statements == statements[..|statements| - 1] + [statements[|statements| - 1]];
    }
  }

  /**
   * However deletes interleave with the closing statements of one downstream,
   * the table ends as if the deletes ran before or after an undisturbed close.
   */
  lemma {:induction false} RacingDeletesSerialize(table: Table, statements: seq<Statement>, t: Time)
    ensures Execute(table, statements, t) == InOrder(table, PhasesOf(statements), t)
  {
    if statements == [] {
    } else {
      RacingDeletesSerialize(table, statements[..|statements| - 1], t);
      LateIsClosed(statements[..|statements| - 1]);
      InOrderThenStatement(table, PhasesOf(statements[..|statements| - 1]), statements[|statements| - 1], t);
    }
  }

  // ----- Racing deletes as a run -----

  function DeleteOps(ids: seq<string>): seq<Op> {
    seq(|ids|, i requires 0 <= i < |ids| => Delete(ids[i]))
  }

  lemma {:induction false} RunExtends(env: Env, ops: seq<Op>, op: Op)
    ensures Run(env, ops + [op]) == Step(env, Run(env, ops), op)
  {
    assert (ops + [op])[..|ops + [op]| - 1] == ops;
  }

  lemma DeleteOpsSnoc(ops: seq<Op>, ids: seq<string>, id: string)
    ensures ops + DeleteOps(ids + [id]) == ops + DeleteOps(ids) + [Delete(id)]
  {
  }

  lemma IdSetSnoc(ids: seq<string>, id: string)
    ensures IdSet(ids + [id]) == IdSet(ids) + {id}
  {
  }

  lemma DeletingOneMore(table: Table, ids: set<string>, id: string)
    ensures WithoutOffline(DeleteAll(table, ids), id) == DeleteAll(table, ids + {id})
  {
  }

  /** Delete steps one after another delete all their miners. */
  lemma {:induction false} DeletesDeleteAll(env: Env, ops: seq<Op>, ids: seq<string>)
    ensures Run(env, ops + DeleteOps(ids))
            == Store(DeleteAll(Run(env, ops).table, IdSet(ids)), Run(env, ops).sessions)
    decreases |ids|
  {
    if ids == [] {
      assert ops + DeleteOps(ids) == ops;
    } else {
      var before, last := ids[..|ids| - 1], ids[|ids| - 1];
      DeletesDeleteAll(env, ops, before);
      assert ids == before + [last];
      DeleteOpsSnoc(ops, before, last);
      RunExtends(env, ops + DeleteOps(before), Delete(last));
      DeletingOneMore(Run(env, ops).table, IdSet(before), last);
      IdSetSnoc(before, last);
    }
  }

  /** The run that a serialized race amounts to. */
  function RaceOps(early: seq<string>, downstream: U64, t: Time, late: seq<string>): seq<Op> {
    DeleteOps(early) + [Emit(DownstreamClosed(downstream, t))] + DeleteOps(late)
  }

  lemma {:induction false} RaceOpsInOrder(
      env: Env, ops: seq<Op>, early: seq<string>, downstream: U64, t: Time, late: seq<string>)
    ensures var s := Run(env, ops);
            var p := Phases(IdSet(early), IdsOn(s.sessions, downstream), IdSet(late));
            Run(env, ops + RaceOps(early, downstream, t, late))
            == Store(InOrder(s.table, p, t), WithoutDownstream(s.sessions, downstream))
  {
    var closed := Emit(DownstreamClosed(downstream, t));
    var before := ops + DeleteOps(early);
    DeletesDeleteAll(env, ops, early);
    RunExtends(env, before, closed);
    DeletesDeleteAll(env, before + [closed], late);
    ConcatFour(ops, DeleteOps(early), [closed], DeleteOps(late));
  }

  lemma ConcatFour(a: seq<Op>, b: seq<Op>, c: seq<Op>, d: seq<Op>)
    ensures a + (b + c + d) == a + b + c + d
  {
  }

  /**
   * When a downstream closes after any history, however deletes interleave with
   * its closing statements, the outcome is that of a run: some of the deletes,
   * then the close as one event, then the others. What holds over every run
   * therefore holds with racing deletes too.
   */
  lemma RacingDeletesAreARun(env: Env, ops: seq<Op>, downstream: U64, statements: seq<Statement>, t: Time)
    returns (early: seq<string>, late: seq<string>)
    requires PhasesOf(statements).closed == IdsOn(Run(env, ops).sessions, downstream)
    ensures Run(env, ops + RaceOps(early, downstream, t, late))
            == Store(Execute(Run(env, ops).table, statements, t),
                     WithoutDownstream(Run(env, ops).sessions, downstream))
    ensures forall id :: id in early || id in late <==> DeleteStatement(id) in statements
  {
    var p := PhasesOf(statements);
    early := Enumerate(p.early);
    late := Enumerate(p.late);
    assert IdSet(early) == Elements(early) && IdSet(late) == Elements(late);
    RacingDeletesSerialize(Run(env, ops).table, statements, t);
    RaceOpsInOrder(env, ops, early, downstream, t, late);
    PhasesCover(statements);
    assert forall id :: id in IdSet(early) <==> id in early;
    assert forall id :: id in IdSet(late) <==> id in late;
  }
}
