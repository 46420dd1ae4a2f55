/**
 * The test miner as a concurrent protocol: the select loop of the driver, the
 * groups of worker threads it spawns and cancels, and the channel on which
 * found shares travel back. A run is any interleaving of atomic steps.
 */
module MiningProtocol {
  import opened Words
  import opened MiningTypes
  import opened NonceSearch
  import opened MinerState

  datatype Config = Config(mode: ShareMode, cores: U32, stopAfter: U32, meets: Meets)

  /** `cores.max(1)` */
  function WorkerCount(cfg: Config): (n: U32)
    ensures n >= 1 && n >= cfg.cores && n in {1, cfg.cores}
  {
    if cfg.cores == 0 then 1 else cfg.cores
  }

  /** Where a worker thread is in its loop body, one value per access to shared state. */
  datatype Pc = Loading | Testing | Swapping | Sending | Exited

  datatype Worker = Worker(pc: Pc, at: Candidate)

  /** The threads spawned for one piece of work, with their shared cancel flag. */
  datatype Group = Group(work: MiningWork, emittedAt: nat, cancel: bool, workers: seq<Worker>)

  /** A share with the group it came from. */
  datatype Tagged = Tagged(origin: nat, share: FoundShare)

  datatype DriverPc = Selecting | Spawning(work: MiningWork) | Returned(accepted: nat) | Aborted

  /**
   * `log` is every frame handled so far and `newWorks` the number of NewWork
   * outcomes; both only record history.
   */
  datatype State = State(
    view: View,
    driver: DriverPc,
    current: Option<nat>,
    accepted: nat,
    groups: seq<Group>,
    inbox: seq<Tagged>,
    submitted: seq<Tagged>,
    log: seq<Stamped>,
    newWorks: nat)

  datatype Step =
    | Interrupt
    | Disconnect
    | ReceiveShare(delivered: bool)
    | Frame(message: Message, clock: U32)
    | Spawn
    | Load(group: nat, worker: nat, seen: bool)
    | Test(group: nat, worker: nat)
    | Swap(group: nat, worker: nat)
    | Send(group: nat, worker: nat)

  function Init(cfg: Config): State {
    State(InitialView(cfg.mode), Selecting, None, 0, [], [], [], [], 0)
  }

  function SpawnGroup(cfg: Config, work: MiningWork, emittedAt: nat): Group {
    var n := WorkerCount(cfg);
    Group(work, emittedAt, false, seq(n, i requires 0 <= i < n => Worker(Loading, Candidate(i, work.ntime))))
  }

  /** `stop_workers(current_workers.take())` up to its wait: the flag is set, the group let go. */
  function StopCurrent(s: State): State {
    if s.current.Some? && s.current.value < |s.groups| then
      var g := s.current.value;
      s.(groups := s.groups[g := s.groups[g].(cancel := true)], current := None)
    else s.(current := None)
  }

  function StartWork(s: State, work: MiningWork): State {
    StopCurrent(s).(driver := Spawning(work), newWorks := s.newWorks + 1)
  }

  function CountAccepted(cfg: Config, s: State): State {
    var counted := s.(accepted := s.accepted + 1);
    if counted.accepted >= cfg.stopAfter
    then StopCurrent(counted).(driver := Returned(counted.accepted))
    else counted
  }

  function AfterFrame(cfg: Config, s: State, message: Message, clock: U32): State {
    var view := AfterMessage(s.view, message);
    var heard := s.(view := view, log := s.log + [Stamped(message, clock)]);
    match OutcomeOf(view, message, clock)
    case NoWork => heard
    case NewWork(work) => StartWork(heard, work)
    case AcceptedShare => CountAccepted(cfg, heard)
    case Failed => heard.(driver := Aborted)
  }

  /** Number the first waiting share and submit it; a failed submission ends the driver. */
  function AfterReceive(s: State, delivered: bool): State
    requires s.inbox != []
  {
    var n := WrapAdd32(s.view.sequence, 1);
    var found := s.inbox[0].(share := s.inbox[0].share.(sequenceNumber := n));
    var taken := s.(view := s.view.(sequence := n), inbox := s.inbox[1..]);
    if delivered then taken.(submitted := s.submitted + [found]) else taken.(driver := Aborted)
  }

  predicate HasWorker(s: State, g: nat, i: nat, pc: Pc) {
    g < |s.groups| && i < |s.groups[g].workers| && s.groups[g].workers[i].pc == pc
  }

  /**
   * Whether a step can be taken. A disconnect stands for a closed connection or
   * a frame that cannot be parsed. A load may return a stale false, never a
   * stale true.
   */
  predicate Enabled(s: State, step: Step) {
    match step
    case Interrupt => s.driver.Selecting?
    case Disconnect => s.driver.Selecting?
    case ReceiveShare(_) => s.driver.Selecting? && s.inbox != []
    case Frame(_, _) => s.driver.Selecting?
    case Spawn => s.driver.Spawning?
    case Load(g, i, seen) => HasWorker(s, g, i, Loading) && (seen ==> s.groups[g].cancel)
    case Test(g, i) => HasWorker(s, g, i, Testing)
    case Swap(g, i) => HasWorker(s, g, i, Swapping)
    case Send(g, i) => HasWorker(s, g, i, Sending)
  }

  function SetWorker(group: Group, i: nat, w: Worker): Group
    requires i < |group.workers|
  {
    group.(workers := group.workers[i := w])
  }

  function Apply(cfg: Config, s: State, step: Step): State
    requires Enabled(s, step)
  {
    match step
    case Interrupt => StopCurrent(s).(driver := Aborted)
    case Disconnect => s.(driver := Aborted)
    case ReceiveShare(delivered) => AfterReceive(s, delivered)
    case Frame(message, clock) => AfterFrame(cfg, s, message, clock)
    case Spawn =>
      s.(groups := s.groups + [SpawnGroup(cfg, s.driver.work, |s.log|)],
         current := Some(|s.groups|),
         driver := Selecting)
    case Load(g, i, seen) =>
      var w := s.groups[g].workers[i];
      s.(groups := s.groups[g := SetWorker(s.groups[g], i, w.(pc := if seen then Exited else Testing))])
    case Test(g, i) =>
      var w := s.groups[g].workers[i];
      var next := if Hits(cfg.meets, s.groups[g].work, w.at) then w.(pc := Swapping)
                  else Worker(Loading, Advance(w.at, WorkerCount(cfg)));
      s.(groups := s.groups[g := SetWorker(s.groups[g], i, next)])
    case Swap(g, i) =>
      var w := s.groups[g].workers[i];
      var next := w.(pc := if s.groups[g].cancel then Exited else Sending);
      s.(groups := s.groups[g := SetWorker(s.groups[g], i, next).(cancel := true)])
    case Send(g, i) =>
      var w := s.groups[g].workers[i];
      s.(groups := s.groups[g := SetWorker(s.groups[g], i, w.(pc := Exited))],
         inbox := s.inbox + [Tagged(g, ShareOf(s.groups[g].work, w.at))])
  }

  /** The state after a run of steps, if each of them could be taken. */
  function Run(cfg: Config, s: State, steps: seq<Step>): Option<State>
    decreases |steps|
  {
    if steps == [] then Some(s)
    else if Enabled(s, steps[0]) then Run(cfg, Apply(cfg, s, steps[0]), steps[1..])
    else None
  }

  // ----- Invariants -----

  /** Every share on its way, in the order of arrival. */
  function Sent(s: State): seq<Tagged> {
    s.submitted + s.inbox
  }

  /** A pair that worker `i` of a group reaches at some iteration, all its earlier pairs being misses. */
  ghost predicate Reached(meets: Meets, work: MiningWork, count: U32, i: nat, c: Candidate) {
    exists k: nat :: c == Track(work, count, i, k) && MissesBefore(meets, work, count, i, k)
  }

  ghost predicate WorkerOk(cfg: Config, group: Group, i: nat)
    requires i < |group.workers|
  {
    var w := group.workers[i];
    && Reached(cfg.meets, group.work, WorkerCount(cfg), i, w.at)
    && (w.pc == Sending || w.pc == Swapping ==> Hits(cfg.meets, group.work, w.at))
  }

  /** At most one worker has won the swap and not sent yet, and only under a set flag. */
  ghost predicate OneWinner(group: Group) {
    && (forall i :: 0 <= i < |group.workers| && group.workers[i].pc == Sending ==> group.cancel)
    && (forall i, j :: && 0 <= i < |group.workers| && 0 <= j < |group.workers|
                       && group.workers[i].pc == Sending && group.workers[j].pc == Sending
                       ==> i == j)
  }

  ghost predicate GroupOk(cfg: Config, group: Group) {
    && |group.workers| == WorkerCount(cfg)
    && OneWinner(group)
    && forall i :: 0 <= i < |group.workers| ==> WorkerOk(cfg, group, i)
  }

  ghost predicate GroupsOk(cfg: Config, s: State) {
    forall g :: 0 <= g < |s.groups| ==> GroupOk(cfg, s.groups[g])
  }

  /** A share belongs to its group: it carries the work's ids and a pair that meets its target. */
  ghost predicate ShareOk(cfg: Config, group: Group, share: FoundShare) {
    var c := Candidate(share.nonce, share.ntime);
    && share.(sequenceNumber := 0) == ShareOf(group.work, c)
    && Hits(cfg.meets, group.work, c)
    && exists i :: 0 <= i < WorkerCount(cfg) && Reached(cfg.meets, group.work, WorkerCount(cfg), i, c)
  }

  /** A sent share used up its group: the flag is set and nobody else is about to send. */
  ghost predicate SentOk(cfg: Config, s: State, t: Tagged) {
    && t.origin < |s.groups|
    && s.groups[t.origin].cancel
    && (forall i :: 0 <= i < |s.groups[t.origin].workers| ==> s.groups[t.origin].workers[i].pc != Sending)
    && ShareOk(cfg, s.groups[t.origin], t.share)
  }

  ghost predicate AllSentOk(cfg: Config, s: State) {
    forall n :: 0 <= n < |Sent(s)| ==> SentOk(cfg, s, Sent(s)[n])
  }

  ghost predicate DistinctOrigins(tags: seq<Tagged>) {
    forall m, n :: 0 <= m < n < |tags| ==> tags[m].origin != tags[n].origin
  }

  /** Only the group the driver still holds can be running uncancelled. */
  ghost predicate CurrentOk(s: State) {
    && (s.current.Some? ==> s.current.value + 1 == |s.groups|)
    && (s.driver.Spawning? ==> s.current.None?)
    && forall g :: 0 <= g < |s.groups| && !s.groups[g].cancel ==> s.current == Some(g)
  }

  /** The works came from the log: each is what the driver was told after its prefix. */
  ghost predicate LogOk(cfg: Config, s: State) {
    && s.view.(sequence := 0) == Replay(cfg.mode, s.log)
    && (s.driver.Spawning? ==> s.log != [] && LastOutcome(cfg.mode, s.log) == NewWork(s.driver.work))
    && forall g :: 0 <= g < |s.groups| ==> EmittedFrom(cfg, s.log, s.groups[g])
  }

  ghost predicate EmittedFrom(cfg: Config, log: seq<Stamped>, group: Group) {
    && 1 <= group.emittedAt <= |log|
    && LastOutcome(cfg.mode, log[..group.emittedAt]) == NewWork(group.work)
  }

  ghost predicate CountsOk(cfg: Config, s: State) {
    && |s.groups| + (if s.driver.Spawning? then 1 else 0) == s.newWorks
    && (forall n :: 0 <= n < |s.submitted| ==> s.submitted[n].share.sequenceNumber == (n + 1) % TWO32)
    && (!s.driver.Aborted? ==> s.view.sequence == |s.submitted| % TWO32)
    && (s.driver.Selecting? || s.driver.Spawning? ==> s.accepted == 0 || s.accepted < cfg.stopAfter)
    && (s.driver.Returned? ==> s.driver.accepted == if cfg.stopAfter == 0 then 1 else cfg.stopAfter)
  }

  ghost predicate Inv(cfg: Config, s: State) {
    && GroupsOk(cfg, s)
    && AllSentOk(cfg, s)
    && DistinctOrigins(Sent(s))
    && CurrentOk(s)
    && LogOk(cfg, s)
    && CountsOk(cfg, s)
  }

  // ----- Every step keeps the invariant -----

  lemma InitKeeps(cfg: Config)
    ensures Inv(cfg, Init(cfg))
  {
  }

  ghost predicate NobodySending(group: Group) {
    forall i :: 0 <= i < |group.workers| ==> group.workers[i].pc != Sending
  }

  /** What a step may do to one group: keep its work, never clear the flag, never revive a spent group. */
  ghost predicate GroupMove(cfg: Config, before: Group, after: Group) {
    && GroupOk(cfg, after)
    && after.work == before.work
    && after.emittedAt == before.emittedAt
    && (before.cancel ==> after.cancel)
    && (before.cancel && NobodySending(before) ==> NobodySending(after))
  }

  lemma GroupMoveKeeps(cfg: Config, s: State, g: nat, after: Group)
    requires Inv(cfg, s) && g < |s.groups| && GroupMove(cfg, s.groups[g], after)
    ensures Inv(cfg, s.(groups := s.groups[g := after]))
  {
    var t := s.(groups := s.groups[g := after]);
    assert Sent(t) == Sent(s);
    forall n | 0 <= n < |Sent(t)|
      ensures SentOk(cfg, t, Sent(t)[n])
    {
      assert SentOk(cfg, s, Sent(s)[n]);
    }
    forall h | 0 <= h < |t.groups|
      ensures EmittedFrom(cfg, t.log, t.groups[h])
    {
      assert EmittedFrom(cfg, s.log, s.groups[h]);
    }
  }

  /** A group stays sound when one worker moves on, if that worker's own facts are kept. */
  lemma WorkerMove(cfg: Config, group: Group, i: nat, w: Worker, cancel: bool)
    requires GroupOk(cfg, group) && i < |group.workers|
    requires Reached(cfg.meets, group.work, WorkerCount(cfg), i, w.at)
    requires w.pc == Sending || w.pc == Swapping ==> Hits(cfg.meets, group.work, w.at)
    requires group.cancel ==> cancel
    requires w.pc == Sending ==> cancel && NobodySending(group) && !group.cancel
    ensures GroupMove(cfg, group, SetWorker(group, i, w).(cancel := cancel))
  {
    var after := SetWorker(group, i, w).(cancel := cancel);
    forall j | 0 <= j < |after.workers|
      ensures WorkerOk(cfg, after, j)
    {
      assert WorkerOk(cfg, group, j);
    }
    assert OneWinner(after);
  }

  lemma LoadKeeps(cfg: Config, s: State, g: nat, i: nat, seen: bool)
    requires Inv(cfg, s) && Enabled(s, Load(g, i, seen))
    ensures Inv(cfg, Apply(cfg, s, Load(g, i, seen)))
  {
    var group := s.groups[g];
    var next := group.workers[i].(pc := if seen then Exited else Testing);
    assert WorkerOk(cfg, group, i);
    WorkerMove(cfg, group, i, next, group.cancel);
    GroupMoveKeeps(cfg, s, g, SetWorker(group, i, next));
  }

  lemma AdvanceStaysOnTrack(meets: Meets, work: MiningWork, count: U32, i: nat, c: Candidate)
    requires Reached(meets, work, count, i, c) && !Hits(meets, work, c)
    ensures Reached(meets, work, count, i, Advance(c, count))
  {
    var k: nat :| c == Track(work, count, i, k) && MissesBefore(meets, work, count, i, k);
    TrackAdvances(work, count, i, k);
    assert MissesBefore(meets, work, count, i, k + 1);
  }

  lemma TrackAdvances(work: MiningWork, count: U32, i: nat, k: nat)
    ensures Advance(Track(work, count, i, k), count) == Track(work, count, i, k + 1)
  {
    AdvanceMovesByCount(work.ntime, count, Position(i, count, k));
  }

  lemma TestKeeps(cfg: Config, s: State, g: nat, i: nat)
    requires Inv(cfg, s) && Enabled(s, Test(g, i))
    ensures Inv(cfg, Apply(cfg, s, Test(g, i)))
  {
    var group := s.groups[g];
    var w := group.workers[i];
    assert WorkerOk(cfg, group, i);
    if !Hits(cfg.meets, group.work, w.at) {
      AdvanceStaysOnTrack(cfg.meets, group.work, WorkerCount(cfg), i, w.at);
    }
    var next := if Hits(cfg.meets, group.work, w.at) then w.(pc := Swapping)
                else Worker(Loading, Advance(w.at, WorkerCount(cfg)));
    WorkerMove(cfg, group, i, next, group.cancel);
    GroupMoveKeeps(cfg, s, g, SetWorker(group, i, next));
  }

  /** Only a swap that finds the flag clear wins, and then nobody has won before. */
  lemma SwapKeeps(cfg: Config, s: State, g: nat, i: nat)
    requires Inv(cfg, s) && Enabled(s, Swap(g, i))
    ensures Inv(cfg, Apply(cfg, s, Swap(g, i)))
  {
    var group := s.groups[g];
    var next := group.workers[i].(pc := if group.cancel then Exited else Sending);
    assert WorkerOk(cfg, group, i);
    WorkerMove(cfg, group, i, next, true);
    GroupMoveKeeps(cfg, s, g, SetWorker(group, i, next).(cancel := true));
  }

  /**
   * A swap wins exactly when it finds the flag clear; then no worker of the group
   * has won before it and no share of the group is on its way. Any other swap
   * ends its worker.
   */
  lemma SwapWinsIffFirst(cfg: Config, s: State, g: nat, i: nat)
    requires Inv(cfg, s) && Enabled(s, Swap(g, i))
    ensures var t := Apply(cfg, s, Swap(g, i));
            && t.groups[g].cancel
            && t.groups[g].workers[i].pc == (if s.groups[g].cancel then Exited else Sending)
    ensures !s.groups[g].cancel ==> NobodySending(s.groups[g]) && forall t :: t in Sent(s) ==> t.origin != g
  {
    assert GroupOk(cfg, s.groups[g]);
    forall t | t in Sent(s)
      ensures SentOk(cfg, s, t)
    {
      var n :| 0 <= n < |Sent(s)| && Sent(s)[n] == t;
    }
  }

  /** Sending uses up the group: until then no share of it was sent. */
  lemma SendKeeps(cfg: Config, s: State, g: nat, i: nat)
    requires Inv(cfg, s) && Enabled(s, Send(g, i))
    ensures Inv(cfg, Apply(cfg, s, Send(g, i)))
  {
    var group := s.groups[g];
    var w := group.workers[i];
    assert WorkerOk(cfg, group, i);
    WorkerMove(cfg, group, i, w.(pc := Exited), group.cancel);
    var exited := SetWorker(group, i, w.(pc := Exited));
    var quiet := s.(groups := s.groups[g := exited]);
    GroupMoveKeeps(cfg, s, g, exited);
    var tag := Tagged(g, ShareOf(group.work, w.at));
    forall n | 0 <= n < |Sent(s)|
      ensures Sent(s)[n].origin != g
    {
      assert SentOk(cfg, s, Sent(s)[n]);
    }
    AppendSentKeeps(cfg, quiet, tag);
  }

  lemma AppendSentKeeps(cfg: Config, s: State, tag: Tagged)
    requires Inv(cfg, s) && SentOk(cfg, s, tag)
    requires forall n :: 0 <= n < |Sent(s)| ==> Sent(s)[n].origin != tag.origin
    ensures Inv(cfg, s.(inbox := s.inbox + [tag]))
  {
    var t := s.(inbox := s.inbox + [tag]);
    assert Sent(t) == Sent(s) + [tag];
    forall n | 0 <= n < |Sent(t)|
      ensures SentOk(cfg, t, Sent(t)[n])
    {
      if n < |Sent(s)| {
        assert SentOk(cfg, s, Sent(s)[n]);
      }
    }
  }

  lemma StopKeeps(cfg: Config, s: State)
    requires Inv(cfg, s)
    ensures Inv(cfg, StopCurrent(s))
    ensures forall g :: 0 <= g < |s.groups| ==> StopCurrent(s).groups[g].cancel
    ensures StopCurrent(s).current.None?
  {
    if s.current.Some? {
      var g := s.current.value;
      var group := s.groups[g];
      var after := group.(cancel := true);
      forall j | 0 <= j < |after.workers|
        ensures WorkerOk(cfg, after, j)
      {
        assert WorkerOk(cfg, group, j);
      }
      GroupMoveKeeps(cfg, s, g, after);
      var t := s.(groups := s.groups[g := after]);
      assert StopCurrent(s) == t.(current := None);
      SameSent(cfg, t, StopCurrent(s));
    }
  }

  /** The facts about sent shares and groups depend on the groups and the shares alone. */
  lemma SameSent(cfg: Config, s: State, t: State)
    requires GroupsOk(cfg, s) && AllSentOk(cfg, s) && DistinctOrigins(Sent(s))
    requires t.groups == s.groups && t.inbox == s.inbox && t.submitted == s.submitted
    ensures GroupsOk(cfg, t) && AllSentOk(cfg, t) && DistinctOrigins(Sent(t))
  {
  }

  lemma SpawnKeeps(cfg: Config, s: State)
    requires Inv(cfg, s) && Enabled(s, Spawn)
    ensures Inv(cfg, Apply(cfg, s, Spawn))
  {
    var t := Apply(cfg, s, Spawn);
    var spawned := SpawnGroup(cfg, s.driver.work, |s.log|);
    FreshGroupOk(cfg, s.driver.work, |s.log|);
    forall n | 0 <= n < |Sent(t)|
      ensures SentOk(cfg, t, Sent(t)[n])
    {
      assert SentOk(cfg, s, Sent(s)[n]);
    }
    assert s.log[..|s.log|] == s.log;
    forall g | 0 <= g < |t.groups|
      ensures EmittedFrom(cfg, t.log, t.groups[g])
    {
      if g < |s.groups| {
        assert EmittedFrom(cfg, s.log, s.groups[g]);
      } else {
        assert t.groups[g] == spawned;
      }
    }
  }

  lemma FreshGroupOk(cfg: Config, work: MiningWork, emittedAt: nat)
    ensures GroupOk(cfg, SpawnGroup(cfg, work, emittedAt))
  {
    var group := SpawnGroup(cfg, work, emittedAt);
    forall i | 0 <= i < |group.workers|
      ensures WorkerOk(cfg, group, i)
    {
      assert group.workers[i].at == Track(work, WorkerCount(cfg), i, 0);
      assert MissesBefore(cfg.meets, work, WorkerCount(cfg), i, 0);
    }
  }

  /** Handling a frame, before the driver acts on the outcome. */
  lemma LogGrows(cfg: Config, s: State, m: Message, clock: U32)
    requires LogOk(cfg, s)
    ensures var log := s.log + [Stamped(m, clock)];
            && AfterMessage(s.view, m).(sequence := 0) == Replay(cfg.mode, log)
            && LastOutcome(cfg.mode, log) == OutcomeOf(AfterMessage(s.view, m), m, clock)
            && forall g :: 0 <= g < |s.groups| ==> EmittedFrom(cfg, log, s.groups[g])
  {
    var log := s.log + [Stamped(m, clock)];
    assert log[..|log| - 1] == s.log;
    forall g | 0 <= g < |s.groups|
      ensures EmittedFrom(cfg, log, s.groups[g])
    {
      assert EmittedFrom(cfg, s.log, s.groups[g]);
      assert log[..s.groups[g].emittedAt] == s.log[..s.groups[g].emittedAt];
    }
  }

  lemma HeardKeeps(cfg: Config, s: State, m: Message, clock: U32)
    requires Inv(cfg, s) && s.driver.Selecting?
    ensures Inv(cfg, s.(view := AfterMessage(s.view, m), log := s.log + [Stamped(m, clock)]))
  {
    LogGrows(cfg, s, m, clock);
    SameSent(cfg, s, s.(view := AfterMessage(s.view, m), log := s.log + [Stamped(m, clock)]));
  }

  lemma StartWorkKeeps(cfg: Config, s: State, work: MiningWork)
    requires Inv(cfg, s) && s.driver.Selecting?
    requires s.log != [] && LastOutcome(cfg.mode, s.log) == NewWork(work)
    ensures Inv(cfg, StartWork(s, work))
  {
    StopKeeps(cfg, s);
    SameSent(cfg, StopCurrent(s), StartWork(s, work));
  }

  lemma CountAcceptedKeeps(cfg: Config, s: State)
    requires Inv(cfg, s) && s.driver.Selecting?
    ensures Inv(cfg, CountAccepted(cfg, s))
  {
    var t := CountAccepted(cfg, s);
    if s.accepted + 1 >= cfg.stopAfter {
      StopKeeps(cfg, s);
      SameSent(cfg, StopCurrent(s), t);
    } else {
      SameSent(cfg, s, t);
    }
  }

  lemma AbortKeeps(cfg: Config, s: State)
    requires Inv(cfg, s) && s.driver.Selecting?
    ensures Inv(cfg, s.(driver := Aborted))
  {
  }

  lemma FrameKeeps(cfg: Config, s: State, m: Message, clock: U32)
    requires Inv(cfg, s) && Enabled(s, Frame(m, clock))
    ensures Inv(cfg, AfterFrame(cfg, s, m, clock))
  {
    var view := AfterMessage(s.view, m);
    var heard := s.(view := view, log := s.log + [Stamped(m, clock)]);
    HeardKeeps(cfg, s, m, clock);
    assert heard.log != [] && LastOutcome(cfg.mode, heard.log) == OutcomeOf(view, m, clock) by {
      LogGrows(cfg, s, m, clock);
    }
    match OutcomeOf(view, m, clock)
    case NoWork =>
    case NewWork(work) => StartWorkKeeps(cfg, heard, work);
    case AcceptedShare => CountAcceptedKeeps(cfg, heard);
    case Failed => AbortKeeps(cfg, heard);
  }

  lemma InterruptKeeps(cfg: Config, s: State)
    requires Inv(cfg, s) && Enabled(s, Interrupt)
    ensures Inv(cfg, Apply(cfg, s, Interrupt))
  {
    StopKeeps(cfg, s);
    SameSent(cfg, StopCurrent(s), Apply(cfg, s, Interrupt));
  }

  /** Receiving numbers the first waiting share; all others keep their place in order. */
  lemma ReceivedSent(s: State, delivered: bool)
    requires s.inbox != []
    ensures var t := AfterReceive(s, delivered);
            var gap := if delivered then 0 else 1;
            && |Sent(t)| + gap == |Sent(s)|
            && forall n :: 0 <= n < |Sent(t)| ==>
                 var m := if n < |s.submitted| then n else n + gap;
                 && Sent(t)[n].origin == Sent(s)[m].origin
                 && Sent(t)[n].share.(sequenceNumber := 0) == Sent(s)[m].share.(sequenceNumber := 0)
  {
  }

  /** Numbering a share leaves it sound. */
  lemma RenumberedIsOk(cfg: Config, s: State, t: State, tag: Tagged, renumbered: Tagged)
    requires SentOk(cfg, s, tag) && t.groups == s.groups
    requires renumbered.origin == tag.origin
    requires renumbered.share.(sequenceNumber := 0) == tag.share.(sequenceNumber := 0)
    ensures SentOk(cfg, t, renumbered)
  {
  }

  lemma ReceivedSentIsOk(cfg: Config, s: State, delivered: bool)
    requires s.inbox != [] && AllSentOk(cfg, s) && DistinctOrigins(Sent(s))
    ensures AllSentOk(cfg, AfterReceive(s, delivered)) && DistinctOrigins(Sent(AfterReceive(s, delivered)))
  {
    var t := AfterReceive(s, delivered);
    ReceivedSent(s, delivered);
    var gap := if delivered then 0 else 1;
    forall n | 0 <= n < |Sent(t)|
      ensures SentOk(cfg, t, Sent(t)[n])
    {
      var m := if n < |s.submitted| then n else n + gap;
      RenumberedIsOk(cfg, s, t, Sent(s)[m], Sent(t)[n]);
    }
  }

  lemma ReceiveKeeps(cfg: Config, s: State, delivered: bool)
    requires Inv(cfg, s) && Enabled(s, ReceiveShare(delivered))
    ensures Inv(cfg, Apply(cfg, s, ReceiveShare(delivered)))
  {
    ReceivedSentIsOk(cfg, s, delivered);
    ReceiveCounts(cfg, s, delivered);
  }

  lemma ReceiveCounts(cfg: Config, s: State, delivered: bool)
    requires CountsOk(cfg, s) && LogOk(cfg, s) && s.driver.Selecting? && s.inbox != []
    ensures CountsOk(cfg, AfterReceive(s, delivered)) && LogOk(cfg, AfterReceive(s, delivered))
  {
    assert WrapAdd32(s.view.sequence, 1) == (|s.submitted| + 1) % TWO32;
  }

  lemma StepKeeps(cfg: Config, s: State, step: Step)
    requires Inv(cfg, s) && Enabled(s, step)
    ensures Inv(cfg, Apply(cfg, s, step))
  {
    match step
    case Interrupt => InterruptKeeps(cfg, s);
    case Disconnect => AbortKeeps(cfg, s);
    case ReceiveShare(delivered) => ReceiveKeeps(cfg, s, delivered);
    case Frame(message, clock) => FrameKeeps(cfg, s, message, clock);
    case Spawn => SpawnKeeps(cfg, s);
    case Load(g, i, seen) => LoadKeeps(cfg, s, g, i, seen);
    case Test(g, i) => TestKeeps(cfg, s, g, i);
    case Swap(g, i) => SwapKeeps(cfg, s, g, i);
    case Send(g, i) => SendKeeps(cfg, s, g, i);
  }

  lemma {:induction false} RunKeeps(cfg: Config, s: State, steps: seq<Step>)
    requires Inv(cfg, s)
    ensures Run(cfg, s, steps).Some? ==> Inv(cfg, Run(cfg, s, steps).value)
    decreases |steps|
  {
    if steps != [] && Enabled(s, steps[0]) {
      StepKeeps(cfg, s, steps[0]);
      RunKeeps(cfg, Apply(cfg, s, steps[0]), steps[1..]);
    }
  }

  // ----- At most one share for each piece of work -----

  /** The flag is set and no winner is left: this group will never send. */
  ghost predicate Spent(group: Group) {
    group.cancel && NobodySending(group)
  }

  function SendsIn(steps: seq<Step>, g: nat): nat {
    if steps == [] then 0
    else (if steps[0].Send? && steps[0].group == g then 1 else 0) + SendsIn(steps[1..], g)
  }

  lemma StopKeepsSpent(s: State, g: nat)
    requires g < |s.groups| && Spent(s.groups[g])
    ensures g < |StopCurrent(s).groups| && Spent(StopCurrent(s).groups[g])
  {
  }

  lemma FrameKeepsSpent(cfg: Config, s: State, m: Message, clock: U32, g: nat)
    requires g < |s.groups| && Spent(s.groups[g])
    ensures g < |AfterFrame(cfg, s, m, clock).groups| && Spent(AfterFrame(cfg, s, m, clock).groups[g])
  {
  }

  lemma StepKeepsSpent(cfg: Config, s: State, step: Step, g: nat)
    requires Inv(cfg, s) && Enabled(s, step)
    requires g < |s.groups| && Spent(s.groups[g])
    ensures g < |Apply(cfg, s, step).groups| && Spent(Apply(cfg, s, step).groups[g])
    ensures !(step.Send? && step.group == g)
  {
    match step
    case Interrupt => StopKeepsSpent(s, g);
    case Frame(m, clock) => FrameKeepsSpent(cfg, s, m, clock, g);
    case _ =>
  }

  lemma {:induction false} SpentNeverSends(cfg: Config, s: State, steps: seq<Step>, g: nat)
    requires Inv(cfg, s) && Run(cfg, s, steps).Some?
    requires g < |s.groups| && Spent(s.groups[g])
    ensures SendsIn(steps, g) == 0
    decreases |steps|
  {
    if steps != [] {
      StepKeepsSpent(cfg, s, steps[0], g);
      StepKeeps(cfg, s, steps[0]);
      SpentNeverSends(cfg, Apply(cfg, s, steps[0]), steps[1..], g);
    }
  }

  lemma SendSpends(cfg: Config, s: State, g: nat, i: nat)
    requires Inv(cfg, s) && Enabled(s, Send(g, i))
    ensures Spent(Apply(cfg, s, Send(g, i)).groups[g])
  {
  }

  lemma {:induction false} AtMostOneSendFrom(cfg: Config, s: State, steps: seq<Step>, g: nat)
    requires Inv(cfg, s) && Run(cfg, s, steps).Some?
    ensures SendsIn(steps, g) <= 1
    decreases |steps|
  {
    if steps != [] {
      var t := Apply(cfg, s, steps[0]);
      StepKeeps(cfg, s, steps[0]);
      if steps[0].Send? && steps[0].group == g {
        SendSpends(cfg, s, g, steps[0].worker);
        SpentNeverSends(cfg, t, steps[1..], g);
      } else {
        AtMostOneSendFrom(cfg, t, steps[1..], g);
      }
    }
  }

  /** In every run each piece of work sends at most one share. */
  lemma {:induction false} AtMostOneSharePerWork(cfg: Config, steps: seq<Step>, g: nat)
    requires Run(cfg, Init(cfg), steps).Some?
    ensures SendsIn(steps, g) <= 1
  {
    InitKeeps(cfg);
    AtMostOneSendFrom(cfg, Init(cfg), steps, g);
  }

  // ----- Shares sent after a stop -----

  /** Some continuation of a state lets the group send a share. */
  ghost predicate CanStillSend(cfg: Config, s: State, g: nat) {
    exists steps, i: nat :: Run(cfg, s, steps).Some? && Enabled(Run(cfg, s, steps).value, Send(g, i))
  }

  lemma {:induction false} RunThenStep(cfg: Config, s: State, steps: seq<Step>, step: Step)
    requires Run(cfg, s, steps).Some? && Enabled(Run(cfg, s, steps).value, step)
    ensures Run(cfg, s, steps + [step]).Some?
    decreases |steps|
  {
    if steps == [] {
      assert [step][1..] == [];
    } else {
      RunThenStep(cfg, Apply(cfg, s, steps[0]), steps[1..], step);
      assert (steps + [step])[1..] == steps[1..] + [step];
    }
  }

  lemma {:induction false} SendsInConcat(xs: seq<Step>, ys: seq<Step>, g: nat)
    ensures SendsIn(xs + ys, g) == SendsIn(xs, g) + SendsIn(ys, g)
  {
    if xs == [] {
      assert xs + ys == ys;
    } else {
      SendsInConcat(xs[1..], ys, g);
      assert (xs + ys)[1..] == xs[1..] + ys;
    }
  }

  /**
   * Setting the cancel flag does not by itself keep a group from sending: a
   * worker that has already won the swap still sends. Once the flag is set, a
   * share can still come exactly when some worker is between swap and send.
   */
  lemma CancelledWorkSendsIffWinnerPending(cfg: Config, s: State, g: nat)
    requires Inv(cfg, s) && g < |s.groups| && s.groups[g].cancel
    ensures CanStillSend(cfg, s, g) <==> exists i: nat :: HasWorker(s, g, i, Sending)
  {
    if i: nat :| HasWorker(s, g, i, Sending) {
      assert Run(cfg, s, []) == Some(s);
      assert Enabled(s, Send(g, i));
    } else {
      if CanStillSend(cfg, s, g) {
        var steps, i: nat :| Run(cfg, s, steps).Some? && Enabled(Run(cfg, s, steps).value, Send(g, i));
        RunThenStep(cfg, s, steps, Send(g, i));
        forall j | 0 <= j < |s.groups[g].workers|
          ensures s.groups[g].workers[j].pc != Sending
        {
          assert !HasWorker(s, g, j, Sending);
        }
        SpentNeverSends(cfg, s, steps + [Send(g, i)], g);
        SendsInConcat(steps, [Send(g, i)], g);
        assert false;
      }
    }
  }

  const EASY: Config := Config(BlockOnly, 1, 1, (t, h) => true)

  lemma TailOfConcat(xs: seq<Step>, ys: seq<Step>)
    requires xs != []
    ensures (xs + ys)[0] == xs[0] && (xs + ys)[1..] == xs[1..] + ys
  {
  }

  lemma {:induction false} RunConcat(cfg: Config, s: State, xs: seq<Step>, ys: seq<Step>)
    requires Run(cfg, s, xs).Some?
    ensures Run(cfg, s, xs + ys) == Run(cfg, Run(cfg, s, xs).value, ys)
    decreases |xs|
  {
    if xs == [] {
      assert xs + ys == ys;
    } else {
      RunConcat(cfg, Apply(cfg, s, xs[0]), xs[1..], ys);
      TailOfConcat(xs, ys);
    }
  }

  lemma {:induction false} RunOne(cfg: Config, s: State, step: Step)
    requires Enabled(s, step)
    ensures Run(cfg, s, [step]) == Some(Apply(cfg, s, step))
  {
  }

  /** Frames that make the driver emit its first work. */
  function StartUp(): seq<Step> {
    var zeros := seq(32, i => 0);
    [Frame(OpenChannelSuccess(7, zeros), 0)]
    + [Frame(NewMiningJob(Job(1, 0, None, zeros)), 0)]
    + [Frame(SetNewPrevHash(PrevHash(1, zeros, 0, 0)), 0)]
  }

  /** A worker wins the swap, and the driver is interrupted before the share is sent. */
  function Race(): seq<Step> {
    [Spawn] + [Load(0, 0, false)] + [Test(0, 0)] + [Swap(0, 0)] + [Interrupt]
  }

  lemma StartUpEmitsWork()
    ensures Run(EASY, Init(EASY), StartUp()).Some?
    ensures var s := Run(EASY, Init(EASY), StartUp()).value;
            s.driver.Spawning? && s.groups == [] && s.inbox == []
  {
    var zeros := seq(32, i => 0);
    var f1 := Frame(OpenChannelSuccess(7, zeros), 0);
    var f2 := Frame(NewMiningJob(Job(1, 0, None, zeros)), 0);
    var f3 := Frame(SetNewPrevHash(PrevHash(1, zeros, 0, 0)), 0);
    var s1 := Apply(EASY, Init(EASY), f1);
    var s2 := Apply(EASY, s1, f2);
    RunOne(EASY, Init(EASY), f1);
    RunOne(EASY, s1, f2);
    RunOne(EASY, s2, f3);
    RunConcat(EASY, Init(EASY), [f1], [f2]);
    RunConcat(EASY, Init(EASY), [f1] + [f2], [f3]);
  }

  lemma {:induction false} RaceLeavesWinnerPending(s: State)
    requires s.driver.Spawning? && s.groups == [] && s.inbox == []
    ensures Run(EASY, s, Race()).Some?
    ensures var t := Run(EASY, s, Race()).value;
            t.driver.Aborted? && 0 < |t.groups| && t.groups[0].cancel && t.inbox == [] && Enabled(t, Send(0, 0))
  {
    var s1 := Apply(EASY, s, Spawn);
    assert s1.groups[0].workers[0].pc == Loading;
    var s2 := Apply(EASY, s1, Load(0, 0, false));
    var s3 := Apply(EASY, s2, Test(0, 0));
    var s4 := Apply(EASY, s3, Swap(0, 0));
    RunOne(EASY, s, Spawn);
    RunOne(EASY, s1, Load(0, 0, false));
    RunOne(EASY, s2, Test(0, 0));
    RunOne(EASY, s3, Swap(0, 0));
    RunOne(EASY, s4, Interrupt);
    RunConcat(EASY, s, [Spawn], [Load(0, 0, false)]);
    RunConcat(EASY, s, [Spawn] + [Load(0, 0, false)], [Test(0, 0)]);
    RunConcat(EASY, s, [Spawn] + [Load(0, 0, false)] + [Test(0, 0)], [Swap(0, 0)]);
    RunConcat(EASY, s, [Spawn] + [Load(0, 0, false)] + [Test(0, 0)] + [Swap(0, 0)], [Interrupt]);
  }

  /** A run from the start after which the stop has set the flag, and yet a share is still sent. */
  lemma ShareAfterStopHappens()
    ensures Run(EASY, Init(EASY), StartUp() + Race()).Some?
    ensures var s := Run(EASY, Init(EASY), StartUp() + Race()).value;
            s.driver.Aborted? && 0 < |s.groups| && s.groups[0].cancel && s.inbox == [] && Enabled(s, Send(0, 0))
  {
    StartUpEmitsWork();
    RaceLeavesWinnerPending(Run(EASY, Init(EASY), StartUp()).value);
    RunConcat(EASY, Init(EASY), StartUp(), Race());
  }

  // ----- What is submitted -----

  function Origins(tags: seq<Tagged>): set<nat> {
    set t | t in tags :: t.origin
  }

  lemma DistinctOriginsCount(tags: seq<Tagged>)
    requires DistinctOrigins(tags)
    ensures |Origins(tags)| == |tags|
  {
    if tags != [] {
      var last := |tags| - 1;
      DistinctOriginsCount(tags[..last]);
      assert tags == tags[..last] + [tags[last]];
      assert Origins(tags) == Origins(tags[..last]) + {tags[last].origin};
    }
  }

  lemma BoundedSet(xs: set<nat>, n: nat)
    requires forall x :: x in xs ==> x < n
    ensures |xs| <= n
  {
    if n == 0 {
      assert xs == {};
    } else {
      BoundedSet(xs - {n - 1}, n - 1);
      assert xs <= xs - {n - 1} + {n - 1};
    }
  }

  /**
   * A share that the protocol accounts for: it names the latest channel and job
   * of some prefix of the frames, the header of that job, of the latest prev-hash
   * and of the share's pair meets the target of the mode, and no earlier pair on
   * the track of some worker does.
   */
  ghost predicate Justified(cfg: Config, log: seq<Stamped>, share: FoundShare) {
    exists n :: 1 <= n <= |log| && JustifiedBy(cfg, log[..n], share)
  }

  ghost predicate JustifiedBy(cfg: Config, log: seq<Stamped>, share: FoundShare) {
    && log != [] && AllPresent(log) && CanStartWork(log[|log| - 1].message)
    && Latest(log, ChannelIn) == Some(share.channelId)
    && share.jobId == LatestPrevHash(log).jobId
    && share.version == LatestJob(log).version
    && Judged(cfg, log, Candidate(share.nonce, share.ntime))
    && exists start: U32, i: nat, k: nat :: FirstJudged(cfg, log, start, i, k, Candidate(share.nonce, share.ntime))
  }

  /** The header with this pair and what the latest messages demand meets the target they demand. */
  ghost predicate Judged(cfg: Config, log: seq<Stamped>, c: Candidate)
    requires AllPresent(log)
  {
    cfg.meets(LatestTarget(cfg.mode, log), LatestHeader(log, c.nonce, c.ntime))
  }

  /** The pair is the first that worker `i` judges so, at its iteration `k`, from the time at which the work starts. */
  ghost predicate FirstJudged(cfg: Config, log: seq<Stamped>, start: U32, i: nat, k: nat, c: Candidate)
    requires log != [] && AllPresent(log)
  {
    && StartsAt(start, log[|log| - 1].clock, LatestPrevHash(log).minNtime)
    && i < WorkerCount(cfg)
    && c == PairAt(start, Position(i, WorkerCount(cfg), k))
    && forall j: nat :: j < k ==> !Judged(cfg, log, PairAt(start, Position(i, WorkerCount(cfg), j)))
  }

  /** What a share of a work says in terms of the messages that made the driver emit the work. */
  lemma EmittedIsJustified(cfg: Config, log: seq<Stamped>, group: Group, share: FoundShare)
    requires log != [] && LastOutcome(cfg.mode, log) == NewWork(group.work) && ShareOk(cfg, group, share)
    ensures JustifiedBy(cfg, log, share)
  {
    var work, c := group.work, Candidate(share.nonce, share.ntime);
    EmittedWorkIsLatest(cfg.mode, log);
    var i :| 0 <= i < WorkerCount(cfg) && Reached(cfg.meets, work, WorkerCount(cfg), i, c);
    var k: nat :| c == Track(work, WorkerCount(cfg), i, k) && MissesBefore(cfg.meets, work, WorkerCount(cfg), i, k);
    JudgedByLatest(cfg.mode, log, work, cfg.meets, c);
    forall j: nat | j < k
      ensures !Judged(cfg, log, PairAt(work.ntime, Position(i, WorkerCount(cfg), j)))
    {
      JudgedByLatest(cfg.mode, log, work, cfg.meets, Track(work, WorkerCount(cfg), i, j));
    }
    assert FirstJudged(cfg, log, work.ntime, i, k, c);
  }

  lemma SentIsJustified(cfg: Config, s: State, t: Tagged)
    requires Inv(cfg, s) && SentOk(cfg, s, t)
    ensures Justified(cfg, s.log, t.share)
  {
    var group := s.groups[t.origin];
    assert EmittedFrom(cfg, s.log, group);
    EmittedIsJustified(cfg, s.log[..group.emittedAt], group, t.share);
    assert JustifiedBy(cfg, s.log[..group.emittedAt], t.share);
  }

  lemma SentAreFew(cfg: Config, s: State)
    requires Inv(cfg, s)
    ensures |Sent(s)| <= |s.groups|
  {
    DistinctOriginsCount(Sent(s));
    forall x | x in Origins(Sent(s))
      ensures x < |s.groups|
    {
      var t :| t in Sent(s) && t.origin == x;
      assert SentOk(cfg, s, t);
    }
    BoundedSet(Origins(Sent(s)), |s.groups|);
  }

  lemma SubmittedAreSafe(cfg: Config, s: State)
    requires Inv(cfg, s)
    ensures DistinctOrigins(s.submitted)
    ensures forall n :: 0 <= n < |s.submitted| ==> Justified(cfg, s.log, s.submitted[n].share)
  {
    assert forall n :: 0 <= n < |s.submitted| ==> Sent(s)[n] == s.submitted[n];
    forall n | 0 <= n < |s.submitted|
      ensures Justified(cfg, s.log, s.submitted[n].share)
    {
      SentIsJustified(cfg, s, Sent(s)[n]);
    }
  }

  /**
   * Over every run: shares submitted never exceed the works emitted and come
   * from different works, they are numbered 1, 2, 3, ... with 32-bit
   * wrap-around, and each is the first hit of a worker on a work the driver was
   * told to do.
   */
  lemma {:induction false} SubmissionsAreSafe(cfg: Config, steps: seq<Step>)
    requires Run(cfg, Init(cfg), steps).Some?
    ensures var s := Run(cfg, Init(cfg), steps).value;
            && |s.submitted| + |s.inbox| <= |s.groups| <= s.newWorks
            && DistinctOrigins(s.submitted)
            && forall n :: 0 <= n < |s.submitted| ==>
                 && s.submitted[n].share.sequenceNumber == (n + 1) % TWO32
                 && Justified(cfg, s.log, s.submitted[n].share)
  {
    InitKeeps(cfg);
    RunKeeps(cfg, Init(cfg), steps);
    SentAreFew(cfg, Run(cfg, Init(cfg), steps).value);
    SubmittedAreSafe(cfg, Run(cfg, Init(cfg), steps).value);
  }

  /**
   * At every moment at most the group the driver holds is uncancelled, so new
   * work never runs beside old work that was not told to stop; and a run that
   * returns has counted exactly `max(1, stop_after_accepted_blocks)` acceptances.
   */
  lemma {:induction false} OneLiveGroupAndExactReturn(cfg: Config, steps: seq<Step>)
    requires Run(cfg, Init(cfg), steps).Some?
    ensures var s := Run(cfg, Init(cfg), steps).value;
            && (forall g, h :: 0 <= g < |s.groups| && 0 <= h < |s.groups| && !s.groups[g].cancel && !s.groups[h].cancel
                               ==> g == h == |s.groups| - 1)
            && (s.driver.Returned? ==> s.driver.accepted == if cfg.stopAfter == 0 then 1 else cfg.stopAfter)
  {
    InitKeeps(cfg);
    RunKeeps(cfg, Init(cfg), steps);
  }
}
