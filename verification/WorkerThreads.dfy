/**
 * Each worker thread of a run does what `MineWorker` does: its reads of the
 * cancel flag, in order, determine how far it has searched.
 */
module WorkerThreads {
  import opened Words
  import opened MiningTypes
  import opened NonceSearch
  import opened MinerState
  import opened MiningProtocol

  /** What one worker's reads of the cancel flag returned, in order. */
  function LoadsOf(steps: seq<Step>, g: nat, i: nat): seq<bool> {
    if steps == [] then []
    else LoadIn(steps[0], g, i) + LoadsOf(steps[1..], g, i)
  }

  function LoadIn(step: Step, g: nat, i: nat): seq<bool> {
    if step.Load? && step.group == g && step.worker == i then [step.seen] else []
  }

  /** How the place in the loop body relates to the reads made and the pairs missed. */
  predicate PcFits(pc: Pc, loads: seq<bool>, misses: nat, hits: bool) {
    match pc
    case Loading => |loads| == misses
    case Testing => |loads| == misses + 1 && !loads[misses]
    case Swapping => |loads| == misses + 1 && !loads[misses] && hits
    case Sending => |loads| == misses + 1 && !loads[misses] && hits
    case Exited => |loads| == misses + 1 && (!loads[misses] ==> hits)
  }

  ghost predicate FollowsAt(cfg: Config, work: MiningWork, i: nat, w: Worker, loads: seq<bool>, misses: nat) {
    && w.at == Track(work, WorkerCount(cfg), i, misses)
    && MissesBefore(cfg.meets, work, WorkerCount(cfg), i, misses)
    && misses <= |loads|
    && (forall j :: 0 <= j < misses ==> !loads[j])
    && PcFits(w.pc, loads, misses, Hits(cfg.meets, work, w.at))
  }

  /** The worker is where its reads of the flag have brought it. */
  ghost predicate Follows(cfg: Config, work: MiningWork, i: nat, w: Worker, loads: seq<bool>) {
    exists misses: nat :: FollowsAt(cfg, work, i, w, loads, misses)
  }

  lemma LoadFollows(cfg: Config, work: MiningWork, i: nat, w: Worker, loads: seq<bool>, seen: bool)
    requires Follows(cfg, work, i, w, loads) && w.pc == Loading
    ensures Follows(cfg, work, i, w.(pc := if seen then Exited else Testing), loads + [seen])
  {
    var misses: nat :| FollowsAt(cfg, work, i, w, loads, misses);
    assert FollowsAt(cfg, work, i, w.(pc := if seen then Exited else Testing), loads + [seen], misses);
  }

  lemma TestFollows(cfg: Config, work: MiningWork, i: nat, w: Worker, loads: seq<bool>)
    requires Follows(cfg, work, i, w, loads) && w.pc == Testing
    ensures var next := if Hits(cfg.meets, work, w.at) then w.(pc := Swapping)
                        else Worker(Loading, Advance(w.at, WorkerCount(cfg)));
            Follows(cfg, work, i, next, loads)
  {
    var misses: nat :| FollowsAt(cfg, work, i, w, loads, misses);
    if Hits(cfg.meets, work, w.at) {
      assert FollowsAt(cfg, work, i, w.(pc := Swapping), loads, misses);
    } else {
      TrackAdvances(work, WorkerCount(cfg), i, misses);
      assert FollowsAt(cfg, work, i, Worker(Loading, Advance(w.at, WorkerCount(cfg))), loads, misses + 1);
    }
  }

  lemma EndFollows(cfg: Config, work: MiningWork, i: nat, w: Worker, loads: seq<bool>, pc: Pc)
    requires Follows(cfg, work, i, w, loads) && w.pc in {Swapping, Sending} && pc in {Sending, Exited}
    ensures Follows(cfg, work, i, w.(pc := pc), loads)
  {
    var misses: nat :| FollowsAt(cfg, work, i, w, loads, misses);
    assert FollowsAt(cfg, work, i, w.(pc := pc), loads, misses);
  }

  lemma FreshFollows(cfg: Config, work: MiningWork, i: U32)
    ensures Follows(cfg, work, i, Worker(Loading, Candidate(i, work.ntime)), [])
  {
    assert FollowsAt(cfg, work, i, Worker(Loading, Candidate(i, work.ntime)), [], 0);
  }

  // ----- Runs -----

  /** Worker `i` of group `g`, if the group has been spawned, is where its reads have brought it. */
  ghost predicate ThreadOk(cfg: Config, s: State, g: nat, i: nat, loads: seq<bool>) {
    if g < |s.groups| then
      i < |s.groups[g].workers| ==> Follows(cfg, s.groups[g].work, i, s.groups[g].workers[i], loads)
    else loads == []
  }

  /** The step is one of the worker itself. */
  predicate IsOwnStep(step: Step, g: nat, i: nat) {
    (step.Load? || step.Test? || step.Swap? || step.Send?) && step.group == g && step.worker == i
  }

  lemma OwnStepFollows(cfg: Config, s: State, step: Step, g: nat, i: nat, loads: seq<bool>)
    requires Enabled(s, step) && IsOwnStep(step, g, i) && ThreadOk(cfg, s, g, i, loads)
    ensures ThreadOk(cfg, Apply(cfg, s, step), g, i, loads + LoadIn(step, g, i))
  {
    var work, w := s.groups[g].work, s.groups[g].workers[i];
    assert loads + [] == loads;
    match step
    case Load(_, _, seen) => LoadFollows(cfg, work, i, w, loads, seen);
    case Test(_, _) => TestFollows(cfg, work, i, w, loads);
    case Swap(_, _) => EndFollows(cfg, work, i, w, loads, if s.groups[g].cancel then Exited else Sending);
    case Send(_, _) => EndFollows(cfg, work, i, w, loads, Exited);
  }

  /** Any other step leaves a spawned worker and its work alone. */
  lemma OtherStepLeaves(cfg: Config, s: State, step: Step, g: nat, i: nat)
    requires Enabled(s, step) && !IsOwnStep(step, g, i) && g < |s.groups|
    ensures var t := Apply(cfg, s, step);
            && g < |t.groups| && t.groups[g].work == s.groups[g].work
            && |t.groups[g].workers| == |s.groups[g].workers|
            && (i < |s.groups[g].workers| ==> t.groups[g].workers[i] == s.groups[g].workers[i])
  {
  }

  lemma SpawnFollows(cfg: Config, s: State, step: Step, g: nat, i: nat)
    requires Enabled(s, step) && g >= |s.groups|
    ensures LoadIn(step, g, i) == []
    ensures ThreadOk(cfg, Apply(cfg, s, step), g, i, [])
  {
    if step.Spawn? && g == |s.groups| && i < WorkerCount(cfg) {
      FreshFollows(cfg, s.driver.work, i);
    }
  }

  lemma StepFollows(cfg: Config, s: State, step: Step, g: nat, i: nat, loads: seq<bool>)
    requires Enabled(s, step) && ThreadOk(cfg, s, g, i, loads)
    ensures ThreadOk(cfg, Apply(cfg, s, step), g, i, loads + LoadIn(step, g, i))
  {
    if IsOwnStep(step, g, i) {
      OwnStepFollows(cfg, s, step, g, i, loads);
    } else if g < |s.groups| {
      OtherStepLeaves(cfg, s, step, g, i);
      assert loads + LoadIn(step, g, i) == loads;
    } else {
      SpawnFollows(cfg, s, step, g, i);
    }
  }

  lemma {:induction false} LoadsUnfold(loads: seq<bool>, steps: seq<Step>, g: nat, i: nat)
    requires steps != []
    ensures loads + LoadsOf(steps, g, i) == loads + LoadIn(steps[0], g, i) + LoadsOf(steps[1..], g, i)
  {
  }

  lemma {:induction false} RunFollows(cfg: Config, s: State, steps: seq<Step>, g: nat, i: nat, loads: seq<bool>)
    requires ThreadOk(cfg, s, g, i, loads) && Run(cfg, s, steps).Some?
    ensures ThreadOk(cfg, Run(cfg, s, steps).value, g, i, loads + LoadsOf(steps, g, i))
    decreases |steps|
  {
    if steps == [] {
      assert loads + [] == loads;
    } else {
      StepFollows(cfg, s, steps[0], g, i, loads);
      RunFollows(cfg, Apply(cfg, s, steps[0]), steps[1..], g, i, loads + LoadIn(steps[0], g, i));
      LoadsUnfold(loads, steps, g, i);
    }
  }

  /** Whether the worker has found a pair that meets the target. */
  predicate HasHit(w: Worker, loads: seq<bool>) {
    w.pc in {Swapping, Sending} || (w.pc == Exited && loads != [] && !loads[|loads| - 1])
  }

  /** The worker has done what `MineWorker` does on the same reads, and holds the same pair. */
  ghost predicate RanMethod(cfg: Config, work: MiningWork, i: nat, w: Worker, loads: seq<bool>) {
    exists misses: nat ::
      && MinedTo(cfg.meets, work, WorkerCount(cfg), i, loads, misses, HasHit(w, loads))
      && w.at == Track(work, WorkerCount(cfg), i, misses)
  }

  lemma FollowsMethod(cfg: Config, work: MiningWork, i: nat, w: Worker, loads: seq<bool>)
    requires Follows(cfg, work, i, w, loads) && w.pc != Testing
    ensures RanMethod(cfg, work, i, w, loads)
  {
    var misses: nat :| FollowsAt(cfg, work, i, w, loads, misses);
    assert MinedTo(cfg.meets, work, WorkerCount(cfg), i, loads, misses, HasHit(w, loads));
  }

  /**
   * In every run, a worker that is not in the middle of a test has done what
   * `MineWorker` does on the same reads of the flag: as many misses, a hit in the
   * same case, and it holds the same pair, which is the one it sends.
   */
  lemma {:induction false} WorkersRunTheMethod(cfg: Config, steps: seq<Step>, s: State, g: nat, i: nat)
    requires Run(cfg, Init(cfg), steps) == Some(s)
    requires g < |s.groups| && i < |s.groups[g].workers| && s.groups[g].workers[i].pc != Testing
    ensures RanMethod(cfg, s.groups[g].work, i, s.groups[g].workers[i], LoadsOf(steps, g, i))
  {
    var loads := LoadsOf(steps, g, i);
    RunFollows(cfg, Init(cfg), steps, g, i, []);
    assert [] + loads == loads;
    FollowsMethod(cfg, s.groups[g].work, i, s.groups[g].workers[i], loads);
  }

  // ----- An exhausted search -----

  /** How many pairs a worker has missed: each read that was followed by a completed test. */
  function MissesOf(w: Worker, loads: seq<bool>): nat {
    if w.pc == Loading || loads == [] then |loads| else |loads| - 1
  }

  /** Worker `i` has missed its whole share of the search space. */
  ghost predicate HasFinished(cfg: Config, group: Group, i: nat, loads: seq<bool>) {
    i < |group.workers| && Position(i, WorkerCount(cfg), MissesOf(group.workers[i], loads)) >= TWO64
  }

  lemma {:induction false} PositionGrows(index: nat, count: U32, k: nat, l: nat)
    requires k <= l
    ensures Position(index, count, k) <= Position(index, count, l)
    decreases l
  {
    if k < l {
      PositionGrows(index, count, k, l - 1);
    }
  }

  lemma {:induction false} FinishedMissed(cfg: Config, work: MiningWork, i: nat, w: Worker, loads: seq<bool>, k: nat)
    requires Follows(cfg, work, i, w, loads)
    requires Position(i, WorkerCount(cfg), MissesOf(w, loads)) >= TWO64 && Position(i, WorkerCount(cfg), k) < TWO64
    ensures !Hits(cfg.meets, work, Track(work, WorkerCount(cfg), i, k))
  {
    var misses: nat :| FollowsAt(cfg, work, i, w, loads, misses);
    if k >= misses {
      PositionGrows(i, WorkerCount(cfg), misses, k);
    }
  }

  lemma {:induction false} FinishedMissedAll(cfg: Config, steps: seq<Step>, s: State, g: nat, c: Candidate)
    requires Run(cfg, Init(cfg), steps) == Some(s) && g < |s.groups|
    requires forall i: nat :: i < WorkerCount(cfg) ==> HasFinished(cfg, s.groups[g], i, LoadsOf(steps, g, i))
    ensures !Hits(cfg.meets, s.groups[g].work, c)
  {
    var work := s.groups[g].work;
    var i, k := SomeWorkerTests(work.ntime, WorkerCount(cfg), c);
    NthIsAtPosition(work.ntime, WorkerCount(cfg), i, k);
    assert HasFinished(cfg, s.groups[g], i, LoadsOf(steps, g, i));
    RunFollows(cfg, Init(cfg), steps, g, i, []);
    assert [] + LoadsOf(steps, g, i) == LoadsOf(steps, g, i);
    FinishedMissed(cfg, work, i, s.groups[g].workers[i], LoadsOf(steps, g, i), k);
  }

  /**
   * The workers of a group search together: in every run, once each of them has
   * gone through its share of the 2^64 pairs without a hit, there is no nonce and
   * time at all with which the header that the latest messages demanded when the
   * work was emitted meets the target they demanded.
   */
  lemma {:induction false} FullSearchFindsEverything(cfg: Config, steps: seq<Step>, s: State, g: nat, c: Candidate)
    requires Run(cfg, Init(cfg), steps) == Some(s) && g < |s.groups|
    requires forall i: nat :: i < WorkerCount(cfg) ==> HasFinished(cfg, s.groups[g], i, LoadsOf(steps, g, i))
    ensures s.groups[g].emittedAt <= |s.log| && AllPresent(s.log[..s.groups[g].emittedAt])
    ensures var log := s.log[..s.groups[g].emittedAt];
            !cfg.meets(LatestTarget(cfg.mode, log), LatestHeader(log, c.nonce, c.ntime))
  {
    var group := s.groups[g];
    InitKeeps(cfg);
    RunKeeps(cfg, Init(cfg), steps);
    assert EmittedFrom(cfg, s.log, group);
    var log := s.log[..group.emittedAt];
    EmittedWorkIsLatest(cfg.mode, log);
    JudgedByLatest(cfg.mode, log, group.work, cfg.meets, c);
    FinishedMissedAll(cfg, steps, s, g, c);
  }
}
