/**
 * What a whole run of the protocol amounts to, read off its steps: the frames
 * handled, the works started, the acceptances counted, and for every group of
 * worker threads exactly why its cancel flag is set.
 */
module MiningDriver {
  import opened Words
  import opened MiningTypes
  import opened MinerState
  import opened MiningProtocol

  // ----- What the steps of a run say -----

  /** The frames handled, in order. */
  function FramesIn(steps: seq<Step>): seq<Stamped> {
    if steps == [] then []
    else
      var last := steps[|steps| - 1];
      FramesIn(steps[..|steps| - 1]) + if last.Frame? then [Stamped(last.message, last.clock)] else []
  }

  /** How many acceptances the pool has announced. */
  function AcceptancesIn(log: seq<Stamped>): nat {
    if log == [] then 0
    else AcceptancesIn(log[..|log| - 1]) + if log[|log| - 1].message.SubmitSharesSuccess? then 1 else 0
  }

  /** Some worker of the group has swapped its flag. */
  ghost predicate Swapped(steps: seq<Step>, g: nat) {
    exists n :: 0 <= n < |steps| && steps[n].Swap? && steps[n].group == g
  }

  ghost predicate Interrupted(steps: seq<Step>) {
    exists n :: 0 <= n < |steps| && steps[n].Interrupt?
  }

  /** The works of the groups, and the one about to be spawned. */
  function WorksOf(s: State): seq<MiningWork> {
    seq(|s.groups|, g requires 0 <= g < |s.groups| => s.groups[g].work)
    + if s.driver.Spawning? then [s.driver.work] else []
  }

  /** How many acceptances the driver waits for. */
  function Goal(cfg: Config): nat {
    if cfg.stopAfter == 0 then 1 else cfg.stopAfter
  }

  // ----- What a run keeps -----

  ghost predicate FollowsFrames(cfg: Config, steps: seq<Step>, s: State) {
    && s.log == FramesIn(steps)
    && WorksOf(s) == WorksIn(cfg.mode, s.log)
    && s.newWorks == |WorksOf(s)|
    && s.accepted == AcceptancesIn(s.log)
    && (if s.driver.Returned? then s.driver.accepted == s.accepted == Goal(cfg) else s.accepted < Goal(cfg))
  }

  /** Why the flag of a group is set. */
  ghost predicate IsStopped(steps: seq<Step>, s: State, g: nat) {
    || Swapped(steps, g)
    || g + 1 < |s.groups| || s.driver.Spawning?
    || s.driver.Returned?
    || Interrupted(steps)
  }

  ghost predicate FlagsFollow(steps: seq<Step>, s: State) {
    && (forall g: nat :: g < |s.groups| ==> (s.groups[g].cancel <==> IsStopped(steps, s, g)))
    && (forall g: nat :: Swapped(steps, g) ==> g < |s.groups|)
    && (Interrupted(steps) ==> s.driver.Aborted?)
    && (s.driver.Selecting? && s.groups != [] ==> s.current == Some(|s.groups| - 1))
  }

  lemma SwappedSnoc(steps: seq<Step>, step: Step, g: nat)
    ensures Swapped(steps + [step], g) <==> Swapped(steps, g) || (step.Swap? && step.group == g)
  {
    var all := steps + [step];
    assert all[|steps|] == step;
    assert forall n :: 0 <= n < |steps| ==> all[n] == steps[n];
  }

  lemma InterruptedSnoc(steps: seq<Step>, step: Step)
    ensures Interrupted(steps + [step]) <==> Interrupted(steps) || step.Interrupt?
  {
    var all := steps + [step];
    assert all[|steps|] == step;
    assert forall n :: 0 <= n < |steps| ==> all[n] == steps[n];
  }

  lemma {:induction false} FramesSnoc(steps: seq<Step>, step: Step)
    ensures FramesIn(steps + [step])
            == FramesIn(steps) + if step.Frame? then [Stamped(step.message, step.clock)] else []
  {
    assert (steps + [step])[..|steps + [step]| - 1] == steps;
  }

  lemma {:induction false} WorksSnoc(mode: ShareMode, log: seq<Stamped>, last: Stamped)
    ensures var outcome := LastOutcome(mode, log + [last]);
            WorksIn(mode, log + [last]) == WorksIn(mode, log) + if outcome.NewWork? then [outcome.work] else []
    ensures AcceptancesIn(log + [last]) == AcceptancesIn(log) + if last.message.SubmitSharesSuccess? then 1 else 0
  {
    assert (log + [last])[..|log + [last]| - 1] == log;
  }

  // ----- Works and acceptances -----

  lemma SameWorks(s: State, t: State)
    requires |t.groups| == |s.groups| && t.driver.Spawning? == s.driver.Spawning?
    requires forall g :: 0 <= g < |s.groups| ==> t.groups[g].work == s.groups[g].work
    requires s.driver.Spawning? ==> t.driver.work == s.driver.work
    ensures WorksOf(t) == WorksOf(s)
  {
  }

  /** What the driver does with a frame, apart from flags. */
  lemma FrameMoves(cfg: Config, s: State, m: Message, clock: U32)
    requires s.driver.Selecting?
    ensures var t := AfterFrame(cfg, s, m, clock);
            var outcome := OutcomeOf(AfterMessage(s.view, m), m, clock);
            && t.log == s.log + [Stamped(m, clock)]
            && WorksOf(t) == WorksOf(s) + (if outcome.NewWork? then [outcome.work] else [])
            && t.newWorks == s.newWorks + (if outcome.NewWork? then 1 else 0)
            && t.accepted == s.accepted + (if outcome.AcceptedShare? then 1 else 0)
            && (if outcome.AcceptedShare? && t.accepted >= cfg.stopAfter then t.driver == Returned(t.accepted)
                else !t.driver.Returned?)
  {
    assert |StopCurrent(s).groups| == |s.groups|;
  }

  lemma AcceptedIffSuccess(v: View, m: Message, clock: U32)
    ensures OutcomeOf(v, m, clock).AcceptedShare? <==> m.SubmitSharesSuccess?
  {
  }

  lemma FrameFollows(cfg: Config, steps: seq<Step>, s: State, m: Message, clock: U32)
    requires LogOk(cfg, s) && FollowsFrames(cfg, steps, s) && s.driver.Selecting?
    ensures FollowsFrames(cfg, steps + [Frame(m, clock)], AfterFrame(cfg, s, m, clock))
  {
    FramesSnoc(steps, Frame(m, clock));
    WorksSnoc(cfg.mode, s.log, Stamped(m, clock));
    LogGrows(cfg, s, m, clock);
    FrameMoves(cfg, s, m, clock);
    AcceptedIffSuccess(AfterMessage(s.view, m), m, clock);
  }

  lemma SpawnFollows(cfg: Config, steps: seq<Step>, s: State)
    requires FollowsFrames(cfg, steps, s) && s.driver.Spawning?
    ensures FollowsFrames(cfg, steps + [Spawn], Apply(cfg, s, Spawn))
  {
    FramesSnoc(steps, Spawn);
    assert WorksOf(Apply(cfg, s, Spawn)) == WorksOf(s);
  }

  lemma OtherStepFollows(cfg: Config, steps: seq<Step>, s: State, step: Step)
    requires FollowsFrames(cfg, steps, s) && Enabled(s, step) && !step.Frame? && !step.Spawn?
    ensures FollowsFrames(cfg, steps + [step], Apply(cfg, s, step))
  {
    FramesSnoc(steps, step);
    SameWorks(s, Apply(cfg, s, step));
  }

  lemma StepFollowsFrames(cfg: Config, steps: seq<Step>, s: State, step: Step)
    requires Inv(cfg, s) && FollowsFrames(cfg, steps, s) && Enabled(s, step)
    ensures FollowsFrames(cfg, steps + [step], Apply(cfg, s, step))
  {
    match step
    case Frame(m, clock) => FrameFollows(cfg, steps, s, m, clock);
    case Spawn => SpawnFollows(cfg, steps, s);
    case _ => OtherStepFollows(cfg, steps, s, step);
  }

  // ----- Flags -----

  /** Stopping sets the flag of the newest group and of no other. */
  lemma StopFlags(s: State)
    requires s.driver.Selecting? && (s.groups != [] ==> s.current == Some(|s.groups| - 1)) && CurrentOk(s)
    ensures var t := StopCurrent(s);
            && |t.groups| == |s.groups| && t.current.None?
            && forall g :: 0 <= g < |s.groups| ==> t.groups[g] == s.groups[g].(cancel := true)
  {
  }

  lemma StopFollows(steps: seq<Step>, s: State, step: Step, t: State)
    requires FlagsFollow(steps, s) && s.driver.Selecting? && !step.Swap?
    requires |t.groups| == |s.groups| && forall g :: 0 <= g < |s.groups| ==> t.groups[g].cancel
    requires t.driver.Spawning? || t.driver.Returned? || (step.Interrupt? && t.driver.Aborted?)
    requires step.Interrupt? ==> t.driver.Aborted?
    ensures FlagsFollow(steps + [step], t)
  {
    InterruptedSnoc(steps, step);
    forall g: nat
      ensures Swapped(steps + [step], g) <==> Swapped(steps, g)
    {
      SwappedSnoc(steps, step, g);
    }
  }

  /** A step that stops nothing leaves the flags alone. */
  lemma QuietFollows(steps: seq<Step>, s: State, step: Step, t: State)
    requires FlagsFollow(steps, s) && !step.Swap? && !step.Interrupt?
    requires |t.groups| == |s.groups| && t.current == s.current
    requires forall g :: 0 <= g < |s.groups| ==> t.groups[g].cancel == s.groups[g].cancel
    requires t.driver == s.driver || (s.driver.Selecting? && t.driver.Aborted?)
    ensures FlagsFollow(steps + [step], t)
  {
    InterruptedSnoc(steps, step);
    forall g: nat
      ensures Swapped(steps + [step], g) <==> Swapped(steps, g)
    {
      SwappedSnoc(steps, step, g);
    }
  }

  lemma SwapFollows(cfg: Config, steps: seq<Step>, s: State, g: nat, i: nat)
    requires FlagsFollow(steps, s) && Enabled(s, Swap(g, i))
    ensures FlagsFollow(steps + [Swap(g, i)], Apply(cfg, s, Swap(g, i)))
  {
    InterruptedSnoc(steps, Swap(g, i));
    forall h: nat
      ensures Swapped(steps + [Swap(g, i)], h) <==> Swapped(steps, h) || h == g
    {
      SwappedSnoc(steps, Swap(g, i), h);
    }
  }

  lemma SpawnFlags(cfg: Config, steps: seq<Step>, s: State)
    requires FlagsFollow(steps, s) && s.driver.Spawning?
    ensures FlagsFollow(steps + [Spawn], Apply(cfg, s, Spawn))
  {
    InterruptedSnoc(steps, Spawn);
    forall h: nat
      ensures Swapped(steps + [Spawn], h) <==> Swapped(steps, h)
    {
      SwappedSnoc(steps, Spawn, h);
    }
  }

  lemma FrameFlags(cfg: Config, steps: seq<Step>, s: State, m: Message, clock: U32)
    requires CurrentOk(s) && FlagsFollow(steps, s) && s.driver.Selecting?
    ensures FlagsFollow(steps + [Frame(m, clock)], AfterFrame(cfg, s, m, clock))
  {
    var t := AfterFrame(cfg, s, m, clock);
    var heard := s.(view := AfterMessage(s.view, m), log := s.log + [Stamped(m, clock)]);
    if t.driver.Spawning? {
      StopFlags(heard);
      StopFollows(steps, s, Frame(m, clock), t);
    } else if t.driver.Returned? {
      StopFlags(heard.(accepted := heard.accepted + 1));
      StopFollows(steps, s, Frame(m, clock), t);
    } else {
      QuietFollows(steps, s, Frame(m, clock), t);
    }
  }

  lemma StepFlags(cfg: Config, steps: seq<Step>, s: State, step: Step)
    requires CurrentOk(s) && FlagsFollow(steps, s) && Enabled(s, step)
    ensures FlagsFollow(steps + [step], Apply(cfg, s, step))
  {
    match step
    case Interrupt =>
      StopFlags(s);
      StopFollows(steps, s, step, Apply(cfg, s, step));
    case Frame(m, clock) => FrameFlags(cfg, steps, s, m, clock);
    case Spawn => SpawnFlags(cfg, steps, s);
    case Swap(g, i) => SwapFollows(cfg, steps, s, g, i);
    case _ => QuietFollows(steps, s, step, Apply(cfg, s, step));
  }

  // ----- Whole runs -----

  ghost predicate Follows(cfg: Config, steps: seq<Step>, s: State) {
    Inv(cfg, s) && FollowsFrames(cfg, steps, s) && FlagsFollow(steps, s)
  }

  lemma StepFollows(cfg: Config, before: seq<Step>, s: State, step: Step)
    requires Follows(cfg, before, s) && Enabled(s, step)
    ensures Follows(cfg, before + [step], Apply(cfg, s, step))
  {
    StepKeeps(cfg, s, step);
    StepFollowsFrames(cfg, before, s, step);
    StepFlags(cfg, before, s, step);
  }

  lemma HeadMoved(before: seq<Step>, steps: seq<Step>)
    requires steps != []
    ensures before + [steps[0]] + steps[1..] == before + steps
  {
  }

  lemma {:induction false} RunFollows(cfg: Config, before: seq<Step>, s: State, steps: seq<Step>)
    requires Follows(cfg, before, s) && Run(cfg, s, steps).Some?
    ensures Follows(cfg, before + steps, Run(cfg, s, steps).value)
    decreases |steps|
  {
    if steps == [] {
      assert before + steps == before;
    } else {
      StepFollows(cfg, before, s, steps[0]);
      RunFollows(cfg, before + [steps[0]], Apply(cfg, s, steps[0]), steps[1..]);
      HeadMoved(before, steps);
    }
  }

  lemma {:induction false} RunFollowsFromStart(cfg: Config, steps: seq<Step>)
    requires Run(cfg, Init(cfg), steps).Some?
    ensures Follows(cfg, steps, Run(cfg, Init(cfg), steps).value)
  {
    InitKeeps(cfg);
    RunFollows(cfg, [], Init(cfg), steps);
    assert [] + steps == steps;
  }

  /**
   * In every run, the works of the groups spawned and the one about to be are
   * exactly those that the handled frames made the driver emit, in that order;
   * and it returns exactly when the pool has announced as many acceptances as
   * asked for, and at least one.
   */
  lemma {:induction false} WorksAndReturnFollowFrames(cfg: Config, steps: seq<Step>)
    requires Run(cfg, Init(cfg), steps).Some?
    ensures var s := Run(cfg, Init(cfg), steps).value;
            && s.log == FramesIn(steps)
            && WorksOf(s) == WorksIn(cfg.mode, FramesIn(steps))
            && (s.driver.Returned? <==> AcceptancesIn(FramesIn(steps)) >= Goal(cfg))
            && (s.driver.Returned? ==> s.driver.accepted == AcceptancesIn(FramesIn(steps)) == Goal(cfg))
  {
    RunFollowsFromStart(cfg, steps);
  }

  /**
   * In every run, the cancel flag of a group is set exactly when one of its
   * workers has swapped it, newer work was emitted, the driver has returned or
   * was interrupted. So a return, an interrupt and new work each stop every
   * group there is, and nothing else the driver does stops any.
   */
  lemma {:induction false} FlagIsSetIff(cfg: Config, steps: seq<Step>, g: nat)
    requires Run(cfg, Init(cfg), steps).Some? && g < |Run(cfg, Init(cfg), steps).value.groups|
    ensures var s := Run(cfg, Init(cfg), steps).value;
            s.groups[g].cancel <==>
            || Swapped(steps, g)
            || g + 1 < |WorksIn(cfg.mode, FramesIn(steps))|
            || s.driver.Returned?
            || Interrupted(steps)
  {
    RunFollowsFromStart(cfg, steps);
    var s := Run(cfg, Init(cfg), steps).value;
    assert |WorksOf(s)| == |s.groups| + if s.driver.Spawning? then 1 else 0;
  }

  /** No group of threads is left running by a driver that has returned or was interrupted. */
  lemma {:induction false} NothingRunsOn(cfg: Config, steps: seq<Step>)
    requires Run(cfg, Init(cfg), steps).Some?
    requires Run(cfg, Init(cfg), steps).value.driver.Returned? || Interrupted(steps)
    ensures forall g :: 0 <= g < |Run(cfg, Init(cfg), steps).value.groups| ==>
                          Run(cfg, Init(cfg), steps).value.groups[g].cancel
  {
    RunFollowsFromStart(cfg, steps);
  }

  /** In every run each group has one worker for each core, and at least one. */
  lemma {:induction false} GroupsHaveAllWorkers(cfg: Config, steps: seq<Step>, g: nat)
    requires Run(cfg, Init(cfg), steps).Some? && g < |Run(cfg, Init(cfg), steps).value.groups|
    ensures |Run(cfg, Init(cfg), steps).value.groups[g].workers| == if cfg.cores == 0 then 1 else cfg.cores
  {
    InitKeeps(cfg);
    RunKeeps(cfg, Init(cfg), steps);
    assert GroupOk(cfg, Run(cfg, Init(cfg), steps).value.groups[g]);
  }

  // ----- Which frames a run can handle -----

  /** Handling the last of these frames ends the driver: its contents are invalid, or enough is accepted. */
  ghost predicate Ends(cfg: Config, log: seq<Stamped>) {
    (log != [] && LastOutcome(cfg.mode, log).Failed?) || AcceptancesIn(log) >= Goal(cfg)
  }

  /** No frame was handled after one that ends the driver, and a driver that goes on has met none. */
  ghost predicate NotEnded(cfg: Config, s: State) {
    && (forall n :: 0 <= n < |s.log| ==> !Ends(cfg, s.log[..n]))
    && (s.driver.Selecting? || s.driver.Spawning? ==> !Ends(cfg, s.log))
  }

  lemma FrameEnds(cfg: Config, steps: seq<Step>, s: State, m: Message, clock: U32)
    requires Inv(cfg, s) && FollowsFrames(cfg, steps, s) && s.driver.Selecting?
    ensures var t := AfterFrame(cfg, s, m, clock);
            && t.log == s.log + [Stamped(m, clock)]
            && (t.driver.Selecting? || t.driver.Spawning? <==> !Ends(cfg, t.log))
  {
    LogGrows(cfg, s, m, clock);
    FrameFollows(cfg, steps, s, m, clock);
    FrameMoves(cfg, s, m, clock);
    AcceptedIffSuccess(AfterMessage(s.view, m), m, clock);
  }

  lemma FrameKeepsNotEnded(cfg: Config, steps: seq<Step>, s: State, m: Message, clock: U32)
    requires Inv(cfg, s) && FollowsFrames(cfg, steps, s) && NotEnded(cfg, s) && s.driver.Selecting?
    ensures NotEnded(cfg, AfterFrame(cfg, s, m, clock))
  {
    FrameEnds(cfg, steps, s, m, clock);
    var log := AfterFrame(cfg, s, m, clock).log;
    forall n | 0 <= n < |log|
      ensures !Ends(cfg, log[..n])
    {
      assert log[..n] == s.log[..n];
      assert s.log[..|s.log|] == s.log;
    }
  }

  lemma StepKeepsNotEnded(cfg: Config, steps: seq<Step>, s: State, step: Step)
    requires Inv(cfg, s) && FollowsFrames(cfg, steps, s) && NotEnded(cfg, s) && Enabled(s, step)
    ensures NotEnded(cfg, Apply(cfg, s, step))
  {
    if step.Frame? {
      FrameKeepsNotEnded(cfg, steps, s, step.message, step.clock);
    } else {
      assert Apply(cfg, s, step).log == s.log;
    }
  }

  lemma {:induction false} RunKeepsNotEnded(cfg: Config, before: seq<Step>, s: State, steps: seq<Step>)
    requires Follows(cfg, before, s) && NotEnded(cfg, s) && Run(cfg, s, steps).Some?
    ensures NotEnded(cfg, Run(cfg, s, steps).value)
    decreases |steps|
  {
    if steps != [] {
      StepKeepsNotEnded(cfg, before, s, steps[0]);
      StepFollows(cfg, before, s, steps[0]);
      RunKeepsNotEnded(cfg, before + [steps[0]], Apply(cfg, s, steps[0]), steps[1..]);
    }
  }

  ghost predicate HasRun(cfg: Config, log: seq<Stamped>) {
    exists steps :: Run(cfg, Init(cfg), steps).Some? && FramesIn(steps) == log
  }

  lemma BeforeNotEnded(cfg: Config, log: seq<Stamped>)
    requires log != [] && forall n :: 0 <= n < |log| ==> !Ends(cfg, log[..n])
    ensures var before := log[..|log| - 1];
            !Ends(cfg, before) && forall n :: 0 <= n < |before| ==> !Ends(cfg, before[..n])
  {
    var before := log[..|log| - 1];
    assert forall n :: 0 <= n < |before| ==> before[..n] == log[..n];
  }

  /** A run that handles the frames and nothing else, and is ready for the next one unless they end the driver. */
  lemma HandleAll(cfg: Config, log: seq<Stamped>) returns (steps: seq<Step>)
    requires forall n :: 0 <= n < |log| ==> !Ends(cfg, log[..n])
    ensures Run(cfg, Init(cfg), steps).Some? && FramesIn(steps) == log
    ensures !Ends(cfg, log) ==> Run(cfg, Init(cfg), steps).value.driver.Selecting?
  {
    InitKeeps(cfg);
    if log == [] {
      steps := [];
    } else {
      var before, last := log[..|log| - 1], log[|log| - 1];
      BeforeNotEnded(cfg, log);
      steps := HandleAll(cfg, before);
      steps := HandleOne(cfg, steps, before, last);
      assert before + [last] == log;
    }
  }

  /** One more frame, and the spawn that it may ask for. */
  lemma HandleOne(cfg: Config, steps: seq<Step>, log: seq<Stamped>, last: Stamped)
    returns (all: seq<Step>)
    requires Run(cfg, Init(cfg), steps).Some? && FramesIn(steps) == log
    requires Run(cfg, Init(cfg), steps).value.driver.Selecting?
    ensures Run(cfg, Init(cfg), all).Some? && FramesIn(all) == log + [last]
    ensures !Ends(cfg, log + [last]) ==> Run(cfg, Init(cfg), all).value.driver.Selecting?
  {
    var frame := Frame(last.message, last.clock);
    var s := Run(cfg, Init(cfg), steps).value;
    RunFollowsFromStart(cfg, steps);
    FrameEnds(cfg, steps, s, last.message, last.clock);
    RunSnoc(cfg, Init(cfg), steps, frame);
    FramesSnoc(steps, frame);
    all := steps + [frame];
    if Run(cfg, Init(cfg), all).value.driver.Spawning? {
      RunSnoc(cfg, Init(cfg), all, Spawn);
      FramesSnoc(all, Spawn);
      all := all + [Spawn];
    }
  }

  lemma {:induction false} RunSnoc(cfg: Config, s: State, steps: seq<Step>, step: Step)
    requires Run(cfg, s, steps).Some? && Enabled(Run(cfg, s, steps).value, step)
    ensures Run(cfg, s, steps + [step]) == Some(Apply(cfg, Run(cfg, s, steps).value, step))
  {
    RunOne(cfg, Run(cfg, s, steps).value, step);
    RunConcat(cfg, s, steps, [step]);
  }

  /**
   * Exactly which frames a run can handle: any, with any contents and clock
   * readings, as long as none comes after one that ends the driver.
   */
  lemma FramesOfRunsIff(cfg: Config, log: seq<Stamped>)
    ensures HasRun(cfg, log) <==> forall n :: 0 <= n < |log| ==> !Ends(cfg, log[..n])
  {
    if steps :| Run(cfg, Init(cfg), steps).Some? && FramesIn(steps) == log {
      InitKeeps(cfg);
      RunFollowsFromStart(cfg, steps);
      RunKeepsNotEnded(cfg, [], Init(cfg), steps);
    }
    if forall n :: 0 <= n < |log| ==> !Ends(cfg, log[..n]) {
      var steps := HandleAll(cfg, log);
    }
  }

  // ----- What can happen next -----

  /** A worker that has not exited can take the step its place in the loop calls for. */
  ghost predicate CanMove(s: State, g: nat, i: nat)
    requires g < |s.groups| && i < |s.groups[g].workers|
  {
    match s.groups[g].workers[i].pc
    case Loading => Enabled(s, Load(g, i, false)) && (s.groups[g].cancel ==> Enabled(s, Load(g, i, true)))
    case Testing => Enabled(s, Test(g, i))
    case Swapping => Enabled(s, Swap(g, i))
    case Sending => Enabled(s, Send(g, i))
    case Exited => true
  }

  /**
   * No run excludes anything: as long as the driver has not ended, it can go on,
   * and while it selects it can be interrupted or cut off, be given any frame, and
   * have any submission of a waiting share succeed or fail; a group it is asked
   * for can be spawned; and every worker that has not exited can move, whether or
   * not its read of a set flag is stale.
   */
  lemma {:induction false} AnythingCanHappen(cfg: Config, steps: seq<Step>)
    requires Run(cfg, Init(cfg), steps).Some?
    ensures var s := Run(cfg, Init(cfg), steps).value;
            && (!s.driver.Returned? && !s.driver.Aborted? ==> s.driver.Selecting? || Enabled(s, Spawn))
            && (s.driver.Selecting? ==>
                  && Enabled(s, Interrupt) && Enabled(s, Disconnect)
                  && (forall m, clock :: Enabled(s, Frame(m, clock)))
                  && (s.inbox != [] ==> Enabled(s, ReceiveShare(true)) && Enabled(s, ReceiveShare(false))))
            && forall g: nat, i: nat :: g < |s.groups| && i < |s.groups[g].workers| ==> CanMove(s, g, i)
  {
  }

  // ----- A run through every step -----

  /** A worker finds a share, the driver submits it, and the pool accepts it. */
  function Mining(): seq<Step> {
    Finding() + [ReceiveShare(true)] + [Frame(SubmitSharesSuccess, 0)]
  }

  /** The share is on its way after the first five steps. */
  function Finding(): seq<Step> {
    [Spawn] + [Load(0, 0, false)] + [Test(0, 0)] + [Swap(0, 0)] + [Send(0, 0)]
  }

  lemma {:induction false} MiningFinds(s: State)
    requires s.driver.Spawning? && s.groups == [] && s.inbox == []
    ensures Run(EASY, s, Finding()).Some?
    ensures var t := Run(EASY, s, Finding()).value;
            && t.driver.Selecting? && t.submitted == s.submitted && t.accepted == s.accepted
            && |t.inbox| == 1 && t.inbox[0].origin == 0
  {
    var s1 := Apply(EASY, s, Spawn);
    assert s1.groups[0].workers[0].pc == Loading;
    RunOne(EASY, s, Spawn);
    RunSnoc(EASY, s, [Spawn], Load(0, 0, false));
    RunSnoc(EASY, s, [Spawn] + [Load(0, 0, false)], Test(0, 0));
    RunSnoc(EASY, s, [Spawn] + [Load(0, 0, false)] + [Test(0, 0)], Swap(0, 0));
    RunSnoc(EASY, s, [Spawn] + [Load(0, 0, false)] + [Test(0, 0)] + [Swap(0, 0)], Send(0, 0));
  }

  lemma {:induction false} MiningSubmits(s: State)
    requires s.driver.Spawning? && s.groups == [] && s.inbox == [] && s.submitted == [] && s.accepted == 0
    ensures Run(EASY, s, Mining()).Some?
    ensures var t := Run(EASY, s, Mining()).value;
            t.driver == Returned(1) && |t.submitted| == 1 && t.submitted[0].origin == 0
  {
    MiningFinds(s);
    RunSnoc(EASY, s, Finding(), ReceiveShare(true));
    RunSnoc(EASY, s, Finding() + [ReceiveShare(true)], Frame(SubmitSharesSuccess, 0));
  }

  /** A run from the start in which the miner finds, submits and returns with one accepted block. */
  lemma MinesAndReturns()
    ensures Run(EASY, Init(EASY), StartUp() + Mining()).Some?
    ensures var s := Run(EASY, Init(EASY), StartUp() + Mining()).value;
            s.driver == Returned(1) && |s.submitted| == 1 && s.submitted[0].origin == 0
  {
    StartUpEmitsWork();
    MiningSubmits(Run(EASY, Init(EASY), StartUp()).value);
    RunConcat(EASY, Init(EASY), StartUp(), Mining());
  }
}
