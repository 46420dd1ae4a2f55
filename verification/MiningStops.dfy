/**
 * When a share can still be sent after the driver has stopped a group: decided
 * by what the driver can see just before it sets the flag.
 */
module MiningStops {
  import opened Words
  import opened MiningTypes
  import opened MinerState
  import opened MiningProtocol

  /** A worker of the group has won the swap and not sent yet, or its share is on its way. */
  ghost predicate WonBy(s: State, g: nat) {
    (exists i: nat :: HasWorker(s, g, i, Sending)) || g in Origins(Sent(s))
  }

  /** The held group's flag is set only by a worker that won. */
  ghost predicate HeldOk(s: State) {
    s.current.Some? && !s.driver.Aborted? && s.current.value < |s.groups| && s.groups[s.current.value].cancel
    ==> WonBy(s, s.current.value)
  }

  lemma OriginsGrow(tags: seq<Tagged>, more: seq<Tagged>)
    ensures Origins(tags) <= Origins(tags + more)
  {
    assert forall t :: t in tags ==> t in tags + more;
  }

  /** One worker moves on: every winner but itself stays one, and shares on their way stay. */
  lemma OtherWinnersStay(s: State, g: nat, i: nat, after: Group)
    requires g < |s.groups| && i < |s.groups[g].workers| && s.groups[g].workers[i].pc != Sending
    requires |after.workers| == |s.groups[g].workers|
    requires forall j :: 0 <= j < |after.workers| && j != i ==> after.workers[j] == s.groups[g].workers[j]
    ensures forall h: nat :: WonBy(s, h) ==> WonBy(s.(groups := s.groups[g := after]), h)
  {
    var t := s.(groups := s.groups[g := after]);
    assert Sent(t) == Sent(s);
    forall h: nat | WonBy(s, h)
      ensures WonBy(t, h)
    {
      if j: nat :| HasWorker(s, h, j, Sending) {
        assert HasWorker(t, h, j, Sending);
      }
    }
  }

  lemma WorkerStepKeepsHeld(cfg: Config, s: State, step: Step)
    requires Inv(cfg, s) && HeldOk(s) && Enabled(s, step) && (step.Load? || step.Test?)
    ensures HeldOk(Apply(cfg, s, step))
  {
    OtherWinnersStay(s, step.group, step.worker, Apply(cfg, s, step).groups[step.group]);
  }

  lemma SwapKeepsHeld(cfg: Config, s: State, g: nat, i: nat)
    requires Inv(cfg, s) && HeldOk(s) && Enabled(s, Swap(g, i))
    ensures HeldOk(Apply(cfg, s, Swap(g, i)))
  {
    var t := Apply(cfg, s, Swap(g, i));
    OtherWinnersStay(s, g, i, t.groups[g]);
    if !s.groups[g].cancel {
      assert HasWorker(t, g, i, Sending);
    }
  }

  lemma SendKeepsHeld(cfg: Config, s: State, g: nat, i: nat)
    requires Inv(cfg, s) && HeldOk(s) && Enabled(s, Send(g, i))
    ensures HeldOk(Apply(cfg, s, Send(g, i)))
  {
    var t := Apply(cfg, s, Send(g, i));
    var tag := Tagged(g, ShareOf(s.groups[g].work, s.groups[g].workers[i].at));
    assert Sent(t) == Sent(s) + [tag];
    OriginsGrow(Sent(s), [tag]);
    assert tag in Sent(t);
    if s.current.Some? && s.current.value != g {
      var h := s.current.value;
      if j: nat :| HasWorker(s, h, j, Sending) {
        assert HasWorker(t, h, j, Sending);
      }
    }
  }

  lemma ReceivingKeepsOrigins(s: State, g: nat)
    requires s.inbox != [] && g in Origins(Sent(s))
    ensures g in Origins(Sent(AfterReceive(s, true)))
  {
    var t := AfterReceive(s, true);
    ReceivedSent(s, true);
    var tag :| tag in Sent(s) && tag.origin == g;
    var n :| 0 <= n < |Sent(s)| && Sent(s)[n] == tag;
    assert Sent(t)[n] in Sent(t) && Sent(t)[n].origin == g;
  }

  lemma ReceiveKeepsHeld(cfg: Config, s: State, delivered: bool)
    requires HeldOk(s) && Enabled(s, ReceiveShare(delivered))
    ensures HeldOk(Apply(cfg, s, ReceiveShare(delivered)))
  {
    var t := AfterReceive(s, delivered);
    if delivered && s.current.Some? {
      assert forall h: nat, i: nat :: HasWorker(s, h, i, Sending) ==> HasWorker(t, h, i, Sending);
      if s.current.value in Origins(Sent(s)) {
        ReceivingKeepsOrigins(s, s.current.value);
      }
    }
  }

  lemma FrameKeepsHeld(cfg: Config, s: State, m: Message, clock: U32)
    requires Inv(cfg, s) && HeldOk(s) && Enabled(s, Frame(m, clock))
    ensures HeldOk(AfterFrame(cfg, s, m, clock))
  {
    var t := AfterFrame(cfg, s, m, clock);
    if t.current.Some? && !t.driver.Aborted? {
      assert t.groups == s.groups && t.current == s.current && Sent(t) == Sent(s);
      assert forall h: nat, i: nat :: HasWorker(s, h, i, Sending) ==> HasWorker(t, h, i, Sending);
    }
  }

  lemma StepKeepsHeld(cfg: Config, s: State, step: Step)
    requires Inv(cfg, s) && HeldOk(s) && Enabled(s, step)
    ensures HeldOk(Apply(cfg, s, step))
  {
    match step
    case ReceiveShare(delivered) => ReceiveKeepsHeld(cfg, s, delivered);
    case Frame(m, clock) => FrameKeepsHeld(cfg, s, m, clock);
    case Load(_, _, _) => WorkerStepKeepsHeld(cfg, s, step);
    case Test(_, _) => WorkerStepKeepsHeld(cfg, s, step);
    case Swap(g, i) => SwapKeepsHeld(cfg, s, g, i);
    case Send(g, i) => SendKeepsHeld(cfg, s, g, i);
    case _ =>
  }

  lemma {:induction false} RunKeepsHeld(cfg: Config, s: State, steps: seq<Step>)
    requires Inv(cfg, s) && HeldOk(s)
    ensures Run(cfg, s, steps).Some? ==> HeldOk(Run(cfg, s, steps).value)
    decreases |steps|
  {
    if steps != [] && Enabled(s, steps[0]) {
      StepKeeps(cfg, s, steps[0]);
      StepKeepsHeld(cfg, s, steps[0]);
      RunKeepsHeld(cfg, Apply(cfg, s, steps[0]), steps[1..]);
    }
  }

  /** The driver's step stops the group it holds: a new work, the last acceptance, a timeout or an interrupt. */
  ghost predicate Stops(cfg: Config, s: State, step: Step) {
    Enabled(s, step) && s.driver.Selecting? && s.current.Some? && Apply(cfg, s, step).current.None?
  }

  lemma StopCurrentSetsFlag(s: State)
    requires s.current.Some? && s.current.value < |s.groups|
    ensures var g, t := s.current.value, StopCurrent(s);
            g < |t.groups| && t.groups[g] == s.groups[g].(cancel := true)
  {
  }

  lemma FrameStops(cfg: Config, s: State, m: Message, clock: U32)
    requires s.current.Some? && s.current.value < |s.groups|
    requires AfterFrame(cfg, s, m, clock).current.None?
    ensures var g, t := s.current.value, AfterFrame(cfg, s, m, clock);
            g < |t.groups| && t.groups[g] == s.groups[g].(cancel := true)
  {
    var heard := s.(view := AfterMessage(s.view, m), log := s.log + [Stamped(m, clock)]);
    StopCurrentSetsFlag(heard);
    StopCurrentSetsFlag(heard.(accepted := heard.accepted + 1));
  }

  /** A stop sets the flag of the held group and leaves its threads where they are. */
  lemma StopSetsFlag(cfg: Config, s: State, step: Step)
    requires Inv(cfg, s) && Stops(cfg, s, step)
    ensures var g, t := s.current.value, Apply(cfg, s, step);
            g < |t.groups| && t.groups[g] == s.groups[g].(cancel := true)
  {
    match step
    case Interrupt => StopCurrentSetsFlag(s);
    case Frame(m, clock) => FrameStops(cfg, s, m, clock);
    case _ =>
  }

  /**
   * Exactly when a stop lets a share through. For every run that ends with the
   * driver holding group `g`, and every step that stops that group: a share of it
   * can still be sent afterwards if and only if the flag was already set before
   * the stop, by a winning worker, and no share of the group has arrived or been
   * submitted. A stop that finds the flag clear rules out any later share.
   */
  lemma {:induction false} ShareAfterStopIff(cfg: Config, steps: seq<Step>, stop: Step, g: nat)
    requires Run(cfg, Init(cfg), steps).Some?
    requires Stops(cfg, Run(cfg, Init(cfg), steps).value, stop)
    requires Run(cfg, Init(cfg), steps).value.current == Some(g)
    ensures var s := Run(cfg, Init(cfg), steps).value;
            && g < |s.groups|
            && (CanStillSend(cfg, Apply(cfg, s, stop), g) <==> s.groups[g].cancel && g !in Origins(Sent(s)))
  {
    InitKeeps(cfg);
    RunKeeps(cfg, Init(cfg), steps);
    RunKeepsHeld(cfg, Init(cfg), steps);
    var s := Run(cfg, Init(cfg), steps).value;
    StepKeeps(cfg, s, stop);
    StopSetsFlag(cfg, s, stop);
    var t := Apply(cfg, s, stop);
    assert forall i: nat :: HasWorker(t, g, i, Sending) <==> HasWorker(s, g, i, Sending);
    CancelledWorkSendsIffWinnerPending(cfg, t, g);
    WinnerPendingIff(cfg, s, g);
  }

  lemma WinnerPendingIff(cfg: Config, s: State, g: nat)
    requires Inv(cfg, s) && HeldOk(s) && s.driver.Selecting? && s.current == Some(g)
    ensures (exists i: nat :: HasWorker(s, g, i, Sending)) <==> s.groups[g].cancel && g !in Origins(Sent(s))
  {
    assert GroupOk(cfg, s.groups[g]);
    if i: nat :| HasWorker(s, g, i, Sending) {
      forall tag | tag in Sent(s)
        ensures tag.origin != g
      {
        var n :| 0 <= n < |Sent(s)| && Sent(s)[n] == tag;
        assert SentOk(cfg, s, tag);
      }
    }
  }
}
