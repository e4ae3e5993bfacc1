// Stop completes: from the moment the gate is shut every run is short, and none can halt before stop
// returns.
module RuntimeProgress {
  import opened EdgeRuntime
  import opened RuntimeLifecycle
  import opened RuntimeAccounting
  import opened RuntimeTheorems
  import opened Counting
  import opened Domain

  // ----- What is left to do -------------------------------------------------------------------------------

  function ControlRank(c: ControlPhase): nat {
    match c
    case Unborn => 0
    case Exited => 0
    case Waiting => 1
    case Releasing(_) => 2
    case Recorded(_, _) => 3
    case Handled(_, _) => 4
    case Popped(_) => 5
  }

  // Steps left to the callers inside publish; a push hands five more to the control loop.
  function CallWork(s: State): nat {
    8 * N(s, Entering) + 7 * N(s, Offering) + 2 * N(s, Rejected) + N(s, Discarding) + N(s, Succeeding)
  }

  function LoopWork(s: State): nat { 5 * |s.queue.items| + ControlRank(s.control) }

  function StopWork(life: Life): nat {
    8 - StopRank(life.stop) + if life.sensor == SensorDone then 0 else 1
  }

  function Remaining(s: State): nat { CallWork(s) + LoopWork(s) + StopWork(s.life) }

  predicate GateShutFor(s: State) { StopRank(s.life.stop) >= 2 }

  // A call that is turned away at the gate.
  predicate Bounces(step: Step) { step.PublishBy? && step.publish.Enter? }

  function CallRank(p: PublishPhase): nat {
    match p
    case Idle => 0
    case Dropping(_, _) => 1
    case Accepted(_) => 1
    case Refused(_, _, _) => 2
    case Holding(_, _) => 7
    case Admitted(_) => 8
  }

  lemma CallWorkStep(s: State, t: Thread, p: PublishStep)
    requires PublishEnabled(s, t, p)
    ensures var s' := DoPublish(s, t, p);
            CallWork(s') == CallWork(s) - CallRank(s.publishers[t].phase) + CallRank(s'.publishers[t].phase)
  {
    CallersStep(s, t, p, Entering);
    CallersStep(s, t, p, Offering);
    CallersStep(s, t, p, Rejected);
    CallersStep(s, t, p, Discarding);
    CallersStep(s, t, p, Succeeding);
    RankByPlace(s.publishers[t]);
    RankByPlace(DoPublish(s, t, p).publishers[t]);
  }

  lemma RankByPlace(p: Publisher)
    ensures CallRank(p.phase) == 8 * One(At(p, Entering)) + 7 * One(At(p, Offering)) + 2 * One(At(p, Rejected))
                                 + One(At(p, Discarding)) + One(At(p, Succeeding))
  {
  }

  // Any step inside publish, with what it adds to the queue, leaves less to do.
  lemma InnerStepSpends(s: State, t: Thread, p: PublishStep)
    requires PublishEnabled(s, t, p) && !p.Enter?
    ensures var s' := DoPublish(s, t, p);
            s'.life == s.life && s'.control == s.control
            && CallRank(s'.publishers[t].phase) + 5 * |s'.queue.items|
               < CallRank(s.publishers[t].phase) + 5 * |s.queue.items|
  {
  }

  lemma BounceChangesNothing(s: State, t: Thread, p: PublishStep)
    requires PublishEnabled(s, t, p) && p.Enter? && !s.life.accepting
    ensures var s' := DoPublish(s, t, p);
            s'.life == s.life && s'.control == s.control && s'.queue == s.queue
            && CallRank(s'.publishers[t].phase) == CallRank(s.publishers[t].phase)
  {
  }

  lemma LoopStepSpends(s: State, c: ControlStep)
    requires ControlEnabled(s, c)
    ensures var s' := DoControl(s, c);
            s'.life == s.life && s'.publishers == s.publishers && LoopWork(s') < LoopWork(s)
  {
  }

  lemma StopStepSpends(s: State, b: StopStep)
    requires StopEnabled(s, b) && GateShutFor(s)
    ensures var s' := DoStop(s, b);
            s'.publishers == s.publishers && s'.queue.items == s.queue.items && s'.control == s.control
            && GateShutFor(s') && StopWork(s'.life) < StopWork(s.life)
  {
  }

  // Once the gate is shut every step but a bounce leaves less to do, and a bounce no more.
  lemma EveryStepSpends(s: State, step: Step)
    requires Lifecycle(s) && GateShutFor(s) && Enabled(s, step)
    ensures var s' := Next(s, step);
            GateShutFor(s') && if Bounces(step) then Remaining(s') == Remaining(s) else Remaining(s') < Remaining(s)
  {
    match step {
      case PublishBy(t, p) =>
        CallWorkStep(s, t, p);
        if p.Enter? {
          BounceChangesNothing(s, t, p);
        } else {
          InnerStepSpends(s, t, p);
        }
      case ControlDoes(c) => LoopStepSpends(s, c);
      case StartDoes(_) =>
      case StopDoes(b) => StopStepSpends(s, b);
      case SensorLeaves =>
    }
  }

  // The steps of a run that are not bounces.
  function Counted(steps: seq<Step>): nat {
    if steps == [] then 0 else (if Bounces(steps[0]) then 0 else 1) + Counted(steps[1..])
  }

  lemma {:induction false} RunsSpend(s: State, steps: seq<Step>)
    requires Lifecycle(s) && GateShutFor(s) && CanRun(s, steps)
    ensures Lifecycle(After(s, steps)) && GateShutFor(After(s, steps))
    ensures Counted(steps) + Remaining(After(s, steps)) <= Remaining(s)
    decreases |steps|
  {
    if steps != [] {
      LifecycleStep(s, steps[0]);
      EveryStepSpends(s, steps[0]);
      RunsSpend(Next(s, steps[0]), steps[1..]);
    }
  }

  // ----- What stop waits for next ------------------------------------------------------------------------------

  // The next step of a call already inside publish.
  function CallStep(p: PublishPhase): PublishStep
    requires !p.Idle?
  {
    match p
    case Admitted(_) => Create
    case Holding(_, _) => FinishPush
    case Refused(_, _, _) => ReleaseRefused
    case Dropping(_, _) => RecordOutcome
    case Accepted(_) => RecordOutcome
  }

  lemma CallStepWorks(s: State, t: Thread)
    requires t in s.publishers && !s.publishers[t].phase.Idle?
    ensures var p := CallStep(s.publishers[t].phase);
            && PublishEnabled(s, t, p) && !p.Enter?
            && CallRank(DoPublish(s, t, p).publishers[t].phase) < CallRank(s.publishers[t].phase)
  {
  }

  // The next step of a control loop whose queue is closed.
  function LoopStep(c: ControlPhase): ControlStep {
    match c
    case Popped(_) => HandleEvent
    case Handled(_, _) => RecordProcessed(0)
    case Recorded(_, _) => RecordTransition
    case Releasing(_) => ReleaseEvent
    case _ => Take
  }

  // Steps of the runtime's own threads: no client takes part and no new sample is published.
  predicate Own(step: Step) {
    match step
    case PublishBy(t, p) => !t.Client? && (p.Enter? ==> t == Stopper)
    case _ => true
  }

  // The step that gets stop nearer to its return.
  function TowardsStop(s: State): Step
    requires Staffed(s)
  {
    var stopper, sensor := s.publishers[Stopper], s.publishers[Sensor];
    match s.life.stop
    case NotStopping => StopDoes(BeginStop)
    case Requesting =>
      if !stopper.phase.Idle? then PublishBy(Stopper, CallStep(stopper.phase))
      else if stopper.returned == [] then PublishBy(Stopper, Enter(ShutdownRequested))
      else StopDoes(ShutGate)
    case GateShut => StopDoes(EndWait)
    case WaitOver => StopDoes(RequestStop)
    case StopRequested =>
      if s.life.sensor == SensorDone then StopDoes(JoinSensor)
      else if sensor.phase.Idle? then SensorLeaves
      else PublishBy(Sensor, CallStep(sensor.phase))
    case SensorJoined => StopDoes(ShutQueue)
    case QueueShut => if s.control == Exited then StopDoes(JoinControl) else ControlDoes(LoopStep(s.control))
    case ControlJoined => StopDoes(ReturnFromStop)
    case StopReturned => StopDoes(ReturnFromStop)
  }

  // With the gate shut and stop not yet returned, some step other than a bounce can be taken.
  lemma NeverStuck(s: State)
    requires Lifecycle(s) && GateShutFor(s) && s.life.stop != StopReturned
    ensures Enabled(s, TowardsStop(s)) && !Bounces(TowardsStop(s)) && Own(TowardsStop(s))
  {
    if s.life.stop == StopRequested && !s.publishers[Sensor].phase.Idle? {
      CallStepWorks(s, Sensor);
    }
  }

  // Nothing but calls bouncing off the gate can happen any more.
  ghost predicate Halted(s: State) {
    forall step :: Enabled(s, step) ==> Bounces(step)
  }

  // Once the gate is shut, no run takes more than Remaining(s) steps besides bouncing calls, and a run
  // that can take no more of them has seen stop return, whatever the schedule.
  lemma StopAlwaysCompletes(s: State)
    requires Reachable(s) && GateShutFor(s)
    ensures forall steps :: CanRun(s, steps) ==> Counted(steps) <= Remaining(s)
    ensures forall steps :: CanRun(s, steps) && Halted(After(s, steps)) ==> After(s, steps).life.stop == StopReturned
  {
    ReachableLifecycle(s);
    forall steps | CanRun(s, steps)
      ensures Counted(steps) <= Remaining(s)
      ensures Halted(After(s, steps)) ==> After(s, steps).life.stop == StopReturned
    {
      RunsSpend(s, steps);
      if After(s, steps).life.stop != StopReturned {
        NeverStuck(After(s, steps));
      }
    }
  }

  // ----- stop can complete from its first step -----------------------------------------------------------------

  // What is left of stop's own request.
  function AskingWork(s: State): nat
    requires Stopper in s.publishers
  {
    var stopper := s.publishers[Stopper];
    if s.life.stop != Requesting then 0
    else if stopper.phase.Idle? && stopper.returned == [] then 10
    else 1 + CallRank(stopper.phase)
  }

  lemma AskingStep(s: State)
    requires Lifecycle(s) && s.life.stop == Requesting
    ensures var step := TowardsStop(s);
            && Own(step) && Enabled(s, step)
            && Stopper in Next(s, step).publishers && AskingWork(Next(s, step)) < AskingWork(s)
  {
    var stopper := s.publishers[Stopper];
    if !stopper.phase.Idle? {
      var p := CallStep(stopper.phase);
      CallStepWorks(s, Stopper);
      PublishEffect(s, Stopper, p);
      PublisherEffect(s, Stopper, p);
    }
  }

  // From every state in which stop has begun, the runtime's own threads alone can bring it to its return.
  lemma {:induction false} StopCanComplete(s: State) returns (steps: seq<Step>)
    requires Lifecycle(s) && s.life.stop != NotStopping
    ensures CanRun(s, steps) && After(s, steps).life.stop == StopReturned
    ensures forall i :: 0 <= i < |steps| ==> Own(steps[i])
    decreases AskingWork(s), Remaining(s)
  {
    if s.life.stop == StopReturned {
      steps := [];
    } else {
      var step := TowardsStop(s);
      StopStepWorks(s);
      var rest := StopCanComplete(Next(s, step));
      steps := [step] + rest;
      StepThen(s, step, rest);
    }
  }

  lemma StepThen(s: State, step: Step, rest: seq<Step>)
    requires Enabled(s, step) && CanRun(Next(s, step), rest)
    ensures CanRun(s, [step] + rest) && After(s, [step] + rest) == After(Next(s, step), rest)
  {
    assert ([step] + rest)[1..] == rest;
  }

  lemma StopStepWorks(s: State)
    requires Lifecycle(s) && s.life.stop != NotStopping && s.life.stop != StopReturned
    ensures var step := TowardsStop(s);
            && Own(step) && Enabled(s, step)
            && var s' := Next(s, step);
               && Lifecycle(s') && s'.life.stop != NotStopping
               && (AskingWork(s') < AskingWork(s) || (AskingWork(s') == AskingWork(s) && Remaining(s') < Remaining(s)))
  {
    if s.life.stop == Requesting {
      AskingStep(s);
      AskedStaysBegun(s, TowardsStop(s));
    } else {
      NeverStuck(s);
      EveryStepSpends(s, TowardsStop(s));
    }
    LifecycleStep(s, TowardsStop(s));
  }

  lemma AskedStaysBegun(s: State, step: Step)
    requires Enabled(s, step) && s.life.stop != NotStopping
    ensures Next(s, step).life.stop != NotStopping
  {
    if step.PublishBy? {
      PublishEffect(s, step.thread, step.publish);
    }
  }
}
