// How start, stop, the sensor loop and the control loop constrain each other.
module RuntimeLifecycle {
  import opened Domain
  import opened MotorFsm
  import opened EdgeRuntime

  function StartRank(p: StartPhase): nat {
    match p
    case NotStarted => 0
    case Flagged => 1
    case GateOpen => 2
    case MarkedRunning => 3
    case Announcing => 4
    case StartReturned => 5
  }

  function StopRank(p: StopPhase): nat {
    match p
    case NotStopping => 0
    case Requesting => 1
    case GateShut => 2
    case WaitOver => 3
    case StopRequested => 4
    case SensorJoined => 5
    case QueueShut => 6
    case ControlJoined => 7
    case StopReturned => 8
  }

  predicate Staffed(s: State) {
    Starter in s.publishers && Sensor in s.publishers && Stopper in s.publishers
  }

  // The flags and the two long-running loops follow the phases of start and stop.
  predicate Orderly(s: State) {
    && (s.life.started <==> StartRank(s.life.start) >= 1)
    && (s.life.stopped <==> StopRank(s.life.stop) >= 1)
    && (s.life.stopped ==> s.life.start == StartReturned)
    && (s.life.accepting <==> StartRank(s.life.start) >= 2 && StopRank(s.life.stop) <= 1)
    && (s.life.running <==> StartRank(s.life.start) >= 3 && StopRank(s.life.stop) <= 7)
    && (s.control == Unborn <==> StartRank(s.life.start) <= 3)
    && (s.life.sensor == NotSpawned <==> StartRank(s.life.start) <= 4)
    && (StopRank(s.life.stop) >= 5 ==> s.life.sensor == SensorDone)
    && (s.life.sensor == SensorDone ==> StopRank(s.life.stop) >= 4)
    && (s.queue.closed <==> StopRank(s.life.stop) >= 6)
    && (s.control == Exited ==> s.queue.closed && s.queue.items == [])
    && (StopRank(s.life.stop) >= 7 ==> s.control == Exited)
    && |s.queue.items| <= s.queue.capacity
  }

  // The calls that start, the sensor loop and stop make happen when and as often as they should.
  predicate Punctual(s: State) {
    && Staffed(s)
    && var starter, sensor, stopper := s.publishers[Starter], s.publishers[Sensor], s.publishers[Stopper];
    && (StartRank(s.life.start) < 4 ==> starter == Publisher(Idle, []))
    && (s.life.start == Announcing ==> |starter.returned| <= 2 && (starter.phase.Idle? || |starter.returned| < 2))
    && (s.life.start == StartReturned ==> starter.phase.Idle? && |starter.returned| == 2)
    && (s.life.sensor != Sampling ==> sensor.phase.Idle?)
    && (!sensor.phase.Idle? ==> sensor.phase.event.Sample?)
    && (s.life.stop == NotStopping ==> stopper == Publisher(Idle, []))
    && (s.life.stop == Requesting ==> |stopper.returned| <= 1 && (stopper.phase.Idle? || |stopper.returned| == 0))
    && (StopRank(s.life.stop) >= 2 ==> stopper.phase.Idle? && |stopper.returned| == 1)
    && (!stopper.phase.Idle? ==> stopper.phase.event == ShutdownRequested)
    && (forall i :: 0 <= i < |stopper.returned| ==> stopper.returned[i].event == ShutdownRequested)
  }

  ghost predicate Lifecycle(s: State) {
    Orderly(s) && Punctual(s)
  }

  // ----- Effects of the steps on what the lifecycle depends on ------------------------------------

  // A publishing thread moves only its own record: one phase on, or one call returned.
  lemma PublishEffect(s: State, t: Thread, p: PublishStep)
    requires PublishEnabled(s, t, p)
    ensures var s' := DoPublish(s, t, p);
            && s'.publishers == s.publishers[t := s'.publishers[t]]
            && s'.config == s.config && s'.life == s.life && s'.control == s.control && s'.machine == s.machine
            && s'.log.handled == s.log.handled
  {
  }

  lemma PublisherEffect(s: State, t: Thread, p: PublishStep)
    requires PublishEnabled(s, t, p)
    ensures var from, to := s.publishers[t], DoPublish(s, t, p).publishers[t];
            var e := if p.Enter? then p.event else from.phase.event;
            if to.phase.Idle?
            then |to.returned| == |from.returned| + 1
                 && to.returned == from.returned + [Call(e, to.returned[|from.returned|].result)]
            else to.returned == from.returned && to.phase.event == e
  {
  }

  lemma PublishEffectOnQueue(s: State, t: Thread, p: PublishStep)
    requires PublishEnabled(s, t, p)
    ensures var q, q' := s.queue, DoPublish(s, t, p).queue;
            && q'.capacity == q.capacity && q'.closed == q.closed
            && (q'.items == q.items
                || (p == FinishPush && !q.closed && |q.items| != q.capacity
                    && q'.items == q.items + [s.publishers[t].phase.slot]))
  {
  }

  // ----- Preservation --------------------------------------------------------------------------------

  lemma OrderlyStep(s: State, step: Step)
    requires Orderly(s) && Enabled(s, step)
    ensures Orderly(Next(s, step))
  {
    match step {
      case PublishBy(t, p) => PublishEffect(s, t, p); PublishEffectOnQueue(s, t, p);
      case ControlDoes(c) => OrderlyControl(s, c);
      case StartDoes(b) => OrderlyStart(s, b);
      case StopDoes(b) => OrderlyStop(s, b);
      case SensorLeaves =>
    }
  }

  lemma OrderlyControl(s: State, c: ControlStep)
    requires Orderly(s) && ControlEnabled(s, c)
    ensures Orderly(DoControl(s, c))
  {
  }

  lemma OrderlyStart(s: State, b: StartStep)
    requires Orderly(s) && StartEnabled(s, b)
    ensures Orderly(DoStart(s, b))
  {
  }

  lemma OrderlyStop(s: State, b: StopStep)
    requires Orderly(s) && StopEnabled(s, b)
    ensures Orderly(DoStop(s, b))
  {
  }

  lemma PunctualStart(s: State, b: StartStep)
    requires Lifecycle(s) && StartEnabled(s, b)
    ensures Punctual(DoStart(s, b))
  {
  }

  lemma PunctualStop(s: State, b: StopStep)
    requires Lifecycle(s) && StopEnabled(s, b)
    ensures Punctual(DoStop(s, b))
  {
  }

  lemma PunctualStep(s: State, step: Step)
    requires Lifecycle(s) && Enabled(s, step)
    ensures Punctual(Next(s, step))
  {
    match step {
      case PublishBy(t, p) => PunctualPublish(s, t, p);
      case ControlDoes(_) =>
      case StartDoes(b) => PunctualStart(s, b);
      case StopDoes(b) => PunctualStop(s, b);
      case SensorLeaves =>
    }
  }

  lemma LifecycleStep(s: State, step: Step)
    requires Lifecycle(s) && Enabled(s, step)
    ensures Lifecycle(Next(s, step))
  {
    OrderlyStep(s, step);
    PunctualStep(s, step);
  }

  lemma PunctualPublish(s: State, t: Thread, p: PublishStep)
    requires Lifecycle(s) && PublishEnabled(s, t, p)
    ensures Punctual(DoPublish(s, t, p))
  {
    PublishEffect(s, t, p);
    PublisherEffect(s, t, p);
  }

  lemma InitiallyLifecycle(config: ProtectionConfig, poolCapacity: nat, queueCapacity: nat, clients: set<nat>)
    ensures Lifecycle(Initial(config, poolCapacity, queueCapacity, clients))
  {
  }
}
