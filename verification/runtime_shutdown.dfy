// What stop leaves behind: it guarantees SafeShutdown exactly if a shutdown was under way before it was
// called.
module RuntimeShutdown {
  import opened Domain
  import opened MotorFsm
  import opened EdgeRuntime
  import opened RuntimeLifecycle
  import opened RuntimeRefinement
  import opened RuntimeTheorems
  import opened RuntimeProgress
  import opened RuntimeScenarios
  import Protection = ProtectionRuns

  // ----- Requests in the log ----------------------------------------------------------------------------------

  // No shutdown request has ever been pushed.
  predicate Unasked(s: State) {
    forall i :: 0 <= i < |s.log.pushed| ==> s.log.pushed[i].event != ShutdownRequested
  }

  // The motor is in SafeShutdown, or the event in flight or a queued one will bring it there.
  predicate UnderWay(s: State) {
    s.machine.state == SafeShutdown
    || ShutdownRequested in InFlight(s.pool, s.control) || ShutdownRequested in Queued(s.pool, s.queue.items)
  }

  lemma UnaskedEvents(s: State)
    ensures Unasked(s) <==> ShutdownRequested !in Events(s.log.pushed)
  {
    if !Unasked(s) {
      var i :| 0 <= i < |s.log.pushed| && s.log.pushed[i].event == ShutdownRequested;
      assert Events(s.log.pushed)[i] == ShutdownRequested;
    }
  }

  // In every reachable state a shutdown is under way exactly if some request was ever pushed.
  lemma UnderWayIsAsked(s: State)
    requires Reachable(s)
    ensures UnderWay(s) <==> !Unasked(s)
  {
    UnaskedEvents(s);
    SystemRefinement(s);
    Protection.ShutdownExactly(s.config, INITIAL, s.log.handled);
    var a, b, c := s.log.handled, InFlight(s.pool, s.control), Queued(s.pool, s.queue.items);
    InConcat(a, b, c, ShutdownRequested);
  }

  lemma InConcat(a: seq<Event>, b: seq<Event>, c: seq<Event>, e: Event)
    ensures e in a + b + c <==> e in a || e in b || e in c
  {
  }

  lemma {:induction false} AskedStaysAsked(s: State, steps: seq<Step>)
    requires CanRun(s, steps)
    ensures s.log.pushed <= After(s, steps).log.pushed
    decreases |steps|
  {
    if steps != [] {
      LogGrows(s, steps[0]);
      AskedStaysAsked(Next(s, steps[0]), steps[1..]);
    }
  }

  lemma LogGrows(s: State, step: Step)
    requires Enabled(s, step)
    ensures s.log.pushed <= Next(s, step).log.pushed
  {
  }

  // ----- What stop guarantees ---------------------------------------------------------------------------------

  // However the threads are scheduled from here, stop returns only with the motor in SafeShutdown.
  ghost predicate GuaranteesShutdown(s: State) {
    forall s' :: Leads(s, s') && s'.life.stop == StopReturned ==> s'.machine.state == SafeShutdown
  }

  lemma ReturnedState(s: State)
    requires Reachable(s) && s.life.stop == StopReturned
    ensures s.machine.state == SafeShutdown <==> !Unasked(s)
  {
    ShutdownDrains(s);
    UnaskedEvents(s);
  }

  lemma AskedGuarantees(s: State)
    requires Reachable(s) && !Unasked(s)
    ensures GuaranteesShutdown(s)
  {
    forall s' | Leads(s, s') && s'.life.stop == StopReturned ensures s'.machine.state == SafeShutdown {
      var steps :| CanRun(s, steps) && After(s, steps) == s';
      AskedStaysAsked(s, steps);
      var i :| 0 <= i < |s.log.pushed| && s.log.pushed[i].event == ShutdownRequested;
      assert s'.log.pushed[i] == s.log.pushed[i];
      LeadsReachable(s, s');
      ReturnedState(s');
    }
  }

  // ----- How stop fails ---------------------------------------------------------------------------------------

  // The sensor loop's call in progress comes to its end; at most a sample is pushed.
  lemma {:induction false} SensorFinishes(s: State) returns (s': State)
    requires Lifecycle(s) && Unasked(s)
    ensures Leads(s, s') && Lifecycle(s') && Unasked(s') && s'.life == s.life && s'.publishers[Sensor].phase.Idle?
    decreases CallRank(s.publishers[Sensor].phase)
  {
    LeadsNowhere(s);
    if s.publishers[Sensor].phase.Idle? {
      s' := s;
    } else {
      var p := CallStep(s.publishers[Sensor].phase);
      CallStepWorks(s, Sensor);
      LifecycleStep(s, PublishBy(Sensor, p));
      PublishEffect(s, Sensor, p);
      SampleIsNoRequest(s, p);
      LeadsOn(s, s, PublishBy(Sensor, p));
      s' := SensorFinishes(DoPublish(s, Sensor, p));
      LeadsFurther(s, DoPublish(s, Sensor, p), s');
    }
  }

  lemma SampleIsNoRequest(s: State, p: PublishStep)
    requires Lifecycle(s) && Unasked(s) && PublishEnabled(s, Sensor, p) && !p.Enter?
    ensures Unasked(DoPublish(s, Sensor, p))
  {
  }

  const QUIET := Sample(NO_SAMPLE)

  // Publishing samples, the sensor loop fills the queue or empties the pool.
  lemma Clogged(s: State) returns (s': State)
    requires Lifecycle(s) && Unasked(s) && StopEnabled(s, BeginStop) && s.publishers[Sensor].phase.Idle?
    ensures Leads(s, s') && Unasked(s') && s'.life == s.life && s'.queue.closed == s.queue.closed
    ensures Sensor in s'.publishers && s'.publishers[Sensor].phase.Idle?
    ensures Stopper in s'.publishers && s'.publishers[Stopper] == s.publishers[Stopper]
    ensures s'.pool.free == [] || |s'.queue.items| == s'.queue.capacity
  {
    var room := s.queue.capacity - |s.queue.items|;
    s' := PublishMany(s, Sensor, QUIET, if |s.pool.free| < room then |s.pool.free| else room);
    assert forall i :: 0 <= i < |s.log.pushed| ==> s'.log.pushed[i] == s.log.pushed[i];
  }

  lemma Asked(s: State) returns (s': State)
    requires StopEnabled(s, BeginStop)
    ensures Leads(s, s') && s' == s.(life := s.life.(stop := Requesting, stopped := true))
  {
    LeadsNowhere(s);
    LeadsOn(s, s, StopDoes(BeginStop));
    s' := DoStop(s, BeginStop);
  }

  lemma Shut(s: State) returns (s': State)
    requires StopEnabled(s, ShutGate)
    ensures Leads(s, s') && s' == s.(life := s.life.(stop := GateShut, accepting := false))
  {
    LeadsNowhere(s);
    LeadsOn(s, s, StopDoes(ShutGate));
    s' := DoStop(s, ShutGate);
  }

  // A call that finds a free slot but, for all of its wait, a full queue.
  lemma RefuseOnce(s: State, t: Thread, e: Event) returns (s': State)
    requires t in s.publishers && s.publishers[t].phase.Idle? && MayCall(s, t, e)
    requires s.life.accepting && s.pool.free != [] && !s.queue.closed && |s.queue.items| == s.queue.capacity
    ensures Leads(s, s') && SamePlant(s, s') && s'.log.pushed == s.log.pushed
    ensures s'.publishers == s.publishers[t := Finished(s.publishers[t], e, QueueTimeout)]
  {
    var held := HoldOnce(s, t, e);
    s' := RefuseHeld(held, t);
    LeadsFurther(s, held, s');
  }

  lemma RefuseHeld(s: State, t: Thread) returns (s': State)
    requires t in s.publishers && s.publishers[t].phase.Holding?
    requires !s.queue.closed && |s.queue.items| == s.queue.capacity
    ensures Leads(s, s') && SamePlant(s, s') && s'.log.pushed == s.log.pushed
    ensures s'.publishers == s.publishers[t := Finished(s.publishers[t], s.publishers[t].phase.event, QueueTimeout)]
  {
    LeadsNowhere(s);
    var s1 := DoPublish(s, t, FinishPush);
    LeadsOn(s, s, PublishBy(t, FinishPush));
    var s2 := DoPublish(s1, t, ReleaseRefused);
    LeadsOn(s, s1, PublishBy(t, ReleaseRefused));
    s' := DoPublish(s2, t, RecordOutcome);
    LeadsOn(s, s2, PublishBy(t, RecordOutcome));
  }

  // A call that finds no free slot.
  lemma ExhaustOnce(s: State, t: Thread, e: Event) returns (s': State)
    requires t in s.publishers && s.publishers[t].phase.Idle? && MayCall(s, t, e)
    requires s.life.accepting && s.pool.free == []
    ensures Leads(s, s') && SamePlant(s, s') && s'.log.pushed == s.log.pushed
    ensures s'.publishers == s.publishers[t := Finished(s.publishers[t], e, PoolExhausted)]
  {
    LeadsNowhere(s);
    var s1 := DoPublish(s, t, Enter(e));
    LeadsOn(s, s, PublishBy(t, Enter(e)));
    var s2 := DoPublish(s1, t, Create);
    LeadsOn(s, s1, PublishBy(t, Create));
    s' := DoPublish(s2, t, RecordOutcome);
    LeadsOn(s, s2, PublishBy(t, RecordOutcome));
  }

  // Stop's request is turned away and the gate is shut.
  lemma TurnedAway(s: State) returns (s': State)
    requires StopEnabled(s, BeginStop) && s.life.accepting && !s.queue.closed
    requires Stopper in s.publishers && s.publishers[Stopper] == Publisher(Idle, [])
    requires s.pool.free == [] || |s.queue.items| == s.queue.capacity
    ensures Leads(s, s') && s'.life.stop == GateShut && s'.log.pushed == s.log.pushed
    ensures forall t :: t in s.publishers && t != Stopper ==> t in s'.publishers && s'.publishers[t] == s.publishers[t]
  {
    var s1 := Asked(s);
    var s2;
    if s.pool.free == [] {
      s2 := ExhaustOnce(s1, Stopper, ShutdownRequested);
    } else {
      s2 := RefuseOnce(s1, Stopper, ShutdownRequested);
    }
    LeadsFurther(s, s1, s2);
    s' := Shut(s2);
    LeadsFurther(s, s2, s');
  }

  // stop has made its request and the sensor loop is not publishing.
  predicate PublishingIsOver(s: State) {
    Sensor in s.publishers && s.publishers[Sensor].phase.Idle? && GateShutFor(s)
  }

  lemma OwnStepPublishesNothing(s: State, step: Step)
    requires Lifecycle(s) && PublishingIsOver(s) && Enabled(s, step) && Own(step)
    ensures PublishingIsOver(Next(s, step)) && Next(s, step).log.pushed == s.log.pushed
  {
    if step.PublishBy? {
      OwnCallersAreIdle(s, step.thread, step.publish);
      assert false;
    }
  }

  // Once publishing is over, no thread of the runtime can take a step inside publish.
  lemma OwnCallersAreIdle(s: State, t: Thread, p: PublishStep)
    requires Lifecycle(s) && PublishingIsOver(s) && !t.Client? && (p.Enter? ==> t == Stopper)
    ensures !PublishEnabled(s, t, p)
  {
  }

  lemma {:induction false} OwnRunsPublishNothing(s: State, steps: seq<Step>)
    requires Lifecycle(s) && PublishingIsOver(s) && CanRun(s, steps)
    requires forall i :: 0 <= i < |steps| ==> Own(steps[i])
    ensures After(s, steps).log.pushed == s.log.pushed
    decreases |steps|
  {
    if steps != [] {
      OwnStepPublishesNothing(s, steps[0]);
      LifecycleStep(s, steps[0]);
      OwnRunsPublishNothing(Next(s, steps[0]), steps[1..]);
    }
  }

  lemma FinishQuietly(s: State) returns (s': State)
    requires Lifecycle(s) && PublishingIsOver(s)
    ensures Leads(s, s') && s'.life.stop == StopReturned && s'.log.pushed == s.log.pushed
  {
    var steps := StopCanComplete(s);
    s' := After(s, steps);
    assert Leads(s, s');
    OwnRunsPublishNothing(s, steps);
  }

  // Gate shut and nothing asked: the runtime's own threads finish, and nobody ever asks.
  lemma FinishUnasked(s: State) returns (s': State)
    requires Reachable(s) && Unasked(s) && GateShutFor(s)
    ensures Leads(s, s') && s'.life.stop == StopReturned && Unasked(s')
  {
    ReachableLifecycle(s);
    var s1 := SensorFinishes(s);
    s' := FinishQuietly(s1);
    LeadsFurther(s, s1, s');
  }

  // About to call stop, with nothing asked: its request can be turned away.
  lemma AskInVain(s: State) returns (s': State)
    requires Reachable(s) && Unasked(s) && StopEnabled(s, BeginStop)
    ensures Leads(s, s') && Reachable(s') && GateShutFor(s') && Unasked(s')
  {
    ReachableLifecycle(s);
    var s1 := SensorFinishes(s);
    s' := AskWhileClogged(s1);
    LeadsFurther(s, s1, s');
    LeadsReachable(s, s');
  }

  lemma AskWhileClogged(s: State) returns (s': State)
    requires Lifecycle(s) && Unasked(s) && StopEnabled(s, BeginStop) && s.publishers[Sensor].phase.Idle?
    ensures Leads(s, s') && GateShutFor(s') && Unasked(s')
  {
    var s1 := Clogged(s);
    s' := TurnedAway(s1);
    LeadsFurther(s, s1, s');
  }

  // Its own request refused, stop shuts the gate.
  predicate RequestRefused(s: State) {
    Stopper in s.publishers && (s.publishers[Stopper].phase.Refused? || s.publishers[Stopper].phase.Dropping?)
  }

  lemma {:induction false} RefusedThenShut(s: State) returns (s': State)
    requires Lifecycle(s) && Unasked(s) && s.life.stop == Requesting
    requires RequestRefused(s) || Rests(s, Stopper, 1)
    ensures Leads(s, s') && GateShutFor(s') && Unasked(s')
    decreases CallRank(s.publishers[Stopper].phase)
  {
    LeadsNowhere(s);
    if RequestRefused(s) {
      var p := CallStep(s.publishers[Stopper].phase);
      CallStepWorks(s, Stopper);
      LifecycleStep(s, PublishBy(Stopper, p));
      RefusedMovesOn(s, p);
      LeadsOn(s, s, PublishBy(Stopper, p));
      s' := RefusedThenShut(DoPublish(s, Stopper, p));
      LeadsFurther(s, DoPublish(s, Stopper, p), s');
    } else {
      s' := Shut(s);
    }
  }

  lemma RefusedMovesOn(s: State, p: PublishStep)
    requires Lifecycle(s) && RequestRefused(s) && PublishEnabled(s, Stopper, p) && s.life.stop == Requesting
    ensures var s' := DoPublish(s, Stopper, p);
            s'.log.pushed == s.log.pushed && s'.life == s.life && (RequestRefused(s') || Rests(s', Stopper, 1))
  {
  }

  // Before stop is called, once its own request is refused, and once the gate is shut.
  predicate Decisive(s: State) {
    StopEnabled(s, BeginStop) || RequestRefused(s) || GateShutFor(s)
  }

  // From any such state in which no shutdown is under way, for any capacities and any clients, there is a
  // run in which stop returns and the motor is not in SafeShutdown.
  lemma StopMayLeaveMotorRunning(s: State) returns (s': State)
    requires Reachable(s) && Decisive(s) && !UnderWay(s)
    ensures Leads(s, s') && s'.life.stop == StopReturned && s'.machine.state != SafeShutdown
  {
    UnderWayIsAsked(s);
    var s1 := GateShutUnasked(s);
    s' := FinishUnasked(s1);
    LeadsFurther(s, s1, s');
    LeadsReachable(s, s');
    ReturnedState(s');
  }

  lemma GateShutUnasked(s: State) returns (s': State)
    requires Reachable(s) && Decisive(s) && Unasked(s)
    ensures Leads(s, s') && Reachable(s') && GateShutFor(s') && Unasked(s')
  {
    if GateShutFor(s) {
      LeadsNowhere(s);
      s' := s;
    } else if StopEnabled(s, BeginStop) {
      s' := AskInVain(s);
    } else {
      ReachableLifecycle(s);
      s' := RefusedThenShut(s);
      LeadsReachable(s, s');
    }
  }

  // Called now, stop guarantees SafeShutdown if and only if a shutdown is already under way; so too once its
  // own request has been refused or the gate is shut.
  lemma StopGuarantee(s: State)
    requires Reachable(s) && Decisive(s)
    ensures GuaranteesShutdown(s) <==> UnderWay(s)
  {
    UnderWayIsAsked(s);
    if UnderWay(s) {
      AskedGuarantees(s);
    } else {
      var s' := StopMayLeaveMotorRunning(s);
    }
  }

  lemma NotClosedWhileRequesting(s: State)
    requires Lifecycle(s) && !s.publishers[Stopper].phase.Idle?
    ensures !s.queue.closed && |s.queue.items| <= s.queue.capacity
  {
  }

  lemma FateOfRequest(s: State, p: PublishStep)
    requires Reachable(s) && PublishEnabled(s, Stopper, p)
    ensures var phase' := DoPublish(s, Stopper, p).publishers[Stopper].phase;
            && (p.Enter? ==> phase'.Admitted?)
            && (p == Create ==> if s.pool.stats.inUse < s.pool.capacity then phase'.Holding? else phase'.Dropping?)
            && (p == FinishPush ==> if |s.queue.items| < s.queue.capacity then phase'.Accepted? else phase'.Refused?)
  {
    ReachableLifecycle(s);
    if p == FinishPush {
      NotClosedWhileRequesting(s);
    } else if p == Create {
      ReachableOwned(s);
    }
  }

  // The gate always admits stop's own request. With a free slot and then, at the end of its wait, room in
  // the queue, SafeShutdown is guaranteed from that step on; without either, it is so exactly if a
  // shutdown is under way for other reasons.
  lemma StopRequestFate(s: State, p: PublishStep)
    requires Reachable(s) && PublishEnabled(s, Stopper, p)
    ensures var s' := DoPublish(s, Stopper, p);
            var phase' := s'.publishers[Stopper].phase;
            && (p.Enter? ==> phase'.Admitted?)
            && (p == Create && s.pool.stats.inUse < s.pool.capacity ==> phase'.Holding?)
            && (p == FinishPush && |s.queue.items| < s.queue.capacity ==> GuaranteesShutdown(s'))
            && ((p == Create && s.pool.stats.inUse >= s.pool.capacity)
                || (p == FinishPush && |s.queue.items| >= s.queue.capacity) ==>
                  (GuaranteesShutdown(s') <==> UnderWay(s')))
  {
    var s' := DoPublish(s, Stopper, p);
    FateOfRequest(s, p);
    LeadsNowhere(s);
    LeadsOn(s, s, PublishBy(Stopper, p));
    LeadsReachable(s, s');
    if p == FinishPush && |s.queue.items| < s.queue.capacity {
      AcceptedIsAsked(s);
      AskedGuarantees(s');
    } else if RequestRefused(s') {
      StopGuarantee(s');
    }
  }

  lemma AcceptedIsAsked(s: State)
    requires Reachable(s) && PublishEnabled(s, Stopper, FinishPush)
    requires DoPublish(s, Stopper, FinishPush).publishers[Stopper].phase.Accepted?
    ensures !Unasked(DoPublish(s, Stopper, FinishPush))
  {
    ReachableLifecycle(s);
    var s' := DoPublish(s, Stopper, FinishPush);
    assert s'.log.pushed[|s.log.pushed|] == Entry(Stopper, ShutdownRequested);
  }

  // ----- With the real capacities -------------------------------------------------------------------------------

  // Started, and announced by its two events, with the control loop yet to take the first.
  lemma Started(config: ProtectionConfig, poolCapacity: nat, queueCapacity: nat) returns (s: State)
    requires 2 <= queueCapacity < poolCapacity
    ensures Reachable(s) && s.life.start == StartReturned && s.life.stop == NotStopping && s.life.accepting
    ensures |s.queue.items| == 2 && s.queue.capacity == queueCapacity && !s.queue.closed
    ensures s.pool.capacity == poolCapacity && |s.pool.free| == poolCapacity - 2
    ensures s.publishers.Keys == Threads({0})
    ensures forall u :: u in s.publishers ==> s.publishers[u].phase.Idle?
    ensures s.log.pushed == [Entry(Starter, Startup), Entry(Starter, SelfTestPassed)]
  {
    var s0 := Opened(config, poolCapacity, queueCapacity, {0});
    var s1 := PublishOnce(s0, Starter, Startup);
    var s2 := PublishOnce(s1, Starter, SelfTestPassed);
    LeadsFurther(s0, s1, s2);
    LeadsOn(s0, s2, StartDoes(SpawnSensor));
    s := DoStart(s2, SpawnSensor);
    LeadsReachable(s0, s);
  }

  lemma NothingUnderWay(s: State)
    requires Reachable(s) && s.log.pushed == [Entry(Starter, Startup), Entry(Starter, SelfTestPassed)]
    requires s.life.start == StartReturned && s.life.stop == NotStopping
    ensures !UnderWay(s) && StopEnabled(s, BeginStop)
  {
    UnderWayIsAsked(s);
    ReachableLifecycle(s);
  }

  // A runtime with the real capacities that has just been started can be stopped and left running.
  lemma RealStopMayFail(config: ProtectionConfig) returns (s: State)
    ensures Reachable(s) && s.pool.capacity == EVENT_POOL_CAPACITY && s.queue.capacity == EVENT_QUEUE_CAPACITY
    ensures StopEnabled(s, BeginStop) && !GuaranteesShutdown(s)
  {
    s := Started(config, EVENT_POOL_CAPACITY, EVENT_QUEUE_CAPACITY);
    NothingUnderWay(s);
    StopGuarantee(s);
  }
}
