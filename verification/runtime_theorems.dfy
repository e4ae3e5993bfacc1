// What holds in every reachable state of the runtime, over all interleavings.
module RuntimeTheorems {
  import opened Domain
  import opened MotorFsm
  import opened EdgeRuntime
  import opened RuntimeOwnership
  import opened RuntimeLifecycle
  import opened RuntimeRefinement
  import opened RuntimeAccounting
  import opened Counting
  import Pool = ObjectPool
  import Metrics = RuntimeMetrics
  import Protection = ProtectionRuns

  // Who owns which event, and that the events flow through in order.
  ghost predicate Custody(s: State) { UniquelyOwned(s) && Refines(s) }

  // What is counted, and what callers were told.
  ghost predicate Books(s: State) { InProgramOrder(s) && CallsBalance(s) && FlowBalance(s) }

  ghost predicate Invariant(s: State) { Lifecycle(s) && Custody(s) && Books(s) }

  lemma PublishCustody(s: State, t: Thread, p: PublishStep)
    requires Custody(s) && PublishEnabled(s, t, p)
    ensures Custody(DoPublish(s, t, p))
  {
    PublishKeepsOwnership(s, t, p);
    PublishRefines(s, t, p);
  }

  lemma PublishBooks(s: State, t: Thread, p: PublishStep)
    requires Books(s) && PublishEnabled(s, t, p)
    ensures Books(DoPublish(s, t, p))
  {
    PublishKeepsOrder(s, t, p);
    PublishBalances(s, t, p);
    PublishKeepsFlow(s, t, p);
  }

  lemma ControlCustody(s: State, c: ControlStep)
    requires Custody(s) && ControlEnabled(s, c)
    ensures Custody(DoControl(s, c))
  {
    ControlKeepsOwnership(s, c);
    ControlRefines(s, c);
  }

  lemma ControlBooks(s: State, c: ControlStep)
    requires Books(s) && ControlEnabled(s, c)
    requires s.machine == Run(s.config, INITIAL, s.log.handled)
    ensures Books(DoControl(s, c))
  {
    ControlBalances(s, c);
    ControlKeepsFlow(s, c);
  }

  // What start, stop and the end of the sensor loop leave alone.
  predicate SameBooks(s: State, s': State) {
    && s'.config == s.config && s'.pool == s.pool && s'.machine == s.machine && s'.counts == s.counts
    && s'.publishers == s.publishers && s'.log == s.log
    && s'.queue.items == s.queue.items && s'.queue.stats == s.queue.stats
    && (s'.control == s.control || (s.control == Unborn && s'.control == Waiting))
  }

  lemma LifecycleEffect(s: State, step: Step)
    requires Enabled(s, step) && !step.PublishBy? && !step.ControlDoes?
    requires Orderly(s)
    ensures SameBooks(s, Next(s, step))
  {
  }

  lemma SameBooksRefine(s: State, s': State)
    requires SameBooks(s, s') && Refines(s) && InProgramOrder(s)
    ensures Refines(s') && InProgramOrder(s')
  {
  }

  lemma SameBooksBalance(s: State, s': State)
    requires SameBooks(s, s') && CallsBalance(s) && FlowBalance(s)
    ensures CallsBalance(s') && FlowBalance(s')
  {
  }

  lemma SameBooksInvariant(s: State, s': State)
    requires Custody(s) && Books(s) && SameBooks(s, s')
    ensures Custody(s') && Books(s')
  {
    LifecycleKeepsOwnership(s, s');
    SameBooksRefine(s, s');
    SameBooksBalance(s, s');
  }

  lemma InvariantStep(s: State, step: Step)
    requires Invariant(s) && Enabled(s, step)
    ensures Invariant(Next(s, step))
  {
    LifecycleStep(s, step);
    match step {
      case PublishBy(t, p) =>
        PublishCustody(s, t, p);
        PublishBooks(s, t, p);
      case ControlDoes(c) =>
        ControlCustody(s, c);
        ControlBooks(s, c);
      case _ =>
        LifecycleEffect(s, step);
        SameBooksInvariant(s, Next(s, step));
    }
  }

  lemma InvariantInitially(config: ProtectionConfig, poolCapacity: nat, queueCapacity: nat, clients: set<nat>)
    ensures Invariant(Initial(config, poolCapacity, queueCapacity, clients))
  {
    var s := Initial(config, poolCapacity, queueCapacity, clients);
    Pool.FreshIsSound<Event>(poolCapacity);
    InitiallyLifecycle(config, poolCapacity, queueCapacity, clients);
    assert Callers(s.publishers, Inside) == {} && Callers(s.publishers, Offering) == {};
    assert Callers(s.publishers, Failing) == {} && Callers(s.publishers, Succeeding) == {};
    assert forall o, slot :: !Owns(s, o, slot);
  }

  lemma {:induction false} InvariantAlong(s: State, steps: seq<Step>)
    requires Invariant(s) && CanRun(s, steps)
    ensures Invariant(After(s, steps))
    decreases |steps|
  {
    if steps != [] {
      InvariantStep(s, steps[0]);
      InvariantAlong(Next(s, steps[0]), steps[1..]);
    }
  }

  lemma InvariantEver(s: State)
    requires Reachable(s)
    ensures Invariant(s)
  {
    var config, poolCapacity, queueCapacity, clients, steps :|
      ReachedBy(s, config, poolCapacity, queueCapacity, clients, steps);
    InvariantInitially(config, poolCapacity, queueCapacity, clients);
    InvariantAlong(Initial(config, poolCapacity, queueCapacity, clients), steps);
  }

  lemma ReachableLifecycle(s: State)
    requires Reachable(s)
    ensures Lifecycle(s)
  {
    InvariantEver(s);
  }

  lemma ReachableOwned(s: State)
    requires Reachable(s)
    ensures UniquelyOwned(s)
  {
    InvariantEver(s);
  }

  lemma ReachableRefines(s: State)
    requires Reachable(s)
    ensures Refines(s)
  {
    InvariantEver(s);
  }

  lemma ReachableBooks(s: State)
    requires Reachable(s)
    ensures Books(s)
  {
    InvariantEver(s);
  }

  // ----- The pipeline is a log -------------------------------------------------------------------------

  // In every reachable state: what was ever pushed is what was handled, then the event in flight, then
  // the queue; the machine is the fold of the handled events; and each thread's entries are its
  // published calls in program order.
  lemma SystemRefinement(s: State)
    requires Reachable(s)
    ensures Events(s.log.pushed)
            == s.log.handled + InFlight(s.pool, s.control) + Queued(s.pool, s.queue.items)
    ensures s.machine == Run(s.config, INITIAL, s.log.handled)
    ensures forall t :: t in s.publishers ==>
              EventsBy(s.log.pushed, t) == PublishedCalls(s.publishers[t].returned) + Posting(s.publishers[t].phase)
  {
    ReachableRefines(s);
    ReachableBooks(s);
    assert forall t :: t in s.publishers ==> Accounted(s.log.pushed, t, s.publishers[t]);
  }

  // In every reachable state each occupied slot has exactly one owner and no free slot has one, no
  // handle was ever released twice, and the slots in use are accounted for owner by owner.
  lemma UniqueOwnership(s: State)
    requires Reachable(s)
    ensures forall slot: nat :: slot in s.pool.objects <==> exists o :: Owns(s, o, slot)
    ensures forall o, o', slot :: Owns(s, o, slot) && Owns(s, o', slot) ==> o == o'
    ensures s.pool.stats.invalidReleases == 0
    ensures s.pool.stats.inUse == |s.queue.items| + N(s, Possessing) + One(ControlHas(s.control))
    ensures s.pool.stats.allocations == s.pool.stats.releases + s.pool.stats.inUse
  {
    ReachableOwned(s);
    InUseIsOwners(s);
  }

  // ----- Conservation -----------------------------------------------------------------------------------

  // In every reachable state, with callers anywhere in publish: every call past the gate, every
  // allocation, every refusal and every pushed event is in exactly one place.
  lemma ConservationEver(s: State)
    requires Reachable(s)
    ensures s.log.admitted == s.counts.published + s.counts.dropped + N(s, Inside)
    ensures s.queue.stats.pushed == s.queue.stats.popped + |s.queue.items| == s.counts.published + N(s, Succeeding)
    ensures s.pool.stats.failures + s.queue.stats.pushTimeouts + s.log.closedRejections
            == s.counts.dropped + N(s, Failing)
    ensures s.pool.stats.allocations
            == s.queue.stats.pushed + s.queue.stats.pushTimeouts + s.log.closedRejections + N(s, Offering)
    ensures s.counts.processed == |s.log.latencies| && s.counts.maxLatency == Metrics.Largest(s.log.latencies)
  {
    ReachableBooks(s);
  }

  // With nobody inside publish, every admitted call was published or dropped, every drop has its
  // cause, every allocation its fate, and the metrics agree with the queue and with the machine.
  lemma Conservation(s: State)
    requires Reachable(s)
    requires forall t :: t in s.publishers ==> s.publishers[t].phase.Idle?
    ensures s.log.admitted == s.counts.published + s.counts.dropped
    ensures s.counts.dropped == s.pool.stats.failures + s.queue.stats.pushTimeouts + s.log.closedRejections
    ensures s.counts.published == s.queue.stats.pushed == s.queue.stats.popped + |s.queue.items|
    ensures s.pool.stats.allocations
            == s.counts.published + s.queue.stats.pushTimeouts + s.log.closedRejections
    ensures s.queue.stats.popped == s.counts.processed + One(s.control.Popped?) + One(s.control.Handled?)
    ensures s.control == Waiting || s.control == Exited ==>
              s.counts.transitions == Changes(s.config, s.log.handled)
  {
    ReachableBooks(s);
    NobodyInside(s);
  }

  lemma NobodyInside(s: State)
    requires forall t :: t in s.publishers ==> s.publishers[t].phase.Idle?
    ensures forall p: Place :: N(s, p) == 0
  {
    forall p: Place ensures Callers(s.publishers, p) == {} {
    }
  }

  // ----- Shutdown -----------------------------------------------------------------------------------------

  predicate Joined(s: State) {
    s.life.stop == ControlJoined || s.life.stop == StopReturned
  }

  // Once stop has joined the control loop: the queue is closed and empty, everything ever pushed has
  // been handled, only callers still inside publish own slots (none when they have returned, and then
  // every object ever created is destroyed), and the motor is in SafeShutdown exactly when some shutdown
  // request got into the queue, which stop's own did if it was told `published`.
  lemma ShutdownDrains(s: State)
    requires Reachable(s) && Joined(s)
    ensures s.queue.closed && s.queue.items == [] && s.control == Exited && !s.life.accepting
    ensures Events(s.log.pushed) == s.log.handled
    ensures s.counts.processed == |s.log.pushed|
    ensures s.pool.stats.inUse == N(s, Possessing)
    ensures N(s, Inside) == 0 ==> s.pool.objects == map[] && s.pool.stats.allocations == s.pool.stats.releases
    ensures s.machine.state == SafeShutdown <==> ShutdownRequested in Events(s.log.pushed)
    ensures Stopper in s.publishers && |s.publishers[Stopper].returned| == 1
    ensures s.publishers[Stopper].returned[0].result == Published ==> s.machine.state == SafeShutdown
  {
    ReachableLifecycle(s);
    DrainedSlots(s);
    DrainedLog(s);
    StopperWasHeard(s);
    Protection.ShutdownExactly(s.config, INITIAL, s.log.handled);
  }

  lemma DrainedSlots(s: State)
    requires Reachable(s) && s.queue.items == [] && s.control == Exited
    ensures s.pool.stats.inUse == N(s, Possessing)
    ensures N(s, Inside) == 0 ==> s.pool.objects == map[] && s.pool.stats.allocations == s.pool.stats.releases
  {
    ReachableOwned(s);
    InUseIsOwners(s);
    SubsetCount(Callers(s.publishers, Possessing), Callers(s.publishers, Inside));
  }

  lemma DrainedLog(s: State)
    requires Reachable(s) && s.queue.items == [] && s.control == Exited
    ensures Events(s.log.pushed) == s.log.handled && s.counts.processed == |s.log.pushed|
    ensures s.machine == Run(s.config, INITIAL, s.log.handled)
  {
    ReachableRefines(s);
    ReachableBooks(s);
    assert Queued(s.pool, s.queue.items) == [];
  }

  // If stop was told `published`, its request is in the log.
  lemma StopperWasHeard(s: State)
    requires Reachable(s) && Stopper in s.publishers && |s.publishers[Stopper].returned| == 1
    requires s.publishers[Stopper].returned[0].event == ShutdownRequested
    ensures s.publishers[Stopper].returned[0].result == Published ==> ShutdownRequested in Events(s.log.pushed)
  {
    ReachableBooks(s);
    var calls := s.publishers[Stopper].returned;
    if calls[0].result == Published {
      assert Accounted(s.log.pushed, Stopper, s.publishers[Stopper]);
      assert calls == [] + [calls[0]];
      PublishedSnoc([], calls[0]);
      assert PublishedCalls(calls) == [ShutdownRequested];
      EventsByAreEvents(s.log.pushed, Stopper, ShutdownRequested);
    }
  }

  lemma {:induction false} EventsByAreEvents(log: seq<Entry>, t: Thread, e: Event)
    requires e in EventsBy(log, t)
    ensures e in Events(log)
    decreases |log|
  {
    var front, last := log[..|log| - 1], log[|log| - 1];
    assert Events(log) == Events(front) + [last.event];
    if e in EventsBy(front, t) {
      EventsByAreEvents(front, t, e);
    }
  }

  // And it stays that way: whatever late callers do, nothing is handled or queued any more.
  lemma DrainedForever(s: State, steps: seq<Step>)
    requires Reachable(s) && Joined(s) && CanRun(s, steps)
    ensures var s' := After(s, steps);
            && s'.queue.closed && s'.queue.items == [] && s'.control == Exited && s'.machine == s.machine
            && s'.log.pushed == s.log.pushed && s'.log.handled == s.log.handled
  {
    ReachableLifecycle(s);
    DrainedAlong(s, steps);
    JoinedIsDrained(After(s, steps));
  }

  lemma JoinedIsDrained(s: State)
    requires Lifecycle(s) && Joined(s)
    ensures s.queue.closed && s.queue.items == [] && s.control == Exited
  {
  }

  lemma {:induction false} DrainedAlong(s: State, steps: seq<Step>)
    requires Lifecycle(s) && Joined(s) && CanRun(s, steps)
    ensures var s' := After(s, steps);
            && Lifecycle(s') && Joined(s') && s'.machine == s.machine
            && s'.log.pushed == s.log.pushed && s'.log.handled == s.log.handled
    decreases |steps|
  {
    if steps != [] {
      DrainedStep(s, steps[0]);
      LifecycleStep(s, steps[0]);
      DrainedAlong(Next(s, steps[0]), steps[1..]);
    }
  }

  lemma DrainedStep(s: State, step: Step)
    requires Lifecycle(s) && Joined(s) && Enabled(s, step)
    ensures var s' := Next(s, step);
            && Joined(s') && s'.machine == s.machine
            && s'.log.pushed == s.log.pushed && s'.log.handled == s.log.handled
  {
    if step.PublishBy? {
      PublishEffect(s, step.thread, step.publish);
    }
  }

  // ----- Latching across the system -----------------------------------------------------------------------

  lemma {:induction false} HandledGrows(s: State, steps: seq<Step>)
    requires CanRun(s, steps)
    ensures s.log.handled <= After(s, steps).log.handled
    ensures After(s, steps).config == s.config
    decreases |steps|
  {
    if steps != [] {
      HandledStep(s, steps[0]);
      HandledGrows(Next(s, steps[0]), steps[1..]);
    }
  }

  lemma HandledStep(s: State, step: Step)
    requires Enabled(s, step)
    ensures s.log.handled <= Next(s, step).log.handled && Next(s, step).config == s.config
  {
    if step.PublishBy? {
      PublishEffect(s, step.thread, step.publish);
    }
  }

  lemma MachineIsFold(s: State, steps: seq<Step>)
    requires Reachable(s) && CanRun(s, steps)
    ensures s.machine == Run(s.config, INITIAL, s.log.handled)
    ensures var s' := After(s, steps); s'.machine == Run(s'.config, INITIAL, s'.log.handled)
  {
    InvariantEver(s);
    InvariantAlong(s, steps);
  }

  // Between a latched fault and a later monitoring state the control loop has handled a reset request
  // and, after it, a passed self test; SafeShutdown is never left.
  lemma LatchedAcrossRuns(s: State, steps: seq<Step>)
    requires Reachable(s) && CanRun(s, steps)
    ensures var s' := After(s, steps);
            && s.log.handled <= s'.log.handled
            && (s.machine.state == FaultLatched && Monitoring(s'.machine.state) ==>
                  Protection.ResetThenSelfTest(s'.log.handled[|s.log.handled|..]))
            && (s.machine.state == SafeShutdown ==> s'.machine == s.machine)
  {
    MachineIsFold(s, steps);
    HandledGrows(s, steps);
    var s' := After(s, steps);
    var a, b := s.log.handled, s'.log.handled[|s.log.handled|..];
    assert s'.log.handled == a + b;
    RunAppend(s.config, INITIAL, a, b);
    if s.machine.state == FaultLatched {
      Protection.FaultStaysLatched(s.config, s.machine, b);
    } else if s.machine.state == SafeShutdown {
      Protection.SafeShutdownIsFinal(s.config, s.machine, b);
    }
  }

  // ----- Pool exhaustion --------------------------------------------------------------------------------------

  // A creation can fail only while at least poolCapacity - queueCapacity callers are inside publish.
  lemma ExhaustionNeedsCallers(s: State, t: Thread)
    requires Reachable(s) && PublishEnabled(s, t, Create)
    requires DoPublish(s, t, Create).publishers[t].phase.Dropping?
    ensures N(s, Inside) >= s.pool.capacity - s.queue.capacity
  {
    ReachableOwned(s);
    ReachableLifecycle(s);
    ExhaustionCount(s, t);
  }

  lemma ExhaustionCount(s: State, t: Thread)
    requires UniquelyOwned(s) && |s.queue.items| <= s.queue.capacity && PublishEnabled(s, t, Create)
    requires s.pool.free == []
    ensures N(s, Inside) >= s.pool.capacity - s.queue.capacity
  {
    InUseIsOwners(s);
    var possessing := Callers(s.publishers, Possessing);
    assert t !in possessing;
    SubsetCount(possessing + {t}, Callers(s.publishers, Inside));
    assert |possessing + {t}| == |possessing| + 1;
  }

  // Every state of the run has at most `limit` callers inside publish.
  predicate Uncrowded(s: State, steps: seq<Step>, limit: nat)
    requires CanRun(s, steps)
    decreases |steps|
  {
    N(s, Inside) <= limit && (steps == [] || Uncrowded(Next(s, steps[0]), steps[1..], limit))
  }

  // Neither told pool_exhausted nor about to be.
  predicate Unexhausted(p: Publisher) {
    && (p.phase.Refused? || p.phase.Dropping? ==> p.phase.result != PoolExhausted)
    && forall i :: 0 <= i < |p.returned| ==> p.returned[i].result != PoolExhausted
  }

  predicate NeverExhausted(s: State) {
    && s.pool.stats.failures == 0
    && forall t :: t in s.publishers ==> Unexhausted(s.publishers[t])
  }

  lemma UncrowdedPublish(s: State, t: Thread, p: PublishStep)
    requires NeverExhausted(s) && PublishEnabled(s, t, p)
    requires p == Create ==> s.pool.free != []
    ensures NeverExhausted(DoPublish(s, t, p))
  {
    PublishEffect(s, t, p);
    UncrowdedPublisher(s, t, p);
  }

  // With a free slot, a step of publish neither meets nor reports pool_exhausted.
  lemma UncrowdedPublisher(s: State, t: Thread, p: PublishStep)
    requires PublishEnabled(s, t, p) && Unexhausted(s.publishers[t])
    requires p == Create ==> s.pool.free != []
    ensures var s' := DoPublish(s, t, p);
            t in s'.publishers && Unexhausted(s'.publishers[t])
            && s'.pool.stats.failures == s.pool.stats.failures
  {
  }

  lemma CapacitiesStay(s: State, step: Step)
    requires Enabled(s, step)
    ensures Next(s, step).pool.capacity == s.pool.capacity && Next(s, step).queue.capacity == s.queue.capacity
  {
    if step.PublishBy? {
      PublishEffectOnQueue(s, step.thread, step.publish);
    }
  }

  lemma OthersFailNoCreation(s: State, step: Step)
    requires Enabled(s, step) && !step.PublishBy?
    ensures Next(s, step).pool.stats.failures == s.pool.stats.failures
    ensures Next(s, step).publishers == s.publishers
  {
  }

  lemma UncrowdedStep(s: State, step: Step)
    requires Invariant(s) && Enabled(s, step) && NeverExhausted(s)
    requires N(s, Inside) < s.pool.capacity - s.queue.capacity
    ensures NeverExhausted(Next(s, step))
  {
    if step.PublishBy? {
      if step.publish == Create {
        SomeSlotFree(s, step.thread);
      }
      UncrowdedPublish(s, step.thread, step.publish);
    } else {
      OthersFailNoCreation(s, step);
    }
  }

  lemma SomeSlotFree(s: State, t: Thread)
    requires Invariant(s) && PublishEnabled(s, t, Create)
    requires N(s, Inside) < s.pool.capacity - s.queue.capacity
    ensures s.pool.free != []
  {
    if s.pool.free == [] {
      ExhaustionCount(s, t);
    }
  }

  lemma {:induction false} UncrowdedAlong(s: State, steps: seq<Step>, limit: nat)
    requires Invariant(s) && CanRun(s, steps) && NeverExhausted(s)
    requires limit < s.pool.capacity - s.queue.capacity
    requires Uncrowded(s, steps, limit)
    ensures NeverExhausted(After(s, steps))
    decreases |steps|
  {
    if steps != [] {
      InvariantStep(s, steps[0]);
      CapacitiesStay(s, steps[0]);
      UncrowdedStep(s, steps[0]);
      UncrowdedAlong(Next(s, steps[0]), steps[1..], limit);
    }
  }

  // With the real capacities and never more than 127 callers inside publish at once, no call of any run
  // is ever told that the pool is exhausted.
  lemma PoolNeverExhausted(config: ProtectionConfig, clients: set<nat>, steps: seq<Step>)
    requires var init := Initial(config, EVENT_POOL_CAPACITY, EVENT_QUEUE_CAPACITY, clients);
             CanRun(init, steps) && Uncrowded(init, steps, 127)
    ensures var init := Initial(config, EVENT_POOL_CAPACITY, EVENT_QUEUE_CAPACITY, clients);
            NeverExhausted(After(init, steps))
  {
    InvariantInitially(config, EVENT_POOL_CAPACITY, EVENT_QUEUE_CAPACITY, clients);
    UncrowdedAlong(Initial(config, EVENT_POOL_CAPACITY, EVENT_QUEUE_CAPACITY, clients), steps, 127);
  }
}
