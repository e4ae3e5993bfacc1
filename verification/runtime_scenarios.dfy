// Runs that exist: how to build them, and the crowd of callers that exhausts the pool.
module RuntimeScenarios {
  import opened Domain
  import opened MotorFsm
  import opened EdgeRuntime
  import opened RuntimeAccounting
  import opened RuntimeTheorems
  import Queue = BoundedQueue
  import Pool = ObjectPool

  // ----- Building runs -------------------------------------------------------------------------------------

  ghost predicate Leads(s: State, s': State) {
    exists steps :: CanRun(s, steps) && After(s, steps) == s'
  }

  lemma LeadsNowhere(s: State)
    ensures Leads(s, s)
  {
    assert CanRun(s, []) && After(s, []) == s;
  }

  lemma LeadsOn(s: State, mid: State, step: Step)
    requires Leads(s, mid) && Enabled(mid, step)
    ensures Leads(s, Next(mid, step))
  {
    var steps :| CanRun(s, steps) && After(s, steps) == mid;
    assert CanRun(mid, [step]) by {
      assert CanRun(Next(mid, step), [step][1..]);
    }
    RunsCompose(s, steps, [step]);
    assert After(mid, [step]) == Next(mid, step) by {
      assert After(Next(mid, step), [step][1..]) == Next(mid, step);
    }
    assert CanRun(s, steps + [step]) && After(s, steps + [step]) == Next(mid, step);
  }

  lemma LeadsFurther(s: State, mid: State, end: State)
    requires Leads(s, mid) && Leads(mid, end)
    ensures Leads(s, end)
  {
    var a :| CanRun(s, a) && After(s, a) == mid;
    var b :| CanRun(mid, b) && After(mid, b) == end;
    RunsCompose(s, a, b);
  }

  lemma LeadsReachable(s: State, end: State)
    requires Reachable(s) && Leads(s, end)
    ensures Reachable(end)
  {
    var config, poolCapacity, queueCapacity, clients, a :|
      ReachedBy(s, config, poolCapacity, queueCapacity, clients, a);
    var b :| CanRun(s, b) && After(s, b) == end;
    RunsCompose(Initial(config, poolCapacity, queueCapacity, clients), a, b);
    assert ReachedBy(end, config, poolCapacity, queueCapacity, clients, a + b);
  }

  // A call that finds a free slot, room in the queue and the gate open.
  predicate Welcome(s: State, t: Thread, e: Event) {
    && t in s.publishers && s.publishers[t].phase.Idle? && MayCall(s, t, e)
    && s.life.accepting && s.pool.free != []
    && !s.queue.closed && |s.queue.items| < s.queue.capacity
  }

  // What matters of a state while the queue is being filled.
  predicate SamePlant(s: State, s': State) {
    s'.life == s.life && s'.control == s.control && s'.config == s.config
    && s'.queue.capacity == s.queue.capacity && s'.queue.closed == s.queue.closed
    && s'.pool.capacity == s.pool.capacity
  }

  function Finished(p: Publisher, e: Event, r: PublishResult): Publisher {
    Publisher(Idle, p.returned + [Call(e, r)])
  }

  lemma PublishOnce(s: State, t: Thread, e: Event) returns (s': State)
    requires Welcome(s, t, e)
    ensures Leads(s, s') && SamePlant(s, s')
    ensures s'.publishers == s.publishers[t := Finished(s.publishers[t], e, Published)]
    ensures |s'.queue.items| == |s.queue.items| + 1 && s'.pool.free == s.pool.free[1..]
    ensures s'.log.pushed == s.log.pushed + [Entry(t, e)]
  {
    LeadsNowhere(s);
    var s1 := DoPublish(s, t, Enter(e));
    LeadsOn(s, s, PublishBy(t, Enter(e)));
    var s2 := DoPublish(s1, t, Create);
    LeadsOn(s, s1, PublishBy(t, Create));
    var s3 := DoPublish(s2, t, FinishPush);
    LeadsOn(s, s2, PublishBy(t, FinishPush));
    s' := DoPublish(s3, t, RecordOutcome);
    LeadsOn(s, s3, PublishBy(t, RecordOutcome));
  }

  // Who can publish e again and again.
  predicate Prolific(life: Life, t: Thread, e: Event) {
    t.Client? || (t == Sensor && life.sensor == Sampling && e.Sample?)
  }

  // It can publish n times in a row while there is room.
  lemma {:induction false} PublishMany(s: State, t: Thread, e: Event, n: nat) returns (s': State)
    requires t in s.publishers && Prolific(s.life, t, e) && s.publishers[t].phase.Idle?
    requires s.life.accepting && !s.queue.closed
    requires n <= |s.pool.free| && |s.queue.items| + n <= s.queue.capacity
    ensures Leads(s, s') && SamePlant(s, s')
    ensures s'.publishers.Keys == s.publishers.Keys && s'.publishers[t].phase.Idle?
    ensures forall u :: u in s.publishers && u != t ==> s'.publishers[u] == s.publishers[u]
    ensures |s'.queue.items| == |s.queue.items| + n && s'.pool.free == s.pool.free[n..]
    ensures |s'.log.pushed| == |s.log.pushed| + n && s.log.pushed <= s'.log.pushed
    ensures forall i :: |s.log.pushed| <= i < |s'.log.pushed| ==> s'.log.pushed[i] == Entry(t, e)
    decreases n
  {
    if n == 0 {
      s' := s;
      LeadsNowhere(s);
    } else {
      var mid := PublishMany(s, t, e, n - 1);
      s' := PublishOnce(mid, t, e);
      LeadsFurther(s, mid, s');
    }
  }

  // Each of the clients lo, ..., hi - 1 can enter publish and take a slot.
  lemma {:induction false} HoldMany(s: State, e: Event, lo: nat, hi: nat) returns (s': State)
    requires lo <= hi <= lo + |s.pool.free| && s.life.accepting
    requires forall c: nat :: lo <= c < hi ==> Client(c) in s.publishers && s.publishers[Client(c)].phase.Idle?
    ensures Leads(s, s') && SamePlant(s, s') && s'.queue.items == s.queue.items
    ensures |s'.pool.free| == |s.pool.free| - (hi - lo)
    ensures s'.publishers.Keys == s.publishers.Keys
    ensures forall c: nat :: lo <= c < hi ==> !s'.publishers[Client(c)].phase.Idle?
    ensures forall u :: u in s.publishers && !(u.Client? && lo <= u.id < hi) ==> s'.publishers[u] == s.publishers[u]
    decreases hi - lo
  {
    LeadsNowhere(s);
    if lo == hi {
      s' := s;
    } else {
      var mid := HoldMany(s, e, lo, hi - 1);
      s' := HoldOnce(mid, Client(hi - 1), e);
      LeadsFurther(s, mid, s');
    }
  }

  lemma HoldOnce(s: State, t: Thread, e: Event) returns (s': State)
    requires t in s.publishers && s.publishers[t].phase.Idle? && MayCall(s, t, e)
    requires s.life.accepting && s.pool.free != []
    ensures Leads(s, s') && SamePlant(s, s') && s'.queue == s.queue && s'.log.pushed == s.log.pushed
    ensures s'.pool.free == s.pool.free[1..]
    ensures s'.publishers == s.publishers[t := Publisher(Holding(e, s.pool.free[0]), s.publishers[t].returned)]
  {
    LeadsNowhere(s);
    var entered := DoPublish(s, t, Enter(e));
    LeadsOn(s, s, PublishBy(t, Enter(e)));
    s' := DoPublish(entered, t, Create);
    LeadsOn(s, entered, PublishBy(t, Create));
  }

  // Up to the point where clients may publish and the control loop runs.
  lemma Opened(config: ProtectionConfig, poolCapacity: nat, queueCapacity: nat, clients: set<nat>) returns (s: State)
    ensures Reachable(s) && s.life.accepting && s.control == Waiting && s.life.start == Announcing
    ensures s.pool == Pool.Fresh(poolCapacity) && s.queue == Queue.Empty(queueCapacity)
    ensures s.life.stop == NotStopping && !s.life.stopped && s.life.started && s.config == config
    ensures s.publishers == map t | t in Threads(clients) :: Publisher(Idle, [])
    ensures s.log.pushed == []
  {
    var s0 := Initial(config, poolCapacity, queueCapacity, clients);
    LeadsNowhere(s0);
    LeadsOn(s0, s0, StartDoes(BeginStart));
    var s1 := DoStart(s0, BeginStart);
    LeadsOn(s0, s1, StartDoes(OpenGate));
    var s2 := DoStart(s1, OpenGate);
    LeadsOn(s0, s2, StartDoes(MarkRunning));
    var s3 := DoStart(s2, MarkRunning);
    LeadsOn(s0, s3, StartDoes(SpawnControl));
    s := DoStart(s3, SpawnControl);
    assert ReachedBy(s0, config, poolCapacity, queueCapacity, clients, []);
    LeadsReachable(s0, s);
  }

  // ----- 128 callers exhaust the pool -------------------------------------------------------------------------

  function FirstClients(n: nat): (cs: set<nat>)
    ensures forall c: nat :: c in cs <==> c < n
  {
    if n == 0 then {} else FirstClients(n - 1) + {n - 1}
  }

  function AsThreads(clients: set<nat>): set<Thread> { set c | c in clients :: Client(c) }

  lemma {:induction false} ThreadCount(n: nat)
    ensures |AsThreads(FirstClients(n))| == n
  {
    if n > 0 {
      ThreadCount(n - 1);
      assert FirstClients(n) == FirstClients(n - 1) + {n - 1};
      assert AsThreads(FirstClients(n)) == AsThreads(FirstClients(n - 1)) + {Client(n - 1)};
    }
  }

  // A full queue and one event with the control loop, all by the first client.
  lemma FullPipeline(config: ProtectionConfig, poolCapacity: nat, queueCapacity: nat, clients: set<nat>, e: Event)
    returns (s: State)
    requires 0 < queueCapacity < poolCapacity && 0 in clients
    ensures Reachable(s) && s.life.accepting && |s.pool.free| == poolCapacity - queueCapacity - 1
    ensures s.pool.capacity == poolCapacity && s.queue.capacity == queueCapacity
    ensures s.publishers.Keys == Threads(clients)
    ensures forall u :: u in s.publishers ==> s.publishers[u].phase.Idle?
  {
    var s0 := Opened(config, poolCapacity, queueCapacity, clients);
    assert Client(0) in s0.publishers;
    var s1 := PublishMany(s0, Client(0), e, 1);
    LeadsOn(s0, s1, ControlDoes(Take));
    var s2 := DoControl(s1, Take);
    s := PublishMany(s2, Client(0), e, queueCapacity);
    LeadsFurther(s0, s2, s);
    LeadsReachable(s0, s);
  }

  // Every client but the first holds a slot, and none is left.
  lemma Crowd(config: ProtectionConfig, poolCapacity: nat, queueCapacity: nat, e: Event) returns (s: State)
    requires 0 < queueCapacity < poolCapacity
    ensures Reachable(s) && s.life.accepting && s.pool.free == []
    ensures s.pool.capacity == poolCapacity && s.queue.capacity == queueCapacity
    ensures s.publishers.Keys == Threads(FirstClients(poolCapacity - queueCapacity))
    ensures forall u :: u in s.publishers ==> (s.publishers[u].phase.Idle? <==> !u.Client? || u.id == 0)
  {
    var n := poolCapacity - queueCapacity;
    var full := FullPipeline(config, poolCapacity, queueCapacity, FirstClients(n), e);
    assert forall c: nat :: c < n ==> Client(c) in full.publishers;
    s := HoldMany(full, e, 1, n);
    CrowdPhases(full.publishers, s.publishers, n);
    LeadsReachable(full, s);
  }

  lemma CrowdPhases(before: map<Thread, Publisher>, after: map<Thread, Publisher>, n: nat)
    requires after.Keys == before.Keys == Threads(FirstClients(n))
    requires forall u :: u in before ==> before[u].phase.Idle?
    requires forall c: nat :: 1 <= c < n ==> Client(c) in after && !after[Client(c)].phase.Idle?
    requires forall u :: u in before && !(u.Client? && 1 <= u.id < n) ==> after[u] == before[u]
    ensures forall u :: u in after ==> (after[u].phase.Idle? <==> !u.Client? || u.id == 0)
  {
    forall u | u in after && u.Client?
      ensures u.id < n
    {
      assert u.id in FirstClients(n);
    }
  }

  // For any capacities, exactly poolCapacity - queueCapacity callers inside publish can meet an
  // exhausted pool, so the bound of `ExhaustionNeedsCallers` is tight.
  lemma CrowdExhaustsPool(config: ProtectionConfig, poolCapacity: nat, queueCapacity: nat, e: Event)
    returns (s: State)
    requires 0 < queueCapacity < poolCapacity
    ensures Reachable(s) && s.pool.capacity == poolCapacity && s.queue.capacity == queueCapacity
    ensures N(s, Inside) == poolCapacity - queueCapacity
    ensures PublishEnabled(s, Client(0), Create)
    ensures DoPublish(s, Client(0), Create).publishers[Client(0)].phase == Dropping(e, PoolExhausted)
  {
    var crowd := Crowd(config, poolCapacity, queueCapacity, e);
    assert 0 in FirstClients(poolCapacity - queueCapacity);
    assert Client(0) in crowd.publishers;
    s := LastOneIn(crowd, e);
    CrowdCount(s, poolCapacity - queueCapacity);
  }

  lemma LastOneIn(crowd: State, e: Event) returns (s: State)
    requires Reachable(crowd) && crowd.life.accepting
    requires Client(0) in crowd.publishers && crowd.publishers[Client(0)].phase.Idle?
    ensures Reachable(s) && s.pool == crowd.pool && s.queue == crowd.queue
    ensures s.publishers == crowd.publishers[Client(0) := Publisher(Admitted(e), crowd.publishers[Client(0)].returned)]
  {
    LeadsNowhere(crowd);
    LeadsOn(crowd, crowd, PublishBy(Client(0), Enter(e)));
    s := DoPublish(crowd, Client(0), Enter(e));
    LeadsReachable(crowd, s);
  }

  lemma CrowdCount(s: State, n: nat)
    requires s.publishers.Keys == Threads(FirstClients(n))
    requires forall u :: u in s.publishers ==> (s.publishers[u].phase.Idle? <==> !u.Client?)
    ensures N(s, Inside) == n
  {
    forall u
      ensures u in Callers(s.publishers, Inside) <==> u in AsThreads(FirstClients(n))
    {
      if u.Client? {
        assert u in s.publishers <==> u in AsThreads(FirstClients(n));
      }
    }
    assert Callers(s.publishers, Inside) == AsThreads(FirstClients(n));
    ThreadCount(n);
  }

  lemma RealCrowdIs128(config: ProtectionConfig, e: Event) returns (s: State)
    ensures Reachable(s) && s.pool.capacity == EVENT_POOL_CAPACITY == 256 && s.queue.capacity == EVENT_QUEUE_CAPACITY == 128
    ensures N(s, Inside) == 128 && PublishEnabled(s, Client(0), Create)
    ensures DoPublish(s, Client(0), Create).publishers[Client(0)].phase == Dropping(e, PoolExhausted)
  {
    s := CrowdExhaustsPool(config, EVENT_POOL_CAPACITY, EVENT_QUEUE_CAPACITY, e);
  }
}
