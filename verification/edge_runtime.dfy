// The runtime as a labelled step system: any number of publishing threads, the control thread, the
// sensor thread, `start` and `stop`. Every locked section and every atomic operation is one step; the
// order in which threads take steps is arbitrary.
module EdgeRuntime {
  import opened Domain
  import opened MotorFsm
  import Queue = BoundedQueue
  import Pool = ObjectPool

  const EVENT_POOL_CAPACITY: nat := 256
  const EVENT_QUEUE_CAPACITY: nat := 128

  datatype PublishResult = Published | NotRunning | PoolExhausted | QueueFull | QueueTimeout | QueueClosed

  // The callers of `publish`. `Starter`, `Sensor` and `Stopper` are the calls made by `start`, by the
  // sensor loop and by `stop`.
  datatype Thread = Client(id: nat) | Starter | Sensor | Stopper

  datatype PublishPhase =
    | Idle
    | Admitted(event: Event)                                      // past the gate
    | Holding(event: Event, slot: nat)                            // owns a pooled event, in wait_push
    | Refused(event: Event, slot: nat, result: PublishResult)     // wait_push over, still owns it
    | Dropping(event: Event, result: PublishResult)               // record_dropped to come
    | Accepted(event: Event)                                      // pushed, record_published to come

  datatype Call = Call(event: Event, result: PublishResult)

  // `returned` lists the finished calls of the thread in program order.
  datatype Publisher = Publisher(phase: PublishPhase, returned: seq<Call>)

  datatype ControlPhase =
    | Unborn
    | Waiting
    | Popped(slot: nat)
    | Handled(slot: nat, changed: bool)
    | Recorded(slot: nat, changed: bool)
    | Releasing(slot: nat)
    | Exited

  datatype StartPhase = NotStarted | Flagged | GateOpen | MarkedRunning | Announcing | StartReturned

  datatype StopPhase =
    | NotStopping
    | Requesting         // publishing shutdown_requested
    | GateShut
    | WaitOver           // SafeShutdown was seen or the second has passed
    | StopRequested
    | SensorJoined
    | QueueShut
    | ControlJoined
    | StopReturned

  datatype SensorPhase = NotSpawned | Sampling | SensorDone

  datatype Counts = Counts(published: nat, processed: nat, dropped: nat, transitions: nat, maxLatency: nat)

  // What happened so far; the runtime does not store it.
  datatype Entry = Entry(thread: Thread, event: Event)

  datatype Log = Log(
    pushed: seq<Entry>, handled: seq<Event>, latencies: seq<nat>, admitted: nat, closedRejections: nat)

  // The lifecycle flags, and how far start, stop and the sensor loop have come.
  datatype Life = Life(
    started: bool, stopped: bool, accepting: bool, running: bool,
    start: StartPhase, stop: StopPhase, sensor: SensorPhase)

  datatype State = State(
    config: ProtectionConfig, life: Life, control: ControlPhase,
    pool: Pool.Pool<Event>, queue: Queue.Queue<nat>, machine: Machine, counts: Counts,
    publishers: map<Thread, Publisher>, log: Log)

  function Initial(config: ProtectionConfig, poolCapacity: nat, queueCapacity: nat, clients: set<nat>): State {
    State(config, Life(false, false, false, false, NotStarted, NotStopping, NotSpawned), Unborn,
          Pool.Fresh(poolCapacity), Queue.Empty(queueCapacity), INITIAL, Counts(0, 0, 0, 0, 0),
          map t | t in Threads(clients) :: Publisher(Idle, []),
          Log([], [], [], 0, 0))
  }

  function Threads(clients: set<nat>): set<Thread> {
    (set c | c in clients :: Client(c)) + {Starter, Sensor, Stopper}
  }

  datatype PublishStep = Enter(event: Event) | Create | FinishPush | ReleaseRefused | RecordOutcome

  datatype ControlStep = Take | HandleEvent | RecordProcessed(latency: nat) | RecordTransition | ReleaseEvent

  datatype StartStep = BeginStart | OpenGate | MarkRunning | SpawnControl | SpawnSensor

  datatype StopStep =
    BeginStop | ShutGate | EndWait | RequestStop | JoinSensor | ShutQueue | JoinControl | ReturnFromStop

  datatype Step =
    | PublishBy(thread: Thread, publish: PublishStep)
    | ControlDoes(control: ControlStep)
    | StartDoes(start: StartStep)
    | StopDoes(stop: StopStep)
    | SensorLeaves

  // ----- publish -----------------------------------------------------------------------------------

  // Who may call publish with which event: clients freely, the others as their code does.
  predicate MayCall(s: State, t: Thread, e: Event)
    requires t in s.publishers
  {
    var calls := |s.publishers[t].returned|;
    match t
    case Client(_) => true
    case Starter => s.life.start == Announcing && ((calls == 0 && e == Startup) || (calls == 1 && e == SelfTestPassed))
    case Sensor => s.life.sensor == Sampling && e.Sample?
    case Stopper => s.life.stop == Requesting && calls == 0 && e == ShutdownRequested
  }

  predicate PublishEnabled(s: State, t: Thread, step: PublishStep) {
    t in s.publishers && var phase := s.publishers[t].phase;
    match step
    case Enter(e) => phase.Idle? && MayCall(s, t, e)
    case Create => phase.Admitted?
    case FinishPush => phase.Holding?
    case ReleaseRefused => phase.Refused?
    case RecordOutcome => phase.Dropping? || phase.Accepted?
  }

  function SetPhase(s: State, t: Thread, phase: PublishPhase): State
    requires t in s.publishers
  {
    s.(publishers := s.publishers[t := s.publishers[t].(phase := phase)])
  }

  function Return(s: State, t: Thread, e: Event, result: PublishResult): State
    requires t in s.publishers
  {
    s.(publishers := s.publishers[t := Publisher(Idle, s.publishers[t].returned + [Call(e, result)])])
  }

  function Outcome(r: Queue.PushResult): PublishResult {
    match r
    case Pushed => Published
    case Full => QueueFull
    case Timeout => QueueTimeout
    case Closed => QueueClosed
  }

  function DoPublish(s: State, t: Thread, step: PublishStep): State
    requires PublishEnabled(s, t, step)
  {
    var phase := s.publishers[t].phase;
    match step
    case Enter(e) =>
      if s.life.accepting then
        SetPhase(s.(log := s.log.(admitted := s.log.admitted + 1)), t, Admitted(e))
      else Return(s, t, e, NotRunning)
    case Create =>
      var (pool, slot) := Pool.TryCreate(s.pool, phase.event);
      SetPhase(s.(pool := pool), t,
               if slot.Some? then Holding(phase.event, slot.value) else Dropping(phase.event, PoolExhausted))
    case FinishPush =>
      var (queue, result) := Queue.WaitPush(s.queue, phase.slot);
      if result == Queue.Pushed then
        SetPhase(s.(queue := queue, log := s.log.(pushed := s.log.pushed + [Entry(t, phase.event)])),
                 t, Accepted(phase.event))
      else
        var closed := if result == Queue.Closed then 1 else 0;
        SetPhase(s.(queue := queue, log := s.log.(closedRejections := s.log.closedRejections + closed)),
                 t, Refused(phase.event, phase.slot, Outcome(result)))
    case ReleaseRefused =>
      SetPhase(s.(pool := Pool.Destroy(s.pool, phase.slot).0), t, Dropping(phase.event, phase.result))
    case RecordOutcome =>
      if phase.Accepted? then
        Return(s.(counts := s.counts.(published := s.counts.published + 1)), t, phase.event, Published)
      else
        Return(s.(counts := s.counts.(dropped := s.counts.dropped + 1)), t, phase.event, phase.result)
  }

  // ----- The control loop ----------------------------------------------------------------------------

  predicate ControlEnabled(s: State, step: ControlStep) {
    match step
    case Take => s.control.Waiting? && Queue.Available(s.queue)
    case HandleEvent => s.control.Popped?
    case RecordProcessed(_) => s.control.Handled?
    case RecordTransition => s.control.Recorded?
    case ReleaseEvent => s.control.Releasing?
  }

  // The pooled event a handle points to; that it always exists is a theorem.
  function Deref(pool: Pool.Pool<Event>, slot: nat): Event {
    if slot in pool.objects then pool.objects[slot] else Startup
  }

  function DoControl(s: State, step: ControlStep): State
    requires ControlEnabled(s, step)
  {
    match step
    case Take =>
      var (queue, slot) := Queue.Pop(s.queue);
      s.(queue := queue, control := if slot.Some? then Popped(slot.value) else Exited)
    case HandleEvent =>
      var e := Deref(s.pool, s.control.slot);
      var (machine, transition) := Handle(s.config, s.machine, e);
      s.(machine := machine,
         control := Handled(s.control.slot, transition.changed),
         log := s.log.(handled := s.log.handled + [e]))
    case RecordProcessed(l) =>
      s.(counts := s.counts.(processed := s.counts.processed + 1,
                             maxLatency := if l > s.counts.maxLatency then l else s.counts.maxLatency),
         control := Recorded(s.control.slot, s.control.changed),
         log := s.log.(latencies := s.log.latencies + [l]))
    case RecordTransition =>
      s.(counts := if s.control.changed then s.counts.(transitions := s.counts.transitions + 1) else s.counts,
         control := Releasing(s.control.slot))
    case ReleaseEvent =>
      s.(pool := Pool.Destroy(s.pool, s.control.slot).0, control := Waiting)
  }

  // ----- start and stop --------------------------------------------------------------------------------

  // Finished its calls and between calls.
  predicate Rests(s: State, t: Thread, calls: nat) {
    t in s.publishers && s.publishers[t].phase.Idle? && |s.publishers[t].returned| == calls
  }

  predicate StartEnabled(s: State, step: StartStep) {
    match step
    case BeginStart => s.life.start == NotStarted && !s.life.started
    case OpenGate => s.life.start == Flagged
    case MarkRunning => s.life.start == GateOpen
    case SpawnControl => s.life.start == MarkedRunning
    case SpawnSensor => s.life.start == Announcing && Rests(s, Starter, 2)
  }

  function DoStart(s: State, step: StartStep): State {
    var life := s.life;
    match step
    case BeginStart => s.(life := life.(start := Flagged, started := true))
    case OpenGate => s.(life := life.(start := GateOpen, accepting := true))
    case MarkRunning => s.(life := life.(start := MarkedRunning, running := true))
    case SpawnControl => s.(life := life.(start := Announcing), control := Waiting)
    case SpawnSensor => s.(life := life.(start := StartReturned, sensor := Sampling))
  }

  // `stop` takes the lifecycle lock that `start` holds from its first to its last step.
  predicate StopEnabled(s: State, step: StopStep) {
    match step
    case BeginStop =>
      s.life.stop == NotStopping && (s.life.start == NotStarted || s.life.start == StartReturned) && s.life.started && !s.life.stopped
    case ShutGate => s.life.stop == Requesting && Rests(s, Stopper, 1)
    case EndWait => s.life.stop == GateShut
    case RequestStop => s.life.stop == WaitOver
    case JoinSensor => s.life.stop == StopRequested && s.life.sensor == SensorDone
    case ShutQueue => s.life.stop == SensorJoined
    case JoinControl => s.life.stop == QueueShut && s.control == Exited
    case ReturnFromStop => s.life.stop == ControlJoined
  }

  function DoStop(s: State, step: StopStep): State {
    var life := s.life;
    match step
    case BeginStop => s.(life := life.(stop := Requesting, stopped := true))
    case ShutGate => s.(life := life.(stop := GateShut, accepting := false))
    case EndWait => s.(life := life.(stop := WaitOver))
    case RequestStop => s.(life := life.(stop := StopRequested))
    case JoinSensor => s.(life := life.(stop := SensorJoined))
    case ShutQueue => s.(life := life.(stop := QueueShut), queue := Queue.Close(s.queue))
    case JoinControl => s.(life := life.(stop := ControlJoined))
    case ReturnFromStop => s.(life := life.(stop := StopReturned, running := false))
  }

  // ----- Runs ----------------------------------------------------------------------------------------------

  predicate Enabled(s: State, step: Step) {
    match step
    case PublishBy(t, p) => PublishEnabled(s, t, p)
    case ControlDoes(c) => ControlEnabled(s, c)
    case StartDoes(b) => StartEnabled(s, b)
    case StopDoes(b) => StopEnabled(s, b)
    // The sensor loop looks at its stop token between two publications.
    case SensorLeaves => s.life.sensor == Sampling && StopWasRequested(s.life.stop)
                         && Sensor in s.publishers && s.publishers[Sensor].phase.Idle?
  }

  predicate StopWasRequested(p: StopPhase) {
    p == StopRequested || p == SensorJoined || p == QueueShut || p == ControlJoined || p == StopReturned
  }

  function Next(s: State, step: Step): State
    requires Enabled(s, step)
  {
    match step
    case PublishBy(t, p) => DoPublish(s, t, p)
    case ControlDoes(c) => DoControl(s, c)
    case StartDoes(b) => DoStart(s, b)
    case StopDoes(b) => DoStop(s, b)
    case SensorLeaves => s.(life := s.life.(sensor := SensorDone))
  }

  // A sequence of steps that can be taken from s, each from where the previous one led.
  predicate CanRun(s: State, steps: seq<Step>)
    decreases |steps|
  {
    steps == [] || (Enabled(s, steps[0]) && CanRun(Next(s, steps[0]), steps[1..]))
  }

  function After(s: State, steps: seq<Step>): State
    requires CanRun(s, steps)
    decreases |steps|
  {
    if steps == [] then s else After(Next(s, steps[0]), steps[1..])
  }

  // Runs compose.
  lemma {:induction false} RunsCompose(s: State, a: seq<Step>, b: seq<Step>)
    requires CanRun(s, a) && CanRun(After(s, a), b)
    ensures CanRun(s, a + b) && After(s, a + b) == After(After(s, a), b)
    decreases |a|
  {
    if a == [] {
      assert a + b == b;
    } else {
      RunsCompose(Next(s, a[0]), a[1..], b);
      assert (a + b)[1..] == a[1..] + b;
    }
  }

  ghost predicate Reachable(s: State) {
    exists config, poolCapacity, queueCapacity, clients, steps ::
      ReachedBy(s, config, poolCapacity, queueCapacity, clients, steps)
  }

  predicate ReachedBy(
    s: State, config: ProtectionConfig, poolCapacity: nat, queueCapacity: nat, clients: set<nat>, steps: seq<Step>)
  {
    var init := Initial(config, poolCapacity, queueCapacity, clients);
    CanRun(init, steps) && After(init, steps) == s
  }
}
