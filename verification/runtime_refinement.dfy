// The runtime refines a log: events go in through `publish`, come out through the state machine, once
// each and in order.
module RuntimeRefinement {
  import opened Domain
  import opened MotorFsm
  import opened EdgeRuntime
  import opened RuntimeOwnership
  import opened RuntimeLifecycle
  import Pool = ObjectPool

  function Events(log: seq<Entry>): seq<Event> {
    seq(|log|, i requires 0 <= i < |log| => log[i].event)
  }

  function Queued(pool: Pool.Pool<Event>, items: seq<nat>): seq<Event> {
    seq(|items|, i requires 0 <= i < |items| => Deref(pool, items[i]))
  }

  function InFlight(pool: Pool.Pool<Event>, control: ControlPhase): seq<Event> {
    if control.Popped? then [Deref(pool, control.slot)] else []
  }

  // Everything ever pushed has been handled, or is in flight, or is queued, in that order.
  ghost predicate LogSplits(s: State) {
    Events(s.log.pushed) == s.log.handled + InFlight(s.pool, s.control) + Queued(s.pool, s.queue.items)
  }

  // A caller's handle still points to the event it was called with.
  ghost predicate HandlesTrue(s: State) {
    forall t, slot :: t in s.publishers && Holds(s.publishers[t].phase, slot) ==>
      Deref(s.pool, slot) == s.publishers[t].phase.event
  }

  ghost predicate Refines(s: State) {
    && LogSplits(s) && HandlesTrue(s)
    && s.machine == Run(s.config, INITIAL, s.log.handled)
  }

  // A pool change that leaves the queued and popped events alone.
  lemma QueuedSame(pool: Pool.Pool<Event>, pool': Pool.Pool<Event>, items: seq<nat>)
    requires forall i :: 0 <= i < |items| ==> Deref(pool', items[i]) == Deref(pool, items[i])
    ensures Queued(pool', items) == Queued(pool, items)
  {
  }

  // Creation writes no slot that has an owner.
  lemma CreateSparesOwned(s: State, t: Thread)
    requires UniquelyOwned(s) && PublishEnabled(s, t, Create)
    ensures forall o, slot :: Owns(s, o, slot) ==>
              Deref(DoPublish(s, t, Create).pool, slot) == Deref(s.pool, slot)
  {
    Pool.CreateIsSound(s.pool, s.publishers[t].phase.event);
    forall o, slot | Owns(s, o, slot)
      ensures Deref(DoPublish(s, t, Create).pool, slot) == Deref(s.pool, slot)
    {
      assert slot in s.pool.objects;
    }
  }

  lemma CreateKeepsHandles(s: State, t: Thread)
    requires UniquelyOwned(s) && HandlesTrue(s) && PublishEnabled(s, t, Create)
    ensures HandlesTrue(DoPublish(s, t, Create))
  {
    PublishEffect(s, t, Create);
    CreateSparesOwned(s, t);
    assert forall u, slot :: u in s.publishers && u != t && Holds(s.publishers[u].phase, slot) ==> Owns(s, Caller(u), slot);
  }

  lemma CreateKeepsEvents(s: State, t: Thread)
    requires UniquelyOwned(s) && Refines(s) && PublishEnabled(s, t, Create)
    ensures Refines(DoPublish(s, t, Create))
  {
    CreateKeepsHandles(s, t);
    CreateSparesOwned(s, t);
    OwnedEventsStay(s, DoPublish(s, t, Create).pool);
  }

  // What the ring and the control loop own keeps its event, so the log still splits.
  lemma OwnedEventsStay(s: State, pool': Pool.Pool<Event>)
    requires forall i :: 0 <= i < |s.queue.items| && Owns(s, Cell(i), s.queue.items[i]) ==>
               Deref(pool', s.queue.items[i]) == Deref(s.pool, s.queue.items[i])
    requires s.control.Popped? && Owns(s, ControlLoop, s.control.slot) ==>
               Deref(pool', s.control.slot) == Deref(s.pool, s.control.slot)
    ensures Queued(pool', s.queue.items) == Queued(s.pool, s.queue.items)
    ensures InFlight(pool', s.control) == InFlight(s.pool, s.control)
  {
    assert forall i :: 0 <= i < |s.queue.items| ==> Owns(s, Cell(i), s.queue.items[i]);
  }

  lemma PushExtendsLog(s: State, t: Thread)
    requires UniquelyOwned(s) && Refines(s) && PublishEnabled(s, t, FinishPush)
    ensures Refines(DoPublish(s, t, FinishPush))
  {
    var s', slot := DoPublish(s, t, FinishPush), s.publishers[t].phase.slot;
    PushEffect(s, t);
    PublishEffect(s, t, FinishPush);
    assert Holds(s.publishers[t].phase, slot);
    PushSplitsLog(s, t);
    assert HandlesTrue(s');
  }

  // A push adds the caller's event at the end of the log and of the queue.
  lemma PushSplitsLog(s: State, t: Thread)
    requires LogSplits(s) && HandlesTrue(s) && PublishEnabled(s, t, FinishPush)
    ensures LogSplits(DoPublish(s, t, FinishPush))
  {
    var s', slot := DoPublish(s, t, FinishPush), s.publishers[t].phase.slot;
    assert Holds(s.publishers[t].phase, slot);
    if s'.publishers[t].phase.Accepted? {
      assert Queued(s.pool, s'.queue.items) == Queued(s.pool, s.queue.items) + [Deref(s.pool, slot)];
      assert Events(s'.log.pushed) == Events(s.log.pushed) + [s.publishers[t].phase.event];
    }
  }

  // Releasing one owner's slot leaves every other owner's event in place.
  lemma ReleaseKeepsEvents(s: State, s': State, o: Owner, slot: nat)
    requires UniquelyOwned(s) && Refines(s) && Owns(s, o, slot) && (o.ControlLoop? || o.Caller?)
    requires s'.pool == Pool.Destroy(s.pool, slot).0
    requires s'.queue == s.queue && s'.log == s.log && s'.machine == s.machine && s'.config == s.config
    requires o.ControlLoop? ==> !s.control.Popped? && !s'.control.Popped? && s'.publishers == s.publishers
    requires o.Caller? ==> s'.control == s.control && s'.publishers.Keys == s.publishers.Keys
                           && !s'.publishers[o.thread].phase.Refused? && !s'.publishers[o.thread].phase.Holding?
                           && forall u :: u in s.publishers && u != o.thread ==> s'.publishers[u] == s.publishers[u]
    ensures Refines(s')
  {
    forall q, k | Owns(s, q, k) && q != o
      ensures Deref(s'.pool, k) == Deref(s.pool, k)
    {
      assert k != slot;
    }
    forall i | 0 <= i < |s.queue.items|
      ensures Deref(s'.pool, s.queue.items[i]) == Deref(s.pool, s.queue.items[i])
    {
      assert Owns(s, Cell(i), s.queue.items[i]);
    }
    QueuedSame(s.pool, s'.pool, s.queue.items);
    if s.control.Popped? {
      assert Owns(s, ControlLoop, s.control.slot);
    }
    forall u, k | u in s'.publishers && Holds(s'.publishers[u].phase, k)
      ensures Deref(s'.pool, k) == s'.publishers[u].phase.event
    {
      assert Owns(s, Caller(u), k);
    }
  }

  lemma TakeSplitsLog(s: State)
    requires Refines(s) && ControlEnabled(s, Take)
    ensures Refines(DoControl(s, Take))
  {
    var s' := DoControl(s, Take);
    if s.queue.items != [] {
      assert s.queue.items == [s.queue.items[0]] + s'.queue.items;
      assert Queued(s.pool, s.queue.items) == [Deref(s.pool, s.queue.items[0])] + Queued(s.pool, s'.queue.items);
    }
  }

  lemma HandleConsumesLog(s: State)
    requires Refines(s) && ControlEnabled(s, HandleEvent)
    ensures Refines(DoControl(s, HandleEvent))
  {
    RunSnoc(s.config, INITIAL, s.log.handled, Deref(s.pool, s.control.slot));
  }

  lemma PublishRefines(s: State, t: Thread, p: PublishStep)
    requires UniquelyOwned(s) && Refines(s) && PublishEnabled(s, t, p)
    ensures Refines(DoPublish(s, t, p))
  {
    match p {
      case Enter(_) =>
      case Create => CreateKeepsEvents(s, t);
      case FinishPush => PushExtendsLog(s, t);
      case ReleaseRefused => ReleaseKeepsEvents(s, DoPublish(s, t, p), Caller(t), s.publishers[t].phase.slot);
      case RecordOutcome =>
    }
  }

  lemma ControlRefines(s: State, c: ControlStep)
    requires UniquelyOwned(s) && Refines(s) && ControlEnabled(s, c)
    ensures Refines(DoControl(s, c))
  {
    match c {
      case Take => TakeSplitsLog(s);
      case HandleEvent => HandleConsumesLog(s);
      case RecordProcessed(_) =>
      case RecordTransition =>
      case ReleaseEvent => ReleaseKeepsEvents(s, DoControl(s, c), ControlLoop, s.control.slot);
    }
  }

  // ----- Program order --------------------------------------------------------------------------------

  function EventsBy(log: seq<Entry>, t: Thread): seq<Event> {
    if log == [] then []
    else
      var last := log[|log| - 1];
      EventsBy(log[..|log| - 1], t) + if last.thread == t then [last.event] else []
  }

  function PublishedCalls(calls: seq<Call>): seq<Event> {
    if calls == [] then []
    else
      var last := calls[|calls| - 1];
      PublishedCalls(calls[..|calls| - 1]) + if last.result == Published then [last.event] else []
  }

  function Posting(phase: PublishPhase): seq<Event> {
    if phase.Accepted? then [phase.event] else []
  }

  // A thread's entries in the log are its published calls in program order, plus the one whose call
  // has pushed but not yet returned.
  predicate Accounted(log: seq<Entry>, t: Thread, p: Publisher) {
    EventsBy(log, t) == PublishedCalls(p.returned) + Posting(p.phase)
  }

  // No call ever reports `queue_full`, and what is refused is not reported as published.
  predicate Truthful(p: Publisher) {
    && ((p.phase.Refused? || p.phase.Dropping?) ==> p.phase.result != Published && p.phase.result != QueueFull)
    && (forall i :: 0 <= i < |p.returned| ==> p.returned[i].result != QueueFull)
  }

  ghost predicate InProgramOrder(s: State) {
    forall t :: t in s.publishers ==> Accounted(s.log.pushed, t, s.publishers[t]) && Truthful(s.publishers[t])
  }

  lemma EventsBySnoc(log: seq<Entry>, entry: Entry, t: Thread)
    ensures EventsBy(log + [entry], t) == EventsBy(log, t) + if entry.thread == t then [entry.event] else []
  {
    assert (log + [entry])[..|log + [entry]| - 1] == log;
  }

  lemma PublishedSnoc(calls: seq<Call>, c: Call)
    ensures PublishedCalls(calls + [c]) == PublishedCalls(calls) + if c.result == Published then [c.event] else []
  {
    assert (calls + [c])[..|calls + [c]| - 1] == calls;
  }

  lemma PublishStaysTruthful(s: State, t: Thread, p: PublishStep)
    requires PublishEnabled(s, t, p) && Truthful(s.publishers[t])
    ensures Truthful(DoPublish(s, t, p).publishers[t])
  {
  }

  lemma ReturnAccounts(log: seq<Entry>, t: Thread, p: Publisher, c: Call)
    requires Accounted(log, t, p)
    requires if p.phase.Accepted? then c == Call(p.phase.event, Published) else c.result != Published
    ensures Accounted(log, t, Publisher(Idle, p.returned + [c]))
  {
    PublishedSnoc(p.returned, c);
  }

  lemma PushAccounts(log: seq<Entry>, t: Thread, p: Publisher, e: Event)
    requires Accounted(log, t, p) && !p.phase.Accepted?
    ensures Accounted(log + [Entry(t, e)], t, p.(phase := Accepted(e)))
  {
    EventsBySnoc(log, Entry(t, e), t);
  }

  lemma PublishAccounts(s: State, t: Thread, p: PublishStep)
    requires PublishEnabled(s, t, p) && Truthful(s.publishers[t]) && Accounted(s.log.pushed, t, s.publishers[t])
    ensures var s' := DoPublish(s, t, p); Accounted(s'.log.pushed, t, s'.publishers[t])
  {
    var from := s.publishers[t];
    match p {
      case Enter(e) => ReturnAccounts(s.log.pushed, t, from, Call(e, NotRunning));
      case Create =>
      case FinishPush => PushAccounts(s.log.pushed, t, from, from.phase.event);
      case ReleaseRefused =>
      case RecordOutcome => OutcomeAccounts(s, t);
    }
  }

  lemma OutcomeAccounts(s: State, t: Thread)
    requires PublishEnabled(s, t, RecordOutcome) && Truthful(s.publishers[t])
    requires Accounted(s.log.pushed, t, s.publishers[t])
    ensures var s' := DoPublish(s, t, RecordOutcome); Accounted(s'.log.pushed, t, s'.publishers[t])
  {
    var from := s.publishers[t];
    if from.phase.Accepted? {
      ReturnAccounts(s.log.pushed, t, from, Call(from.phase.event, Published));
    } else {
      ReturnAccounts(s.log.pushed, t, from, Call(from.phase.event, from.phase.result));
    }
  }

  lemma PublishExtendsLogByOwn(s: State, t: Thread, p: PublishStep, u: Thread)
    requires PublishEnabled(s, t, p) && u != t
    ensures EventsBy(DoPublish(s, t, p).log.pushed, u) == EventsBy(s.log.pushed, u)
  {
    if p == FinishPush {
      EventsBySnoc(s.log.pushed, Entry(t, s.publishers[t].phase.event), u);
    }
  }

  lemma PublishKeepsOrder(s: State, t: Thread, p: PublishStep)
    requires InProgramOrder(s) && PublishEnabled(s, t, p)
    ensures InProgramOrder(DoPublish(s, t, p))
  {
    var s' := DoPublish(s, t, p);
    PublishEffect(s, t, p);
    PublishStaysTruthful(s, t, p);
    PublishAccounts(s, t, p);
    forall u | u in s'.publishers && u != t
      ensures Accounted(s'.log.pushed, u, s'.publishers[u])
    {
      PublishExtendsLogByOwn(s, t, p, u);
      assert Accounted(s.log.pushed, u, s.publishers[u]);
    }
  }
}
