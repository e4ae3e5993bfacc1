// Conservation across the pool, the queue, the metrics and the callers inside `publish`.
module RuntimeAccounting {
  import opened Domain
  import opened MotorFsm
  import opened EdgeRuntime
  import opened RuntimeOwnership
  import opened RuntimeLifecycle
  import opened Counting
  import Pool = ObjectPool
  import Metrics = RuntimeMetrics
  import Protection = ProtectionRuns

  // ----- Counting callers by where they are in publish -----------------------------------------------

  datatype Place =
    | Inside      // anywhere past the gate
    | Possessing  // owning a pooled event
    | Offering    // owning it and not yet through the queue
    | Failing     // refused or exhausted, drop not yet recorded
    | Succeeding  // pushed, publication not yet recorded
    | Entering    // past the gate, without an event yet
    | Rejected    // refused by the queue, still owning the event
    | Discarding  // owning nothing, drop not yet recorded

  predicate At(p: Publisher, place: Place) {
    match place
    case Inside => !p.phase.Idle?
    case Possessing => p.phase.Holding? || p.phase.Refused?
    case Offering => p.phase.Holding?
    case Failing => p.phase.Refused? || p.phase.Dropping?
    case Succeeding => p.phase.Accepted?
    case Entering => p.phase.Admitted?
    case Rejected => p.phase.Refused?
    case Discarding => p.phase.Dropping?
  }

  function Callers(publishers: map<Thread, Publisher>, place: Place): set<Thread> {
    set t | t in publishers && At(publishers[t], place)
  }

  function N(s: State, place: Place): nat {
    |Callers(s.publishers, place)|
  }

  lemma CallersUpdate(publishers: map<Thread, Publisher>, t: Thread, p: Publisher, place: Place)
    requires t in publishers
    ensures |Callers(publishers[t := p], place)|
            == |Callers(publishers, place)| - One(At(publishers[t], place)) + One(At(p, place))
  {
    var before, after := Callers(publishers, place), Callers(publishers[t := p], place);
    assert after - {t} == before - {t};
    CardinalityUpdate(before, after, t);
  }

  // ----- The balances ---------------------------------------------------------------------------------

  // Calls and their outcomes.
  predicate CallsBalance(s: State) {
    && s.log.admitted == s.counts.published + s.counts.dropped + N(s, Inside)
    && s.queue.stats.pushed == s.counts.published + N(s, Succeeding)
    && s.pool.stats.failures + s.queue.stats.pushTimeouts + s.log.closedRejections
       == s.counts.dropped + N(s, Failing)
    && s.pool.stats.allocations
       == s.queue.stats.pushed + s.queue.stats.pushTimeouts + s.log.closedRejections + N(s, Offering)
  }

  // The number of state changes the machine makes over a sequence of events.
  function Changes(config: ProtectionConfig, es: seq<Event>): nat {
    if es == [] then 0
    else
      var before := Run(config, INITIAL, es[..|es| - 1]);
      Changes(config, es[..|es| - 1]) + One(Handle(config, before, es[|es| - 1]).0.state != before.state)
  }

  // The queue, the control loop and what it records.
  ghost predicate FlowBalance(s: State) {
    && s.queue.stats.pushed == |s.log.pushed| == s.queue.stats.popped + |s.queue.items|
    && s.queue.stats.rejectedFull == 0
    && s.queue.stats.popped == |s.log.handled| + One(s.control.Popped?)
    && |s.log.handled| == s.counts.processed + One(s.control.Handled?)
    && s.counts.processed == |s.log.latencies|
    && s.counts.maxLatency == Metrics.Largest(s.log.latencies)
    && Changes(s.config, s.log.handled)
       == s.counts.transitions + One((s.control.Handled? || s.control.Recorded?) && s.control.changed)
  }

  // ----- Preservation ----------------------------------------------------------------------------------

  lemma CallersStep(s: State, t: Thread, p: PublishStep, place: Place)
    requires PublishEnabled(s, t, p)
    ensures var s' := DoPublish(s, t, p);
            N(s', place) == N(s, place) - One(At(s.publishers[t], place)) + One(At(s'.publishers[t], place))
  {
    PublishEffect(s, t, p);
    CallersUpdate(s.publishers, t, DoPublish(s, t, p).publishers[t], place);
  }

  lemma PublishBalances(s: State, t: Thread, p: PublishStep)
    requires CallsBalance(s) && PublishEnabled(s, t, p)
    ensures CallsBalance(DoPublish(s, t, p))
  {
    CallersStep(s, t, p, Inside);
    CallersStep(s, t, p, Offering);
    CallersStep(s, t, p, Failing);
    CallersStep(s, t, p, Succeeding);
  }

  lemma PublishKeepsFlow(s: State, t: Thread, p: PublishStep)
    requires FlowBalance(s) && PublishEnabled(s, t, p)
    ensures FlowBalance(DoPublish(s, t, p))
  {
    PublishEffect(s, t, p);
  }

  lemma ControlBalances(s: State, c: ControlStep)
    requires CallsBalance(s) && ControlEnabled(s, c)
    ensures CallsBalance(DoControl(s, c))
  {
  }

  lemma ChangesSnoc(config: ProtectionConfig, es: seq<Event>, e: Event)
    ensures var before := Run(config, INITIAL, es);
            Changes(config, es + [e]) == Changes(config, es) + One(Handle(config, before, e).1.changed)
  {
    assert (es + [e])[..|es + [e]| - 1] == es;
    assert (es + [e])[|es + [e]| - 1] == e;
    Protection.TransitionsFollowDiagram(config, Run(config, INITIAL, es), e);
  }

  lemma LargestSnoc(ls: seq<nat>, l: nat)
    ensures Metrics.Largest(ls + [l]) == if l > Metrics.Largest(ls) then l else Metrics.Largest(ls)
  {
    assert (ls + [l])[..|ls + [l]| - 1] == ls;
  }

  lemma ControlKeepsFlow(s: State, c: ControlStep)
    requires FlowBalance(s) && ControlEnabled(s, c)
    requires s.machine == Run(s.config, INITIAL, s.log.handled)
    ensures FlowBalance(DoControl(s, c))
  {
    match c {
      case HandleEvent => ChangesSnoc(s.config, s.log.handled, Deref(s.pool, s.control.slot));
      case RecordProcessed(l) => LargestSnoc(s.log.latencies, l);
      case Take =>
      case RecordTransition =>
      case ReleaseEvent =>
    }
  }

  // ----- Slots in use -----------------------------------------------------------------------------------

  function Elements(xs: seq<nat>): set<nat> {
    set x | x in xs
  }

  lemma {:induction false} DistinctCount(xs: seq<nat>)
    requires Pool.Distinct(xs)
    ensures |Elements(xs)| == |xs|
    decreases |xs|
  {
    if xs != [] {
      var front, last := xs[..|xs| - 1], xs[|xs| - 1];
      DistinctCount(front);
      assert xs == front + [last];
      assert Elements(xs) == Elements(front) + {last};
      assert last !in front;
    }
  }

  function SlotOf(phase: PublishPhase): nat {
    if phase.Holding? || phase.Refused? then phase.slot else 0
  }

  function SlotsOf(publishers: map<Thread, Publisher>, ts: set<Thread>): set<nat>
    requires ts <= publishers.Keys
  {
    set t | t in ts :: SlotOf(publishers[t].phase)
  }

  lemma {:induction false} SlotsCount(s: State, ts: set<Thread>)
    requires NoSharing(s) && ts <= Callers(s.publishers, Possessing)
    ensures |SlotsOf(s.publishers, ts)| == |ts|
    decreases |ts|
  {
    if ts != {} {
      var t :| t in ts;
      var rest, slot := ts - {t}, SlotOf(s.publishers[t].phase);
      SlotsCount(s, rest);
      assert Owns(s, Caller(t), slot);
      forall u | u in rest ensures SlotOf(s.publishers[u].phase) != slot {
        assert Owns(s, Caller(u), SlotOf(s.publishers[u].phase));
      }
      assert SlotsOf(s.publishers, ts) == SlotsOf(s.publishers, rest) + {slot};
      assert |ts| == |rest| + 1;
    }
  }

  predicate ControlHas(c: ControlPhase) {
    c.Popped? || c.Handled? || c.Recorded? || c.Releasing?
  }

  function ControlSlots(c: ControlPhase): set<nat> {
    if ControlHas(c) then {c.slot} else {}
  }

  lemma CellsAreOwned(s: State, k: nat) returns (o: Owner)
    requires k in Elements(s.queue.items)
    ensures o.Cell? && Owns(s, o, k)
  {
    var i :| 0 <= i < |s.queue.items| && s.queue.items[i] == k;
    o := Cell(i);
  }

  lemma HeldAreOwned(s: State, k: nat) returns (o: Owner)
    requires k in SlotsOf(s.publishers, Callers(s.publishers, Possessing))
    ensures o.Caller? && Owns(s, o, k)
  {
    var t :| t in Callers(s.publishers, Possessing) && SlotOf(s.publishers[t].phase) == k;
    o := Caller(t);
  }

  // The three kinds of owners share nothing and together own every live object.
  lemma OwnersAreApart(s: State)
    requires NoSharing(s)
    ensures Elements(s.queue.items) !! SlotsOf(s.publishers, Callers(s.publishers, Possessing))
    ensures Elements(s.queue.items) !! ControlSlots(s.control)
    ensures SlotsOf(s.publishers, Callers(s.publishers, Possessing)) !! ControlSlots(s.control)
  {
    forall k | k in Elements(s.queue.items)
      ensures k !in SlotsOf(s.publishers, Callers(s.publishers, Possessing)) && k !in ControlSlots(s.control)
    {
      var o := CellsAreOwned(s, k);
      if k in SlotsOf(s.publishers, Callers(s.publishers, Possessing)) {
        var o' := HeldAreOwned(s, k);
        assert false;
      }
      if k in ControlSlots(s.control) {
        assert Owns(s, ControlLoop, k);
        assert false;
      }
    }
    forall k | k in SlotsOf(s.publishers, Callers(s.publishers, Possessing))
      ensures k !in ControlSlots(s.control)
    {
      var o := HeldAreOwned(s, k);
      if k in ControlSlots(s.control) {
        assert Owns(s, ControlLoop, k);
        assert false;
      }
    }
  }

  lemma OwnersCover(s: State)
    requires NoDangling(s) && NoLeak(s)
    ensures s.pool.objects.Keys == Elements(s.queue.items)
              + SlotsOf(s.publishers, Callers(s.publishers, Possessing)) + ControlSlots(s.control)
  {
    var all := Elements(s.queue.items)
               + SlotsOf(s.publishers, Callers(s.publishers, Possessing)) + ControlSlots(s.control);
    forall k | k in all ensures k in s.pool.objects {
      if k in Elements(s.queue.items) {
        var o := CellsAreOwned(s, k);
      } else if k in ControlSlots(s.control) {
        assert Owns(s, ControlLoop, k);
      } else {
        var o := HeldAreOwned(s, k);
      }
    }
    forall k | k in s.pool.objects ensures k in all {
      var o :| Owns(s, o, k);
      match o {
        case Caller(t) =>
          assert t in Callers(s.publishers, Possessing);
          assert SlotOf(s.publishers[t].phase) == k;
        case Cell(i) => assert s.queue.items[i] in s.queue.items;
        case ControlLoop =>
      }
    }
  }

  // Slots in use: one per queued event, one per caller owning an event, one for the control loop.
  lemma InUseIsOwners(s: State)
    requires UniquelyOwned(s)
    ensures s.pool.stats.inUse == |s.queue.items| + N(s, Possessing) + One(ControlHas(s.control))
  {
    var callers := Callers(s.publishers, Possessing);
    forall i, j | 0 <= i < j < |s.queue.items| ensures s.queue.items[i] != s.queue.items[j] {
      assert Owns(s, Cell(i), s.queue.items[i]) && Owns(s, Cell(j), s.queue.items[j]);
    }
    DistinctCount(s.queue.items);
    SlotsCount(s, callers);
    OwnersAreApart(s);
    OwnersCover(s);
    assert |s.pool.objects| == |s.pool.objects.Keys|;
  }
}
