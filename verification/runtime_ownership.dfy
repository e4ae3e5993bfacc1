// Who owns which pooled event, in every reachable state of the runtime.
module RuntimeOwnership {
  import opened Domain
  import opened MotorFsm
  import opened EdgeRuntime
  import Pool = ObjectPool

  // A handle lives in a publisher's call, in a cell of the ring, or in the control loop.
  datatype Owner = Caller(thread: Thread) | Cell(index: nat) | ControlLoop

  predicate Holds(phase: PublishPhase, slot: nat) {
    (phase.Holding? || phase.Refused?) && phase.slot == slot
  }

  predicate ControlHolds(c: ControlPhase, slot: nat) {
    (c.Popped? || c.Handled? || c.Recorded? || c.Releasing?) && c.slot == slot
  }

  predicate Owns(s: State, o: Owner, slot: nat) {
    match o
    case Caller(t) => t in s.publishers && Holds(s.publishers[t].phase, slot)
    case Cell(i) => i < |s.queue.items| && s.queue.items[i] == slot
    case ControlLoop => ControlHolds(s.control, slot)
  }

  ghost predicate NoDangling(s: State) {
    forall o, slot :: Owns(s, o, slot) ==> slot in s.pool.objects
  }

  ghost predicate NoSharing(s: State) {
    forall o, o', slot :: Owns(s, o, slot) && Owns(s, o', slot) ==> o == o'
  }

  ghost predicate NoLeak(s: State) {
    forall slot :: slot in s.pool.objects ==> exists o :: Owns(s, o, slot)
  }

  // Every occupied slot has exactly one owner, and only occupied slots have one; no release ever
  // named a free or foreign slot.
  ghost predicate UniquelyOwned(s: State) {
    && Pool.Sound(s.pool)
    && s.pool.stats.invalidReleases == 0
    && NoDangling(s) && NoSharing(s) && NoLeak(s)
  }

  // Steps that move no handle.
  lemma SameOwners(s: State, s': State)
    requires UniquelyOwned(s) && s'.pool == s.pool
    requires forall o, slot :: Owns(s', o, slot) <==> Owns(s, o, slot)
    ensures UniquelyOwned(s')
  {
    forall slot | slot in s'.pool.objects ensures exists o :: Owns(s', o, slot) {
      var o :| Owns(s, o, slot);
      assert Owns(s', o, slot);
    }
  }

  lemma CreateOwns(s: State, t: Thread)
    requires UniquelyOwned(s) && PublishEnabled(s, t, Create)
    ensures UniquelyOwned(DoPublish(s, t, Create))
  {
    var s' := DoPublish(s, t, Create);
    var (_, created) := Pool.TryCreate(s.pool, s.publishers[t].phase.event);
    Pool.CreateIsSound(s.pool, s.publishers[t].phase.event);
    assert forall o, slot :: o != Caller(t) ==> (Owns(s', o, slot) <==> Owns(s, o, slot));
    assert forall slot :: !Owns(s, Caller(t), slot);
    assert forall slot: nat :: Owns(s', Caller(t), slot) <==> created == Some(slot);
    forall slot | slot in s'.pool.objects ensures exists o :: Owns(s', o, slot) {
      if created == Some(slot) {
        assert Owns(s', Caller(t), slot);
      } else {
        var o :| Owns(s, o, slot);
        assert Owns(s', o, slot);
      }
    }
  }

  // One handle changes hands.
  lemma HandleMoves(s: State, s': State, from: Owner, to: Owner)
    requires UniquelyOwned(s) && s'.pool == s.pool && from != to
    requires forall k :: !Owns(s', from, k) && !Owns(s, to, k)
    requires forall k :: Owns(s', to, k) <==> Owns(s, from, k)
    requires forall o, k :: o != from && o != to ==> (Owns(s', o, k) <==> Owns(s, o, k))
    ensures UniquelyOwned(s')
  {
    forall slot | slot in s'.pool.objects ensures exists o :: Owns(s', o, slot) {
      var o :| Owns(s, o, slot);
      assert Owns(s', if o == from then to else o, slot);
    }
  }

  // A push moves the handle from the caller to the last cell; a refusal moves nothing.
  lemma PushTransfers(s: State, t: Thread)
    requires UniquelyOwned(s) && PublishEnabled(s, t, FinishPush)
    ensures UniquelyOwned(DoPublish(s, t, FinishPush))
  {
    var s', slot := DoPublish(s, t, FinishPush), s.publishers[t].phase.slot;
    PushEffect(s, t);
    if s'.publishers[t].phase.Accepted? {
      PushMoves(s, s', t, slot);
    } else {
      RefusalMovesNothing(s, s', t, slot);
    }
  }

  lemma PushEffect(s: State, t: Thread)
    requires PublishEnabled(s, t, FinishPush)
    ensures var s', slot := DoPublish(s, t, FinishPush), s.publishers[t].phase.slot;
            && s'.pool == s.pool && s'.control == s.control
            && s'.publishers.Keys == s.publishers.Keys
            && (forall u :: u in s.publishers && u != t ==> s'.publishers[u].phase == s.publishers[u].phase)
            && if s'.publishers[t].phase.Accepted? then s'.queue.items == s.queue.items + [slot]
               else Holds(s'.publishers[t].phase, slot) && s'.queue.items == s.queue.items
  {
  }

  lemma RefusalMovesNothing(s: State, s': State, t: Thread, slot: nat)
    requires UniquelyOwned(s) && s'.pool == s.pool && s'.control == s.control
    requires t in s.publishers && Holds(s.publishers[t].phase, slot)
    requires s'.publishers.Keys == s.publishers.Keys
    requires forall u :: u in s.publishers && u != t ==> s'.publishers[u].phase == s.publishers[u].phase
    requires Holds(s'.publishers[t].phase, slot)
    requires s'.queue.items == s.queue.items
    ensures UniquelyOwned(s')
  {
    SameOwners(s, s');
  }

  lemma PushMoves(s: State, s': State, t: Thread, slot: nat)
    requires UniquelyOwned(s) && s'.pool == s.pool && s'.control == s.control
    requires t in s.publishers && Holds(s.publishers[t].phase, slot)
    requires s'.publishers.Keys == s.publishers.Keys
    requires forall u :: u in s.publishers && u != t ==> s'.publishers[u].phase == s.publishers[u].phase
    requires s'.publishers[t].phase.Accepted?
    requires s'.queue.items == s.queue.items + [slot]
    ensures UniquelyOwned(s')
  {
    HandleMoves(s, s', Caller(t), Cell(|s.queue.items|));
  }

  // A pop moves the handle from the first cell to the control loop and renumbers the others.
  lemma TakeTransfers(s: State)
    requires UniquelyOwned(s) && ControlEnabled(s, Take)
    ensures UniquelyOwned(DoControl(s, Take))
  {
    var s' := DoControl(s, Take);
    if s.queue.items == [] {
      SameOwners(s, s');
    } else {
      var moved := s.queue.items[0];
      assert Owns(s, Cell(0), moved);
      assert forall slot :: !Owns(s, ControlLoop, slot);
      assert forall slot :: Owns(s', ControlLoop, slot) <==> slot == moved;
      assert forall i: nat, slot :: Owns(s', Cell(i), slot) <==> Owns(s, Cell(i + 1), slot);
      assert forall t, slot :: Owns(s', Caller(t), slot) <==> Owns(s, Caller(t), slot);
      forall o, o', slot | Owns(s', o, slot) && Owns(s', o', slot)
        ensures o == o'
      {
        assert Owns(s, Before(o), slot) && Owns(s, Before(o'), slot);
      }
      forall o, slot | Owns(s', o, slot) ensures slot in s'.pool.objects {
        assert Owns(s, Before(o), slot);
      }
      forall slot | slot in s'.pool.objects ensures exists o :: Owns(s', o, slot) {
        var o :| Owns(s, o, slot);
        if o.Cell? {
          assert Owns(s', if o.index == 0 then ControlLoop else Cell(o.index - 1), slot);
        } else {
          assert Owns(s', o, slot);
        }
      }
    }
  }

  // The owner, before a pop, of what o owns after it.
  function Before(o: Owner): Owner {
    match o
    case Cell(i) => Cell(i + 1)
    case ControlLoop => Cell(0)
    case Caller(_) => o
  }

  // Releasing an owned slot takes it away from its one owner.
  lemma ReleaseDisowns(s: State, s': State, o: Owner, slot: nat)
    requires UniquelyOwned(s) && Owns(s, o, slot)
    requires s'.pool == Pool.Destroy(s.pool, slot).0
    requires forall k :: !Owns(s', o, k)
    requires forall q, k :: q != o ==> (Owns(s', q, k) <==> Owns(s, q, k))
    ensures UniquelyOwned(s')
  {
    Pool.DestroyIsSound(s.pool, slot);
    forall k | k in s'.pool.objects ensures exists q :: Owns(s', q, k) {
      var q :| Owns(s, q, k);
      assert q != o;
      assert Owns(s', q, k);
    }
  }

  // A caller that owned nothing and owns nothing.
  lemma EmptyHandedMove(s: State, s': State, t: Thread)
    requires UniquelyOwned(s) && s'.pool == s.pool && s'.control == s.control && s'.queue == s.queue
    requires t in s.publishers && s'.publishers.Keys == s.publishers.Keys
    requires forall u :: u in s.publishers && u != t ==> s'.publishers[u] == s.publishers[u]
    requires forall k :: !Holds(s.publishers[t].phase, k) && !Holds(s'.publishers[t].phase, k)
    ensures UniquelyOwned(s')
  {
    SameOwners(s, s');
  }

  lemma RefusedGivesBack(s: State, s': State, t: Thread, slot: nat)
    requires UniquelyOwned(s) && s'.pool == Pool.Destroy(s.pool, slot).0
    requires s'.control == s.control && s'.queue == s.queue
    requires t in s.publishers && s'.publishers.Keys == s.publishers.Keys
    requires forall u :: u in s.publishers && u != t ==> s'.publishers[u] == s.publishers[u]
    requires Holds(s.publishers[t].phase, slot) && forall k :: !Holds(s'.publishers[t].phase, k)
    ensures UniquelyOwned(s')
  {
    ReleaseDisowns(s, s', Caller(t), slot);
  }

  lemma PublishKeepsOwnership(s: State, t: Thread, p: PublishStep)
    requires UniquelyOwned(s) && PublishEnabled(s, t, p)
    ensures UniquelyOwned(DoPublish(s, t, p))
  {
    match p {
      case Enter(_) => EmptyHandedMove(s, DoPublish(s, t, p), t);
      case Create => CreateOwns(s, t);
      case FinishPush => PushTransfers(s, t);
      case ReleaseRefused => RefusedGivesBack(s, DoPublish(s, t, p), t, s.publishers[t].phase.slot);
      case RecordOutcome => EmptyHandedMove(s, DoPublish(s, t, p), t);
    }
  }

  lemma ControlKeepsOwnership(s: State, c: ControlStep)
    requires UniquelyOwned(s) && ControlEnabled(s, c)
    ensures UniquelyOwned(DoControl(s, c))
  {
    match c {
      case Take => TakeTransfers(s);
      case ReleaseEvent => ReleaseDisowns(s, DoControl(s, c), ControlLoop, s.control.slot);
      case _ => SameOwners(s, DoControl(s, c));
    }
  }

  // `start` spawns the control loop where there was none; nothing else in start and stop moves a handle.
  lemma LifecycleKeepsOwnership(s: State, s': State)
    requires UniquelyOwned(s) && s'.pool == s.pool
    requires s'.publishers == s.publishers && s'.queue.items == s.queue.items
    requires s'.control == s.control || (s.control == Unborn && s'.control == Waiting)
    ensures UniquelyOwned(s')
  {
    SameOwners(s, s');
  }
}
