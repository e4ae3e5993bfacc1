// The fixed object pool: a specification on values, the index-linked free list that refines it, and
// the move-only handle.
module ObjectPool {
  import opened Domain

  datatype ReleaseResult = Released | ForeignPointer | DoubleRelease

  datatype PoolStats = PoolStats(
    inUse: nat, highWatermark: nat, allocations: nat, releases: nat, failures: nat, invalidReleases: nat)

  // `objects` maps each occupied slot to its object; `free` lists the other slots, next one first.
  datatype Pool<T> = Pool(capacity: nat, objects: map<nat, T>, free: seq<nat>, stats: PoolStats)

  function Fresh<T>(capacity: nat): Pool<T> {
    Pool(capacity, map[], seq(capacity, i => i), PoolStats(0, 0, 0, 0, 0, 0))
  }

  function TryCreate<T>(p: Pool<T>, v: T): (Pool<T>, Option<nat>) {
    if p.free == [] then
      (p.(stats := p.stats.(failures := p.stats.failures + 1)), None)
    else
      var slot, used := p.free[0], p.stats.inUse + 1;
      (p.(objects := p.objects[slot := v],
          free := p.free[1..],
          stats := p.stats.(inUse := used,
                            allocations := p.stats.allocations + 1,
                            highWatermark := if used > p.stats.highWatermark then used else p.stats.highWatermark)),
       Some(slot))
  }

  // `slot` is the index found for the address being released; the capacity stands for "none".
  function Destroy<T>(p: Pool<T>, slot: nat): (Pool<T>, ReleaseResult) {
    if slot >= p.capacity then
      (p.(stats := p.stats.(invalidReleases := p.stats.invalidReleases + 1)), ForeignPointer)
    else if slot !in p.objects then
      (p.(stats := p.stats.(invalidReleases := p.stats.invalidReleases + 1)), DoubleRelease)
    else
      (p.(objects := p.objects - {slot},
          free := [slot] + p.free,
          stats := p.stats.(inUse := if p.stats.inUse > 0 then p.stats.inUse - 1 else 0,
                            releases := p.stats.releases + 1)),
       Released)
  }

  // ----- What every sequence of operations keeps --------------------------------------------------

  ghost predicate Distinct<A>(s: seq<A>) {
    forall i, j :: 0 <= i < j < |s| ==> s[i] != s[j]
  }

  // Free and occupied slots partition the pool, and the statistics count them.
  ghost predicate Sound<T>(p: Pool<T>) {
    && Distinct(p.free)
    && (forall k :: k in p.free ==> k < p.capacity)
    && (forall k :: k in p.objects ==> k < p.capacity)
    && (forall k :: 0 <= k < p.capacity ==> (k in p.objects <==> k !in p.free))
    && |p.objects| + |p.free| == p.capacity
    && p.stats.inUse == |p.objects|
    && p.stats.allocations == p.stats.releases + p.stats.inUse
  }

  lemma FreshIsSound<T>(capacity: nat)
    ensures Sound(Fresh<T>(capacity))
  {
    var p := Fresh<T>(capacity);
    forall k | 0 <= k < capacity ensures k in p.free {
      assert p.free[k] == k;
    }
  }

  // Creation takes a slot nobody uses, leaves every other object alone, and fails exactly when all
  // slots are occupied.
  lemma CreateIsSound<T>(p: Pool<T>, v: T)
    requires Sound(p)
    ensures var (p', slot) := TryCreate(p, v);
            && Sound(p')
            && (slot.None? <==> |p.objects| == p.capacity)
            && (slot.None? ==> p'.objects == p.objects && forall k :: 0 <= k < p.capacity ==> k in p.objects)
            && (slot.Some? ==> slot.value < p.capacity && slot.value !in p.objects
                               && p'.objects == p.objects[slot.value := v])
  {
    if p.free != [] {
      var p' := TryCreate(p, v).0;
      assert p.free == [p.free[0]] + p'.free;
      assert forall k :: k in p.free <==> k == p.free[0] || k in p'.free;
      assert p.free[0] !in p'.free;
      assert p'.objects.Keys == p.objects.Keys + {p.free[0]};
      assert |p'.objects| == |p.objects| + 1;
    }
  }

  // Destruction removes one live object, or classifies the address and changes no object.
  lemma DestroyIsSound<T>(p: Pool<T>, slot: nat)
    requires Sound(p)
    ensures var (p', r) := Destroy(p, slot);
            && Sound(p')
            && (r == Released <==> slot in p.objects)
            && (r == ForeignPointer <==> slot >= p.capacity)
            && p'.objects == p.objects - {slot}
            && p'.stats.invalidReleases == p.stats.invalidReleases + if r == Released then 0 else 1
  {
    var p' := Destroy(p, slot).0;
    if slot in p.objects {
      assert slot !in p.free;
      assert p'.objects.Keys == p.objects.Keys - {slot};
      assert |p'.objects| == |p.objects| - 1;
      assert forall i :: 0 < i < |p'.free| ==> p'.free[i] == p.free[i - 1];
    } else {
      assert p.objects - {slot} == p.objects;
    }
  }

  datatype Op<T> = Create(value: T) | Release(slot: nat)

  function Apply<T>(p: Pool<T>, op: Op<T>): Pool<T> {
    match op
    case Create(v) => TryCreate(p, v).0
    case Release(k) => Destroy(p, k).0
  }

  function RunOps<T>(capacity: nat, ops: seq<Op<T>>): Pool<T> {
    if ops == [] then Fresh(capacity) else Apply(RunOps(capacity, ops[..|ops| - 1]), ops[|ops| - 1])
  }

  function Creations<T>(ops: seq<Op<T>>): nat {
    if ops == [] then 0 else Creations(ops[..|ops| - 1]) + if ops[|ops| - 1].Create? then 1 else 0
  }

  // The largest number of objects alive at once at any point of the run.
  function PeakUse<T>(capacity: nat, ops: seq<Op<T>>): nat {
    var now := |RunOps(capacity, ops).objects|;
    if ops == [] then now
    else var before := PeakUse(capacity, ops[..|ops| - 1]); if now > before then now else before
  }

  // After any sequence of creations and releases (valid, foreign or double) the pool is sound, and
  // the watermark is the historical maximum of objects in use; each operation is counted once, as a
  // success or as a failure.
  lemma {:induction false} SoundOverRuns<T>(capacity: nat, ops: seq<Op<T>>)
    ensures Sound(RunOps(capacity, ops)) && RunOps(capacity, ops).capacity == capacity
    ensures RunOps(capacity, ops).stats.highWatermark == PeakUse(capacity, ops)
    ensures var stats := RunOps(capacity, ops).stats;
            && stats.allocations + stats.failures == Creations(ops)
            && stats.releases + stats.invalidReleases == |ops| - Creations(ops)
    decreases |ops|
  {
    if ops == [] {
      FreshIsSound<T>(capacity);
    } else {
      var front := ops[..|ops| - 1];
      SoundOverRuns(capacity, front);
      match ops[|ops| - 1] {
        case Create(v) => CreateIsSound(RunOps(capacity, front), v);
        case Release(k) => DestroyIsSound(RunOps(capacity, front), k);
      }
      WatermarkCoversUse(capacity, front);
    }
  }

  // The slot released last is the first to be used again.
  lemma LastReleasedFirstReused<T>(p: Pool<T>, slot: nat, v: T)
    requires Sound(p) && slot in p.objects
    ensures var (p', created) := TryCreate(Destroy(p, slot).0, v);
            && created == Some(slot)
            && p'.objects == p.objects[slot := v] && p'.free == p.free
  {
    DestroyIsSound(p, slot);
    assert (p.objects - {slot})[slot := v] == p.objects[slot := v];
    assert ([slot] + p.free)[1..] == p.free;
  }

  // A fresh pool hands out its slots in order, the i-th creation getting slot i.
  lemma {:induction false} SlotsInOrder<T>(capacity: nat, vs: seq<T>)
    requires |vs| <= capacity
    ensures var p := RunOps(capacity, Creating(vs));
            && |p.free| == capacity - |vs| && (forall i :: 0 <= i < |p.free| ==> p.free[i] == |vs| + i)
            && (forall k: nat :: k in p.objects <==> k < |vs|)
            && (forall k :: 0 <= k < |vs| ==> p.objects[k] == vs[k])
    decreases |vs|
  {
    if vs != [] {
      SlotsInOrder(capacity, vs[..|vs| - 1]);
      assert Creating(vs)[..|vs| - 1] == Creating(vs[..|vs| - 1]);
    }
  }

  function Creating<T>(vs: seq<T>): (ops: seq<Op<T>>)
    ensures |ops| == |vs| && forall i :: 0 <= i < |ops| ==> ops[i] == Create(vs[i])
  {
    seq(|vs|, i requires 0 <= i < |vs| => Create(vs[i]))
  }

  lemma WatermarkCoversUse<T>(capacity: nat, ops: seq<Op<T>>)
    ensures |RunOps(capacity, ops).objects| <= PeakUse(capacity, ops)
  {
  }

  // ----- The free list in an array -----------------------------------------------------------------

  type Address = int

  const NULL: Address := 0

  datatype Slot<T> = Slot(next: nat, occupied: bool, storage: Option<T>)

  // The i-th slot of a list, or the sentinel past its end.
  function Link(free: seq<nat>, i: nat, sentinel: nat): nat {
    if i < |free| then free[i] else sentinel
  }

  // Following `next` from `head` walks through `free` and ends at the sentinel |cells|.
  ghost predicate Linked<T>(cells: seq<Slot<T>>, head: nat, free: seq<nat>) {
    && (forall i :: 0 <= i < |free| ==> free[i] < |cells|)
    && head == Link(free, 0, |cells|)
    && (forall i :: 0 <= i < |free| ==> cells[free[i]].next == Link(free, i + 1, |cells|))
  }

  // The slot reached after n links; the sentinel leads nowhere.
  function Follow<T>(cells: seq<Slot<T>>, head: nat, n: nat): nat {
    if n == 0 then head
    else var k := Follow(cells, head, n - 1); if k < |cells| then cells[k].next else k
  }

  lemma {:induction false} FollowLinks<T>(cells: seq<Slot<T>>, head: nat, free: seq<nat>, n: nat)
    requires Linked(cells, head, free) && n <= |free|
    ensures Follow(cells, head, n) == Link(free, n, |cells|)
  {
    if n > 0 {
      FollowLinks(cells, head, free, n - 1);
    }
  }

  ghost predicate Stored<T>(cells: seq<Slot<T>>) {
    forall k :: 0 <= k < |cells| ==> (cells[k].occupied <==> cells[k].storage.Some?)
  }

  ghost function Live<T>(cells: seq<Slot<T>>): map<nat, T>
    requires Stored(cells)
  {
    map k: nat | k < |cells| && cells[k].occupied :: cells[k].storage.value
  }

  lemma TakeCell<T>(cells: seq<Slot<T>>, head: nat, free: seq<nat>, v: T)
    requires Stored(cells) && Linked(cells, head, free) && Distinct(free) && free != []
    ensures var cells' := cells[head := Slot(|cells|, true, Some(v))];
            && Stored(cells') && Linked(cells', cells[head].next, free[1..])
            && Live(cells') == Live(cells)[head := v]
  {
    var cells', rest := cells[head := Slot(|cells|, true, Some(v))], free[1..];
    forall i | 0 <= i < |rest|
      ensures rest[i] < |cells| && cells'[rest[i]].next == Link(rest, i + 1, |cells|)
    {
      assert rest[i] == free[i + 1] && free[i + 1] != free[0];
      assert cells[free[i + 1]].next == Link(free, i + 2, |cells|);
    }
    assert cells[free[0]].next == Link(free, 1, |cells|);
  }

  lemma ReturnCell<T>(cells: seq<Slot<T>>, head: nat, free: seq<nat>, k: nat)
    requires Stored(cells) && Linked(cells, head, free) && k < |cells| && k !in free
    ensures var cells' := cells[k := Slot(head, false, None)];
            && Stored(cells') && Linked(cells', k, [k] + free)
            && Live(cells') == Live(cells) - {k}
  {
    var cells', more := cells[k := Slot(head, false, None)], [k] + free;
    forall i | 0 <= i < |more|
      ensures more[i] < |cells| && cells'[more[i]].next == Link(more, i + 1, |cells|)
    {
      if i > 0 {
        assert more[i] == free[i - 1] && free[i - 1] != k;
        assert cells[free[i - 1]].next == Link(free, i, |cells|);
      }
    }
  }

  // The slots visited by the first n links.
  function Visited<T>(cells: seq<Slot<T>>, head: nat, n: nat): seq<nat> {
    seq(n, i requires 0 <= i => Follow(cells, head, i))
  }

  lemma VisitedIsFree<T>(cells: seq<Slot<T>>, head: nat, free: seq<nat>)
    requires Linked(cells, head, free)
    ensures Visited(cells, head, |free|) == free
    ensures Follow(cells, head, |free|) == |cells|
  {
    forall n | 0 <= n <= |free|
      ensures Follow(cells, head, n) == Link(free, n, |cells|)
    {
      FollowLinks(cells, head, free, n);
    }
  }

  // The list threaded through `next` visits every unoccupied slot exactly once and nothing else,
  // then ends at the sentinel.
  lemma FreeListIsExact<T>(cells: seq<Slot<T>>, head: nat, p: Pool<T>)
    requires Stored(cells) && Linked(cells, head, p.free)
    requires Sound(p) && p.capacity == |cells| && p.objects == Live(cells)
    ensures var n := |cells| - p.stats.inUse;
            && n >= 0
            && Follow(cells, head, n) == |cells|
            && Distinct(Visited(cells, head, n))
            && forall k :: 0 <= k < |cells| ==> (k in Visited(cells, head, n) <==> !cells[k].occupied)
  {
    VisitedIsFree(cells, head, p.free);
    forall k | 0 <= k < |cells|
      ensures k in p.free <==> !cells[k].occupied
    {
      assert k in Live(cells) <==> cells[k].occupied;
    }
  }

  // The list the constructor builds.
  lemma InitialLinks<T>(cells: seq<Slot<T>>)
    requires forall k :: 0 <= k < |cells| ==> cells[k] == Slot(k + 1, false, None)
    ensures Stored(cells) && Linked(cells, 0, Fresh<T>(|cells|).free)
    ensures Live(cells) == map[] && Sound(Fresh<T>(|cells|))
  {
    FreshIsSound<T>(|cells|);
  }

  // Index of an address among the slots' addresses, or their number when it is none of them.
  function Locate(addresses: seq<Address>, a: Address): (k: nat)
    ensures k <= |addresses|
    ensures k < |addresses| ==> addresses[k] == a
    ensures forall i :: 0 <= i < k ==> addresses[i] != a
  {
    if addresses == [] then 0
    else
      var k := Locate(addresses[..|addresses| - 1], a);
      if k < |addresses| - 1 then k
      else if addresses[|addresses| - 1] == a then k
      else |addresses|
  }

  class FixedObjectPool<T> {
    const capacity: nat
    const slots: array<Slot<T>>
    const addresses: seq<Address>  // where each slot's object lives
    var freeHead: nat
    var stats: PoolStats
    ghost var free: seq<nat>

    ghost predicate Valid()
      reads this, slots
    {
      && capacity == slots.Length == |addresses|
      && Distinct(addresses) && NULL !in addresses
      && Stored(slots[..])
      && Linked(slots[..], freeHead, free)
      && Sound(Value())
    }

    ghost function Value(): Pool<T>
      requires Stored(slots[..])
      reads this, slots
    {
      Pool(capacity, Live(slots[..]), free, stats)
    }

    constructor (addresses: seq<Address>)
      requires |addresses| > 0 && Distinct(addresses) && NULL !in addresses
      ensures Valid() && fresh(slots) && this.addresses == addresses
      ensures Value() == Fresh(|addresses|)
    {
      capacity := |addresses|;
      this.addresses := addresses;
      slots := new Slot<T>[|addresses|](_ => Slot(|addresses|, false, None));
      freeHead := 0;
      stats := PoolStats(0, 0, 0, 0, 0, 0);
      free := Fresh<T>(|addresses|).free;
      new;
      for index := 0 to capacity
        modifies slots
        invariant forall k :: 0 <= k < index ==> slots[k] == Slot(k + 1, false, None)
        invariant forall k :: index <= k < capacity ==> slots[k] == Slot(capacity, false, None)
      {
        slots[index] := slots[index].(next := index + 1);
      }
      slots[capacity - 1] := slots[capacity - 1].(next := capacity);
      InitialLinks(slots[..]);
    }

    method FindSlot(a: Address) returns (index: nat)
      requires Valid()
      ensures index == Locate(addresses, a)
    {
      if a == NULL {
        return capacity;
      }
      index := 0;
      while index < capacity
        invariant index <= capacity
        invariant forall i :: 0 <= i < index ==> addresses[i] != a
      {
        if addresses[index] == a {
          return;
        }
        index := index + 1;
      }
    }

    // Unlinks the head of a non-empty free list and stores the object there.
    method Unlink(v: T) returns (index: nat)
      requires Valid() && freeHead != capacity
      modifies this`freeHead, this`free, slots
      ensures old(free) != [] && index == old(free)[0] && free == old(free)[1..] && index < capacity
      ensures Stored(slots[..]) && Linked(slots[..], freeHead, free)
      ensures Live(slots[..]) == old(Live(slots[..]))[index := v]
    {
      TakeCell(slots[..], freeHead, free, v);
      index := freeHead;
      freeHead := slots[index].next;
      slots[index] := Slot(capacity, true, Some(v));
      free := free[1..];
    }

    method TakeSlot(v: T) returns (index: nat)
      requires Valid() && freeHead != capacity
      modifies this, slots
      ensures Valid() && index < capacity
      ensures TryCreate(old(Value()), v) == (Value(), Some(index))
    {
      ghost var was := Value();
      CreateIsSound(was, v);
      index := Unlink(v);
      stats := stats.(inUse := stats.inUse + 1, allocations := stats.allocations + 1);
      if stats.inUse > stats.highWatermark {
        stats := stats.(highWatermark := stats.inUse);
      }
      assert Value() == TryCreate(was, v).0;
    }

    // Returns a handle that owns the new object, or an empty one.
    method TryCreateObject(v: T) returns (h: Handle<T>)
      requires Valid()
      modifies this, slots
      ensures Valid() && fresh(h)
      ensures var (p, slot) := TryCreate(old(Value()), v);
              && Value() == p
              && if slot.Some? then h.pool == this && h.target == addresses[slot.value] else h.IsEmpty()
    {
      if freeHead == capacity {
        CreateIsSound(Value(), v);
        stats := stats.(failures := stats.failures + 1);
        h := new Handle(null, NULL);
        return;
      }
      var index := TakeSlot(v);
      h := new Handle(this, addresses[index]);
    }

    method ReturnSlot(index: nat)
      requires Valid() && index < capacity && slots[index].occupied
      modifies this, slots
      ensures Valid() && (Value(), Released) == Destroy(old(Value()), index)
    {
      DestroyIsSound(Value(), index);
      assert index in Value().objects;
      ReturnCell(slots[..], freeHead, free, index);
      slots[index] := Slot(freeHead, false, None);
      freeHead := index;
      free := [index] + free;
      stats := stats.(inUse := stats.inUse - 1, releases := stats.releases + 1);
      assert Value() == Destroy(old(Value()), index).0;
    }

    method DestroyObject(a: Address) returns (r: ReleaseResult)
      requires Valid()
      modifies this, slots
      ensures Valid()
      ensures (Value(), r) == Destroy(old(Value()), Locate(addresses, a))
    {
      var index := FindSlot(a);
      DestroyIsSound(Value(), index);
      if index == capacity {
        stats := stats.(invalidReleases := stats.invalidReleases + 1);
        return ForeignPointer;
      }
      if !slots[index].occupied {
        stats := stats.(invalidReleases := stats.invalidReleases + 1);
        return DoubleRelease;
      }
      ReturnSlot(index);
      return Released;
    }
  }

  // The move-only owner of one object.
  class Handle<T> {
    var pool: FixedObjectPool?<T>
    var target: Address

    ghost predicate Valid()
      reads this, pool, if pool != null then {pool.slots} else {}
    {
      pool != null ==> pool.Valid()
    }

    predicate IsEmpty()
      reads this
    {
      pool == null && target == NULL
    }

    constructor (pool: FixedObjectPool?<T>, a: Address)
      ensures this.pool == pool && target == a
    {
      this.pool, this.target := pool, a;
    }

    // Takes over from another handle, which is left empty.
    constructor Move(other: Handle<T>)
      modifies other
      ensures pool == old(other.pool) && target == old(other.target)
      ensures other.IsEmpty()
    {
      pool, target := other.pool, other.target;
      new;
      other.pool, other.target := null, NULL;
    }

    // Gives the slot back once: a second reset finds the handle empty.
    method Reset()
      requires Valid()
      modifies this, pool, if pool != null then {pool.slots} else {}
      ensures IsEmpty()
      ensures var p, a := old(pool), old(target);
              p != null ==>
                && p.Valid()
                && p.Value() == if a == NULL then old(p.Value()) else Destroy(old(p.Value()), Locate(p.addresses, a)).0
    {
      var a, p := target, pool;
      target, pool := NULL, null;
      if a != NULL && p != null {
        var _ := p.DestroyObject(a);
      }
    }

    // Move assignment releases what this handle owned; assigning a handle to itself does nothing.
    method MoveAssign(other: Handle<T>)
      requires Valid()
      modifies this, other, pool, if pool != null then {pool.slots} else {}
      ensures pool == old(other.pool) && target == old(other.target)
      ensures this != other ==> other.IsEmpty()
      ensures var p, a := old(pool), old(target);
              p != null ==>
                && p.Valid()
                && p.Value() == if a == NULL || this == other then old(p.Value())
                                else Destroy(old(p.Value()), Locate(p.addresses, a)).0
    {
      if this != other {
        Reset();
        pool, target := other.pool, other.target;
        other.pool, other.target := null, NULL;
      }
    }

    // Gives up ownership without releasing the object.
    method ReleaseOwnership() returns (a: Address)
      modifies this
      ensures IsEmpty() && a == old(target)
    {
      a := target;
      pool, target := null, NULL;
    }
  }
}
