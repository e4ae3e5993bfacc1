// The bounded queue: a first-in-first-out specification on values, the ring buffer that refines it,
// and what every sequence of operations keeps.
module BoundedQueue {
  import opened Domain

  datatype PushResult = Pushed | Full | Timeout | Closed

  datatype QueueStats = QueueStats(
    highWatermark: nat, pushed: nat, popped: nat, rejectedFull: nat, pushTimeouts: nat)

  datatype Queue<T> = Queue(capacity: nat, items: seq<T>, closed: bool, stats: QueueStats)

  function Empty<T>(capacity: nat): Queue<T> {
    Queue(capacity, [], false, QueueStats(0, 0, 0, 0, 0))
  }

  predicate Ready<T>(q: Queue<T>) { q.closed || |q.items| < q.capacity }

  predicate Available<T>(q: Queue<T>) { q.closed || |q.items| > 0 }

  // The two locked sections every operation is made of.
  function PushLocked<T>(q: Queue<T>, v: T): Queue<T> {
    var n := |q.items| + 1;
    q.(items := q.items + [v],
       stats := q.stats.(pushed := q.stats.pushed + 1,
                         highWatermark := if n > q.stats.highWatermark then n else q.stats.highWatermark))
  }

  function PopLocked<T>(q: Queue<T>): Queue<T>
    requires q.items != []
  {
    q.(items := q.items[1..], stats := q.stats.(popped := q.stats.popped + 1))
  }

  function TryPush<T>(q: Queue<T>, v: T): (Queue<T>, PushResult) {
    if q.closed then (q, Closed)
    else if |q.items| == q.capacity then
      (q.(stats := q.stats.(rejectedFull := q.stats.rejectedFull + 1)), Full)
    else (PushLocked(q, v), Pushed)
  }

  // `wait_push` once its wait is over, either because the queue is ready or because time ran out.
  function WaitPush<T>(q: Queue<T>, v: T): (Queue<T>, PushResult) {
    if !Ready(q) then
      (q.(stats := q.stats.(pushTimeouts := q.stats.pushTimeouts + 1)), Timeout)
    else if q.closed then (q, Closed)
    else (PushLocked(q, v), Pushed)
  }

  // All pops, once their wait is over.
  function Pop<T>(q: Queue<T>): (Queue<T>, Option<T>) {
    if q.items == [] then (q, None) else (PopLocked(q), Some(q.items[0]))
  }

  function Close<T>(q: Queue<T>): Queue<T> { q.(closed := true) }

  // ----- Runs ---------------------------------------------------------------------------------

  datatype Op<T> = OpTryPush(value: T) | OpWaitPush(value: T) | OpPop | OpClose

  function Apply<T>(q: Queue<T>, op: Op<T>): Queue<T> {
    match op
    case OpTryPush(v) => TryPush(q, v).0
    case OpWaitPush(v) => WaitPush(q, v).0
    case OpPop => Pop(q).0
    case OpClose => Close(q)
  }

  // What the operation let into the queue, and what it took out.
  function Accepted<T>(q: Queue<T>, op: Op<T>): seq<T> {
    match op
    case OpTryPush(v) => if TryPush(q, v).1 == Pushed then [v] else []
    case OpWaitPush(v) => if WaitPush(q, v).1 == Pushed then [v] else []
    case _ => []
  }

  function Delivered<T>(q: Queue<T>, op: Op<T>): seq<T> {
    match op
    case OpPop => (match Pop(q).1 case Some(v) => [v] case None => [])
    case _ => []
  }

  predicate IsPush<T>(op: Op<T>) { op.OpTryPush? || op.OpWaitPush? }

  // `offers` counts the pushes tried while the queue was open.
  // `answers` lists what every push was told.
  datatype History<T> = History(
    queue: Queue<T>, accepted: seq<T>, delivered: seq<T>, peak: nat, offers: nat, answers: seq<PushResult>)

  function Answer<T>(q: Queue<T>, op: Op<T>): seq<PushResult> {
    match op
    case OpTryPush(v) => [TryPush(q, v).1]
    case OpWaitPush(v) => [WaitPush(q, v).1]
    case _ => []
  }

  function Times(answers: seq<PushResult>, r: PushResult): nat { multiset(answers)[r] }

  // A push, given whether it waits, on a queue that is within its capacity: what it is told says whether
  // the queue was closed, else full, else had room; it adds its value in the last case only.
  lemma PushOutcome<T>(q: Queue<T>, v: T, waits: bool)
    requires |q.items| <= q.capacity
    ensures var (q', r) := if waits then WaitPush(q, v) else TryPush(q, v);
            && (r == Closed <==> q.closed)
            && (r == Full <==> !waits && !q.closed && |q.items| == q.capacity)
            && (r == Timeout <==> waits && !q.closed && |q.items| == q.capacity)
            && (r == Pushed <==> !q.closed && |q.items| < q.capacity)
            && q'.items == (if r == Pushed then q.items + [v] else q.items)
            && q'.closed == q.closed && q'.capacity == q.capacity
  {
  }

  function RunOps<T>(capacity: nat, ops: seq<Op<T>>): History<T> {
    if ops == [] then History(Empty(capacity), [], [], 0, 0, [])
    else
      var h, op := RunOps(capacity, ops[..|ops| - 1]), ops[|ops| - 1];
      var q := Apply(h.queue, op);
      History(q, h.accepted + Accepted(h.queue, op), h.delivered + Delivered(h.queue, op),
              if |q.items| > h.peak then |q.items| else h.peak,
              if IsPush(op) && !h.queue.closed then h.offers + 1 else h.offers,
              h.answers + Answer(h.queue, op))
  }

  ghost predicate Consistent<T>(capacity: nat, h: History<T>) {
    && h.queue.capacity == capacity
    && |h.queue.items| <= capacity
    && h.accepted == h.delivered + h.queue.items
    && h.queue.stats.pushed == |h.accepted|
    && h.queue.stats.popped == |h.delivered|
    && h.queue.stats.highWatermark == h.peak
    && h.queue.stats.pushed + h.queue.stats.rejectedFull + h.queue.stats.pushTimeouts == h.offers
    && h.queue.stats.pushed == Times(h.answers, Pushed)
    && h.queue.stats.rejectedFull == Times(h.answers, Full)
    && h.queue.stats.pushTimeouts == Times(h.answers, Timeout)
    && |h.answers| == h.offers + Times(h.answers, Closed)
  }

  lemma ContentsStep<T>(q: Queue<T>, op: Op<T>, accepted: seq<T>, delivered: seq<T>)
    requires accepted == delivered + q.items
    ensures accepted + Accepted(q, op) == delivered + Delivered(q, op) + Apply(q, op).items
  {
    if op.OpPop? && q.items != [] {
      assert q.items == [q.items[0]] + q.items[1..];
    } else {
      assert Apply(q, op).items == q.items + Accepted(q, op);
    }
  }

  lemma StatsStep<T>(q: Queue<T>, op: Op<T>)
    requires |q.items| <= q.capacity
    ensures var q' := Apply(q, op);
            && q'.capacity == q.capacity && |q'.items| <= q.capacity
            && q'.stats.pushed == q.stats.pushed + |Accepted(q, op)|
            && q'.stats.popped == q.stats.popped + |Delivered(q, op)|
            && q'.stats.pushed + q'.stats.rejectedFull + q'.stats.pushTimeouts
               == q.stats.pushed + q.stats.rejectedFull + q.stats.pushTimeouts
                  + (if IsPush(op) && !q.closed then 1 else 0)
            && (q.stats.highWatermark >= |q.items| ==>
                  q'.stats.highWatermark == if |q'.items| > q.stats.highWatermark then |q'.items| else q.stats.highWatermark)
  {
  }

  // The statistics move as the answers do.
  lemma AnswersStep<T>(q: Queue<T>, op: Op<T>, answers: seq<PushResult>)
    ensures var q', all := Apply(q, op), answers + Answer(q, op);
            && q'.stats.pushed == q.stats.pushed + Times(all, Pushed) - Times(answers, Pushed)
            && q'.stats.rejectedFull == q.stats.rejectedFull + Times(all, Full) - Times(answers, Full)
            && q'.stats.pushTimeouts == q.stats.pushTimeouts + Times(all, Timeout) - Times(answers, Timeout)
            && Times(all, Closed) == Times(answers, Closed) + (if IsPush(op) && q.closed then 1 else 0)
            && |all| == |answers| + (if IsPush(op) then 1 else 0)
  {
    assert multiset(answers + Answer(q, op)) == multiset(answers) + multiset(Answer(q, op));
  }

  // Over every operation sequence, what came out followed by what is queued is what went in, in
  // order; the capacity is respected; the statistics count exactly that, and every push offered to
  // the open queue as pushed, refused or timed out, as its caller was told.
  lemma {:induction false} FifoOverRuns<T>(capacity: nat, ops: seq<Op<T>>)
    ensures Consistent(capacity, RunOps(capacity, ops))
    ensures RunOps(capacity, ops).peak >= |RunOps(capacity, ops).queue.items|
    decreases |ops|
  {
    if ops != [] {
      FifoOverRuns(capacity, ops[..|ops| - 1]);
      var h, op := RunOps(capacity, ops[..|ops| - 1]), ops[|ops| - 1];
      ContentsStep(h.queue, op, h.accepted, h.delivered);
      StatsStep(h.queue, op);
      AnswersStep(h.queue, op, h.answers);
    }
  }

  function ApplyAll<T>(q: Queue<T>, ops: seq<Op<T>>): Queue<T>
    decreases |ops|
  {
    if ops == [] then q else ApplyAll(Apply(q, ops[0]), ops[1..])
  }

  function DeliveredAll<T>(q: Queue<T>, ops: seq<Op<T>>): seq<T>
    decreases |ops|
  {
    if ops == [] then [] else Delivered(q, ops[0]) + DeliveredAll(Apply(q, ops[0]), ops[1..])
  }

  function PopCount<T>(ops: seq<Op<T>>): nat {
    if ops == [] then 0 else (if ops[0].OpPop? then 1 else 0) + PopCount(ops[1..])
  }

  function Min(a: nat, b: nat): nat { if a < b then a else b }

  // Once closed, whatever is tried next: nothing enters, and the values queued at that moment are
  // delivered first to last, one for each pop.
  lemma {:induction false} ClosedQueueDrains<T>(q: Queue<T>, ops: seq<Op<T>>)
    requires q.closed
    ensures var n := Min(PopCount(ops), |q.items|);
            && DeliveredAll(q, ops) == q.items[..n]
            && ApplyAll(q, ops).items == q.items[n..]
            && ApplyAll(q, ops).closed
            && ApplyAll(q, ops).stats.pushed == q.stats.pushed
    decreases |ops|
  {
    if ops != [] {
      var q' := Apply(q, ops[0]);
      ClosedQueueDrains(q', ops[1..]);
      var n := Min(PopCount(ops), |q.items|);
      if ops[0].OpPop? && q.items != [] {
        assert q.items[..n] == [q.items[0]] + q.items[1..][..n - 1];
        assert q.items[n..] == q.items[1..][n - 1..];
      }
    }
  }

  // ----- The ring buffer ------------------------------------------------------------------------

  // Index of the i-th cell counted from head, wrapping at the end of the array.
  function Cell(head: nat, i: nat, capacity: nat): nat
    requires head < capacity && i <= capacity
  {
    if head + i < capacity then head + i else head + i - capacity
  }

  // Cell k lies in the window of `size` cells that starts at head.
  predicate InWindow(head: nat, size: nat, capacity: nat, k: nat) {
    if head + size <= capacity then head <= k < head + size else k >= head || k < head + size - capacity
  }

  // Exactly the cells of the window are occupied.
  ghost predicate WellFormed<T>(cells: seq<Option<T>>, head: nat, size: nat) {
    && head < |cells| && size <= |cells|
    && forall k :: 0 <= k < |cells| ==> (cells[k].Some? <==> InWindow(head, size, |cells|, k))
  }

  ghost function Contents<T>(cells: seq<Option<T>>, head: nat, size: nat): seq<T>
    requires WellFormed(cells, head, size)
  {
    seq(size, i requires 0 <= i < size => cells[Cell(head, i, |cells|)].value)
  }

  lemma Wrap(x: nat, n: nat)
    requires x < n
    ensures (x + 1) % n == Cell(x, 1, n)
  {
  }

  lemma PushCell<T>(cells: seq<Option<T>>, head: nat, size: nat, v: T)
    requires WellFormed(cells, head, size) && size < |cells|
    ensures var tail := Cell(head, size, |cells|);
            && cells[tail].None?
            && WellFormed(cells[tail := Some(v)], head, size + 1)
            && Contents(cells[tail := Some(v)], head, size + 1) == Contents(cells, head, size) + [v]
            && Cell(tail, 1, |cells|) == Cell(head, size + 1, |cells|)
  {
  }

  lemma PopCell<T>(cells: seq<Option<T>>, head: nat, size: nat)
    requires WellFormed(cells, head, size) && size > 0
    ensures var next := Cell(head, 1, |cells|);
            && cells[head] == Some(Contents(cells, head, size)[0])
            && WellFormed(cells[head := None], next, size - 1)
            && Contents(cells[head := None], next, size - 1) == Contents(cells, head, size)[1..]
            && Cell(next, size - 1, |cells|) == Cell(head, size, |cells|)
  {
  }

  class Ring<T> {
    const capacity: nat
    const slots: array<Option<T>>
    var head: nat
    var tail: nat
    var size: nat
    var closed: bool
    var stats: QueueStats

    ghost predicate Valid()
      reads this, slots
    {
      && capacity == slots.Length
      && WellFormed(slots[..], head, size)
      && tail == Cell(head, size, capacity)
    }

    ghost function Value(): Queue<T>
      requires Valid()
      reads this, slots
    {
      Queue(capacity, Contents(slots[..], head, size), closed, stats)
    }

    constructor (capacity: nat)
      requires capacity > 0
      ensures Valid() && fresh(slots)
      ensures Value() == Empty(capacity)
    {
      this.capacity := capacity;
      slots := new Option<T>[capacity](_ => None);
      head, tail, size, closed := 0, 0, 0, false;
      stats := QueueStats(0, 0, 0, 0, 0);
    }

    method PushLockedCell(v: T)
      requires Valid() && size < capacity
      modifies this, slots
      ensures Valid() && Value() == PushLocked(old(Value()), v)
      ensures slots[..] == old(slots[..])[old(tail) := Some(v)] && old(slots[tail]).None?
    {
      PushCell(slots[..], head, size, v);
      Wrap(tail, capacity);
      slots[tail] := Some(v);
      tail := (tail + 1) % capacity;
      size := size + 1;
      stats := stats.(pushed := stats.pushed + 1);
      if size > stats.highWatermark {
        stats := stats.(highWatermark := size);
      }
    }

    method PopLockedCell() returns (v: T)
      requires Valid() && size > 0
      modifies this, slots
      ensures Valid() && Value() == PopLocked(old(Value()))
      ensures v == old(Value()).items[0]
    {
      PopCell(slots[..], head, size);
      Wrap(head, capacity);
      v := slots[head].value;
      slots[head] := None;
      head := (head + 1) % capacity;
      size := size - 1;
      stats := stats.(popped := stats.popped + 1);
    }

    method TryPushValue(v: T) returns (r: PushResult)
      requires Valid()
      modifies this, slots
      ensures Valid() && (Value(), r) == TryPush(old(Value()), v)
    {
      if closed {
        return Closed;
      }
      if size == capacity {
        stats := stats.(rejectedFull := stats.rejectedFull + 1);
        return Full;
      }
      PushLockedCell(v);
      return Pushed;
    }

    // `ready` is what the timed wait returned: the value of its predicate when it gave up waiting.
    method WaitPushValue(v: T, ready: bool) returns (r: PushResult)
      requires Valid()
      requires ready <==> closed || size < capacity
      modifies this, slots
      ensures Valid() && (Value(), r) == WaitPush(old(Value()), v)
    {
      if !ready {
        stats := stats.(pushTimeouts := stats.pushTimeouts + 1);
        return Timeout;
      }
      if closed {
        return Closed;
      }
      PushLockedCell(v);
      return Pushed;
    }

    method PopValue() returns (r: Option<T>)
      requires Valid()
      modifies this, slots
      ensures Valid() && (Value(), r) == Pop(old(Value()))
    {
      if size == 0 {
        return None;
      }
      var v := PopLockedCell();
      return Some(v);
    }

    method CloseQueue()
      requires Valid()
      modifies this`closed
      ensures Valid() && Value() == Close(old(Value()))
    {
      closed := true;
    }
  }
}
