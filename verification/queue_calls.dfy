// What a whole call on the bounded queue does, from its first locked section to its return, whatever the
// other threads do in between.
module QueueCalls {
  import opened Domain
  import opened BoundedQueue
  import opened QueueSignalling

  // ----- Inside a blocking pop --------------------------------------------------------------------------------

  predicate Popping<T>(p: Phase<T>) { p.PopWait? || p.PopWoken? || p.PopExpired? }

  // A test of the queue, with its last chance or not, by a thread that wants to pop: it takes the first
  // value, gives up on a closed queue or at its last chance, and else goes to sleep.
  ghost predicate PopTested<T>(s: State<T>, s': State<T>, t: Thread, last: bool)
    requires t in s'.phases
  {
    if s.queue.items != [] then s'.queue == PopLocked(s.queue) && s'.phases[t] == OwesNotFull
    else s'.queue == s.queue && s'.phases[t] == if s.queue.closed || last then Outside else PopWait
  }

  lemma PopBegins<T>(s: State<T>, t: Thread)
    requires Enabled(s, t, DoWaitPop)
    ensures PopTested(s, Next(s, t, DoWaitPop), t, false)
  {
  }

  // A step of thread u while t is inside a blocking pop.
  lemma PopGoesOn<T>(s: State<T>, t: Thread, u: Thread, a: Action<T>)
    requires Enabled(s, u, a) && t in s.phases && Popping(s.phases[t])
    ensures var s' := Next(s, u, a);
            && t in s'.phases
            && (u == t && a == Recheck ==> PopTested(s, s', t, s.phases[t].PopExpired?))
            && (!(u == t && a == Recheck) ==> Popping(s'.phases[t]))
            && (s'.phases[t].PopExpired? ==> s.phases[t].PopExpired? || (u == t && a == Deadline))
            && (s.phases[t].PopExpired? ==> if u == t then a == Recheck else s'.phases[t].PopExpired?)
            && (u == t && a == Deadline ==> s'.phases[t].PopExpired?)
  {
  }

  // ----- Inside a blocking push -------------------------------------------------------------------------------

  ghost predicate Pushing<T>(p: Phase<T>, v: T) {
    (p.PushWait? || p.PushWoken? || p.PushExpired?) && p.value == v
  }

  ghost predicate PushTested<T>(s: State<T>, s': State<T>, t: Thread, v: T, last: bool)
    requires t in s'.phases
  {
    if s.queue.closed then s'.queue == s.queue && s'.phases[t] == Outside
    else if |s.queue.items| < s.queue.capacity then s'.queue == PushLocked(s.queue, v) && s'.phases[t] == OwesNotEmpty
    else if last then s'.queue == WaitPush(s.queue, v).0 && s'.phases[t] == Outside
    else s'.queue == s.queue && s'.phases[t] == PushWait(v)
  }

  lemma PushBegins<T>(s: State<T>, t: Thread, v: T)
    requires Enabled(s, t, DoWaitPush(v))
    ensures PushTested(s, Next(s, t, DoWaitPush(v)), t, v, false)
  {
  }

  lemma PushGoesOn<T>(s: State<T>, t: Thread, v: T, u: Thread, a: Action<T>)
    requires Enabled(s, u, a) && t in s.phases && Pushing(s.phases[t], v)
    ensures var s' := Next(s, u, a);
            && t in s'.phases
            && (u == t && a == Recheck ==> PushTested(s, s', t, v, s.phases[t].PushExpired?))
            && (!(u == t && a == Recheck) ==> Pushing(s'.phases[t], v))
            && (s'.phases[t].PushExpired? ==> s.phases[t].PushExpired? || (u == t && a == Deadline))
            && (s.phases[t].PushExpired? ==> if u == t then a == Recheck else s'.phases[t].PushExpired?)
            && (u == t && a == Deadline ==> s'.phases[t].PushExpired?)
  {
  }

  // ----- Whole calls ------------------------------------------------------------------------------------------

  // Thread t begins a blocking pop with step i and is out of it, for the first time, in state j.
  ghost predicate PopCall<T>(states: seq<State<T>>, steps: seq<Step<T>>, t: Thread, i: nat, j: nat) {
    && IsRun(states, steps) && i < j < |states| && steps[i] == Step(t, DoWaitPop)
    && (forall k :: i < k < j ==> t in states[k].phases && Popping(states[k].phases[t]))
    && t in states[j].phases && !Popping(states[j].phases[t])
  }

  ghost predicate PushCall<T>(states: seq<State<T>>, steps: seq<Step<T>>, t: Thread, v: T, i: nat, j: nat) {
    && IsRun(states, steps) && i < j < |states| && steps[i] == Step(t, DoWaitPush(v))
    && (forall k :: i < k < j ==> t in states[k].phases && Pushing(states[k].phases[t], v))
    && t in states[j].phases && !Pushing(states[j].phases[t], v)
  }

  // The deadline of t struck after step i and before state j.
  ghost predicate Struck<T>(steps: seq<Step<T>>, t: Thread, i: nat, j: nat)
    requires j <= |steps|
  {
    exists k :: i < k < j && steps[k] == Step(t, Deadline)
  }

  lemma {:induction false} ExpiryIsOwn<T>(states: seq<State<T>>, steps: seq<Step<T>>, t: Thread, i: nat, j: nat, k: nat)
    requires PopCall(states, steps, t, i, j) && i < k < j
    ensures states[k].phases[t].PopExpired? ==> Struck(steps, t, i, k)
  {
    if k == i + 1 {
      PopBegins(states[i], t);
    } else {
      ExpiryIsOwn(states, steps, t, i, j, k - 1);
      PopGoesOn(states[k - 1], t, steps[k - 1].thread, steps[k - 1].action);
      if states[k].phases[t].PopExpired? && !states[k - 1].phases[t].PopExpired? {
        assert steps[k - 1] == Step(t, Deadline);
      }
    }
  }

  // A blocking pop returns by a test of its own. It takes the first value if there is one. It returns
  // empty-handed only from an empty queue that is closed, or after its own deadline.
  lemma PopReturns<T>(states: seq<State<T>>, steps: seq<Step<T>>, t: Thread, i: nat, j: nat)
    requires PopCall(states, steps, t, i, j)
    ensures var q := states[j - 1].queue;
            && steps[j - 1].thread == t
            && if q.items != [] then states[j].queue == PopLocked(q) && states[j].phases[t] == OwesNotFull
               else states[j].queue == q && states[j].phases[t] == Outside && (q.closed || Struck(steps, t, i, j - 1))
  {
    if j == i + 1 {
      PopBegins(states[i], t);
    } else {
      PopGoesOn(states[j - 1], t, steps[j - 1].thread, steps[j - 1].action);
      ExpiryIsOwn(states, steps, t, i, j, j - 1);
    }
  }

  lemma {:induction false} PushExpiryIsOwn<T>(
    states: seq<State<T>>, steps: seq<Step<T>>, t: Thread, v: T, i: nat, j: nat, k: nat)
    requires PushCall(states, steps, t, v, i, j) && i < k < j
    ensures states[k].phases[t].PushExpired? ==> Struck(steps, t, i, k)
  {
    if k == i + 1 {
      PushBegins(states[i], t, v);
    } else {
      PushExpiryIsOwn(states, steps, t, v, i, j, k - 1);
      PushGoesOn(states[k - 1], t, v, steps[k - 1].thread, steps[k - 1].action);
      if states[k].phases[t].PushExpired? && !states[k - 1].phases[t].PushExpired? {
        assert steps[k - 1] == Step(t, Deadline);
      }
    }
  }

  // A blocking push returns by a test of its own. It pushes the value it was called with if the queue is
  // open and has room. It returns without pushing only from a closed queue, or from a full one after its own
  // deadline, and then counts a timeout.
  lemma PushReturns<T>(states: seq<State<T>>, steps: seq<Step<T>>, t: Thread, v: T, i: nat, j: nat)
    requires PushCall(states, steps, t, v, i, j)
    ensures var q, q' := states[j - 1].queue, states[j].queue;
            && steps[j - 1].thread == t
            && if q.closed then q' == q && states[j].phases[t] == Outside
               else if |q.items| < q.capacity then q' == PushLocked(q, v) && states[j].phases[t] == OwesNotEmpty
               else q' == q.(stats := q.stats.(pushTimeouts := q.stats.pushTimeouts + 1))
                    && states[j].phases[t] == Outside && Struck(steps, t, i, j - 1)
  {
    if j == i + 1 {
      PushBegins(states[i], t, v);
    } else {
      PushGoesOn(states[j - 1], t, v, steps[j - 1].thread, steps[j - 1].action);
      PushExpiryIsOwn(states, steps, t, v, i, j, j - 1);
    }
  }

  lemma {:induction false} StaysExpired<T>(
    states: seq<State<T>>, steps: seq<Step<T>>, t: Thread, i: nat, j: nat, k: nat, n: nat)
    requires PopCall(states, steps, t, i, j) && i < k < n < j && steps[k] == Step(t, Deadline)
    ensures states[n].phases[t].PopExpired?
  {
    PopGoesOn(states[n - 1], t, steps[n - 1].thread, steps[n - 1].action);
    if n > k + 1 {
      StaysExpired(states, steps, t, i, j, k, n - 1);
      assert Popping(states[n].phases[t]);
    }
  }

  // Once the deadline has struck, the next step of the thread is its last one in the call.
  lemma DeadlineEndsPop<T>(states: seq<State<T>>, steps: seq<Step<T>>, t: Thread, i: nat, j: nat, k: nat, n: nat)
    requires PopCall(states, steps, t, i, j) && i < k < n < j - 1 && steps[k] == Step(t, Deadline)
    ensures steps[n].thread != t
  {
    StaysExpired(states, steps, t, i, j, k, n);
    PopGoesOn(states[n], t, steps[n].thread, steps[n].action);
    assert Popping(states[n + 1].phases[t]);
  }

  lemma {:induction false} PushStaysExpired<T>(
    states: seq<State<T>>, steps: seq<Step<T>>, t: Thread, v: T, i: nat, j: nat, k: nat, n: nat)
    requires PushCall(states, steps, t, v, i, j) && i < k < n < j && steps[k] == Step(t, Deadline)
    ensures states[n].phases[t].PushExpired?
  {
    PushGoesOn(states[n - 1], t, v, steps[n - 1].thread, steps[n - 1].action);
    if n > k + 1 {
      PushStaysExpired(states, steps, t, v, i, j, k, n - 1);
      assert Pushing(states[n].phases[t], v);
    }
  }

  lemma DeadlineEndsPush<T>(
    states: seq<State<T>>, steps: seq<Step<T>>, t: Thread, v: T, i: nat, j: nat, k: nat, n: nat)
    requires PushCall(states, steps, t, v, i, j) && i < k < n < j - 1 && steps[k] == Step(t, Deadline)
    ensures steps[n].thread != t
  {
    PushStaysExpired(states, steps, t, v, i, j, k, n);
    PushGoesOn(states[n], t, v, steps[n].thread, steps[n].action);
    assert Pushing(states[n + 1].phases[t], v);
  }

  // The non-blocking calls never sleep, and owe a notification exactly if they moved a value.
  lemma TryCallsReturn<T>(s: State<T>, t: Thread, v: T)
    requires t in s.phases && s.phases[t].Outside? && |s.queue.items| <= s.queue.capacity
    ensures var s' := Next(s, t, DoTryPush(v));
            if !s.queue.closed && |s.queue.items| < s.queue.capacity
            then s'.queue == PushLocked(s.queue, v) && s'.phases[t] == OwesNotEmpty
            else s'.queue.items == s.queue.items && s'.phases[t] == Outside
    ensures var s' := Next(s, t, DoTryPop);
            if s.queue.items != [] then s'.queue == PopLocked(s.queue) && s'.phases[t] == OwesNotFull
            else s' == s
  {
  }
}
