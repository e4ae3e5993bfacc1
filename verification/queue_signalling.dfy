// The condition-variable discipline of the bounded queue, as a step system over any number of
// threads: every locked section is one step, notifications come after the unlock, and waiters may
// be woken spuriously or by their deadline at any time.
module QueueSignalling {
  import opened Domain
  import opened BoundedQueue
  import opened Counting

  // Where a thread stands with respect to the queue.
  datatype Phase<T> =
    | Outside
    | PushWait(value: T)       // asleep on not_full
    | PushWoken(value: T)      // woken, about to take the mutex and test again
    | PushExpired(value: T)    // woken by its deadline: one last test, then give up
    | OwesNotEmpty             // has pushed and unlocked, not_empty.notify_one still to come
    | PopWait                  // asleep on not_empty
    | PopWoken
    | PopExpired
    | OwesNotFull              // has popped and unlocked, not_full.notify_one still to come
    | OwesBoth                 // has closed and unlocked, both notify_all still to come
    | OwesAllNotFull           // has notified not_empty, not_full.notify_all still to come

  type Thread = nat

  datatype State<T> = State(queue: Queue<T>, phases: map<Thread, Phase<T>>)

  datatype Action<T> =
    | DoTryPush(value: T)
    | DoTryPop
    | DoWaitPush(value: T)
    | DoWaitPop                          // also the timed pop, which only adds deadlines
    | DoClose
    | Recheck                            // a woken thread takes the mutex and tests its predicate
    | NotifyOne(target: Option<Thread>)  // a due notify_one wakes a sleeper unless there is none
    | NotifyAll
    | Spurious
    | Deadline

  predicate Asleep<T>(s: State<T>, t: Thread, popper: bool) {
    t in s.phases && if popper then s.phases[t].PopWait? else s.phases[t].PushWait?
  }

  ghost predicate GoodTarget<T>(s: State<T>, target: Option<Thread>, popper: bool) {
    match target
    case Some(t) => Asleep(s, t, popper)
    case None => forall t :: t in s.phases ==> !Asleep(s, t, popper)
  }

  ghost predicate Enabled<T>(s: State<T>, t: Thread, a: Action<T>) {
    t in s.phases && var p := s.phases[t];
    match a
    case DoTryPush(_) => p.Outside?
    case DoTryPop => p.Outside?
    case DoWaitPush(_) => p.Outside?
    case DoWaitPop => p.Outside?
    case DoClose => p.Outside?
    case Recheck => p.PushWoken? || p.PushExpired? || p.PopWoken? || p.PopExpired?
    case NotifyOne(target) =>
      (p.OwesNotEmpty? && GoodTarget(s, target, true)) || (p.OwesNotFull? && GoodTarget(s, target, false))
    case NotifyAll => p.OwesBoth? || p.OwesAllNotFull?
    case Spurious => p.PushWait? || p.PopWait?
    case Deadline => p.PushWait? || p.PopWait?
  }

  function Woken<T>(p: Phase<T>): Phase<T> {
    match p
    case PushWait(v) => PushWoken(v)
    case PopWait => PopWoken
    case _ => p
  }

  function Put<T>(s: State<T>, t: Thread, p: Phase<T>): State<T> {
    s.(phases := s.phases[t := p])
  }

  // Locked section of a push whose wait is over.
  function FinishPush<T>(s: State<T>, t: Thread, v: T): State<T> {
    var (q, r) := WaitPush(s.queue, v);
    Put(s.(queue := q), t, if r == Pushed then OwesNotEmpty else Outside)
  }

  function FinishPop<T>(s: State<T>, t: Thread): State<T> {
    var (q, r) := Pop(s.queue);
    Put(s.(queue := q), t, if r.Some? then OwesNotFull else Outside)
  }

  function TestPush<T>(s: State<T>, t: Thread, v: T): State<T> {
    if Ready(s.queue) then FinishPush(s, t, v) else Put(s, t, PushWait(v))
  }

  function TestPop<T>(s: State<T>, t: Thread): State<T> {
    if Available(s.queue) then FinishPop(s, t) else Put(s, t, PopWait)
  }

  function WakeAll<T>(s: State<T>, popper: bool): State<T> {
    s.(phases := map t | t in s.phases :: if Asleep(s, t, popper) then Woken(s.phases[t]) else s.phases[t])
  }

  function Next<T>(s: State<T>, t: Thread, a: Action<T>): State<T>
    requires t in s.phases
  {
    var p := s.phases[t];
    match a
    case DoTryPush(v) =>
      var (q, r) := TryPush(s.queue, v);
      Put(s.(queue := q), t, if r == Pushed then OwesNotEmpty else Outside)
    case DoTryPop => FinishPop(s, t)
    case DoWaitPush(v) => TestPush(s, t, v)
    case DoWaitPop => TestPop(s, t)
    case DoClose => Put(s.(queue := Close(s.queue)), t, OwesBoth)
    case Recheck =>
      (match p
       case PushWoken(v) => TestPush(s, t, v)
       case PushExpired(v) => FinishPush(s, t, v)
       case PopWoken => TestPop(s, t)
       case PopExpired => FinishPop(s, t)
       case _ => s)
    case NotifyOne(target) =>
      var s' := match target
        case Some(u) => if u in s.phases then Put(s, u, Woken(s.phases[u])) else s
        case None => s;
      Put(s', t, Outside)
    case NotifyAll =>
      if p.OwesBoth? then Put(WakeAll(s, true), t, OwesAllNotFull) else Put(WakeAll(s, false), t, Outside)
    case Spurious => Put(s, t, Woken(p))
    case Deadline => Put(s, t, match p case PushWait(v) => PushExpired(v) case _ => PopExpired)
  }

  // ----- Counting threads by phase ---------------------------------------------------------------

  datatype Role =
    | PopSleeper | PopActive | PushSleeper | PushActive
    | DueNotEmpty | DueNotFull | DueBoth | DueAllNotFull

  predicate Plays<T>(p: Phase<T>, r: Role) {
    match r
    case PopSleeper => p.PopWait?
    case PopActive => p.PopWoken? || p.PopExpired?
    case PushSleeper => p.PushWait?
    case PushActive => p.PushWoken? || p.PushExpired?
    case DueNotEmpty => p.OwesNotEmpty?
    case DueNotFull => p.OwesNotFull?
    case DueBoth => p.OwesBoth?
    case DueAllNotFull => p.OwesAllNotFull?
  }

  function Players<T>(phases: map<Thread, Phase<T>>, r: Role): set<Thread> {
    set t | t in phases && Plays(phases[t], r)
  }

  function Count<T>(phases: map<Thread, Phase<T>>, r: Role): nat {
    |Players(phases, r)|
  }

  lemma CountUpdate<T>(phases: map<Thread, Phase<T>>, t: Thread, p: Phase<T>, r: Role)
    requires t in phases
    ensures Count(phases[t := p], r) == Count(phases, r) - One(Plays(phases[t], r)) + One(Plays(p, r))
  {
    var before, after := Players(phases, r), Players(phases[t := p], r);
    forall u | u != t ensures u in after <==> u in before {
    }
    CardinalityUpdate(before, after, t);
  }

  lemma CountAllUpdates<T>(phases: map<Thread, Phase<T>>, t: Thread, p: Phase<T>)
    requires t in phases
    ensures forall r: Role :: Count(phases[t := p], r) == Count(phases, r) - One(Plays(phases[t], r)) + One(Plays(p, r))
  {
    forall r: Role {
      CountUpdate(phases, t, p, r);
    }
  }

  lemma CountPositive<T>(phases: map<Thread, Phase<T>>, t: Thread, r: Role)
    requires t in phases && Plays(phases[t], r)
    ensures Count(phases, r) > 0
  {
    assert t in Players(phases, r);
    assert Players(phases, r) != {};
  }

  // ----- No lost wake-ups --------------------------------------------------------------------------

  // While the queue is open, a wake-up is in progress for every value (or free cell) a sleeper
  // could use.
  ghost predicate OpenWakeups<T>(s: State<T>) {
    var n := |s.queue.items|;
    && n <= s.queue.capacity
    && (!s.queue.closed && Count(s.phases, PopSleeper) > 0 ==>
          n <= Count(s.phases, DueNotEmpty) + Count(s.phases, PopActive))
    && (!s.queue.closed && Count(s.phases, PushSleeper) > 0 ==>
          s.queue.capacity - n <= Count(s.phases, DueNotFull) + Count(s.phases, PushActive))
  }

  ghost predicate NotifiesAll<T>(s: State<T>, popper: bool) {
    exists u :: u in s.phases && (s.phases[u].OwesBoth? || (!popper && s.phases[u].OwesAllNotFull?))
  }

  // Once it is closed, the matching notify_all is still due while anybody sleeps.
  ghost predicate ClosedWakeups<T>(s: State<T>) {
    && (forall t :: t in s.phases && (s.phases[t].OwesBoth? || s.phases[t].OwesAllNotFull?) ==> s.queue.closed)
    && (s.queue.closed ==>
          forall t, popper :: Asleep(s, t, popper) ==> NotifiesAll(s, popper))
  }

  ghost predicate NoLostWakeup<T>(s: State<T>) {
    OpenWakeups(s) && ClosedWakeups(s)
  }

  // A push leaves one more value and its own notification, or falls asleep on a full queue.
  lemma OpenPush<T>(s: State<T>, t: Thread, v: T)
    requires OpenWakeups(s) && t in s.phases
    requires s.phases[t].Outside? || s.phases[t].PushWoken? || s.phases[t].PushExpired?
    ensures OpenWakeups(FinishPush(s, t, v)) && OpenWakeups(TestPush(s, t, v))
    ensures OpenWakeups(Put(s.(queue := TryPush(s.queue, v).0), t,
                            if TryPush(s.queue, v).1 == Pushed then OwesNotEmpty else Outside))
  {
    CountAllUpdates(s.phases, t, OwesNotEmpty);
    CountAllUpdates(s.phases, t, Outside);
    CountAllUpdates(s.phases, t, PushWait(v));
  }

  lemma OpenPop<T>(s: State<T>, t: Thread)
    requires OpenWakeups(s) && t in s.phases
    requires s.phases[t].Outside? || s.phases[t].PopWoken? || s.phases[t].PopExpired?
    ensures OpenWakeups(FinishPop(s, t)) && OpenWakeups(TestPop(s, t))
  {
    CountAllUpdates(s.phases, t, OwesNotFull);
    CountAllUpdates(s.phases, t, Outside);
    CountAllUpdates(s.phases, t, PopWait);
  }

  // Locked sections and wake-ups change one thread's phase; the counts follow.
  lemma OpenOneThread<T>(s: State<T>, t: Thread, a: Action<T>)
    requires OpenWakeups(s) && Enabled(s, t, a) && !a.NotifyOne? && !a.NotifyAll?
    ensures OpenWakeups(Next(s, t, a))
  {
    match a {
      case DoTryPush(v) => OpenPush(s, t, v);
      case DoTryPop => OpenPop(s, t);
      case DoWaitPush(v) => OpenPush(s, t, v);
      case DoWaitPop => OpenPop(s, t);
      case Recheck =>
        if s.phases[t].PushWoken? || s.phases[t].PushExpired? {
          OpenPush(s, t, s.phases[t].value);
        } else {
          OpenPop(s, t);
        }
      case DoClose => CountAllUpdates(s.phases, t, OwesBoth);
      case Spurious => CountAllUpdates(s.phases, t, Woken(s.phases[t]));
      case Deadline => CountAllUpdates(s.phases, t, Next(s, t, Deadline).phases[t]);
      case _ =>
    }
  }

  // A due notification becomes a woken thread, unless nobody sleeps.
  lemma OpenNotifyOne<T>(s: State<T>, t: Thread, target: Option<Thread>)
    requires OpenWakeups(s) && Enabled(s, t, NotifyOne(target))
    ensures OpenWakeups(Next(s, t, NotifyOne(target)))
  {
    match target {
      case Some(u) =>
        var mid := s.phases[u := Woken(s.phases[u])];
        CountAllUpdates(s.phases, u, Woken(s.phases[u]));
        CountAllUpdates(mid, t, Outside);
      case None =>
        CountAllUpdates(s.phases, t, Outside);
        if GoodTarget(s, target, true) {
          assert Players(s.phases, PopSleeper) == {} by {
            assert forall u :: u in s.phases ==> !Asleep(s, u, true);
          }
        }
        if GoodTarget(s, target, false) {
          assert Players(s.phases, PushSleeper) == {} by {
            assert forall u :: u in s.phases ==> !Asleep(s, u, false);
          }
        }
    }
  }

  // A closed queue puts nobody to sleep, and a closer's debt ends only by waking the sleepers.
  lemma ClosedStep<T>(s: State<T>, t: Thread, a: Action<T>)
    requires ClosedWakeups(s) && Enabled(s, t, a)
    ensures ClosedWakeups(Next(s, t, a))
  {
    var s' := Next(s, t, a);
    forall u, popper | s'.queue.closed && Asleep(s', u, popper)
      ensures NotifiesAll(s', popper)
    {
      if a.DoClose? {
        assert s'.phases[t].OwesBoth?;
      } else {
        assert Asleep(s, u, popper);
        var c :| c in s.phases && (s.phases[c].OwesBoth? || (!popper && s.phases[c].OwesAllNotFull?));
        assert c in s'.phases;
        if c == t {
          assert s'.phases[t].OwesAllNotFull?;
        } else {
          assert s'.phases[c] == s.phases[c];
        }
      }
    }
  }

  lemma NoLostWakeupStep<T>(s: State<T>, t: Thread, a: Action<T>)
    requires NoLostWakeup(s) && Enabled(s, t, a)
    ensures NoLostWakeup(Next(s, t, a))
  {
    ClosedStep(s, t, a);
    match a {
      case NotifyOne(target) => OpenNotifyOne(s, t, target);
      case NotifyAll =>
      case _ => OpenOneThread(s, t, a);
    }
  }

  // ----- Runs ----------------------------------------------------------------------------------------

  function Initial<T>(capacity: nat, threads: set<Thread>): State<T> {
    State(Empty(capacity), map t | t in threads :: Outside)
  }

  datatype Step<T> = Step(thread: Thread, action: Action<T>)

  ghost predicate IsRun<T>(states: seq<State<T>>, steps: seq<Step<T>>) {
    && |states| == |steps| + 1
    && forall i :: 0 <= i < |steps| ==>
         && Enabled(states[i], steps[i].thread, steps[i].action)
         && states[i + 1] == Next(states[i], steps[i].thread, steps[i].action)
  }

  // Every state of every run, for any capacity and any set of threads.
  lemma {:induction false} NoLostWakeupEver<T>(
    capacity: nat, threads: set<Thread>, states: seq<State<T>>, steps: seq<Step<T>>, i: nat)
    requires IsRun(states, steps) && states[0] == Initial(capacity, threads) && i < |states|
    ensures NoLostWakeup(states[i])
  {
    if i == 0 {
      assert Players(states[0].phases, PopSleeper) == {};
      assert Players(states[0].phases, PushSleeper) == {};
    } else {
      NoLostWakeupEver(capacity, threads, states, steps, i - 1);
      NoLostWakeupStep(states[i - 1], steps[i - 1].thread, steps[i - 1].action);
    }
  }

  // Nobody owes a notification and nobody is between waking up and testing.
  ghost predicate Quiet<T>(s: State<T>) {
    forall t :: t in s.phases ==> s.phases[t].Outside? || s.phases[t].PushWait? || s.phases[t].PopWait?
  }

  // Whoever sleeps has reason to: the condition it waits for does not hold.
  ghost predicate Justified<T>(s: State<T>) {
    forall t :: t in s.phases ==>
      (s.phases[t].PopWait? ==> !Available(s.queue)) && (s.phases[t].PushWait? ==> !Ready(s.queue))
  }

  // In a quiet state nobody sleeps through a condition that holds.
  lemma QuietSleepersMustSleep<T>(s: State<T>)
    requires NoLostWakeup(s) && Quiet(s)
    ensures Justified(s)
  {
    assert Players(s.phases, DueNotEmpty) == {} && Players(s.phases, PopActive) == {};
    assert Players(s.phases, DueNotFull) == {} && Players(s.phases, PushActive) == {};
    forall t | t in s.phases
      ensures s.phases[t].PopWait? ==> !Available(s.queue)
      ensures s.phases[t].PushWait? ==> !Ready(s.queue)
    {
      if s.phases[t].PopWait? {
        assert Asleep(s, t, true);
        CountPositive(s.phases, t, PopSleeper);
      } else if s.phases[t].PushWait? {
        assert Asleep(s, t, false);
        CountPositive(s.phases, t, PushSleeper);
      }
    }
  }

  // The queue itself only ever moves by operations of the bounded sequence.
  lemma StepsAreQueueOperations<T>(s: State<T>, t: Thread, a: Action<T>)
    requires Enabled(s, t, a)
    ensures Next(s, t, a).queue == s.queue || exists op :: Next(s, t, a).queue == Apply(s.queue, op)
  {
    var p := s.phases[t];
    var op := match a
      case DoTryPush(v) => OpTryPush(v)
      case DoWaitPush(v) => OpWaitPush(v)
      case DoClose => OpClose
      case Recheck => if p.PushWoken? || p.PushExpired? then OpWaitPush(p.value) else OpPop
      case _ => OpPop;
    assert Next(s, t, a).queue == s.queue || Next(s, t, a).queue == Apply(s.queue, op);
  }

  // ----- Wake-ups settle -------------------------------------------------------------------------

  // Steps the threads take on their own: no new call, no spurious wake-up, no deadline.
  predicate Internal<T>(a: Action<T>) { a.Recheck? || a.NotifyOne? || a.NotifyAll? }

  // The work left to a thread that is not closing the queue.
  function Weight<T>(p: Phase<T>): nat {
    if p.OwesNotEmpty? || p.OwesNotFull? then 2
    else if p.PushWait? || p.PopWait? then 3
    else if p.PushWoken? || p.PushExpired? || p.PopWoken? || p.PopExpired? then 4
    else 0
  }

  function Chores<T>(phases: map<Thread, Phase<T>>): nat {
    2 * (Count(phases, DueNotEmpty) + Count(phases, DueNotFull))
    + 3 * (Count(phases, PopSleeper) + Count(phases, PushSleeper))
    + 4 * (Count(phases, PopActive) + Count(phases, PushActive))
  }

  // notify_all calls still due.
  function Debt<T>(phases: map<Thread, Phase<T>>): nat {
    2 * Count(phases, DueBoth) + Count(phases, DueAllNotFull)
  }

  // Work left in all; a notify_all can give every thread one more chore.
  function Work<T>(phases: map<Thread, Phase<T>>): nat {
    Chores(phases) + (|phases| + 1) * Debt(phases)
  }

  lemma ChoresUpdate<T>(phases: map<Thread, Phase<T>>, t: Thread, p: Phase<T>)
    requires t in phases
    ensures Chores(phases[t := p]) == Chores(phases) - Weight(phases[t]) + Weight(p)
    ensures |phases[t := p]| == |phases|
  {
    CountUpdate(phases, t, p, DueNotEmpty);
    CountUpdate(phases, t, p, DueNotFull);
    CountUpdate(phases, t, p, PopSleeper);
    CountUpdate(phases, t, p, PushSleeper);
    CountUpdate(phases, t, p, PopActive);
    CountUpdate(phases, t, p, PushActive);
    assert phases[t := p].Keys == phases.Keys;
  }

  lemma DebtUpdate<T>(phases: map<Thread, Phase<T>>, t: Thread, p: Phase<T>)
    requires t in phases
    ensures Debt(phases[t := p]) == Debt(phases)
              - 2 * One(phases[t].OwesBoth?) - One(phases[t].OwesAllNotFull?)
              + 2 * One(p.OwesBoth?) + One(p.OwesAllNotFull?)
  {
    CountUpdate(phases, t, p, DueBoth);
    CountUpdate(phases, t, p, DueAllNotFull);
  }

  // A thread with no notify_all to make changes its phase.
  lemma WorkUpdate<T>(phases: map<Thread, Phase<T>>, t: Thread, p: Phase<T>)
    requires t in phases && forall q :: q in {phases[t], p} ==> !q.OwesBoth? && !q.OwesAllNotFull?
    ensures Work(phases[t := p]) == Work(phases) - Weight(phases[t]) + Weight(p)
  {
    ChoresUpdate(phases, t, p);
    DebtUpdate(phases, t, p);
  }

  lemma RecheckWorks<T>(s: State<T>, t: Thread)
    requires Enabled(s, t, Recheck)
    ensures Work(Next(s, t, Recheck).phases) < Work(s.phases)
  {
    var p := Next(s, t, Recheck).phases[t];
    assert Next(s, t, Recheck).phases == s.phases[t := p];
    WorkUpdate(s.phases, t, p);
  }

  lemma NotifyOneWorks<T>(s: State<T>, t: Thread, target: Option<Thread>)
    requires Enabled(s, t, NotifyOne(target))
    ensures Work(Next(s, t, NotifyOne(target)).phases) < Work(s.phases)
  {
    if target.Some? {
      WakeOneWorks(s, t, target.value);
    } else {
      WorkUpdate(s.phases, t, Outside);
    }
  }

  // The notifier's two units of work pay for the sleeper's one.
  lemma WakeOneWorks<T>(s: State<T>, t: Thread, u: Thread)
    requires Enabled(s, t, NotifyOne(Some(u)))
    ensures Work(Next(s, t, NotifyOne(Some(u))).phases) < Work(s.phases)
  {
    var mid := s.phases[u := Woken(s.phases[u])];
    WorkUpdate(s.phases, u, Woken(s.phases[u]));
    WorkUpdate(mid, t, Outside);
  }

  function Sleeping(popper: bool): Role { if popper then PopSleeper else PushSleeper }

  function Active(popper: bool): Role { if popper then PopActive else PushActive }

  lemma WokenPlays<T>(p: Phase<T>, popper: bool, r: Role)
    ensures var p' := if Plays(p, Sleeping(popper)) then Woken(p) else p;
            Plays(p', r) <==> if r == Sleeping(popper) then false
                              else Plays(p, r) || (r == Active(popper) && Plays(p, Sleeping(popper)))
  {
  }

  lemma WakeAllPlayers<T>(s: State<T>, popper: bool, r: Role)
    ensures Players(WakeAll(s, popper).phases, r) ==
              if r == Sleeping(popper) then {}
              else if r == Active(popper) then Players(s.phases, r) + Players(s.phases, Sleeping(popper))
              else Players(s.phases, r)
  {
    forall t | t in s.phases
      ensures t in Players(WakeAll(s, popper).phases, r) <==>
              if r == Sleeping(popper) then false
              else t in Players(s.phases, r) || (r == Active(popper) && t in Players(s.phases, Sleeping(popper)))
    {
      WokenPlays(s.phases[t], popper, r);
    }
  }

  // Waking everybody moves the sleepers of one kind to the woken ones and touches nobody else.
  lemma WakeAllCount<T>(s: State<T>, popper: bool, r: Role)
    ensures Count(WakeAll(s, popper).phases, r) ==
              if r == Sleeping(popper) then 0
              else if r == Active(popper) then Count(s.phases, r) + Count(s.phases, Sleeping(popper))
              else Count(s.phases, r)
  {
    WakeAllPlayers(s, popper, r);
    if r == Active(popper) {
      assert Players(s.phases, r) !! Players(s.phases, Sleeping(popper));
    }
  }

  lemma WakeAllCounts<T>(s: State<T>, popper: bool)
    ensures var phases := WakeAll(s, popper).phases;
            Chores(phases) <= Chores(s.phases) + |s.phases| && Debt(phases) == Debt(s.phases)
            && |phases| == |s.phases|
  {
    WakeAllCount(s, popper, DueNotEmpty);
    WakeAllCount(s, popper, DueNotFull);
    WakeAllCount(s, popper, PopSleeper);
    WakeAllCount(s, popper, PushSleeper);
    WakeAllCount(s, popper, PopActive);
    WakeAllCount(s, popper, PushActive);
    WakeAllCount(s, popper, DueBoth);
    WakeAllCount(s, popper, DueAllNotFull);
    assert WakeAll(s, popper).phases.Keys == s.phases.Keys;
    SubsetCount(Players(s.phases, Sleeping(popper)), s.phases.Keys);
  }

  // notify_all pays one debt and gives each thread at most one more chore.
  lemma NotifyAllCounts<T>(s: State<T>, t: Thread)
    requires Enabled(s, t, NotifyAll)
    ensures var phases := Next(s, t, NotifyAll).phases;
            |phases| == |s.phases| && Debt(phases) == Debt(s.phases) - 1
            && Chores(phases) <= Chores(s.phases) + |s.phases|
  {
    var popper := s.phases[t].OwesBoth?;
    var p: Phase<T> := if popper then OwesAllNotFull else Outside;
    var mid := WakeAll(s, popper).phases;
    assert mid[t] == s.phases[t];
    WakeAllCounts(s, popper);
    ChoresUpdate(mid, t, p);
    DebtUpdate(mid, t, p);
  }

  lemma NotifyAllWorks<T>(s: State<T>, t: Thread)
    requires Enabled(s, t, NotifyAll)
    ensures Work(Next(s, t, NotifyAll).phases) < Work(s.phases)
  {
    NotifyAllCounts(s, t);
    LessDebt(Chores(s.phases), Chores(Next(s, t, NotifyAll).phases), |s.phases|, Debt(s.phases));
  }

  // One notify_all less outweighs one more chore for everybody.
  lemma LessDebt(chores: nat, chores': nat, m: nat, debt: nat)
    requires chores' <= chores + m && debt > 0
    ensures chores' + (m + 1) * (debt - 1) < chores + (m + 1) * debt
  {
    assert (m + 1) * debt == (m + 1) * (debt - 1) + (m + 1);
  }

  // Every internal step spends work, so no thread can keep the others awake for ever.
  lemma InternalStepsSpendWork<T>(s: State<T>, t: Thread, a: Action<T>)
    requires Internal(a) && Enabled(s, t, a)
    ensures Work(Next(s, t, a).phases) < Work(s.phases)
  {
    match a {
      case Recheck => RecheckWorks(s, t);
      case NotifyOne(target) => NotifyOneWorks(s, t, target);
      case NotifyAll => NotifyAllWorks(s, t);
      case _ =>
    }
  }

  // A state that is not quiet can always take an internal step.
  lemma UnquietCanStep<T>(s: State<T>) returns (t: Thread, a: Action<T>)
    requires !Quiet(s)
    ensures Internal(a) && Enabled(s, t, a)
  {
    t :| t in s.phases && !s.phases[t].Outside? && !s.phases[t].PushWait? && !s.phases[t].PopWait?;
    var p := s.phases[t];
    if p.OwesNotEmpty? || p.OwesNotFull? {
      if u :| u in s.phases && Asleep(s, u, p.OwesNotEmpty?) {
        a := NotifyOne(Some(u));
      } else {
        a := NotifyOne(None);
      }
    } else if p.OwesBoth? || p.OwesAllNotFull? {
      a := NotifyAll;
    } else {
      a := Recheck;
    }
  }

  // Left to itself, from any reachable state, the queue settles within `Work` steps in a state where
  // whoever still sleeps has reason to; no schedule of internal steps is longer than that.
  lemma {:induction false} Settles<T>(s: State<T>) returns (states: seq<State<T>>, steps: seq<Step<T>>)
    requires NoLostWakeup(s)
    ensures IsRun(states, steps) && states[0] == s
    ensures forall i :: 0 <= i < |steps| ==> Internal(steps[i].action)
    ensures |steps| <= Work(s.phases)
    ensures Quiet(states[|steps|]) && Justified(states[|steps|])
    decreases Work(s.phases)
  {
    if Quiet(s) {
      states, steps := [s], [];
      QuietSleepersMustSleep(s);
    } else {
      var t, a := UnquietCanStep(s);
      InternalStepsSpendWork(s, t, a);
      NoLostWakeupStep(s, t, a);
      var rest, more := Settles(Next(s, t, a));
      states, steps := [s] + rest, [Step(t, a)] + more;
    }
  }

  lemma {:induction false} InternalRunsAreShort<T>(states: seq<State<T>>, steps: seq<Step<T>>)
    requires IsRun(states, steps)
    requires forall i :: 0 <= i < |steps| ==> Internal(steps[i].action)
    ensures |steps| + Work(states[|steps|].phases) <= Work(states[0].phases)
    decreases |steps|
  {
    if steps != [] {
      var k := |steps| - 1;
      assert IsRun(states[..k + 1], steps[..k]);
      InternalRunsAreShort(states[..k + 1], steps[..k]);
      InternalStepsSpendWork(states[k], steps[k].thread, steps[k].action);
    }
  }
}
