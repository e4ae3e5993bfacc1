// What the callers of `publish` are told, counted over all threads, and what `start` announces.
module RuntimeAnswers {
  import opened Domain
  import opened MotorFsm
  import opened EdgeRuntime
  import opened RuntimeLifecycle
  import opened RuntimeTheorems
  import opened Counting

  // ----- Counting answers -----------------------------------------------------------------------------------

  // The finished calls that were given an answer: by whom, and the how many-th of that thread.
  function Told(publishers: map<Thread, Publisher>, r: PublishResult): set<(Thread, nat)> {
    set t, i: nat | t in publishers && i < |publishers[t].returned| && publishers[t].returned[i].result == r :: (t, i)
  }

  // The calls inside publish whose answer is already decided to be a refusal of this kind.
  predicate Doomed(p: Publisher, r: PublishResult) {
    (p.phase.Refused? || p.phase.Dropping?) && p.phase.result == r
  }

  function ToBeTold(publishers: map<Thread, Publisher>, r: PublishResult): set<Thread> {
    set t | t in publishers && Doomed(publishers[t], r)
  }

  // Calls that were, or are about to be, refused in this way.
  function Refusals(s: State, r: PublishResult): nat {
    |Told(s.publishers, r)| + |ToBeTold(s.publishers, r)|
  }

  predicate IsRefusal(r: PublishResult) { r == PoolExhausted || r == QueueTimeout || r == QueueClosed }

  // Every answer is one the runtime has counted, and every refusal it has counted is somebody's answer.
  ghost predicate AnswersBalance(s: State) {
    && |Told(s.publishers, Published)| == s.counts.published
    && |Told(s.publishers, PoolExhausted)| + |Told(s.publishers, QueueTimeout)| + |Told(s.publishers, QueueClosed)|
       == s.counts.dropped
    && Refusals(s, PoolExhausted) == s.pool.stats.failures
    && Refusals(s, QueueTimeout) == s.queue.stats.pushTimeouts
    && Refusals(s, QueueClosed) == s.log.closedRejections
    && forall t :: t in s.publishers ==> Honest(s.publishers[t])
  }

  // A refusal that is being reported is one of the three, and queue_full is never reported.
  predicate Honest(p: Publisher) {
    && ((p.phase.Refused? || p.phase.Dropping?) ==> IsRefusal(p.phase.result))
    && forall i :: 0 <= i < |p.returned| ==> p.returned[i].result != QueueFull
  }

  // ----- One thread moves -----------------------------------------------------------------------------------

  // The answer t has just been given, if its call has just returned.
  predicate JustTold(before: Publisher, after: Publisher, r: PublishResult) {
    |after.returned| == |before.returned| + 1 && after.returned[|before.returned|].result == r
  }

  // t returns from at most one call.
  predicate Continues(before: Publisher, after: Publisher) {
    after.returned == before.returned
    || (|after.returned| == |before.returned| + 1 && after.returned[..|before.returned|] == before.returned)
  }

  lemma ToldUpdate(ps: map<Thread, Publisher>, t: Thread, p: Publisher, r: PublishResult)
    requires t in ps && Continues(ps[t], p)
    ensures |Told(ps[t := p], r)| == |Told(ps, r)| + One(JustTold(ps[t], p, r))
  {
    var before, after := Told(ps, r), Told(ps[t := p], r);
    var x: (Thread, nat) := (t, |ps[t].returned|);
    forall y: (Thread, nat) ensures y in after <==> y in before || (y == x && JustTold(ps[t], p, r)) {
      ToldMember(ps, r, y);
      ToldMember(ps[t := p], r, y);
      assert y.1 < |ps[t].returned| ==> p.returned[y.1] == ps[t].returned[y.1];
    }
    ToldMember(ps, r, x);
    AddOne(before, after, x, JustTold(ps[t], p, r));
  }

  lemma ToldMember(ps: map<Thread, Publisher>, r: PublishResult, y: (Thread, nat))
    ensures y in Told(ps, r) <==>
            y.0 in ps && y.1 < |ps[y.0].returned| && ps[y.0].returned[y.1].result == r
  {
  }

  lemma AddOne<A>(before: set<A>, after: set<A>, x: A, added: bool)
    requires x !in before && forall y :: y in after <==> y in before || (y == x && added)
    ensures |after| == |before| + One(added)
  {
    assert after == if added then before + {x} else before;
  }

  lemma ToBeToldUpdate(ps: map<Thread, Publisher>, t: Thread, p: Publisher, r: PublishResult)
    requires t in ps
    ensures |ToBeTold(ps[t := p], r)| == |ToBeTold(ps, r)| - One(Doomed(ps[t], r)) + One(Doomed(p, r))
  {
    var before, after := ToBeTold(ps, r), ToBeTold(ps[t := p], r);
    assert after - {t} == before - {t};
    CardinalityUpdate(before, after, t);
  }

  lemma AnswersUpdate(s: State, t: Thread, p: PublishStep, r: PublishResult)
    requires PublishEnabled(s, t, p)
    ensures var s' := DoPublish(s, t, p);
            var from, to := s.publishers[t], s'.publishers[t];
            && |Told(s'.publishers, r)| == |Told(s.publishers, r)| + One(JustTold(from, to, r))
            && Refusals(s', r) == Refusals(s, r) + One(JustTold(from, to, r)) - One(Doomed(from, r)) + One(Doomed(to, r))
  {
    var to := DoPublish(s, t, p).publishers[t];
    PublishEffect(s, t, p);
    PublisherEffect(s, t, p);
    ToldUpdate(s.publishers, t, to, r);
    ToBeToldUpdate(s.publishers, t, to, r);
  }

  // What a step of publish counts is what it answers or decides to answer.
  lemma CountsFollowAnswers(s: State, t: Thread, p: PublishStep)
    requires PublishEnabled(s, t, p) && Honest(s.publishers[t])
    ensures var s' := DoPublish(s, t, p);
            var from, to := s.publishers[t], s'.publishers[t];
            && Honest(to)
            && s'.counts.published == s.counts.published + One(JustTold(from, to, Published))
            && s'.counts.dropped == s.counts.dropped + One(JustTold(from, to, PoolExhausted))
                                    + One(JustTold(from, to, QueueTimeout)) + One(JustTold(from, to, QueueClosed))
  {
  }

  lemma RefusalsAreCounted(s: State, t: Thread, p: PublishStep)
    requires PublishEnabled(s, t, p) && Honest(s.publishers[t])
    ensures var s' := DoPublish(s, t, p);
            && s'.pool.stats.failures == s.pool.stats.failures + NewRefusal(s, s', t, PoolExhausted)
            && s'.queue.stats.pushTimeouts == s.queue.stats.pushTimeouts + NewRefusal(s, s', t, QueueTimeout)
            && s'.log.closedRejections == s.log.closedRejections + NewRefusal(s, s', t, QueueClosed)
  {
    match p {
      case Enter(_) =>
      case Create =>
      case FinishPush => PushRefusals(s, t);
      case ReleaseRefused =>
      case RecordOutcome => OutcomeRefusals(s, t);
    }
  }

  lemma PushRefusals(s: State, t: Thread)
    requires PublishEnabled(s, t, FinishPush)
    ensures var s' := DoPublish(s, t, FinishPush);
            && s'.pool.stats.failures == s.pool.stats.failures + NewRefusal(s, s', t, PoolExhausted)
            && s'.queue.stats.pushTimeouts == s.queue.stats.pushTimeouts + NewRefusal(s, s', t, QueueTimeout)
            && s'.log.closedRejections == s.log.closedRejections + NewRefusal(s, s', t, QueueClosed)
  {
  }

  lemma OutcomeRefusals(s: State, t: Thread)
    requires PublishEnabled(s, t, RecordOutcome)
    ensures var s' := DoPublish(s, t, RecordOutcome);
            && s'.pool == s.pool && s'.queue == s.queue && s'.log == s.log
            && NewRefusal(s, s', t, PoolExhausted) == NewRefusal(s, s', t, QueueTimeout) == 0
            && NewRefusal(s, s', t, QueueClosed) == 0
  {
  }

  function NewRefusal(s: State, s': State, t: Thread, r: PublishResult): int
    requires t in s.publishers && t in s'.publishers
  {
    One(JustTold(s.publishers[t], s'.publishers[t], r)) - One(Doomed(s.publishers[t], r))
    + One(Doomed(s'.publishers[t], r))
  }

  lemma PublishKeepsAnswers(s: State, t: Thread, p: PublishStep)
    requires AnswersBalance(s) && PublishEnabled(s, t, p)
    ensures AnswersBalance(DoPublish(s, t, p))
  {
    PublishEffect(s, t, p);
    CountsFollowAnswers(s, t, p);
    RefusalsAreCounted(s, t, p);
    AnswersUpdate(s, t, p, Published);
    AnswersUpdate(s, t, p, PoolExhausted);
    AnswersUpdate(s, t, p, QueueTimeout);
    AnswersUpdate(s, t, p, QueueClosed);
  }

  lemma OthersAnswerNobody(s: State, step: Step)
    requires Enabled(s, step) && !step.PublishBy?
    ensures var s' := Next(s, step);
            && s'.publishers == s.publishers && s'.counts.published == s.counts.published
            && s'.counts.dropped == s.counts.dropped && s'.pool.stats.failures == s.pool.stats.failures
            && s'.queue.stats.pushTimeouts == s.queue.stats.pushTimeouts
            && s'.log.closedRejections == s.log.closedRejections
  {
  }

  lemma AnswersStep(s: State, step: Step)
    requires AnswersBalance(s) && Enabled(s, step)
    ensures AnswersBalance(Next(s, step))
  {
    if step.PublishBy? {
      PublishKeepsAnswers(s, step.thread, step.publish);
    } else {
      OthersAnswerNobody(s, step);
    }
  }

  // ----- What start announces ---------------------------------------------------------------------------------

  function Announcement(i: nat): Event { if i == 0 then Startup else SelfTestPassed }

  // start's calls: startup first, then the passed self test; the gate is open for both.
  predicate Announces(s: State) {
    Starter in s.publishers && var p := s.publishers[Starter];
    && (forall i :: 0 <= i < |p.returned| ==> p.returned[i].event == Announcement(i) && p.returned[i].result != NotRunning)
    && (!p.phase.Idle? ==> p.phase.event == Announcement(|p.returned|))
    && Honest(p)
  }

  lemma StarterStep(s: State, p: PublishStep)
    requires Lifecycle(s) && Announces(s) && PublishEnabled(s, Starter, p)
    ensures Announces(DoPublish(s, Starter, p))
  {
    CountsFollowAnswers(s, Starter, p);
    PublishEffect(s, Starter, p);
    PublisherEffect(s, Starter, p);
    StarterIsAdmitted(s, p);
  }

  lemma StarterIsAdmitted(s: State, p: PublishStep)
    requires Lifecycle(s) && PublishEnabled(s, Starter, p) && Honest(s.publishers[Starter])
    ensures var from, to := s.publishers[Starter], DoPublish(s, Starter, p).publishers[Starter];
            && (p.Enter? ==> to.phase.Admitted? && p.event == Announcement(|from.returned|))
            && !JustTold(from, to, NotRunning)
  {
  }

  lemma AnnouncesStep(s: State, step: Step)
    requires Lifecycle(s) && Announces(s) && Enabled(s, step)
    ensures Announces(Next(s, step))
  {
    if step.PublishBy? {
      if step.thread == Starter {
        StarterStep(s, step.publish);
      } else {
        PublishEffect(s, step.thread, step.publish);
      }
    } else {
      OthersAnswerNobody(s, step);
    }
  }

  // ----- In every reachable state -------------------------------------------------------------------------------

  lemma InitiallyAnswered(config: ProtectionConfig, poolCapacity: nat, queueCapacity: nat, clients: set<nat>)
    ensures var s := Initial(config, poolCapacity, queueCapacity, clients); AnswersBalance(s) && Announces(s)
  {
    var s := Initial(config, poolCapacity, queueCapacity, clients);
    forall r: PublishResult ensures Told(s.publishers, r) == {} && ToBeTold(s.publishers, r) == {} {
    }
  }

  lemma {:induction false} AnswersAlong(s: State, steps: seq<Step>)
    requires Lifecycle(s) && AnswersBalance(s) && Announces(s) && CanRun(s, steps)
    ensures AnswersBalance(After(s, steps)) && Announces(After(s, steps))
    decreases |steps|
  {
    if steps != [] {
      LifecycleStep(s, steps[0]);
      AnswersStep(s, steps[0]);
      AnnouncesStep(s, steps[0]);
      AnswersAlong(Next(s, steps[0]), steps[1..]);
    }
  }

  lemma ReachableAnswers(s: State)
    requires Reachable(s)
    ensures AnswersBalance(s) && Announces(s)
  {
    var config, poolCapacity, queueCapacity, clients, steps :|
      ReachedBy(s, config, poolCapacity, queueCapacity, clients, steps);
    InitiallyAnswered(config, poolCapacity, queueCapacity, clients);
    InitiallyLifecycle(config, poolCapacity, queueCapacity, clients);
    AnswersAlong(Initial(config, poolCapacity, queueCapacity, clients), steps);
  }

  // In every reachable state, over all threads and all their calls: the answers given agree with what the
  // metrics, the pool and the queue have counted, answer by answer.
  lemma AnswersAgree(s: State)
    requires Reachable(s)
    ensures |Told(s.publishers, Published)| == s.counts.published
    ensures |Told(s.publishers, PoolExhausted)| + |Told(s.publishers, QueueTimeout)| + |Told(s.publishers, QueueClosed)|
            == s.counts.dropped
    ensures |Told(s.publishers, PoolExhausted)| + |ToBeTold(s.publishers, PoolExhausted)| == s.pool.stats.failures
    ensures |Told(s.publishers, QueueTimeout)| + |ToBeTold(s.publishers, QueueTimeout)| == s.queue.stats.pushTimeouts
    ensures |Told(s.publishers, QueueClosed)| + |ToBeTold(s.publishers, QueueClosed)| == s.log.closedRejections
    ensures Told(s.publishers, QueueFull) == {}
    ensures |Answered(s.publishers)| == s.counts.published + s.counts.dropped
  {
    ReachableAnswers(s);
    assert forall t :: t in s.publishers ==> Honest(s.publishers[t]);
    AnsweredByKind(s.publishers);
  }

  // The finished calls that got past the gate.
  function Answered(publishers: map<Thread, Publisher>): set<(Thread, nat)> {
    set t, i: nat | t in publishers && i < |publishers[t].returned|
                    && publishers[t].returned[i].result != NotRunning :: (t, i)
  }

  lemma AnsweredByKind(ps: map<Thread, Publisher>)
    requires Told(ps, QueueFull) == {}
    ensures |Answered(ps)| == |Told(ps, Published)| + |Told(ps, PoolExhausted)| + |Told(ps, QueueTimeout)|
                              + |Told(ps, QueueClosed)|
  {
    var a, b, c, d := Told(ps, Published), Told(ps, PoolExhausted), Told(ps, QueueTimeout), Told(ps, QueueClosed);
    AnsweredIsUnion(ps);
    ToldApart(ps, Published, PoolExhausted);
    ToldApart(ps, Published, QueueTimeout);
    ToldApart(ps, Published, QueueClosed);
    ToldApart(ps, PoolExhausted, QueueTimeout);
    ToldApart(ps, PoolExhausted, QueueClosed);
    ToldApart(ps, QueueTimeout, QueueClosed);
    FourApart(a, b, c, d);
  }

  lemma AnsweredIsUnion(ps: map<Thread, Publisher>)
    requires Told(ps, QueueFull) == {}
    ensures Answered(ps) == Told(ps, Published) + Told(ps, PoolExhausted) + Told(ps, QueueTimeout) + Told(ps, QueueClosed)
  {
    forall y
      ensures y in Answered(ps) <==> y in Told(ps, Published) || y in Told(ps, PoolExhausted)
                                     || y in Told(ps, QueueTimeout) || y in Told(ps, QueueClosed)
    {
      AnsweredMember(ps, y);
      ToldMember(ps, Published, y);
      ToldMember(ps, PoolExhausted, y);
      ToldMember(ps, QueueTimeout, y);
      ToldMember(ps, QueueClosed, y);
      ToldMember(ps, QueueFull, y);
    }
  }

  lemma AnsweredMember(ps: map<Thread, Publisher>, y: (Thread, nat))
    ensures y in Answered(ps) <==>
            y.0 in ps && y.1 < |ps[y.0].returned| && ps[y.0].returned[y.1].result != NotRunning
  {
  }

  lemma ToldApart(ps: map<Thread, Publisher>, r: PublishResult, r': PublishResult)
    requires r != r'
    ensures Told(ps, r) !! Told(ps, r')
  {
    forall y | y in Told(ps, r) ensures y !in Told(ps, r') {
      ToldMember(ps, r, y);
      ToldMember(ps, r', y);
    }
  }

  lemma FourApart<A>(a: set<A>, b: set<A>, c: set<A>, d: set<A>)
    requires a !! b && a !! c && a !! d && b !! c && b !! d && c !! d
    ensures |a + b + c + d| == |a| + |b| + |c| + |d|
  {
    assert (a + b) !! c && (a + b + c) !! d;
  }

  // A call is turned away at the gate exactly outside the time between start's opening and stop's shutting it.
  // It is then told `not_running` and leaves no trace; within that time it is admitted with its event.
  lemma GateAnswers(s: State, t: Thread, e: Event)
    requires Reachable(s) && PublishEnabled(s, t, Enter(e))
    ensures var s' := DoPublish(s, t, Enter(e));
            var p := s.publishers[t];
            if StartRank(s.life.start) >= 2 && StopRank(s.life.stop) <= 1
            then s'.publishers == s.publishers[t := p.(phase := Admitted(e))]
                 && s' == s.(publishers := s'.publishers, log := s.log.(admitted := s.log.admitted + 1))
            else s' == s.(publishers := s.publishers[t := p.(returned := p.returned + [Call(e, NotRunning)])])
  {
    ReachableLifecycle(s);
  }

  // When start returns it has announced startup and then the passed self test, and neither call was turned
  // away at the gate.
  lemma StartAnnounces(s: State)
    requires Reachable(s) && s.life.start == StartReturned
    ensures Starter in s.publishers && var calls := s.publishers[Starter].returned;
            && |calls| == 2 && calls[0].event == Startup && calls[1].event == SelfTestPassed
            && calls[0].result != NotRunning && calls[1].result != NotRunning
  {
    ReachableAnswers(s);
    ReachableLifecycle(s);
  }
}
