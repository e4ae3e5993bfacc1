// Latency recording: any number of threads inside `record_processed`, each atomic operation one step,
// with a compare-exchange that may fail although it would match.
module RuntimeMetrics {
  import opened Counting
  import opened Domain

  type Thread = nat

  datatype Phase =
    | Idle
    | Counted(latency: nat)                  // events_processed incremented
    | Stored(latency: nat)                   // last latency stored
    | Comparing(latency: nat, observed: nat) // in the compare-exchange loop

  // `begun` lists the latencies handed to record_processed, in the order their calls were counted, and
  // `stored` those that were stored as the last one, in that order.
  datatype State = State(
    processed: nat, last: nat, max: nat, phases: map<Thread, Phase>, begun: seq<nat>, stored: seq<nat>)

  function Initial(threads: set<Thread>): State {
    State(0, 0, 0, map t | t in threads :: Idle, [], [])
  }

  datatype Action = Begin(latency: nat) | Store | Load | Leave | Exchange | FailExchange

  predicate Enabled(s: State, t: Thread, a: Action) {
    t in s.phases && var p := s.phases[t];
    match a
    case Begin(_) => p.Idle?
    case Store => p.Counted?
    case Load => p.Stored?
    case Leave => p.Comparing? && p.observed >= p.latency
    case Exchange => p.Comparing? && p.observed < p.latency && s.max == p.observed
    case FailExchange => p.Comparing? && p.observed < p.latency  // spurious when max is as observed
  }

  function Next(s: State, t: Thread, a: Action): State
    requires Enabled(s, t, a)
  {
    var p := s.phases[t];
    match a
    case Begin(l) =>
      s.(processed := s.processed + 1, begun := s.begun + [l], phases := s.phases[t := Counted(l)])
    case Store =>
      s.(last := p.latency, stored := s.stored + [p.latency], phases := s.phases[t := Stored(p.latency)])
    case Load => s.(phases := s.phases[t := Comparing(p.latency, s.max)])
    case Leave => s.(phases := s.phases[t := Idle])
    case Exchange => s.(max := p.latency, phases := s.phases[t := Idle])
    case FailExchange => s.(phases := s.phases[t := p.(observed := s.max)])
  }

  ghost predicate Recording(s: State, l: nat) {
    exists t :: t in s.phases && !s.phases[t].Idle? && s.phases[t].latency == l
  }

  // The threads whose call is counted but whose latency is not yet stored.
  function Unstored(s: State): set<Thread> {
    set t | t in s.phases && s.phases[t].Counted?
  }

  // Every latency is covered by the maximum or still being recorded, and the maximum is one of them; the
  // last latency is the one stored most recently, and every call stores once.
  ghost predicate Sound(s: State) {
    && s.processed == |s.begun|
    && (s.max == 0 || s.max in s.begun)
    && s.last == (if s.stored == [] then 0 else s.stored[|s.stored| - 1])
    && |s.stored| + |Unstored(s)| == |s.begun|
    && (forall t :: t in s.phases && !s.phases[t].Idle? ==> s.phases[t].latency in s.begun)
    && (forall t :: t in s.phases && s.phases[t].Comparing? ==> s.phases[t].observed <= s.max)
    && (forall l :: l in s.begun ==> l <= s.max || Recording(s, l))
  }

  lemma SoundStep(s: State, t: Thread, a: Action)
    requires Sound(s) && Enabled(s, t, a)
    ensures Sound(Next(s, t, a)) && Next(s, t, a).max >= s.max
  {
    forall l | l in Next(s, t, a).begun
      ensures l <= Next(s, t, a).max || Recording(Next(s, t, a), l)
    {
      StaysCovered(s, t, a, l);
    }
    UnstoredStep(s, t, a);
  }

  lemma UnstoredStep(s: State, t: Thread, a: Action)
    requires Enabled(s, t, a)
    ensures |Unstored(Next(s, t, a))| == |Unstored(s)| + (if a.Begin? then 1 else if a.Store? then -1 else 0)
  {
    var before, after := Unstored(s), Unstored(Next(s, t, a));
    assert after - {t} == before - {t};
    CardinalityUpdate(before, after, t);
  }

  // A latency stays covered: its call goes on, or ends with the maximum at least as large.
  lemma StaysCovered(s: State, t: Thread, a: Action, l: nat)
    requires Enabled(s, t, a) && l in Next(s, t, a).begun
    requires l in s.begun ==> l <= s.max || Recording(s, l)
    requires forall u :: u in s.phases && s.phases[u].Comparing? ==> s.phases[u].observed <= s.max
    ensures l <= Next(s, t, a).max || Recording(Next(s, t, a), l)
  {
    var s' := Next(s, t, a);
    if a.Begin? && l == a.latency {
      assert s'.phases[t].latency == l;
    } else if Recording(s, l) {
      var u :| u in s.phases && !s.phases[u].Idle? && s.phases[u].latency == l;
      assert u in s'.phases;
      if u != t || !s'.phases[t].Idle? {
        assert s'.phases[u].latency == l;
      }
    }
  }

  ghost predicate IsRun(states: seq<State>, steps: seq<(Thread, Action)>) {
    && |states| == |steps| + 1
    && forall i :: 0 <= i < |steps| ==>
         Enabled(states[i], steps[i].0, steps[i].1) && states[i + 1] == Next(states[i], steps[i].0, steps[i].1)
  }

  lemma {:induction false} SoundEver(threads: set<Thread>, states: seq<State>, steps: seq<(Thread, Action)>, i: nat)
    requires IsRun(states, steps) && states[0] == Initial(threads) && i < |states|
    ensures Sound(states[i])
  {
    if i > 0 {
      SoundEver(threads, states, steps, i - 1);
      SoundStep(states[i - 1], steps[i - 1].0, steps[i - 1].1);
    }
  }

  function Largest(ls: seq<nat>): (m: nat)
    ensures m == 0 || m in ls
    ensures forall l :: l in ls ==> l <= m
  {
    if ls == [] then 0
    else
      assert ls == ls[..|ls| - 1] + [ls[|ls| - 1]];
      var m, l := Largest(ls[..|ls| - 1]), ls[|ls| - 1];
      if l > m then l else m
  }

  // Whenever no call is in progress, the maximum is exactly the largest latency ever recorded, however
  // the calls interleaved and however often the exchange failed.
  lemma MaximumIsExact(threads: set<Thread>, states: seq<State>, steps: seq<(Thread, Action)>, i: nat)
    requires IsRun(states, steps) && states[0] == Initial(threads) && i < |states|
    requires forall t :: t in states[i].phases ==> states[i].phases[t].Idle?
    ensures states[i].max == Largest(states[i].begun)
    ensures states[i].processed == |states[i].begun| == |states[i].stored|
    ensures states[i].stored != [] ==> states[i].last == states[i].stored[|states[i].stored| - 1]
  {
    SoundEver(threads, states, steps, i);
    assert forall l :: !Recording(states[i], l);
    assert Unstored(states[i]) == {};
  }

  // ----- A call can always be finished -----------------------------------------------------------------------

  function Larger(a: nat, b: nat): nat { if a < b then b else a }

  function After(s: State, t: Thread, todo: seq<Action>): Option<State>
    decreases |todo|
  {
    if todo == [] then Some(s)
    else if !Enabled(s, t, todo[0]) then None
    else After(Next(s, t, todo[0]), t, todo[1..])
  }

  function StepsLeft(s: State, p: Phase): nat {
    match p
    case Idle => 0
    case Counted(_) => 3
    case Stored(_) => 2
    case Comparing(_, observed) => if observed == s.max then 1 else 2
  }

  // From wherever it stands in the call, a thread that is left alone finishes it within three steps, and then
  // the maximum is the larger of what it was and this latency.
  lemma FinishesAlone(s: State, t: Thread) returns (todo: seq<Action>)
    requires t in s.phases && !s.phases[t].Idle?
    requires s.phases[t].Comparing? ==> s.phases[t].observed <= s.max
    ensures |todo| <= 3 && After(s, t, todo).Some?
    ensures var s' := After(s, t, todo).value;
            && s'.phases == s.phases[t := Idle] && s'.max == Larger(s.max, s.phases[t].latency)
            && s'.processed == s.processed && s'.begun == s.begun
    ensures |todo| <= StepsLeft(s, s.phases[t])
    decreases StepsLeft(s, s.phases[t])
  {
    var p := s.phases[t];
    var a := match p
      case Counted(_) => Store
      case Stored(_) => Load
      case Comparing(l, o) => if o >= l then Leave else if o == s.max then Exchange else FailExchange;
    var s' := Next(s, t, a);
    if s'.phases[t].Idle? {
      todo := [a];
      assert todo[1..] == [];
    } else {
      var rest := FinishesAlone(s', t);
      todo := [a] + rest;
      assert todo[1..] == rest;
    }
  }
}
