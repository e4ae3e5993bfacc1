// Whole-run properties of the protection state machine.
module ProtectionRuns {
  import opened Domain
  import opened MotorFsm

  // ----- A counter-free reference machine ------------------------------------------------------
  //
  // It remembers the samples received since the current state was entered and decides by looking
  // back over them: "were the last k samples all in this band?".

  datatype Band = Offline | Critical | Warning | Recovered

  predicate InBand(c: ProtectionConfig, band: Band, s: SensorSample) {
    match band
    case Offline => !s.online
    case Critical => s.online && IsCritical(c, s)
    case Warning => s.online && IsWarning(c, s)
    case Recovered => s.online && !IsWarning(c, s) && IsRecovered(c, s)
  }

  predicate Persisted(c: ProtectionConfig, w: seq<SensorSample>, k: nat, band: Band) {
    k <= |w| && forall i :: |w| - k <= i < |w| ==> InBand(c, band, w[i])
  }

  datatype Lookback = Lookback(state: MotorState, window: seq<SensorSample>)

  function Verdict(c: ProtectionConfig, state: MotorState, w: seq<SensorSample>): MotorState
    requires w != []
  {
    if !w[|w| - 1].online then
      if Persisted(c, w, c.offlineSamples, Offline) then FaultLatched else state
    else if Persisted(c, w, c.criticalSamples, Critical) then FaultLatched
    else if state == Healthy && Persisted(c, w, c.warningSamples, Warning) then Degraded
    else if state == Degraded && Persisted(c, w, c.recoverySamples, Recovered) then Healthy
    else state
  }

  function LookbackStep(c: ProtectionConfig, h: Lookback, e: Event): Lookback {
    match (h.state, e)
    case (SafeShutdown, _) => h
    case (_, ShutdownRequested) => Lookback(SafeShutdown, [])
    case (_, InternalFault) => Lookback(FaultLatched, [])
    case (Booting, Startup) => Lookback(SelfTest, [])
    case (SelfTest, SelfTestPassed) => Lookback(Healthy, [])
    case (FaultLatched, ResetRequested) => Lookback(SelfTest, [])
    case (Healthy, Sample(s)) => Judge(c, h.state, h.window + [s])
    case (Degraded, Sample(s)) => Judge(c, h.state, h.window + [s])
    case _ => h
  }

  function Judge(c: ProtectionConfig, state: MotorState, w: seq<SensorSample>): Lookback
    requires w != []
  {
    var next := Verdict(c, state, w);
    Lookback(next, if next == state then w else [])
  }

  function LookbackRun(c: ProtectionConfig, es: seq<Event>): Lookback {
    if es == [] then Lookback(Booting, [])
    else LookbackStep(c, LookbackRun(c, es[..|es| - 1]), es[|es| - 1])
  }

  // Length of the longest suffix of w lying in the band.
  function Trailing(c: ProtectionConfig, w: seq<SensorSample>, band: Band): nat {
    if w == [] || !InBand(c, band, w[|w| - 1]) then 0
    else 1 + Trailing(c, w[..|w| - 1], band)
  }

  lemma {:induction false} TrailingIsPersisted(c: ProtectionConfig, w: seq<SensorSample>, k: nat, band: Band)
    ensures Trailing(c, w, band) >= k <==> Persisted(c, w, k, band)
    decreases |w|
  {
    if w != [] && k > 0 {
      var v := w[..|w| - 1];
      TrailingIsPersisted(c, v, k - 1, band);
      if Persisted(c, w, k, band) {
        assert forall i :: |v| - (k - 1) <= i < |v| ==> v[i] == w[i];
      } else if InBand(c, band, w[|w| - 1]) && Persisted(c, v, k - 1, band) {
        assert forall i :: |w| - k <= i < |w| - 1 ==> w[i] == v[i];
      }
    }
  }

  lemma TrailingSnoc(c: ProtectionConfig, w: seq<SensorSample>, s: SensorSample, band: Band)
    ensures Trailing(c, w + [s], band) == if InBand(c, band, s) then Trailing(c, w, band) + 1 else 0
  {
    assert (w + [s])[..|w + [s]| - 1] == w;
  }

  // The lengths of the four trailing runs; recovery is looked for only while degraded.
  function TrailingRuns(c: ProtectionConfig, state: MotorState, w: seq<SensorSample>): Counters {
    Counters(Trailing(c, w, Warning), Trailing(c, w, Critical),
             if state == Degraded then Trailing(c, w, Recovered) else 0, Trailing(c, w, Offline))
  }

  // The counters are exactly the trailing runs of the window.
  ghost predicate Mirrors(c: ProtectionConfig, m: Machine, h: Lookback) {
    && m.state == h.state
    && (!Monitoring(m.state) ==> m.counters == ZERO && h.window == [])
    && (Monitoring(m.state) ==> m.counters == TrailingRuns(c, m.state, h.window))
  }

  // Where a sample leads, given the counts that include it.
  function Ruling(c: ProtectionConfig, state: MotorState, online: bool, n: Counters): MotorState {
    if !online then if n.offline >= c.offlineSamples then FaultLatched else state
    else if n.critical >= c.criticalSamples then FaultLatched
    else if state == Healthy && n.warning >= c.warningSamples then Degraded
    else if state == Degraded && n.recovery >= c.recoverySamples then Healthy
    else state
  }

  lemma StepIsRuled(c: ProtectionConfig, m: Machine, s: SensorSample)
    requires Monitoring(m.state)
    ensures var m', n := Step(c, m, Sample(s)), Tally(c, m, s);
            && m'.state == Ruling(c, m.state, s.online, n)
            && m'.counters == if m'.state == m.state then n else ZERO
  {
  }

  lemma VerdictIsRuled(c: ProtectionConfig, state: MotorState, w: seq<SensorSample>)
    requires w != []
    ensures Verdict(c, state, w) == Ruling(c, state, w[|w| - 1].online, TrailingRuns(c, state, w))
  {
    TrailingIsPersisted(c, w, c.offlineSamples, Offline);
    TrailingIsPersisted(c, w, c.criticalSamples, Critical);
    TrailingIsPersisted(c, w, c.warningSamples, Warning);
    TrailingIsPersisted(c, w, c.recoverySamples, Recovered);
  }

  lemma TallyIsTrailing(c: ProtectionConfig, m: Machine, w: seq<SensorSample>, s: SensorSample)
    requires Monitoring(m.state) && m.counters == TrailingRuns(c, m.state, w)
    ensures Tally(c, m, s) == TrailingRuns(c, m.state, w + [s])
  {
    TrailingSnoc(c, w, s, Offline);
    TrailingSnoc(c, w, s, Critical);
    TrailingSnoc(c, w, s, Warning);
    TrailingSnoc(c, w, s, Recovered);
  }

  lemma SampleMirrors(c: ProtectionConfig, m: Machine, h: Lookback, s: SensorSample)
    requires Mirrors(c, m, h) && Monitoring(m.state)
    ensures Mirrors(c, Step(c, m, Sample(s)), LookbackStep(c, h, Sample(s)))
  {
    StepIsRuled(c, m, s);
    TallyIsTrailing(c, m, h.window, s);
    VerdictIsRuled(c, h.state, h.window + [s]);
  }

  // Over every event run the counter machine and the look-back machine agree.
  lemma {:induction false} CountersAreHistory(c: ProtectionConfig, es: seq<Event>)
    ensures Mirrors(c, Run(c, INITIAL, es), LookbackRun(c, es))
    decreases |es|
  {
    if es != [] {
      var front, e := es[..|es| - 1], es[|es| - 1];
      CountersAreHistory(c, front);
      var m, h := Run(c, INITIAL, front), LookbackRun(c, front);
      if e.Sample? && Monitoring(m.state) {
        SampleMirrors(c, m, h, e.sample);
      }
    }
  }

  // ----- What a transition report says ----------------------------------------------------------

  // The edges of the state diagram, with the reason each one reports.
  predicate Edge(from: MotorState, to: MotorState, reason: TransitionReason) {
    match reason
    case NoReason => from == to
    case StartupRequested => from == Booting && to == SelfTest
    case SelfTestSucceeded => from == SelfTest && to == Healthy
    case WarningPersisted => from == Healthy && to == Degraded
    case ReadingsRecovered => from == Degraded && to == Healthy
    case CriticalReading => Monitoring(from) && to == FaultLatched
    case SensorOffline => Monitoring(from) && to == FaultLatched
    case InternalResourceFailure => from != SafeShutdown && to == FaultLatched
    case ManualReset => from == FaultLatched && to == SelfTest
    case ShutdownReason => from != SafeShutdown && to == SafeShutdown
  }

  // The reasons an event can give, outside SafeShutdown.
  predicate Fits(e: Event, reason: TransitionReason) {
    match e
    case Startup => reason == NoReason || reason == StartupRequested
    case SelfTestPassed => reason == NoReason || reason == SelfTestSucceeded
    case ResetRequested => reason == NoReason || reason == ManualReset
    case ShutdownRequested => reason == ShutdownReason
    case InternalFault => reason == InternalResourceFailure
    case Sample(s) =>
      reason == NoReason
      || if s.online then reason == CriticalReading || reason == WarningPersisted || reason == ReadingsRecovered
         else reason == SensorOffline
  }

  lemma TransitionsFollowDiagram(c: ProtectionConfig, m: Machine, e: Event)
    ensures var (m', t) := Handle(c, m, e);
            && t.previous == m.state && t.current == m'.state
            && (t.changed <==> m.state != m'.state)
            && Edge(m.state, m'.state, t.reason)
            && (t.reason != NoReason ==> m'.counters == ZERO)
            && if m.state == SafeShutdown then t.reason == NoReason else Fits(e, t.reason)
  {
  }

  // ----- The last sample -------------------------------------------------------------------------

  // The samples that arrived before any shutdown request.
  function Seen(es: seq<Event>): seq<SensorSample> {
    if es == [] then []
    else
      var front, e := es[..|es| - 1], es[|es| - 1];
      Seen(front) + if e.Sample? && ShutdownRequested !in front then [e.sample] else []
  }

  lemma SampleIsKept(c: ProtectionConfig, m: Machine, e: Event)
    ensures var m' := Step(c, m, e);
            if e.Sample? && m.state != SafeShutdown then m'.hasSample && m'.lastSample == e.sample
            else m'.hasSample == m.hasSample && m'.lastSample == m.lastSample
  {
  }

  // Over every run the machine holds the last of them, in every state, and knows whether there is one.
  lemma {:induction false} LastSampleIsKept(c: ProtectionConfig, es: seq<Event>)
    ensures var m, seen := Run(c, INITIAL, es), Seen(es);
            && (m.hasSample <==> seen != [])
            && (seen != [] ==> m.lastSample == seen[|seen| - 1])
    decreases |es|
  {
    if es != [] {
      var front, e := es[..|es| - 1], es[|es| - 1];
      LastSampleIsKept(c, front);
      ShutdownExactly(c, INITIAL, front);
      SampleIsKept(c, Run(c, INITIAL, front), e);
    }
  }

  // ----- Latching -------------------------------------------------------------------------------

  lemma {:induction false} SafeShutdownIsFinal(c: ProtectionConfig, m: Machine, es: seq<Event>)
    requires m.state == SafeShutdown
    ensures Run(c, m, es) == m
    decreases |es|
  {
    if es != [] {
      SafeShutdownIsFinal(c, m, es[..|es| - 1]);
    }
  }

  lemma ShutdownStep(c: ProtectionConfig, m: Machine, e: Event)
    ensures Step(c, m, e).state == SafeShutdown <==> m.state == SafeShutdown || e == ShutdownRequested
  {
  }

  // A run ends in SafeShutdown exactly when it started there or was asked to shut down.
  lemma {:induction false} ShutdownExactly(c: ProtectionConfig, m: Machine, es: seq<Event>)
    ensures Run(c, m, es).state == SafeShutdown <==> m.state == SafeShutdown || ShutdownRequested in es
    decreases |es|
  {
    if es != [] {
      var front, e := es[..|es| - 1], es[|es| - 1];
      ShutdownExactly(c, m, front);
      ShutdownStep(c, Run(c, m, front), e);
      assert es == front + [e];
    }
  }

  ghost predicate ResetThenSelfTest(es: seq<Event>) {
    exists i, j :: 0 <= i < j < |es| && es[i] == ResetRequested && es[j] == SelfTestPassed
  }

  // How one event can bring the machine to SelfTest or to a monitoring state.
  lemma WaysIn(c: ProtectionConfig, m: Machine, e: Event)
    ensures var m' := Step(c, m, e);
            && (m'.state == Booting ==> m.state == Booting)
            && (m'.state == SelfTest ==> m.state == SelfTest || m.state == Booting || e == ResetRequested)
            && (Monitoring(m'.state) ==> Monitoring(m.state) || (m.state == SelfTest && e == SelfTestPassed))
  {
  }

  lemma ResetThenSelfTestGrows(es: seq<Event>, e: Event)
    requires ResetThenSelfTest(es) || (ResetRequested in es && e == SelfTestPassed)
    ensures ResetThenSelfTest(es + [e])
  {
    var all := es + [e];
    if ResetThenSelfTest(es) {
      var i, j :| 0 <= i < j < |es| && es[i] == ResetRequested && es[j] == SelfTestPassed;
      assert all[i] == ResetRequested && all[j] == SelfTestPassed;
    } else {
      var i :| 0 <= i < |es| && es[i] == ResetRequested;
      assert all[i] == ResetRequested && all[|es|] == SelfTestPassed;
    }
  }

  // A latched fault is left for a monitoring state only through a reset and, later, a self test.
  lemma {:induction false} FaultStaysLatched(c: ProtectionConfig, m: Machine, es: seq<Event>)
    requires m.state == FaultLatched
    ensures Run(c, m, es).state != Booting
    ensures Run(c, m, es).state == SelfTest ==> ResetRequested in es
    ensures Monitoring(Run(c, m, es).state) ==> ResetThenSelfTest(es)
    decreases |es|
  {
    if es != [] {
      var front, e := es[..|es| - 1], es[|es| - 1];
      FaultStaysLatched(c, m, front);
      WaysIn(c, Run(c, m, front), e);
      assert es == front + [e];
      if Monitoring(Run(c, m, es).state) {
        ResetThenSelfTestGrows(front, e);
      }
    }
  }

  // The same, between any two points of a run from power-up.
  lemma FaultLatchedOverRuns(c: ProtectionConfig, es: seq<Event>, a: nat, b: nat)
    requires a <= b <= |es|
    requires Run(c, INITIAL, es[..a]).state == FaultLatched
    requires Monitoring(Run(c, INITIAL, es[..b]).state)
    ensures ResetThenSelfTest(es[a..b])
  {
    assert es[..b] == es[..a] + es[a..b];
    RunAppend(c, INITIAL, es[..a], es[a..b]);
    FaultStaysLatched(c, Run(c, INITIAL, es[..a]), es[a..b]);
  }

  // ----- Anti-chatter budget ---------------------------------------------------------------------

  datatype Ledger = Ledger(
    samples: nat, degradations: nat, recoveries: nat, criticalFaults: nat, offlineFaults: nat)

  function Book(l: Ledger, e: Event, reason: TransitionReason): Ledger {
    var l := if e.Sample? then l.(samples := l.samples + 1) else l;
    match reason
    case WarningPersisted => l.(degradations := l.degradations + 1)
    case ReadingsRecovered => l.(recoveries := l.recoveries + 1)
    case CriticalReading => l.(criticalFaults := l.criticalFaults + 1)
    case SensorOffline => l.(offlineFaults := l.offlineFaults + 1)
    case _ => l
  }

  // Counts samples and sample-driven transitions over a run from power-up.
  function Tallied(c: ProtectionConfig, es: seq<Event>): Ledger {
    if es == [] then Ledger(0, 0, 0, 0, 0)
    else
      var front, e := es[..|es| - 1], es[|es| - 1];
      Book(Tallied(c, front), e, Handle(c, Run(c, INITIAL, front), e).1.reason)
  }

  function Cost(c: ProtectionConfig, l: Ledger): nat {
    c.warningSamples * l.degradations + c.recoverySamples * l.recoveries
    + c.criticalSamples * l.criticalFaults + c.offlineSamples * l.offlineFaults
  }

  // One step costs at most one sample beyond the largest counter it may have consumed.
  lemma BookCost(c: ProtectionConfig, l: Ledger, e: Event, reason: TransitionReason)
    ensures Cost(c, Book(l, e, reason)) == Cost(c, l) + match reason
      case WarningPersisted => c.warningSamples
      case ReadingsRecovered => c.recoverySamples
      case CriticalReading => c.criticalSamples
      case SensorOffline => c.offlineSamples
      case _ => 0
  {
    assert forall k: nat, x: nat {:trigger k * (x + 1)} :: k * (x + 1) == k * x + k;
  }

  lemma BudgetStep(c: ProtectionConfig, m: Machine, l: Ledger, e: Event)
    requires BudgetHolds(c, m, l)
    ensures var (m', t) := Handle(c, m, e); BudgetHolds(c, m', Book(l, e, t.reason))
  {
    BookCost(c, l, e, Handle(c, m, e).1.reason);
  }

  // Every counter is backed by samples no transition has been charged for yet.
  predicate BudgetHolds(c: ProtectionConfig, m: Machine, l: Ledger) {
    var free := l.samples - Cost(c, l);
    && m.counters.warning <= free && m.counters.critical <= free
    && m.counters.recovery <= free && m.counters.offline <= free
  }

  // Every run pays for each sample-driven transition with its full number of samples.
  lemma {:induction false} AntiChatter(c: ProtectionConfig, es: seq<Event>)
    ensures BudgetHolds(c, Run(c, INITIAL, es), Tallied(c, es))
    ensures Tallied(c, es).samples >= Cost(c, Tallied(c, es))
    decreases |es|
  {
    if es != [] {
      var front := es[..|es| - 1];
      AntiChatter(c, front);
      BudgetStep(c, Run(c, INITIAL, front), Tallied(c, front), es[|es| - 1]);
    }
  }
}
