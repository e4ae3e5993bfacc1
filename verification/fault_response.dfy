// How soon a stream of critical samples latches a fault, and for exactly which configurations.
module FaultResponse {
  import opened Domain
  import opened MotorFsm
  import opened ProtectionRuns

  // ----- Configurations ------------------------------------------------------------------------------

  // First warning sample at which a freshly entered Healthy state degrades, if it gets there.
  function DegradeAt(c: ProtectionConfig): nat {
    if c.warningSamples == 0 then 1 else c.warningSamples
  }

  // Each warning threshold lies at or below its critical threshold.
  predicate Ordered(c: ProtectionConfig) {
    c.temperatureWarning <= c.temperatureCritical
    && c.vibrationWarning <= c.vibrationCritical
    && c.currentWarning <= c.currentCritical
  }

  // Every warning is critical and every critical reading a warning.
  predicate Uniform(c: ProtectionConfig) {
    c.temperatureWarning == c.temperatureCritical
    && c.vibrationWarning == c.vibrationCritical
    && c.currentWarning == c.currentCritical
  }

  // Some reading is a warning without being critical.
  predicate WarnsEarly(c: ProtectionConfig) {
    c.temperatureWarning < c.temperatureCritical
    || c.vibrationWarning < c.vibrationCritical
    || c.currentWarning < c.currentCritical
  }

  // Some critical reading is no warning and counts as recovered.
  predicate RecoversCritical(c: ProtectionConfig) {
    (c.temperatureCritical < c.temperatureWarning && c.temperatureCritical <= c.temperatureRecovery)
    || (c.vibrationCritical < c.vibrationWarning && c.vibrationCritical <= c.vibrationRecovery)
    || (c.currentCritical < c.currentWarning && c.currentCritical <= c.currentRecovery)
  }

  // More than one critical sample is needed and the motor can degrade before they are counted.
  predicate CanDegrade(c: ProtectionConfig) {
    c.criticalSamples != 1 && (DegradeAt(c) < c.criticalSamples || WarnsEarly(c))
  }

  // A degraded motor takes critical samples for a recovery before they are counted as a fault.
  predicate RecoversFirst(c: ProtectionConfig) {
    c.recoverySamples == 0 || (RecoversCritical(c) && c.recoverySamples < c.criticalSamples)
  }

  // ----- One critical sample ---------------------------------------------------------------------------

  predicate Well(c: ProtectionConfig, s: SensorSample) { !IsWarning(c, s) && IsRecovered(c, s) }

  // State and counters after one more critical sample.
  function AfterCritical(c: ProtectionConfig, state: MotorState, n: Counters, warm: bool, well: bool)
    : (MotorState, Counters)
  {
    var n' := Counters(if warm then n.warning + 1 else 0, n.critical + 1,
                       if state == Degraded && well then n.recovery + 1 else 0, 0);
    if n'.critical >= c.criticalSamples then (FaultLatched, ZERO)
    else if state == Healthy && n'.warning >= c.warningSamples then (Degraded, ZERO)
    else if state == Degraded && n'.recovery >= c.recoverySamples then (Healthy, ZERO)
    else (state, n')
  }

  lemma CriticalStep(c: ProtectionConfig, m: Machine, s: SensorSample)
    requires Monitoring(m.state) && InBand(c, Critical, s)
    ensures var m' := Step(c, m, Sample(s));
            (m'.state, m'.counters) == AfterCritical(c, m.state, m.counters, IsWarning(c, s), Well(c, s))
  {
  }

  // Only under such a configuration is a critical sample well.
  lemma CriticalIsUnwell(c: ProtectionConfig, s: SensorSample)
    requires IsCritical(c, s) && Well(c, s)
    ensures RecoversCritical(c)
  {
  }

  // ----- Streams -----------------------------------------------------------------------------------------

  function Samples(ss: seq<SensorSample>): (es: seq<Event>)
    ensures |es| == |ss| && forall i :: 0 <= i < |es| ==> es[i] == Sample(ss[i])
  {
    seq(|ss|, i requires 0 <= i < |ss| => Sample(ss[i]))
  }

  predicate CriticalStream(c: ProtectionConfig, ss: seq<SensorSample>) {
    forall i :: 0 <= i < |ss| ==> InBand(c, Critical, ss[i])
  }

  // The machine after a stream of samples.
  function Fed(c: ProtectionConfig, m: Machine, ss: seq<SensorSample>): Machine {
    Run(c, m, Samples(ss))
  }

  lemma FedSnoc(c: ProtectionConfig, m: Machine, ss: seq<SensorSample>, s: SensorSample)
    ensures Fed(c, m, ss + [s]) == Step(c, Fed(c, m, ss), Sample(s))
  {
    assert Samples(ss + [s]) == Samples(ss) + [Sample(s)];
    RunSnoc(c, m, Samples(ss), Sample(s));
  }

  lemma FedAppend(c: ProtectionConfig, m: Machine, ss: seq<SensorSample>, tt: seq<SensorSample>)
    ensures Fed(c, m, ss + tt) == Fed(c, Fed(c, m, ss), tt)
  {
    assert Samples(ss + tt) == Samples(ss) + Samples(tt);
    RunAppend(c, m, Samples(ss), Samples(tt));
  }

  lemma FedNothing(c: ProtectionConfig, m: Machine)
    ensures Fed(c, m, []) == m
  {
    assert Samples([]) == [];
  }

  lemma RunFirst(c: ProtectionConfig, m: Machine, e: Event)
    ensures Run(c, m, [e]) == Step(c, m, e)
  {
    assert [e][..0] == [];
    assert Run(c, m, [e][..0]) == m;
  }

  lemma FedFirst(c: ProtectionConfig, m: Machine, ss: seq<SensorSample>)
    requires ss != []
    ensures Fed(c, m, ss) == Fed(c, Step(c, m, Sample(ss[0])), ss[1..])
  {
    assert ss == [] + [ss[0]] + ss[1..];
    FedNothing(c, m);
    FedSnoc(c, m, [], ss[0]);
    FedAppend(c, m, [] + [ss[0]], ss[1..]);
  }

  lemma {:induction false} StaysLatched(c: ProtectionConfig, m: Machine, ss: seq<SensorSample>)
    requires m.state == FaultLatched
    ensures Fed(c, m, ss).state == FaultLatched
    decreases |ss|
  {
    if ss == [] {
      FedNothing(c, m);
    } else {
      FedFirst(c, m, ss);
      StaysLatched(c, Step(c, m, Sample(ss[0])), ss[1..]);
    }
  }

  // What the last sample of a critical stream does.
  lemma LastSample(c: ProtectionConfig, m: Machine, ss: seq<SensorSample>)
    requires ss != [] && CriticalStream(c, ss)
    ensures var before, after, s := Fed(c, m, ss[..|ss| - 1]), Fed(c, m, ss), ss[|ss| - 1];
            && (before.state == FaultLatched ==> after.state == FaultLatched)
            && (Monitoring(before.state) ==>
                  (after.state, after.counters)
                  == AfterCritical(c, before.state, before.counters, IsWarning(c, s), Well(c, s)))
  {
    var front, s := ss[..|ss| - 1], ss[|ss| - 1];
    assert ss == front + [s];
    FedSnoc(c, m, front, s);
    if Monitoring(Fed(c, m, front).state) {
      CriticalStep(c, Fed(c, m, front), s);
    }
  }

  // ----- The bounds -----------------------------------------------------------------------------------------

  predicate AllCritical(c: ProtectionConfig, es: seq<Event>) {
    forall i :: 0 <= i < |es| && es[i].Sample? ==> InBand(c, Critical, es[i].sample)
  }

  function SampleCount(es: seq<Event>): nat {
    if es == [] then 0 else (if es[0].Sample? then 1 else 0) + SampleCount(es[1..])
  }

  predicate Stopped(m: Machine) {
    m.state == FaultLatched || m.state == SafeShutdown
  }

  // Critical samples that can still pass before the fault latches.
  function Patience(c: ProtectionConfig, m: Machine): int {
    var n := if m.state == Healthy then 2 * c.criticalSamples - 1 - m.counters.critical
             else c.criticalSamples - m.counters.critical;
    if n >= 1 then n else 1
  }

  // No critical sample helps a degraded motor to recover before the fault latches.
  predicate Steadfast(c: ProtectionConfig, m: Machine) {
    c.recoverySamples >= 1
    && (RecoversCritical(c) ==>
          c.recoverySamples >= c.criticalSamples && (m.state == Degraded ==> m.counters.recovery <= m.counters.critical))
  }

  lemma PatienceRunsOut(c: ProtectionConfig, m: Machine, s: SensorSample)
    requires c.criticalSamples >= 1 && Steadfast(c, m)
    requires Monitoring(m.state) && InBand(c, Critical, s)
    ensures var m' := Step(c, m, Sample(s));
            m'.state == FaultLatched
            || (Monitoring(m'.state) && Steadfast(c, m') && Patience(c, m') < Patience(c, m))
  {
    CriticalStep(c, m, s);
    if Well(c, s) {
      CriticalIsUnwell(c, s);
    }
  }

  // From any monitoring state, a run whose samples are all critical reaches FaultLatched or
  // SafeShutdown by its Patience-th sample at the latest, whatever else happens in between.
  lemma {:induction false} BoundedResponse(c: ProtectionConfig, m: Machine, es: seq<Event>) returns (k: nat)
    requires c.criticalSamples >= 1 && Steadfast(c, m)
    requires Monitoring(m.state) && AllCritical(c, es)
    requires SampleCount(es) >= Patience(c, m)
    ensures k <= |es| && SampleCount(es[..k]) <= Patience(c, m)
    ensures Stopped(Run(c, m, es[..k]))
    decreases |es|
  {
    var m' := Step(c, m, es[0]);
    RunFirst(c, m, es[0]);
    if Stopped(m') {
      k := 1;
      assert es[..1] == [es[0]];
    } else {
      if es[0].Sample? {
        PatienceRunsOut(c, m, es[0].sample);
      } else {
        assert m' == m;
      }
      var j := BoundedResponse(c, m', es[1..]);
      k := j + 1;
      assert es[..k] == [es[0]] + es[1..][..j];
      assert es[..k][1..] == es[1..][..j];
      RunAppend(c, m, [es[0]], es[1..][..j]);
    }
  }

  lemma {:induction false} SteadfastLatches(c: ProtectionConfig, m: Machine, ss: seq<SensorSample>)
    requires c.criticalSamples >= 1 && Steadfast(c, m) && Monitoring(m.state)
    requires CriticalStream(c, ss) && |ss| >= Patience(c, m)
    ensures Fed(c, m, ss).state == FaultLatched
    decreases |ss|
  {
    var m' := Step(c, m, Sample(ss[0]));
    FedFirst(c, m, ss);
    PatienceRunsOut(c, m, ss[0]);
    if m'.state == FaultLatched {
      StaysLatched(c, m', ss[1..]);
    } else {
      SteadfastLatches(c, m', ss[1..]);
    }
  }

  // A motor that degrades no earlier than the fault latches: only an old warning count can degrade it,
  // and only once.
  function LongPatience(c: ProtectionConfig, m: Machine): int {
    var n := if m.state == Degraded then 2 * c.criticalSamples
             else if m.counters.warning <= m.counters.critical then c.criticalSamples
             else 3 * c.criticalSamples;
    if n - m.counters.critical >= 1 then n - m.counters.critical else 1
  }

  lemma LongPatienceRunsOut(c: ProtectionConfig, m: Machine, s: SensorSample)
    requires 2 <= c.criticalSamples <= DegradeAt(c) && Monitoring(m.state) && InBand(c, Critical, s)
    ensures var m' := Step(c, m, Sample(s));
            m'.state == FaultLatched || (Monitoring(m'.state) && LongPatience(c, m') < LongPatience(c, m))
  {
    CriticalStep(c, m, s);
  }

  lemma {:induction false} LateDegraderLatches(c: ProtectionConfig, m: Machine, ss: seq<SensorSample>)
    requires 2 <= c.criticalSamples <= DegradeAt(c) && Monitoring(m.state)
    requires CriticalStream(c, ss) && |ss| >= LongPatience(c, m)
    ensures Fed(c, m, ss).state == FaultLatched
    decreases |ss|
  {
    var m' := Step(c, m, Sample(ss[0]));
    FedFirst(c, m, ss);
    LongPatienceRunsOut(c, m, ss[0]);
    if m'.state == FaultLatched {
      StaysLatched(c, m', ss[1..]);
    } else {
      LateDegraderLatches(c, m', ss[1..]);
    }
  }

  lemma OneSampleLatches(c: ProtectionConfig, m: Machine, ss: seq<SensorSample>)
    requires c.criticalSamples == 1 && Monitoring(m.state) && CriticalStream(c, ss) && ss != []
    ensures Fed(c, m, ss).state == FaultLatched
  {
    FedFirst(c, m, ss);
    CriticalStep(c, m, ss[0]);
    StaysLatched(c, Step(c, m, Sample(ss[0])), ss[1..]);
  }

  // If every warning is critical and comes no earlier, the fault always comes first.
  lemma {:induction false} NeverDegrades(c: ProtectionConfig, es: seq<Event>)
    requires c.criticalSamples >= 2 && !CanDegrade(c)
    ensures var m := Run(c, INITIAL, es);
            m.state != Degraded && m.counters.warning <= m.counters.critical
    decreases |es|
  {
    if es != [] {
      NeverDegrades(c, es[..|es| - 1]);
    }
  }

  // ----- Streams that do not latch ------------------------------------------------------------------------

  function Steady(s: SensorSample, n: nat): (ss: seq<SensorSample>)
    ensures |ss| == n && forall i :: 0 <= i < n ==> ss[i] == s
  {
    seq(n, _ => s)
  }

  // Fewer critical samples than it takes.
  lemma {:induction false} TooFewToLatch(c: ProtectionConfig, m: Machine, ss: seq<SensorSample>)
    requires Monitoring(m.state) && CriticalStream(c, ss) && m.counters.critical + |ss| < c.criticalSamples
    ensures Monitoring(Fed(c, m, ss).state) && Fed(c, m, ss).counters.critical <= m.counters.critical + |ss|
    decreases |ss|
  {
    if ss == [] {
      FedNothing(c, m);
    } else {
      TooFewToLatch(c, m, ss[..|ss| - 1]);
      LastSample(c, m, ss);
    }
  }

  function Max(a: real, b: real): real { if a < b then b else a }

  function Min(a: real, b: real): real { if a < b then a else b }

  // Critical and a warning.
  function HotSample(c: ProtectionConfig): (s: SensorSample)
    ensures InBand(c, Critical, s) && IsWarning(c, s)
  {
    SensorSample(Max(c.temperatureWarning, c.temperatureCritical), 0.0, 0.0, true, 0)
  }

  // In the warning band below every critical threshold.
  function MildSample(c: ProtectionConfig): (s: SensorSample)
    requires WarnsEarly(c)
    ensures InBand(c, Warning, s) && !IsCritical(c, s)
  {
    var t, v, a := c.temperatureCritical - 1.0, c.vibrationCritical - 1.0, c.currentCritical - 1.0;
    if c.temperatureWarning < c.temperatureCritical then SensorSample(c.temperatureWarning, v, a, true, 0)
    else if c.vibrationWarning < c.vibrationCritical then SensorSample(t, c.vibrationWarning, a, true, 0)
    else SensorSample(t, v, c.currentWarning, true, 0)
  }

  // Critical, no warning, recovered.
  function MisleadingSample(c: ProtectionConfig): (s: SensorSample)
    requires RecoversCritical(c)
    ensures InBand(c, Critical, s) && Well(c, s)
  {
    var t := Min(c.temperatureWarning, c.temperatureRecovery) - 1.0;
    var v := Min(c.vibrationWarning, c.vibrationRecovery) - 1.0;
    var a := Min(c.currentWarning, c.currentRecovery) - 1.0;
    if c.temperatureCritical < c.temperatureWarning && c.temperatureCritical <= c.temperatureRecovery then
      SensorSample(c.temperatureCritical, v, a, true, 0)
    else if c.vibrationCritical < c.vibrationWarning && c.vibrationCritical <= c.vibrationRecovery then
      SensorSample(t, c.vibrationCritical, a, true, 0)
    else SensorSample(t, v, c.currentCritical, true, 0)
  }

  // Below every threshold.
  function CalmSample(c: ProtectionConfig): (s: SensorSample)
    ensures s.online && Well(c, s) && !IsCritical(c, s)
  {
    SensorSample(Min(Min(c.temperatureWarning, c.temperatureCritical), c.temperatureRecovery) - 1.0,
                 Min(Min(c.vibrationWarning, c.vibrationCritical), c.vibrationRecovery) - 1.0,
                 Min(Min(c.currentWarning, c.currentCritical), c.currentRecovery) - 1.0, true, 0)
  }

  lemma SteadySnoc(c: ProtectionConfig, m: Machine, s: SensorSample, n: nat)
    requires n > 0
    ensures Fed(c, m, Steady(s, n)) == Step(c, Fed(c, m, Steady(s, n - 1)), Sample(s))
  {
    assert Steady(s, n) == Steady(s, n - 1) + [s];
    FedSnoc(c, m, Steady(s, n - 1), s);
  }

  lemma SteadyNone(c: ProtectionConfig, m: Machine, s: SensorSample)
    ensures Fed(c, m, Steady(s, 0)) == m
  {
    assert Steady(s, 0) == [];
    FedNothing(c, m);
  }

  predicate In(m: Machine, state: MotorState, n: Counters) { m.state == state && m.counters == n }

  lemma WarmStep(c: ProtectionConfig, m: Machine, s: SensorSample, j: nat, i: nat)
    requires InBand(c, Warning, s) && In(m, Healthy, Counters(j, i, 0, 0))
    requires c.criticalSamples > if IsCritical(c, s) then i + 1 else 0
    ensures var i' := if IsCritical(c, s) then i + 1 else 0;
            In(Step(c, m, Sample(s)),
               if j + 1 >= c.warningSamples then Degraded else Healthy,
               if j + 1 >= c.warningSamples then ZERO else Counters(j + 1, i', 0, 0))
  {
  }

  // A Healthy motor with j warnings counted, under a steady warning that cannot latch.
  lemma {:induction false} Warms(c: ProtectionConfig, m: Machine, s: SensorSample, j: nat, n: nat)
    requires InBand(c, Warning, s) && In(m, Healthy, Counters(j, 0, 0, 0)) && j + n <= DegradeAt(c) && j < DegradeAt(c)
    requires c.criticalSamples > if IsCritical(c, s) then n else 0
    ensures In(Fed(c, m, Steady(s, n)),
               if j + n == DegradeAt(c) then Degraded else Healthy,
               if j + n == DegradeAt(c) then ZERO else Counters(j + n, if IsCritical(c, s) then n else 0, 0, 0))
  {
    if n == 0 {
      SteadyNone(c, m, s);
    } else {
      Warms(c, m, s, j, n - 1);
      SteadySnoc(c, m, s, n);
      WarmStep(c, Fed(c, m, Steady(s, n - 1)), s, j + n - 1, if IsCritical(c, s) then n - 1 else 0);
    }
  }

  lemma WellStep(c: ProtectionConfig, m: Machine, s: SensorSample, i: nat, j: nat)
    requires s.online && Well(c, s) && In(m, Degraded, Counters(0, i, j, 0))
    requires c.criticalSamples > if IsCritical(c, s) then i + 1 else 0
    ensures var i' := if IsCritical(c, s) then i + 1 else 0;
            In(Step(c, m, Sample(s)),
               if j + 1 >= c.recoverySamples then Healthy else Degraded,
               if j + 1 >= c.recoverySamples then ZERO else Counters(0, i', j + 1, 0))
  {
  }

  // A degraded motor with nothing counted, under a steady sample that counts as recovered.
  lemma {:induction false} Heals(c: ProtectionConfig, m: Machine, s: SensorSample, n: nat)
    requires s.online && Well(c, s) && In(m, Degraded, ZERO) && n <= c.recoverySamples && c.recoverySamples >= 1
    requires c.criticalSamples > if IsCritical(c, s) then n else 0
    ensures In(Fed(c, m, Steady(s, n)),
               if n == c.recoverySamples then Healthy else Degraded,
               if n == c.recoverySamples then ZERO else Counters(0, if IsCritical(c, s) then n else 0, n, 0))
  {
    if n == 0 {
      SteadyNone(c, m, s);
    } else {
      Heals(c, m, s, n - 1);
      SteadySnoc(c, m, s, n);
      WellStep(c, Fed(c, m, Steady(s, n - 1)), s, if IsCritical(c, s) then n - 1 else 0, n - 1);
    }
  }

  // Critical samples that make a degraded motor recover.
  function Relief(c: ProtectionConfig): (ss: seq<SensorSample>)
    requires RecoversFirst(c)
    ensures CriticalStream(c, ss) && |ss| >= 1
  {
    if c.recoverySamples == 0 then [HotSample(c)] else Steady(MisleadingSample(c), c.recoverySamples)
  }

  lemma Relieved(c: ProtectionConfig, m: Machine)
    requires c.criticalSamples >= 2 && RecoversFirst(c) && In(m, Degraded, ZERO)
    ensures In(Fed(c, m, Relief(c)), Healthy, ZERO)
  {
    if c.recoverySamples == 0 {
      CriticalStep(c, m, HotSample(c));
      FedFirst(c, m, Relief(c));
      FedNothing(c, Step(c, m, Sample(HotSample(c))));
      assert Relief(c)[1..] == [];
    } else {
      Heals(c, m, MisleadingSample(c), c.recoverySamples);
    }
  }

  const POWER_UP: seq<Event> := [Startup, SelfTestPassed]
  const READY := INITIAL.(state := Healthy)

  lemma AfterPowerUp(c: ProtectionConfig, ss: seq<SensorSample>)
    ensures Run(c, INITIAL, POWER_UP) == READY
    ensures Run(c, INITIAL, POWER_UP + Samples(ss)) == Fed(c, READY, ss)
  {
    RunFirst(c, INITIAL, Startup);
    RunSnoc(c, INITIAL, [Startup], SelfTestPassed);
    assert POWER_UP == [Startup] + [SelfTestPassed];
    RunAppend(c, INITIAL, POWER_UP, Samples(ss));
  }

  // Samples that degrade a freshly powered-up motor.
  function Degrader(c: ProtectionConfig): seq<SensorSample>
    requires CanDegrade(c)
  {
    Steady(if DegradeAt(c) < c.criticalSamples then HotSample(c) else MildSample(c), DegradeAt(c))
  }

  lemma Degrades(c: ProtectionConfig, m: Machine)
    requires c.criticalSamples >= 2 && CanDegrade(c) && In(m, Healthy, ZERO)
    ensures In(Fed(c, m, Degrader(c)), Degraded, ZERO)
  {
    Warms(c, m, if DegradeAt(c) < c.criticalSamples then HotSample(c) else MildSample(c), 0, DegradeAt(c));
  }

  // ----- The response, exactly ------------------------------------------------------------------------------

  // Whenever a run from power-up is in this state, n critical samples latch the fault.
  ghost predicate Latches(c: ProtectionConfig, state: MotorState, n: nat) {
    forall es, ss :: Run(c, INITIAL, es).state == state && CriticalStream(c, ss) && |ss| >= n ==>
      Fed(c, Run(c, INITIAL, es), ss).state == FaultLatched
  }

  lemma RefutesLatching(c: ProtectionConfig, state: MotorState, n: nat, before: seq<SensorSample>, ss: seq<SensorSample>)
    requires Fed(c, READY, before).state == state && CriticalStream(c, ss) && |ss| >= n
    requires Fed(c, Fed(c, READY, before), ss).state != FaultLatched
    ensures !Latches(c, state, n)
  {
    AfterPowerUp(c, before);
    var es := POWER_UP + Samples(before);
    assert Run(c, INITIAL, es).state == state;
  }

  // Degrading early and recovering early, the motor swings between the two states for ever: there are
  // critical streams of any length after which it is as good as new.
  lemma {:induction false} SwingsForever(c: ProtectionConfig, m: Machine, n: nat) returns (ss: seq<SensorSample>)
    requires DegradeAt(c) < c.criticalSamples && RecoversFirst(c) && In(m, Healthy, ZERO)
    ensures CriticalStream(c, ss) && |ss| >= n && In(Fed(c, m, ss), Healthy, ZERO)
  {
    if n == 0 {
      ss := [];
      FedNothing(c, m);
    } else {
      var front := SwingsForever(c, m, n - 1);
      OneSwing(c, Fed(c, m, front));
      FedAppend(c, m, front, Degrader(c) + Relief(c));
      ss := front + (Degrader(c) + Relief(c));
    }
  }

  lemma OneSwing(c: ProtectionConfig, m: Machine)
    requires DegradeAt(c) < c.criticalSamples && RecoversFirst(c) && In(m, Healthy, ZERO)
    ensures CriticalStream(c, Degrader(c) + Relief(c)) && In(Fed(c, m, Degrader(c) + Relief(c)), Healthy, ZERO)
  {
    Degrades(c, m);
    Relieved(c, Fed(c, m, Degrader(c)));
    FedAppend(c, m, Degrader(c), Relief(c));
  }

  lemma SwingRefutes(c: ProtectionConfig, n: nat)
    requires DegradeAt(c) < c.criticalSamples && RecoversFirst(c)
    ensures !Latches(c, Healthy, n)
  {
    FedNothing(c, READY);
    var ss := SwingsForever(c, READY, n);
    RefutesLatching(c, Healthy, n, [], ss);
  }

  // Mild readings first make the degradation fall just before the fault; then the motor recovers and
  // starts counting again.
  lemma LateRefutes(c: ProtectionConfig)
    requires 2 <= c.criticalSamples <= DegradeAt(c) && WarnsEarly(c) && RecoversFirst(c)
    ensures !Latches(c, Healthy, 2 * c.criticalSamples - 1)
  {
    var k, n := c.criticalSamples, DegradeAt(c) - c.criticalSamples + 1;
    var before, hot := Steady(MildSample(c), n), Steady(HotSample(c), k - 1);
    Warms(c, READY, MildSample(c), 0, n);
    UpAndDown(c, Fed(c, READY, before));
    RefutesLatching(c, Healthy, 2 * k - 1, before, hot + Relief(c) + hot);
  }

  lemma UpAndDown(c: ProtectionConfig, m: Machine)
    requires 2 <= c.criticalSamples <= DegradeAt(c) && RecoversFirst(c)
    requires In(m, Healthy, Counters(DegradeAt(c) - c.criticalSamples + 1, 0, 0, 0))
    ensures var hot := Steady(HotSample(c), c.criticalSamples - 1);
            Fed(c, m, hot + Relief(c) + hot).state != FaultLatched
  {
    var k, down := c.criticalSamples, Relief(c);
    var hot := Steady(HotSample(c), k - 1);
    Warms(c, m, HotSample(c), DegradeAt(c) - k + 1, k - 1);
    Relieved(c, Fed(c, m, hot));
    TooFewToLatch(c, Fed(c, Fed(c, m, hot), down), hot);
    FedAppend(c, m, hot, down);
    FedAppend(c, m, hot + down, hot);
  }

  // A degraded motor with all but one of the recovery samples counted.
  function Convalescence(c: ProtectionConfig): seq<SensorSample> {
    Steady(CalmSample(c), if c.recoverySamples == 0 then 0 else c.recoverySamples - 1)
  }

  function LastStraw(c: ProtectionConfig): (s: SensorSample)
    requires c.recoverySamples == 0 || RecoversCritical(c)
    ensures InBand(c, Critical, s)
  {
    if c.recoverySamples == 0 then HotSample(c) else MisleadingSample(c)
  }

  // On the point of recovery, one critical sample recovers it.
  lemma Convalesces(c: ProtectionConfig, m: Machine)
    requires c.criticalSamples >= 2 && (c.recoverySamples == 0 || RecoversCritical(c)) && In(m, Degraded, ZERO)
    ensures var end := Fed(c, m, Convalescence(c));
            end.state == Degraded && In(Step(c, end, Sample(LastStraw(c))), Healthy, ZERO)
  {
    var end := Fed(c, m, Convalescence(c));
    if c.recoverySamples == 0 {
      SteadyNone(c, m, CalmSample(c));
      CriticalStep(c, end, LastStraw(c));
    } else {
      Heals(c, m, CalmSample(c), c.recoverySamples - 1);
      WellStep(c, end, LastStraw(c), 0, c.recoverySamples - 1);
    }
  }

  lemma DegradedRefutes(c: ProtectionConfig)
    requires c.criticalSamples >= 2 && CanDegrade(c) && (c.recoverySamples == 0 || RecoversCritical(c))
    ensures !Latches(c, Degraded, c.criticalSamples)
  {
    var before, last := Degrader(c) + Convalescence(c), LastStraw(c);
    var rest := Steady(HotSample(c), c.criticalSamples - 1);
    var m, ss := Fed(c, READY, before), [last] + rest;
    Degrades(c, READY);
    FedAppend(c, READY, Degrader(c), Convalescence(c));
    Convalesces(c, Fed(c, READY, Degrader(c)));
    FedFirst(c, m, ss);
    assert ss[0] == last && ss[1..] == rest;
    TooFewToLatch(c, Step(c, m, Sample(last)), rest);
    RefutesLatching(c, Degraded, c.criticalSamples, before, ss);
  }

  lemma HealthyLatches(c: ProtectionConfig, es: seq<Event>, ss: seq<SensorSample>)
    requires c.criticalSamples >= 1 && !(CanDegrade(c) && RecoversFirst(c))
    requires Run(c, INITIAL, es).state == Healthy && CriticalStream(c, ss) && |ss| >= 2 * c.criticalSamples - 1
    ensures Fed(c, Run(c, INITIAL, es), ss).state == FaultLatched
  {
    var m := Run(c, INITIAL, es);
    if c.criticalSamples == 1 {
      OneSampleLatches(c, m, ss);
    } else if CanDegrade(c) {
      SteadfastLatches(c, m, ss);
    } else {
      NeverDegrades(c, es);
      LateDegraderLatches(c, m, ss);
    }
  }

  // For every configuration: 2 * criticalSamples - 1 critical samples latch the fault from wherever a run
  // is Healthy, unless the motor can degrade before the fault and then recover before it.
  lemma HealthyResponse(c: ProtectionConfig)
    requires c.criticalSamples >= 1
    ensures Latches(c, Healthy, 2 * c.criticalSamples - 1) <==> !(CanDegrade(c) && RecoversFirst(c))
  {
    if CanDegrade(c) && RecoversFirst(c) {
      if DegradeAt(c) < c.criticalSamples {
        SwingRefutes(c, 2 * c.criticalSamples - 1);
      } else {
        LateRefutes(c);
      }
    } else {
      forall es, ss | Run(c, INITIAL, es).state == Healthy && CriticalStream(c, ss)
                      && |ss| >= 2 * c.criticalSamples - 1
        ensures Fed(c, Run(c, INITIAL, es), ss).state == FaultLatched
      {
        HealthyLatches(c, es, ss);
      }
    }
  }

  lemma DegradedLatches(c: ProtectionConfig, es: seq<Event>, ss: seq<SensorSample>)
    requires c.criticalSamples >= 1 && !(CanDegrade(c) && (c.recoverySamples == 0 || RecoversCritical(c)))
    requires Run(c, INITIAL, es).state == Degraded && CriticalStream(c, ss) && |ss| >= c.criticalSamples
    ensures Fed(c, Run(c, INITIAL, es), ss).state == FaultLatched
  {
    if c.criticalSamples == 1 {
      OneSampleLatches(c, Run(c, INITIAL, es), ss);
    } else if CanDegrade(c) {
      SteadfastLatches(c, Run(c, INITIAL, es), ss);
    } else {
      NeverDegrades(c, es);
    }
  }

  // For every configuration: criticalSamples critical samples latch the fault from wherever a run is
  // Degraded, unless the motor can get there and a critical sample can bring it back.
  lemma DegradedResponse(c: ProtectionConfig)
    requires c.criticalSamples >= 1
    ensures Latches(c, Degraded, c.criticalSamples)
            <==> !(CanDegrade(c) && (c.recoverySamples == 0 || RecoversCritical(c)))
  {
    if CanDegrade(c) && (c.recoverySamples == 0 || RecoversCritical(c)) {
      DegradedRefutes(c);
    } else {
      forall es, ss | Run(c, INITIAL, es).state == Degraded && CriticalStream(c, ss) && |ss| >= c.criticalSamples
        ensures Fed(c, Run(c, INITIAL, es), ss).state == FaultLatched
      {
        DegradedLatches(c, es, ss);
      }
    }
  }

  lemma EventuallyLatches(c: ProtectionConfig)
    requires c.criticalSamples >= 1 && !(DegradeAt(c) < c.criticalSamples && RecoversFirst(c))
    ensures Latches(c, Healthy, 3 * c.criticalSamples)
  {
    forall es, ss | Run(c, INITIAL, es).state == Healthy && CriticalStream(c, ss) && |ss| >= 3 * c.criticalSamples
      ensures Fed(c, Run(c, INITIAL, es), ss).state == FaultLatched
    {
      if c.criticalSamples == 1 {
        OneSampleLatches(c, Run(c, INITIAL, es), ss);
      } else if DegradeAt(c) < c.criticalSamples {
        SteadfastLatches(c, Run(c, INITIAL, es), ss);
      } else {
        LateDegraderLatches(c, Run(c, INITIAL, es), ss);
      }
    }
  }

  // For every configuration: there is some bound on the response, and then 3 * criticalSamples is one,
  // unless the motor degrades before the fault and recovers before it.
  lemma ResponseIsBounded(c: ProtectionConfig)
    requires c.criticalSamples >= 1
    ensures (exists n: nat :: Latches(c, Healthy, n)) <==> !(DegradeAt(c) < c.criticalSamples && RecoversFirst(c))
    ensures (exists n: nat :: Latches(c, Healthy, n)) <==> Latches(c, Healthy, 3 * c.criticalSamples)
  {
    if DegradeAt(c) < c.criticalSamples && RecoversFirst(c) {
      forall n: nat ensures !Latches(c, Healthy, n) {
        SwingRefutes(c, n);
      }
    } else {
      EventuallyLatches(c);
    }
  }

  // With ordered thresholds, a zero recovery count lets even a critical sample "recover" a degraded
  // motor; that is harmless only if one critical sample suffices or the motor never degrades.
  predicate Responsive(c: ProtectionConfig) {
    c.recoverySamples >= 1 || c.criticalSamples == 1 || (Uniform(c) && DegradeAt(c) >= c.criticalSamples)
  }

  // With ordered thresholds one condition decides both bounds.
  lemma ResponseExactlyWhenResponsive(c: ProtectionConfig)
    requires Ordered(c) && c.criticalSamples >= 1
    ensures Responsive(c) <==> Latches(c, Healthy, 2 * c.criticalSamples - 1)
    ensures Responsive(c) <==> Latches(c, Degraded, c.criticalSamples)
  {
    HealthyResponse(c);
    DegradedResponse(c);
  }

  // ----- The exact response time with ordered thresholds ----------------------------------------------------

  // The exact response time of a freshly entered Healthy state.
  function ResponseTime(c: ProtectionConfig): nat {
    if DegradeAt(c) < c.criticalSamples then DegradeAt(c) + c.criticalSamples else c.criticalSamples
  }

  lemma {:induction false} ExactResponse(c: ProtectionConfig, m: Machine, ss: seq<SensorSample>)
    requires Ordered(c) && c.criticalSamples >= 1
    requires c.recoverySamples >= 1 || DegradeAt(c) >= c.criticalSamples
    requires m.state == Healthy && m.counters == ZERO
    requires CriticalStream(c, ss)
    ensures var end := Fed(c, m, ss);
            var n, w, k := |ss|, DegradeAt(c), c.criticalSamples;
            if n >= ResponseTime(c) then end.state == FaultLatched
            else if w < k && n >= w then end.state == Degraded && end.counters.critical == n - w
            else end.state == Healthy && end.counters.critical == n && end.counters.warning == n
    decreases |ss|
  {
    if ss == [] {
      FedNothing(c, m);
    } else {
      ExactResponse(c, m, ss[..|ss| - 1]);
      LastSample(c, m, ss);
      assert IsWarning(c, ss[|ss| - 1]);
    }
  }

  // Position in the endless cycle Healthy, ..., Healthy, Degraded of an unresponsive motor.
  function Cycle(w: nat, n: nat): (k: nat)
    ensures k <= w
  {
    if n == 0 || Cycle(w, n - 1) == w then 0 else Cycle(w, n - 1) + 1
  }

  lemma {:induction false} UnresponsiveCycles(c: ProtectionConfig, m: Machine, ss: seq<SensorSample>)
    requires Ordered(c) && c.recoverySamples == 0 && DegradeAt(c) < c.criticalSamples
    requires m.state == Healthy && m.counters == ZERO
    requires CriticalStream(c, ss)
    ensures var end, k := Fed(c, m, ss), Cycle(DegradeAt(c), |ss|);
            if k == DegradeAt(c) then end.state == Degraded && end.counters == ZERO
            else end.state == Healthy && end.counters == Counters(k, k, 0, 0)
    decreases |ss|
  {
    if ss == [] {
      FedNothing(c, m);
    } else {
      UnresponsiveCycles(c, m, ss[..|ss| - 1]);
      LastSample(c, m, ss);
      assert IsWarning(c, ss[|ss| - 1]);
    }
  }

  // The bound is attained: for every critical count there is a configuration under which the fault
  // latches at sample 2 * critical - 1 and no earlier.
  lemma ResponseBoundIsTight(critical: nat, m: Machine, ss: seq<SensorSample>)
    requires critical >= 2
    requires m.state == Healthy && m.counters == ZERO
    requires CriticalStream(DEFAULT_CONFIG.(warningSamples := critical - 1, criticalSamples := critical), ss)
    ensures var c := DEFAULT_CONFIG.(warningSamples := critical - 1, criticalSamples := critical);
            Ordered(c) && (Stopped(Fed(c, m, ss)) <==> |ss| >= 2 * critical - 1)
  {
    var c := DEFAULT_CONFIG.(warningSamples := critical - 1, criticalSamples := critical);
    ExactResponse(c, m, ss);
  }
}
