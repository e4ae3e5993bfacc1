// The thresholds and counts at work on raw readings: what degrades a motor, what latches it, what lets it
// recover and what does not.
module Hysteresis {
  import opened Domain
  import opened MotorFsm
  import opened FaultResponse

  datatype Channel = OfTemperature | OfVibration | OfCurrent

  function Reading(s: SensorSample, d: Channel): real {
    match d case OfTemperature => s.temperature case OfVibration => s.vibration case OfCurrent => s.current
  }

  function WarningOf(c: ProtectionConfig, d: Channel): real {
    match d
    case OfTemperature => c.temperatureWarning
    case OfVibration => c.vibrationWarning
    case OfCurrent => c.currentWarning
  }

  function CriticalOf(c: ProtectionConfig, d: Channel): real {
    match d
    case OfTemperature => c.temperatureCritical
    case OfVibration => c.vibrationCritical
    case OfCurrent => c.currentCritical
  }

  function RecoveryOf(c: ProtectionConfig, d: Channel): real {
    match d
    case OfTemperature => c.temperatureRecovery
    case OfVibration => c.vibrationRecovery
    case OfCurrent => c.currentRecovery
  }

  ghost predicate BelowWarning(c: ProtectionConfig, s: SensorSample) {
    forall d: Channel :: Reading(s, d) < WarningOf(c, d)
  }

  ghost predicate BelowCritical(c: ProtectionConfig, s: SensorSample) {
    forall d: Channel :: Reading(s, d) < CriticalOf(c, d)
  }

  ghost predicate WithinRecovery(c: ProtectionConfig, s: SensorSample) {
    forall d: Channel :: Reading(s, d) <= RecoveryOf(c, d)
  }

  // One reading at or above its threshold is a warning or critical; all must be within recovery.
  lemma Bands(c: ProtectionConfig, s: SensorSample)
    ensures IsWarning(c, s) <==> !BelowWarning(c, s)
    ensures IsCritical(c, s) <==> !BelowCritical(c, s)
    ensures IsRecovered(c, s) <==> WithinRecovery(c, s)
  {
    var t, v, a := OfTemperature, OfVibration, OfCurrent;
    assert Reading(s, t) == s.temperature && Reading(s, v) == s.vibration && Reading(s, a) == s.current;
  }

  function AtLeastOne(n: int): nat { if n < 1 then 1 else n }

  // ----- Recovering ---------------------------------------------------------------------------------------------

  // Not in order: offline, or some reading above its recovery threshold.
  ghost predicate Unsettled(c: ProtectionConfig, s: SensorSample) {
    !s.online || exists d: Channel :: Reading(s, d) > RecoveryOf(c, d)
  }

  lemma UnsettledStep(c: ProtectionConfig, m: Machine, s: SensorSample)
    requires c.recoverySamples >= 1 && Unsettled(c, s) && m.state == Degraded
    ensures Step(c, m, Sample(s)).state == Degraded || Step(c, m, Sample(s)).state == FaultLatched
  {
    Bands(c, s);
  }

  // Hysteresis: a degraded motor does not recover on readings that are merely below the warning threshold.
  // As long as each sample is offline or has some reading above recovery, it never becomes Healthy.
  lemma {:induction false} NeverRecovers(c: ProtectionConfig, m: Machine, ss: seq<SensorSample>)
    requires c.recoverySamples >= 1 && m.state == Degraded
    requires forall i :: 0 <= i < |ss| ==> Unsettled(c, ss[i])
    ensures Fed(c, m, ss).state == Degraded || Fed(c, m, ss).state == FaultLatched
    decreases |ss|
  {
    if ss == [] {
      FedNothing(c, m);
    } else {
      FedFirst(c, m, ss);
      UnsettledStep(c, m, ss[0]);
      var m' := Step(c, m, Sample(ss[0]));
      if m'.state == Degraded {
        NeverRecovers(c, m', ss[1..]);
      } else {
        StaysLatched(c, m', ss[1..]);
      }
    }
  }

  // In order: online, and every reading within recovery and below both other thresholds.
  ghost predicate Settled(c: ProtectionConfig, s: SensorSample) {
    s.online && WithinRecovery(c, s) && BelowWarning(c, s) && BelowCritical(c, s)
  }

  lemma SettledStep(c: ProtectionConfig, m: Machine, s: SensorSample)
    requires c.criticalSamples >= 1 && Settled(c, s) && m.state == Degraded
    ensures var m', j := Step(c, m, Sample(s)), m.counters.recovery + 1;
            if j >= c.recoverySamples then m'.state == Healthy && m'.counters == ZERO
            else m'.state == Degraded && m'.counters.recovery == j
  {
    Bands(c, s);
  }

  // Samples that are in order recover it, at the recovery count and no earlier.
  lemma {:induction false} Recovers(c: ProtectionConfig, m: Machine, ss: seq<SensorSample>)
    requires c.criticalSamples >= 1 && m.state == Degraded
    requires forall i :: 0 <= i < |ss| ==> Settled(c, ss[i])
    requires |ss| <= AtLeastOne(c.recoverySamples - m.counters.recovery)
    ensures var end := Fed(c, m, ss);
            if |ss| == AtLeastOne(c.recoverySamples - m.counters.recovery)
            then end.state == Healthy && end.counters == ZERO
            else end.state == Degraded
    decreases |ss|
  {
    if ss == [] {
      FedNothing(c, m);
    } else {
      FedFirst(c, m, ss);
      SettledStep(c, m, ss[0]);
      var m' := Step(c, m, Sample(ss[0]));
      if m'.state == Degraded {
        Recovers(c, m', ss[1..]);
      } else {
        FedNothing(c, m');
        assert ss[1..] == [];
      }
    }
  }

  // ----- Degrading ------------------------------------------------------------------------------------------------

  // Online, one given reading at or above its warning threshold, none critical.
  ghost predicate Warm(c: ProtectionConfig, s: SensorSample, d: Channel) {
    s.online && Reading(s, d) >= WarningOf(c, d) && BelowCritical(c, s)
  }

  lemma WarmOnce(c: ProtectionConfig, m: Machine, s: SensorSample, d: Channel)
    requires c.criticalSamples >= 1 && Warm(c, s, d) && m.state == Healthy
    ensures var m', j := Step(c, m, Sample(s)), m.counters.warning + 1;
            if j >= c.warningSamples then m'.state == Degraded && m'.counters == ZERO
            else m'.state == Healthy && m'.counters.warning == j
  {
    Bands(c, s);
  }

  // Each of the three readings by itself degrades a Healthy motor, at the warning count and no earlier.
  lemma {:induction false} Degrading(c: ProtectionConfig, m: Machine, ss: seq<SensorSample>, d: Channel)
    requires c.criticalSamples >= 1 && m.state == Healthy
    requires forall i :: 0 <= i < |ss| ==> Warm(c, ss[i], d)
    requires |ss| <= AtLeastOne(c.warningSamples - m.counters.warning)
    ensures var end := Fed(c, m, ss);
            if |ss| == AtLeastOne(c.warningSamples - m.counters.warning)
            then end.state == Degraded && end.counters == ZERO
            else end.state == Healthy
    decreases |ss|
  {
    if ss == [] {
      FedNothing(c, m);
    } else {
      FedFirst(c, m, ss);
      WarmOnce(c, m, ss[0], d);
      var m' := Step(c, m, Sample(ss[0]));
      if m'.state == Healthy {
        Degrading(c, m', ss[1..], d);
      } else {
        FedNothing(c, m');
        assert ss[1..] == [];
      }
    }
  }

  lemma CoolStep(c: ProtectionConfig, m: Machine, s: SensorSample)
    requires c.criticalSamples >= 1 && c.warningSamples >= 1 && m.state == Healthy
    requires s.online && BelowWarning(c, s) && BelowCritical(c, s)
    ensures Step(c, m, Sample(s)).state == Healthy
  {
    Bands(c, s);
  }

  // Readings below all thresholds never degrade it.
  lemma {:induction false} StaysHealthy(c: ProtectionConfig, m: Machine, ss: seq<SensorSample>)
    requires c.criticalSamples >= 1 && c.warningSamples >= 1 && m.state == Healthy
    requires forall i :: 0 <= i < |ss| ==> ss[i].online && BelowWarning(c, ss[i]) && BelowCritical(c, ss[i])
    ensures Fed(c, m, ss).state == Healthy
    decreases |ss|
  {
    if ss == [] {
      FedNothing(c, m);
    } else {
      FedFirst(c, m, ss);
      CoolStep(c, m, ss[0]);
      StaysHealthy(c, Step(c, m, Sample(ss[0])), ss[1..]);
    }
  }

  // ----- Latching ---------------------------------------------------------------------------------------------------

  lemma HotStep(c: ProtectionConfig, m: Machine, s: SensorSample, d: Channel)
    requires s.online && Reading(s, d) >= CriticalOf(c, d) && Monitoring(m.state)
    requires if m.state == Healthy then m.counters.warning + 1 < c.warningSamples
             else c.recoverySamples >= 1 && Unsettled(c, s)
    ensures var m', j := Step(c, m, Sample(s)), m.counters.critical + 1;
            if j >= c.criticalSamples then m'.state == FaultLatched
            else m'.state == m.state && m'.counters.critical == j && m'.counters.warning <= m.counters.warning + 1
  {
    Bands(c, s);
  }

  // Each of the three readings by itself latches a motor that can neither degrade nor recover meanwhile, at
  // the critical count and no earlier.
  lemma {:induction false} Latching(c: ProtectionConfig, m: Machine, ss: seq<SensorSample>, d: Channel)
    requires Monitoring(m.state) && |ss| <= AtLeastOne(c.criticalSamples - m.counters.critical)
    requires forall i :: 0 <= i < |ss| ==> ss[i].online && Reading(ss[i], d) >= CriticalOf(c, d)
    requires if m.state == Healthy then m.counters.warning + |ss| < c.warningSamples
             else c.recoverySamples >= 1 && forall i :: 0 <= i < |ss| ==> Unsettled(c, ss[i])
    ensures Fed(c, m, ss).state
            == if |ss| == AtLeastOne(c.criticalSamples - m.counters.critical) then FaultLatched else m.state
    decreases |ss|
  {
    if ss == [] {
      FedNothing(c, m);
    } else {
      FedFirst(c, m, ss);
      HotStep(c, m, ss[0], d);
      var m' := Step(c, m, Sample(ss[0]));
      if m'.state == FaultLatched {
        StaysLatched(c, m', ss[1..]);
      } else {
        Latching(c, m', ss[1..], d);
      }
    }
  }

  lemma SafeStep(c: ProtectionConfig, m: Machine, s: SensorSample)
    requires c.criticalSamples >= 1 && Monitoring(m.state) && s.online && BelowCritical(c, s)
    ensures Monitoring(Step(c, m, Sample(s)).state)
  {
    Bands(c, s);
  }

  // Online readings below all critical thresholds never latch it.
  lemma {:induction false} NeverLatches(c: ProtectionConfig, m: Machine, ss: seq<SensorSample>)
    requires c.criticalSamples >= 1 && Monitoring(m.state)
    requires forall i :: 0 <= i < |ss| ==> ss[i].online && BelowCritical(c, ss[i])
    ensures Monitoring(Fed(c, m, ss).state)
    decreases |ss|
  {
    if ss == [] {
      FedNothing(c, m);
    } else {
      FedFirst(c, m, ss);
      SafeStep(c, m, ss[0]);
      NeverLatches(c, Step(c, m, Sample(ss[0])), ss[1..]);
    }
  }

  // Consecutive offline samples latch it, at the offline count and no earlier.
  lemma {:induction false} OfflineLatches(c: ProtectionConfig, m: Machine, ss: seq<SensorSample>)
    requires Monitoring(m.state) && |ss| <= AtLeastOne(c.offlineSamples - m.counters.offline)
    requires forall i :: 0 <= i < |ss| ==> !ss[i].online
    ensures Fed(c, m, ss).state
            == if |ss| == AtLeastOne(c.offlineSamples - m.counters.offline) then FaultLatched else m.state
    decreases |ss|
  {
    if ss == [] {
      FedNothing(c, m);
    } else {
      FedFirst(c, m, ss);
      var m' := Step(c, m, Sample(ss[0]));
      if m'.state == FaultLatched {
        StaysLatched(c, m', ss[1..]);
      } else {
        OfflineLatches(c, m', ss[1..]);
      }
    }
  }

  // ----- The defaults ------------------------------------------------------------------------------------------------

  // The limits a runtime gets when it is given none.
  lemma DefaultLimits(s: SensorSample)
    ensures IsWarning(DEFAULT_CONFIG, s) <==> s.temperature >= 80.0 || s.vibration >= 7.0 || s.current >= 15.0
    ensures IsCritical(DEFAULT_CONFIG, s) <==> s.temperature >= 95.0 || s.vibration >= 10.0 || s.current >= 20.0
    ensures IsRecovered(DEFAULT_CONFIG, s) <==> s.temperature <= 75.0 && s.vibration <= 5.0 && s.current <= 13.0
    ensures DEFAULT_CONFIG.warningSamples == 3 && DEFAULT_CONFIG.criticalSamples == 2
    ensures DEFAULT_CONFIG.recoverySamples == 5 && DEFAULT_CONFIG.offlineSamples == 3
  {
  }
}
