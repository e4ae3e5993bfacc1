// The motor protection state machine: a specification on values and the class
// that updates its fields in place.
module MotorFsm {
  import opened Domain

  datatype ProtectionConfig = ProtectionConfig(
    temperatureWarning: real, temperatureRecovery: real, temperatureCritical: real,
    vibrationWarning: real, vibrationRecovery: real, vibrationCritical: real,
    currentWarning: real, currentRecovery: real, currentCritical: real,
    warningSamples: nat, criticalSamples: nat, recoverySamples: nat, offlineSamples: nat)

  const DEFAULT_CONFIG := ProtectionConfig(
    80.0, 75.0, 95.0, 7.0, 5.0, 10.0, 15.0, 13.0, 20.0, 3, 2, 5, 3)

  predicate IsWarning(c: ProtectionConfig, s: SensorSample) {
    s.temperature >= c.temperatureWarning || s.vibration >= c.vibrationWarning || s.current >= c.currentWarning
  }

  predicate IsCritical(c: ProtectionConfig, s: SensorSample) {
    s.temperature >= c.temperatureCritical || s.vibration >= c.vibrationCritical || s.current >= c.currentCritical
  }

  predicate IsRecovered(c: ProtectionConfig, s: SensorSample) {
    s.temperature <= c.temperatureRecovery && s.vibration <= c.vibrationRecovery && s.current <= c.currentRecovery
  }

  datatype Counters = Counters(warning: nat, critical: nat, recovery: nat, offline: nat)

  const ZERO := Counters(0, 0, 0, 0)
  const NO_SAMPLE := SensorSample(0.0, 0.0, 0.0, true, 0)

  datatype Machine = Machine(state: MotorState, lastSample: SensorSample, hasSample: bool, counters: Counters)

  const INITIAL := Machine(Booting, NO_SAMPLE, false, ZERO)

  predicate Monitoring(state: MotorState) {
    state == Healthy || state == Degraded
  }

  function Unchanged(m: Machine): (Machine, StateTransition) {
    (m, StateTransition(m.state, m.state, NoReason, false))
  }

  function MoveTo(m: Machine, next: MotorState, reason: TransitionReason): (Machine, StateTransition) {
    (m.(state := next, counters := ZERO), StateTransition(m.state, next, reason, m.state != next))
  }

  // The counters once one sample has been taken into account in a monitoring state.
  function Tally(c: ProtectionConfig, m: Machine, s: SensorSample): Counters {
    if !s.online then
      Counters(0, 0, 0, m.counters.offline + 1)
    else
      Counters(
        if IsWarning(c, s) then m.counters.warning + 1 else 0,
        if IsCritical(c, s) then m.counters.critical + 1 else 0,
        if m.state == Degraded && !IsWarning(c, s) && IsRecovered(c, s) then m.counters.recovery + 1 else 0,
        0)
  }

  function HandleSample(c: ProtectionConfig, m: Machine, s: SensorSample): (Machine, StateTransition) {
    var m := m.(lastSample := s, hasSample := true);
    if !Monitoring(m.state) then
      Unchanged(m)
    else
      var n := Tally(c, m, s);
      if !s.online then
        if n.offline >= c.offlineSamples then MoveTo(m, FaultLatched, SensorOffline)
        else Unchanged(m.(counters := n))
      else if n.critical >= c.criticalSamples then
        MoveTo(m, FaultLatched, CriticalReading)
      else if m.state == Healthy && n.warning >= c.warningSamples then
        MoveTo(m, Degraded, WarningPersisted)
      else if m.state == Degraded && n.recovery >= c.recoverySamples then
        MoveTo(m, Healthy, ReadingsRecovered)
      else
        Unchanged(m.(counters := n))
  }

  function Handle(c: ProtectionConfig, m: Machine, e: Event): (Machine, StateTransition) {
    if m.state == SafeShutdown then Unchanged(m)
    else match e
      case ShutdownRequested => MoveTo(m, SafeShutdown, ShutdownReason)
      case InternalFault => MoveTo(m, FaultLatched, InternalResourceFailure)
      case Startup => if m.state == Booting then MoveTo(m, SelfTest, StartupRequested) else Unchanged(m)
      case SelfTestPassed => if m.state == SelfTest then MoveTo(m, Healthy, SelfTestSucceeded) else Unchanged(m)
      case Sample(s) => HandleSample(c, m, s)
      case ResetRequested => if m.state == FaultLatched then MoveTo(m, SelfTest, ManualReset) else Unchanged(m)
  }

  function Step(c: ProtectionConfig, m: Machine, e: Event): Machine {
    Handle(c, m, e).0
  }

  // The machine after a whole sequence of events.
  function Run(c: ProtectionConfig, m: Machine, es: seq<Event>): Machine {
    if es == [] then m else Step(c, Run(c, m, es[..|es| - 1]), es[|es| - 1])
  }

  lemma {:induction false} RunAppend(c: ProtectionConfig, m: Machine, es: seq<Event>, fs: seq<Event>)
    ensures Run(c, m, es + fs) == Run(c, Run(c, m, es), fs)
    decreases |fs|
  {
    if fs == [] {
      assert es + fs == es;
    } else {
      var k := |fs| - 1;
      assert (es + fs)[..|es + fs| - 1] == es + fs[..k];
      RunAppend(c, m, es, fs[..k]);
    }
  }

  lemma RunSnoc(c: ProtectionConfig, m: Machine, es: seq<Event>, e: Event)
    ensures Run(c, m, es + [e]) == Step(c, Run(c, m, es), e)
  {
    assert (es + [e])[..|es + [e]| - 1] == es;
  }

  class MotorStateMachine {
    const config: ProtectionConfig
    var state: MotorState
    var lastSample: SensorSample
    var hasSample: bool
    var warningCount: nat
    var criticalCount: nat
    var recoveryCount: nat
    var offlineCount: nat

    // The fields as one value.
    function Value(): Machine
      reads this
    {
      Machine(state, lastSample, hasSample, Counters(warningCount, criticalCount, recoveryCount, offlineCount))
    }

    constructor (config: ProtectionConfig)
      ensures this.config == config
      ensures Value() == INITIAL
    {
      this.config := config;
      state := Booting;
      lastSample := NO_SAMPLE;
      hasSample := false;
      warningCount, criticalCount, recoveryCount, offlineCount := 0, 0, 0, 0;
    }

    method ResetCounters()
      modifies this
      ensures Value() == old(Value()).(counters := ZERO)
    {
      warningCount := 0;
      criticalCount := 0;
      recoveryCount := 0;
      offlineCount := 0;
    }

    method TransitionTo(next: MotorState, reason: TransitionReason) returns (t: StateTransition)
      modifies this
      ensures (Value(), t) == MoveTo(old(Value()), next, reason)
    {
      var previous := state;
      state := next;
      ResetCounters();
      t := StateTransition(previous, state, reason, previous != state);
    }

    method HandleSampleEvent(s: SensorSample) returns (t: StateTransition)
      modifies this
      ensures (Value(), t) == HandleSample(config, old(Value()), s)
    {
      lastSample := s;
      hasSample := true;
      if state != Healthy && state != Degraded {
        return StateTransition(state, state, NoReason, false);
      }
      if !s.online {
        offlineCount := offlineCount + 1;
        warningCount := 0;
        criticalCount := 0;
        recoveryCount := 0;
        if offlineCount >= config.offlineSamples {
          t := TransitionTo(FaultLatched, SensorOffline);
          return;
        }
        return StateTransition(state, state, NoReason, false);
      }
      offlineCount := 0;
      if IsCritical(config, s) {
        criticalCount := criticalCount + 1;
      } else {
        criticalCount := 0;
      }
      if criticalCount >= config.criticalSamples {
        t := TransitionTo(FaultLatched, CriticalReading);
        return;
      }
      if IsWarning(config, s) {
        warningCount := warningCount + 1;
        recoveryCount := 0;
      } else {
        warningCount := 0;
        if state == Degraded && IsRecovered(config, s) {
          recoveryCount := recoveryCount + 1;
        } else {
          recoveryCount := 0;
        }
      }
      if state == Healthy && warningCount >= config.warningSamples {
        t := TransitionTo(Degraded, WarningPersisted);
        return;
      }
      if state == Degraded && recoveryCount >= config.recoverySamples {
        t := TransitionTo(Healthy, ReadingsRecovered);
        return;
      }
      return StateTransition(state, state, NoReason, false);
    }

    method HandleEvent(e: Event) returns (t: StateTransition)
      modifies this
      ensures (Value(), t) == Handle(config, old(Value()), e)
    {
      if state == SafeShutdown {
        return StateTransition(state, state, NoReason, false);
      }
      if e == ShutdownRequested {
        t := TransitionTo(SafeShutdown, ShutdownReason);
        return;
      }
      if e == InternalFault {
        t := TransitionTo(FaultLatched, InternalResourceFailure);
        return;
      }
      match e {
        case Startup =>
          if state == Booting {
            t := TransitionTo(SelfTest, StartupRequested);
            return;
          }
        case SelfTestPassed =>
          if state == SelfTest {
            t := TransitionTo(Healthy, SelfTestSucceeded);
            return;
          }
        case Sample(s) =>
          t := HandleSampleEvent(s);
          return;
        case ResetRequested =>
          if state == FaultLatched {
            t := TransitionTo(SelfTest, ManualReset);
            return;
          }
        case ShutdownRequested | InternalFault =>
      }
      return StateTransition(state, state, NoReason, false);
    }
  }
}
