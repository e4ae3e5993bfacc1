// Values shared by every component: sensor samples, events, motor states and
// the report of a state transition.
module Domain {
  datatype Option<+T> = None | Some(value: T)

  datatype SensorSample = SensorSample(
    temperature: real, vibration: real, current: real, online: bool, sequence: nat)

  // The payload only matters for sensor samples, so it is attached to that kind.
  datatype Event =
    | Startup
    | SelfTestPassed
    | Sample(sample: SensorSample)
    | ResetRequested
    | ShutdownRequested
    | InternalFault

  datatype MotorState = Booting | SelfTest | Healthy | Degraded | FaultLatched | SafeShutdown

  datatype TransitionReason =
    | NoReason
    | StartupRequested
    | SelfTestSucceeded
    | WarningPersisted
    | ReadingsRecovered
    | CriticalReading
    | SensorOffline
    | InternalResourceFailure
    | ManualReset
    | ShutdownReason

  datatype StateTransition = StateTransition(
    previous: MotorState, current: MotorState, reason: TransitionReason, changed: bool)
}
