/** The messages the flight loop exchanges (messages.proto, timeline_grammar.proto) and the constants
    its state machines share. */
module ControlMessages {
  import opened Geometry

  datatype FlightLoopState =
    | STANDBY | ARMING | ARMED_WAIT_FOR_SPINUP | TAKING_OFF | TAKEN_OFF | MISSION | SAFETY_PILOT_CONTROL | LANDING

  datatype MissionState = GET_NEXT_CMD | TRANSLATE | UGV_DROP | LAND | SLEEP

  datatype Position = Position(latitude: real, longitude: real, altitude: real)

  datatype DroneCommand =
    | NothingCommand
    | SleepCommand(time: real)
    | TriggerBombDropCommand
    | TriggerAlarmCommand
    | TranslateCommand(goal: Position)
    | LandCommand
    | UnsetCommand

  type DroneProgram = seq<DroneCommand>

  datatype Sensors = Sensors(
    time: real, position: Position, heading: real, armed: bool, autopilotState: string,
    runUasMission: bool, doneDropping: bool)

  datatype Output = Output(
    state: FlightLoopState, missionState: MissionState,
    sendSetpoint: bool, setpoint: Position, setpointYaw: real,
    triggerTakeoff: bool, triggerHold: bool, triggerOffboard: bool, triggerLand: bool, triggerArm: bool,
    deploy: bool, missionCommandedLand: bool)

  /** What the flight loop starts every iteration from. */
  const DEFAULT_OUTPUT :=
    Output(STANDBY, GET_NEXT_CMD, false, Position(0.0, 0.0, 0.0), 0.0,
           false, false, false, false, false, false, false)

  const TRIGGER_PERIOD := 3.0
  const ACCEPTANCE_RADIUS := 4.0
  const SPINUP_TIME := 5.0
  const MIN_TAKEOFF_ALTITUDE := 2.0
  const TAKEN_OFF_WAIT_TIME := 5.0
  const LOITER := "AUTO.LOITER"
  const OFFBOARD := "OFFBOARD"

  /** A state handler's clock: the time of the first iteration it saw since it was last reset. */
  datatype Timer = Timer(start: real, wasReset: bool) {
    function Started(now: real): Timer { if wasReset then Timer(now, false) else this }
  }

  const RESET_TIMER := Timer(0.0, true)

  /** C's fmod: the remainder of division truncated towards zero. */
  function Fmod(x: real, p: real): real
    requires p != 0.0
  {
    x - p * Trunc(x / p) as real
  }

  /** On for the second half of every trigger period. */
  predicate Pulse(elapsed: real) { Fmod(elapsed, TRIGGER_PERIOD) > TRIGGER_PERIOD / 2.0 }
}
