/** The supervisor of the flight: arming, takeoff, mission, pilot override and landing
    (flight_state_machine.cc, driven by flight_loop.cc). */
module FlightStates {
  import opened ControlMessages
  import opened MissionStates

  datatype Flight = Flight(
    state: FlightLoopState, landCommanded: bool,
    arming: Timer, spinup: Timer, takenOff: Timer, offboard: Timer, mission: Machine)

  function WithProgram(f: Flight, program: DroneProgram): Flight {
    f.(mission := WithMission(f.mission, program), landCommanded := false)
  }

  /** Whether a mission is to be run this iteration: requested, and not ended by its own landing. */
  predicate RunMission(f: Flight, s: Sensors) { s.runUasMission && !f.landCommanded }

  predicate High(s: Sensors) { s.position.altitude >= MIN_TAKEOFF_ALTITUDE }

  predicate Above(s: Sensors) { s.position.altitude > MIN_TAKEOFF_ALTITUDE }

  // What each handler asks for next.

  function StandbyNext(run: bool, s: Sensors): FlightLoopState {
    if !run then STANDBY else if s.armed then ARMED_WAIT_FOR_SPINUP else ARMING
  }

  function ArmingNext(run: bool, s: Sensors): FlightLoopState {
    if !run then STANDBY else if s.armed && Above(s) then TAKEN_OFF
    else if s.armed then ARMED_WAIT_FOR_SPINUP else ARMING
  }

  function SpinupNext(run: bool, s: Sensors, spinup: Timer): FlightLoopState {
    if !run then LANDING else if !s.armed then ARMING else if Above(s) then TAKEN_OFF
    else if s.time - spinup.Started(s.time).start > SPINUP_TIME then TAKING_OFF else ARMED_WAIT_FOR_SPINUP
  }

  function TakingOffNext(run: bool, s: Sensors): FlightLoopState {
    if !run then LANDING else if !s.armed then ARMING
    else if s.autopilotState == LOITER && Above(s) then TAKEN_OFF else TAKING_OFF
  }

  function TakenOffNext(run: bool, s: Sensors, takenOff: Timer): FlightLoopState {
    if !run then LANDING else if !s.armed then ARMING else if !High(s) then TAKING_OFF
    else if s.time - takenOff.Started(s.time).start > TAKEN_OFF_WAIT_TIME then MISSION else TAKEN_OFF
  }

  function MissionNext(run: bool, s: Sensors, m: Machine): FlightLoopState {
    if !run then SAFETY_PILOT_CONTROL else if Prepared(m, s).state == LAND then LANDING else MISSION
  }

  function PilotNext(run: bool, s: Sensors): FlightLoopState {
    if run && High(s) then MISSION else if !s.armed then STANDBY else SAFETY_PILOT_CONTROL
  }

  function LandingNext(s: Sensors): FlightLoopState { if !s.armed then STANDBY else LANDING }

  function Requested(f: Flight, s: Sensors): FlightLoopState {
    var run := RunMission(f, s);
    match f.state
    case STANDBY => StandbyNext(run, s)
    case ARMING => ArmingNext(run, s)
    case ARMED_WAIT_FOR_SPINUP => SpinupNext(run, s, f.spinup)
    case TAKING_OFF => TakingOffNext(run, s)
    case TAKEN_OFF => TakenOffNext(run, s, f.takenOff)
    case MISSION => MissionNext(run, s, f.mission)
    case SAFETY_PILOT_CONTROL => PilotNext(run, s)
    case LANDING => LandingNext(s)
  }

  /** The clocks and the interpreter after the handler of the current state has run. */
  function Worked(f: Flight, s: Sensors, distance: Distance): Flight {
    var run, above := RunMission(f, s), Above(s);
    match f.state
    case ARMING => if run && !s.armed then f.(arming := f.arming.Started(s.time)) else f
    case ARMED_WAIT_FOR_SPINUP =>
      if run && s.armed && !above then f.(spinup := f.spinup.Started(s.time)) else f
    case TAKEN_OFF => if run && s.armed && High(s) then f.(takenOff := f.takenOff.Started(s.time)) else f
    case MISSION =>
      if !run then f
      else f.(offboard := f.offboard.Started(s.time), mission := MissionStates.Tick(f.mission, s, distance))
    case _ => f
  }

  function Restarted(f: Flight, state: FlightLoopState): Flight {
    match state
    case ARMING => f.(state := state, arming := RESET_TIMER)
    case ARMED_WAIT_FOR_SPINUP => f.(state := state, spinup := RESET_TIMER)
    case TAKEN_OFF => f.(state := state, takenOff := RESET_TIMER)
    case MISSION => f.(state := state, offboard := RESET_TIMER)
    case _ => f.(state := state)
  }

  /** One iteration. A landing commanded by the mission is remembered when the state changes. */
  function Step(f: Flight, s: Sensors, distance: Distance): Flight {
    var next := Requested(f, s);
    var f' := Worked(f, s, distance);
    if next == f.state then f'
    else Restarted(f', next).(landCommanded := f.landCommanded || (f.state == MISSION && next == LANDING))
  }

  /** The offboard trigger, then what the interpreter writes out. */
  function MissionShown(f: Flight, s: Sensors, o: Output, distance: Distance): Output {
    var o := if s.autopilotState != OFFBOARD
             then o.(triggerOffboard := Pulse(s.time - f.offboard.Started(s.time).start)) else o;
    Emitted(f.mission, s, o, distance)
  }

  function ArmingShown(run: bool, s: Sensors, arming: Timer, o: Output): Output {
    var next := ArmingNext(run, s);
    if next == ARMING
    then o.(state := next, triggerArm := Pulse(s.time - arming.Started(s.time).start), triggerHold := true)
    else o.(state := next)
  }

  function TakingOffShown(run: bool, s: Sensors, o: Output): Output {
    var next := TakingOffNext(run, s);
    o.(state := next, triggerTakeoff := o.triggerTakeoff || next == TAKING_OFF)
  }

  function LandingShown(s: Sensors, o: Output): Output {
    var next := LandingNext(s);
    o.(state := next, triggerLand := o.triggerLand || next == LANDING)
  }

  /** What the handler of the current state writes out. */
  function Shown(f: Flight, s: Sensors, o: Output, distance: Distance): Output {
    var run := RunMission(f, s);
    match f.state
    case STANDBY => o.(state := StandbyNext(run, s))
    case ARMING => ArmingShown(run, s, f.arming, o)
    case ARMED_WAIT_FOR_SPINUP => o.(state := SpinupNext(run, s, f.spinup))
    case TAKING_OFF => TakingOffShown(run, s, o)
    case TAKEN_OFF => o.(state := TakenOffNext(run, s, f.takenOff))
    case MISSION =>
      (if run then MissionShown(f, s, o, distance) else o).(state := MissionNext(run, s, f.mission))
    case SAFETY_PILOT_CONTROL => o.(state := PilotNext(run, s))
    case LANDING => LandingShown(s, o)
  }

  /** The interpreter passes the flight state through and commands a landing exactly in LAND. */
  lemma LandingCommanded(m: Machine, s: Sensors, o: Output, distance: Distance)
    requires !o.missionCommandedLand
    ensures var e := Emitted(m, s, o, distance);
            e.state == o.state && (e.missionCommandedLand <==> Prepared(m, s).state == LAND)
  {}

  lemma ShownFacts(f: Flight, s: Sensors, o: Output, distance: Distance)
    requires !o.missionCommandedLand
    ensures var e := Shown(f, s, o, distance);
            e.state == Requested(f, s) && (e.missionCommandedLand <==> f.state == MISSION && e.state == LANDING)
  {
    if f.state == MISSION && RunMission(f, s) {
      MissionShownFacts(f, s, o, distance);
    }
  }

  lemma MissionShownFacts(f: Flight, s: Sensors, o: Output, distance: Distance)
    requires !o.missionCommandedLand
    ensures var e := MissionShown(f, s, o, distance);
            e.state == o.state && (e.missionCommandedLand <==> Prepared(f.mission, s).state == LAND)
  {
    LandingCommanded(f.mission, s, o, distance);
    LandingCommanded(f.mission, s, o.(triggerOffboard := Pulse(s.time - f.offboard.Started(s.time).start)), distance);
  }

  class FlightStateMachine {
    const mission: MissionStateMachine
    var state: FlightLoopState
    var landCommanded: bool
    var arming: Timer
    var spinup: Timer
    var takenOff: Timer
    var offboard: Timer

    ghost function View(): Flight
      reads this, mission
    {
      Flight(state, landCommanded, arming, spinup, takenOff, offboard, mission.View())
    }

    constructor (distance: Distance, garbage: Position, garbageYaw: real)
      ensures fresh(mission) && mission.distance == distance && Initial(View())
    {
      mission := new MissionStateMachine(distance, garbage, garbageYaw);
      state, landCommanded := STANDBY, false;
      arming, spinup, takenOff, offboard := RESET_TIMER, RESET_TIMER, RESET_TIMER, RESET_TIMER;
    }

    method LoadMission(program: DroneProgram)
      modifies this`landCommanded, mission
      ensures View() == WithProgram(old(View()), program)
    {
      mission.LoadMission(program);
      landCommanded := false;
    }

    /** The flight loop hands in the default output, in which no landing has been commanded. */
    method Handle(s: Sensors, output: Output) returns (o: Output)
      requires !output.missionCommandedLand
      modifies this, mission
      ensures View() == Step(old(View()), s, mission.distance)
      ensures o == Shown(old(View()), s, output.(state := old(state)), mission.distance)
    {
      var runMission := s.runUasMission;
      if landCommanded { runMission := false; }
      o := output.(state := state);
      ShownFacts(View(), s, o, mission.distance);
      o := HandleState(s, runMission, o);
      StateTransition(o);
    }

    method HandleState(s: Sensors, runMission: bool, output: Output) returns (o: Output)
      requires state == output.state && runMission == RunMission(View(), s) && !output.missionCommandedLand
      modifies this`arming, this`spinup, this`takenOff, this`offboard, mission
      ensures View() == Worked(old(View()), s, mission.distance)
      ensures o == Shown(old(View()), s, output, mission.distance)
    {
      match state {
        case STANDBY => o := HandleStandby(s, runMission, output);
        case ARMING => o := HandleArming(s, runMission, output);
        case ARMED_WAIT_FOR_SPINUP => o := HandleArmedWaitForSpinup(s, runMission, output);
        case TAKING_OFF => o := HandleTakingOff(s, runMission, output);
        case TAKEN_OFF => o := HandleTakenOff(s, runMission, output);
        case MISSION => o := HandleMission(s, runMission, output);
        case SAFETY_PILOT_CONTROL => o := HandleSafetyPilotControl(s, runMission, output);
        case LANDING => o := HandleLanding(s, output);
      }
    }

    method StateTransition(o: Output)
      modifies this
      ensures View() == if o.state == old(state) then old(View())
                        else Restarted(old(View()), o.state)
                               .(landCommanded := old(landCommanded) || o.missionCommandedLand)
    {
      var oldState, newState := state, o.state;
      if oldState == newState { return; }
      state := newState;
      match state {
        case ARMING => arming := RESET_TIMER;
        case ARMED_WAIT_FOR_SPINUP => spinup := RESET_TIMER;
        case TAKEN_OFF => takenOff := RESET_TIMER;
        case MISSION => offboard := RESET_TIMER;
        case _ =>
      }
      if o.missionCommandedLand { landCommanded := true; }
    }

    method HandleStandby(s: Sensors, runMission: bool, output: Output) returns (o: Output)
      requires state == STANDBY == output.state
      ensures o == output.(state := StandbyNext(runMission, s))
    {
      if !runMission { return output; }
      if s.armed { return output.(state := ARMED_WAIT_FOR_SPINUP); }
      return output.(state := ARMING);
    }

    method HandleArming(s: Sensors, runMission: bool, output: Output) returns (o: Output)
      requires state == ARMING == output.state
      modifies this`arming
      ensures arming == if runMission && !s.armed then old(arming).Started(s.time) else old(arming)
      ensures o == ArmingShown(runMission, s, old(arming), output)
    {
      if !runMission { return output.(state := STANDBY); }
      if s.armed && s.position.altitude > MIN_TAKEOFF_ALTITUDE { return output.(state := TAKEN_OFF); }
      if s.armed { return output.(state := ARMED_WAIT_FOR_SPINUP); }
      if arming.wasReset { arming := Timer(s.time, false); }
      var trigger := Pulse(s.time - arming.start);
      return output.(triggerArm := trigger, triggerHold := true);
    }

    method HandleArmedWaitForSpinup(s: Sensors, runMission: bool, output: Output) returns (o: Output)
      requires state == ARMED_WAIT_FOR_SPINUP == output.state
      modifies this`spinup
      ensures spinup == if runMission && s.armed && !Above(s) then old(spinup).Started(s.time) else old(spinup)
      ensures o == output.(state := SpinupNext(runMission, s, old(spinup)))
    {
      if !runMission { return output.(state := LANDING); }
      if !s.armed { return output.(state := ARMING); }
      if s.armed && s.position.altitude > MIN_TAKEOFF_ALTITUDE { return output.(state := TAKEN_OFF); }
      if spinup.wasReset { spinup := Timer(s.time, false); }
      if s.time - spinup.start > SPINUP_TIME { return output.(state := TAKING_OFF); }
      return output;
    }

    method HandleTakingOff(s: Sensors, runMission: bool, output: Output) returns (o: Output)
      requires state == TAKING_OFF == output.state
      ensures o == TakingOffShown(runMission, s, output)
    {
      if !runMission { return output.(state := LANDING); }
      if !s.armed { return output.(state := ARMING); }
      if s.autopilotState == LOITER && s.position.altitude > MIN_TAKEOFF_ALTITUDE {
        return output.(state := TAKEN_OFF);
      }
      return output.(triggerTakeoff := true);
    }

    method HandleTakenOff(s: Sensors, runMission: bool, output: Output) returns (o: Output)
      requires state == TAKEN_OFF == output.state
      modifies this`takenOff
      ensures takenOff == if runMission && s.armed && High(s) then old(takenOff).Started(s.time) else old(takenOff)
      ensures o == output.(state := TakenOffNext(runMission, s, old(takenOff)))
    {
      if !runMission { return output.(state := LANDING); }
      if !s.armed { return output.(state := ARMING); }
      if s.position.altitude < MIN_TAKEOFF_ALTITUDE { return output.(state := TAKING_OFF); }
      if takenOff.wasReset { takenOff := Timer(s.time, false); }
      if s.time - takenOff.start > TAKEN_OFF_WAIT_TIME { return output.(state := MISSION); }
      return output;
    }

    method HandleMission(s: Sensors, runMission: bool, output: Output) returns (o: Output)
      requires state == MISSION == output.state && runMission == RunMission(View(), s)
      requires !output.missionCommandedLand
      modifies this`offboard, mission
      ensures View() == Worked(old(View()), s, mission.distance)
      ensures o == Shown(old(View()), s, output, mission.distance)
    {
      if !runMission { return output.(state := SAFETY_PILOT_CONTROL); }
      o := RunInterpreter(s, output);
      if o.missionCommandedLand { o := o.(state := LANDING); }
    }

    method RunInterpreter(s: Sensors, output: Output) returns (o: Output)
      requires !output.missionCommandedLand
      modifies this`offboard, mission
      ensures offboard == old(offboard).Started(s.time)
      ensures mission.View() == MissionStates.Tick(old(mission.View()), s, mission.distance)
      ensures o == MissionShown(old(View()), s, output, mission.distance)
      ensures o.state == output.state && (o.missionCommandedLand <==> Prepared(old(mission.View()), s).state == LAND)
    {
      if offboard.wasReset { offboard := Timer(s.time, false); }
      var trigger := Pulse(s.time - offboard.start);
      o := output;
      if s.autopilotState != OFFBOARD { o := o.(triggerOffboard := trigger); }
      LandingCommanded(mission.View(), s, o, mission.distance);
      o := mission.Handle(s, o);
    }

    method HandleSafetyPilotControl(s: Sensors, runMission: bool, output: Output) returns (o: Output)
      requires state == SAFETY_PILOT_CONTROL == output.state
      ensures o == output.(state := PilotNext(runMission, s))
    {
      if runMission && s.position.altitude >= MIN_TAKEOFF_ALTITUDE { return output.(state := MISSION); }
      if !s.armed { return output.(state := STANDBY); }
      return output;
    }

    method HandleLanding(s: Sensors, output: Output) returns (o: Output)
      requires state == LANDING == output.state
      ensures o == LandingShown(s, output)
    {
      if !s.armed { return output.(state := STANDBY); }
      return output.(triggerLand := true);
    }
  }

  // ---- whole runs ----

  predicate Initial(f: Flight) {
    f.state == STANDBY && !f.landCommanded && f.takenOff == RESET_TIMER && Fresh(f.mission)
  }

  /** The flight after the first n events: programs are loaded and iterations run in any order. */
  function After(f: Flight, events: seq<Event>, n: nat, distance: Distance): Flight
    requires n <= |events|
  {
    if n == 0 then f else
      var before := After(f, events, n - 1, distance);
      match events[n - 1]
      case Load(program) => WithProgram(before, program)
      case Iterate(s) => Step(before, s, distance)
  }

  /** The output of the n-th event, if it is an iteration. */
  function OutputAt(f: Flight, events: seq<Event>, n: nat, distance: Distance): Output
    requires n < |events| && events[n].Iterate?
  {
    var g := After(f, events, n, distance);
    Shown(g, events[n].sensors, DEFAULT_OUTPUT.(state := g.state), distance)
  }

  predicate Grounded(f: Flight) { f.state == LANDING || f.state == STANDBY }

  lemma {:induction false} CommandedLandingGrounds(f: Flight, events: seq<Event>, n: nat, distance: Distance)
    requires Initial(f) && n <= |events|
    ensures var g := After(f, events, n, distance); g.landCommanded ==> Grounded(g)
  {
    if n > 0 { CommandedLandingGrounds(f, events, n - 1, distance); }
  }

  predicate NoLoad(events: seq<Event>, i: nat, j: nat)
    requires i <= j <= |events|
  {
    forall k :: i <= k < j ==> events[k].Iterate?
  }

  predicate CommandsLanding(f: Flight, events: seq<Event>, i: nat, distance: Distance)
    requires i < |events|
  {
    events[i].Iterate? && OutputAt(f, events, i, distance).missionCommandedLand
  }

  predicate Quiet(o: Output) {
    !o.triggerArm && !o.triggerTakeoff && !o.triggerOffboard && !o.sendSetpoint && !o.triggerHold && !o.deploy
  }

  /** After a landing commanded by the mission and until the next load, the flight stays in LANDING or
      STANDBY, and arms, takes off, goes offboard or sends setpoints no more, whatever the sensors and
      the pilot's mission switch say. */
  lemma {:induction false} LandingIsFinal(f: Flight, events: seq<Event>, i: nat, j: nat, distance: Distance)
    requires Initial(f) && i < j < |events| && CommandsLanding(f, events, i, distance)
    requires NoLoad(events, i, j + 1)
    ensures var g := After(f, events, j, distance);
            g.landCommanded && Grounded(g) && Grounded(After(f, events, j + 1, distance)) &&
            Quiet(OutputAt(f, events, j, distance))
  {
    if j == i + 1 {
      LandingIsRecorded(f, events, i, distance);
    } else {
      LandingIsFinal(f, events, i, j - 1, distance);
      LandingKept(After(f, events, j - 1, distance), events[j - 1].sensors, distance);
    }
    LandingKept(After(f, events, j, distance), events[j].sensors, distance);
  }

  lemma LandingIsRecorded(f: Flight, events: seq<Event>, i: nat, distance: Distance)
    requires Initial(f) && i < |events| && CommandsLanding(f, events, i, distance)
    ensures var g := After(f, events, i + 1, distance); g.landCommanded && g.state == LANDING
  {
    var g, s := After(f, events, i, distance), events[i].sensors;
    assert g.state == MISSION && RunMission(g, s);
  }

  lemma LandingKept(g: Flight, s: Sensors, distance: Distance)
    requires g.landCommanded && Grounded(g)
    ensures var next := Step(g, s, distance); next.landCommanded && Grounded(next)
    ensures Quiet(Shown(g, s, DEFAULT_OUTPUT.(state := g.state), distance))
  {}

  /** The drone is armed, the mission requested and the altitude safe. */
  predicate Good(f: Flight, s: Sensors) { RunMission(f, s) && s.armed && High(s) }

  /** From event j until before event n, the flight was in TAKEN_OFF and every iteration was good. */
  ghost predicate Window(f: Flight, events: seq<Event>, j: nat, n: nat, distance: Distance)
    requires j <= n <= |events|
  {
    forall i :: j <= i < n ==>
      After(f, events, i, distance).state == TAKEN_OFF &&
      (events[i].Iterate? ==> Good(After(f, events, i, distance), events[i].sensors))
  }

  /** What one iteration does to the clock, and when it leads on. */
  lemma TakenOffStep(f: Flight, s: Sensors, distance: Distance)
    ensures var next := Step(f, s, distance);
            && (next.state == TAKEN_OFF && !next.takenOff.wasReset ==>
                  f.state == TAKEN_OFF && Good(f, s) && next.takenOff == f.takenOff.Started(s.time))
            && (f.state == TAKEN_OFF && next.state == MISSION ==>
                  Good(f, s) && !f.takenOff.wasReset && s.time - f.takenOff.start > TAKEN_OFF_WAIT_TIME)
  {}

  /** A running TAKEN_OFF clock started at an iteration from which the window is unbroken. */
  lemma {:induction false} TakenOffClock(f: Flight, events: seq<Event>, n: nat, distance: Distance) returns (j: nat)
    requires Initial(f) && n <= |events|
    ensures var g := After(f, events, n, distance);
            g.state == TAKEN_OFF && !g.takenOff.wasReset ==>
              j < n && events[j].Iterate? && g.takenOff.start == events[j].sensors.time &&
              Window(f, events, j, n, distance)
  {
    j := 0;
    if n > 0 {
      j := TakenOffClock(f, events, n - 1, distance);
      var was := After(f, events, n - 1, distance);
      if was.state == TAKEN_OFF && was.takenOff.wasReset { j := n - 1; }
      if events[n - 1].Iterate? { TakenOffStep(was, events[n - 1].sensors, distance); }
    }
  }

  /** Every step from TAKEN_OFF to MISSION ends an unbroken window of more than five seconds in which
      each iteration was armed, requested and at a safe altitude. */
  lemma MissionAfterWait(f: Flight, events: seq<Event>, n: nat, distance: Distance) returns (j: nat)
    requires Initial(f) && n < |events|
    requires After(f, events, n, distance).state == TAKEN_OFF && After(f, events, n + 1, distance).state == MISSION
    ensures j < n && events[j].Iterate? && events[n].Iterate?
    ensures events[n].sensors.time - events[j].sensors.time > TAKEN_OFF_WAIT_TIME
    ensures Window(f, events, j, n + 1, distance)
  {
    j := TakenOffClock(f, events, n, distance);
    TakenOffStep(After(f, events, n, distance), events[n].sensors, distance);
  }

  /** Every entry to MISSION happens at a safe altitude, on request, and from one of two states. */
  lemma MissionEntry(f: Flight, s: Sensors, distance: Distance)
    requires f.state != MISSION
    ensures Step(f, s, distance).state == MISSION ==>
              High(s) && RunMission(f, s) && (f.state == TAKEN_OFF || f.state == SAFETY_PILOT_CONTROL)
  {}

  lemma MissionIdle(f: Flight, s: Sensors, distance: Distance)
    requires !(f.state == MISSION && RunMission(f, s))
    ensures Step(f, s, distance).mission == f.mission
  {}

  lemma MissionDriven(f: Flight, s: Sensors, distance: Distance)
    requires f.state == MISSION && RunMission(f, s)
    ensures Step(f, s, distance).mission == MissionStates.Tick(f.mission, s, distance)
  {}

  /** The interpreter is run by event i. */
  predicate Driven(f: Flight, events: seq<Event>, i: nat, distance: Distance)
    requires i < |events|
  {
    var g := After(f, events, i, distance);
    events[i].Load? || (g.state == MISSION && RunMission(g, events[i].sensors))
  }

  /** While the pilot has control the interpreter is frozen: override and resume change neither its
      index nor its state nor anything else about it. */
  lemma {:induction false} OverrideFreezesMission(f: Flight, events: seq<Event>, n: nat, distance: Distance)
    requires n <= |events|
    requires forall i :: 0 <= i < n ==> !Driven(f, events, i, distance)
    ensures After(f, events, n, distance).mission == f.mission
  {
    if n > 0 {
      OverrideFreezesMission(f, events, n - 1, distance);
      assert !Driven(f, events, n - 1, distance);
      MissionIdle(After(f, events, n - 1, distance), events[n - 1].sensors, distance);
    }
  }

  /** The events the interpreter sees in a flight: the loads, and the iterations it is handed. */
  function Seen(f: Flight, events: seq<Event>, n: nat, distance: Distance): seq<Event>
    requires n <= |events|
  {
    if n == 0 then []
    else if Driven(f, events, n - 1, distance) then Seen(f, events, n - 1, distance) + [events[n - 1]]
    else Seen(f, events, n - 1, distance)
  }

  lemma {:induction false} FlightRunsMission(f: Flight, events: seq<Event>, n: nat, distance: Distance)
    requires n <= |events|
    ensures After(f, events, n, distance).mission == Run(f.mission, Seen(f, events, n, distance), distance)
  {
    if n > 0 {
      FlightRunsMission(f, events, n - 1, distance);
      var before, e := After(f, events, n - 1, distance), events[n - 1];
      if Driven(f, events, n - 1, distance) {
        RunAppend(f.mission, Seen(f, events, n - 1, distance), e, distance);
        if e.Iterate? { MissionDriven(before, e.sensors, distance); }
      } else {
        MissionIdle(before, e.sensors, distance);
      }
    }
  }

  /** So over every flight, pilot overrides included, the commands taken up since the last load are a
      prefix of the program in order, each once. */
  lemma FlightExecutesPrefix(f: Flight, events: seq<Event>, n: nat, distance: Distance)
    requires Initial(f) && n <= |events|
    ensures var m := After(f, events, n, distance).mission;
            Executing(m) && Loaded(f.mission, Seen(f, events, n, distance), distance) == m.program[..m.index]
  {
    FlightRunsMission(f, events, n, distance);
    LoadedIsPrefix(f.mission, Seen(f, events, n, distance), distance);
  }

  // ---- what is sent out, over whole runs ----

  /** Every trigger of an iteration, two ways: when it is on, and that it is on in no other case. */
  lemma OutputLaws(f: Flight, events: seq<Event>, n: nat, distance: Distance)
    requires n < |events| && events[n].Iterate?
    ensures var g, s, o := After(f, events, n, distance), events[n].sensors, OutputAt(f, events, n, distance);
            var run := RunMission(g, s);
            && (o.triggerLand <==> g.state == LANDING && s.armed)
            && (o.triggerTakeoff <==>
                  g.state == TAKING_OFF && run && s.armed && !(s.autopilotState == LOITER && Above(s)))
            && (o.triggerHold <==> g.state == ARMING && run && !s.armed)
            && (o.triggerArm <==>
                  g.state == ARMING && run && !s.armed && Pulse(s.time - g.arming.Started(s.time).start))
            && (o.triggerOffboard <==>
                  g.state == MISSION && run && s.autopilotState != OFFBOARD &&
                  Pulse(s.time - g.offboard.Started(s.time).start))
            && (o.sendSetpoint <==> g.state == MISSION && run)
            && (o.deploy <==> g.state == MISSION && run && Prepared(g.mission, s).state == UGV_DROP && !s.doneDropping)
  {
    var g, s := After(f, events, n, distance), events[n].sensors;
    if g.state == MISSION {
      if RunMission(g, s) { MissionOutputs(g, s, DEFAULT_OUTPUT.(state := g.state), distance); }
    } else {
      OtherOutputs(g, s, distance);
    }
  }

  lemma MissionOutputs(g: Flight, s: Sensors, o: Output, distance: Distance)
    requires !o.triggerOffboard && !o.deploy
    ensures var e := MissionShown(g, s, o, distance);
            && e.triggerLand == o.triggerLand && e.triggerTakeoff == o.triggerTakeoff
            && e.triggerHold == o.triggerHold && e.triggerArm == o.triggerArm && e.sendSetpoint
            && (e.triggerOffboard <==>
                  s.autopilotState != OFFBOARD && Pulse(s.time - g.offboard.Started(s.time).start))
            && (e.deploy <==> Prepared(g.mission, s).state == UGV_DROP && !s.doneDropping)
  {}

  lemma OtherOutputs(g: Flight, s: Sensors, distance: Distance)
    requires g.state != MISSION
    ensures var o := Shown(g, s, DEFAULT_OUTPUT.(state := g.state), distance);
            var run := RunMission(g, s);
            && (o.triggerLand <==> g.state == LANDING && s.armed)
            && (o.triggerTakeoff <==>
                  g.state == TAKING_OFF && run && s.armed && !(s.autopilotState == LOITER && Above(s)))
            && (o.triggerHold <==> g.state == ARMING && run && !s.armed)
            && (o.triggerArm <==>
                  g.state == ARMING && run && !s.armed && Pulse(s.time - g.arming.Started(s.time).start))
            && !o.triggerOffboard && !o.sendSetpoint && !o.deploy
  {}

  lemma {:induction false} LandingHeld(f: Flight, events: seq<Event>, i: nat, j: nat, distance: Distance)
    requires i <= j <= |events| && After(f, events, i, distance).state == LANDING && NoLoad(events, i, j)
    requires forall k :: i <= k < j ==> events[k].sensors.armed
    ensures After(f, events, j, distance).state == LANDING
  {
    if i < j {
      LandingHeld(f, events, i, j - 1, distance);
      LandingGoesOn(After(f, events, j - 1, distance), events[j - 1].sensors, distance);
    }
  }

  /** From a landing commanded by the mission until the drone is disarmed or the next load, every iteration
      tells it to land. */
  lemma LandsUntilDisarmed(f: Flight, events: seq<Event>, i: nat, j: nat, distance: Distance)
    requires Initial(f) && i < j < |events| && CommandsLanding(f, events, i, distance)
    requires NoLoad(events, i, j + 1) && forall k :: i < k <= j ==> events[k].sensors.armed
    ensures After(f, events, j, distance).state == LANDING && OutputAt(f, events, j, distance).triggerLand
  {
    LandingIsRecorded(f, events, i, distance);
    LandingHeld(f, events, i + 1, j, distance);
    LandingShows(After(f, events, j, distance), events[j].sensors, distance);
  }

  lemma LandingShows(g: Flight, s: Sensors, distance: Distance)
    requires g.state == LANDING && s.armed
    ensures Shown(g, s, DEFAULT_OUTPUT.(state := g.state), distance).triggerLand
  {}

  lemma LandingGoesOn(g: Flight, s: Sensors, distance: Distance)
    requires g.state == LANDING && s.armed
    ensures Step(g, s, distance) == g
  {}

  lemma ClocksStep(f: Flight, s: Sensors, distance: Distance)
    ensures var next := Step(f, s, distance);
            && (next.state == ARMING && !next.arming.wasReset ==>
                  f.state == ARMING && next.arming == f.arming.Started(s.time))
            && (next.state == MISSION && !next.offboard.wasReset ==>
                  f.state == MISSION && next.offboard == f.offboard.Started(s.time))
  {}

  /** A running ARMING clock started at an iteration since which the flight has been in ARMING; it was the
      first to see the clock reset. */
  lemma {:induction false} ArmingClock(f: Flight, events: seq<Event>, n: nat, distance: Distance) returns (j: nat)
    requires Initial(f) && n <= |events|
    ensures var g := After(f, events, n, distance);
            g.state == ARMING && !g.arming.wasReset ==>
              j < n && events[j].Iterate? && g.arming.start == events[j].sensors.time &&
              After(f, events, j, distance).arming.wasReset && Throughout(f, events, j, n, ARMING, distance)
  {
    j := 0;
    if n > 0 {
      j := ArmingClock(f, events, n - 1, distance);
      var was := After(f, events, n - 1, distance);
      if was.state == ARMING && was.arming.wasReset { j := n - 1; }
      if events[n - 1].Iterate? { ClocksStep(was, events[n - 1].sensors, distance); }
    }
  }

  lemma {:induction false} OffboardClock(f: Flight, events: seq<Event>, n: nat, distance: Distance) returns (j: nat)
    requires Initial(f) && n <= |events|
    ensures var g := After(f, events, n, distance);
            g.state == MISSION && !g.offboard.wasReset ==>
              j < n && events[j].Iterate? && g.offboard.start == events[j].sensors.time &&
              After(f, events, j, distance).offboard.wasReset && Throughout(f, events, j, n, MISSION, distance)
  {
    j := 0;
    if n > 0 {
      j := OffboardClock(f, events, n - 1, distance);
      var was := After(f, events, n - 1, distance);
      if was.state == MISSION && was.offboard.wasReset { j := n - 1; }
      if events[n - 1].Iterate? { ClocksStep(was, events[n - 1].sensors, distance); }
    }
  }

  ghost predicate Throughout(f: Flight, events: seq<Event>, j: nat, n: nat, state: FlightLoopState, distance: Distance)
    requires j <= n <= |events|
  {
    forall i :: j <= i < n ==> After(f, events, i, distance).state == state
  }

  /** A trigger pulses: off for the first half of every three seconds since the clock started, on for the
      second. */
  lemma PulseShape(k: nat, r: real)
    requires 0.0 <= r < 3.0
    ensures Pulse(3.0 * k as real + r) <==> r > 1.5
  {
    var x := 3.0 * k as real + r;
    assert (x / 3.0).Floor == k;
  }

  /** A normal takeoff: requested on the ground, armed, spun up for five seconds, up and loitering, five
      seconds more, and the mission begins. */
  lemma NormalTakeoff(f: Flight, s: Sensors, distance: Distance)
    requires Initial(f) && s.runUasMission && !s.armed && s.position.altitude == 0.0
    ensures var armed := s.(armed := true);
            var high := armed.(autopilotState := LOITER, position := s.position.(altitude := 3.0));
            var arming := Step(f, s, distance);
            var waiting := Step(arming, armed, distance);
            var spinning := Step(waiting, armed, distance);
            var rising := Step(spinning, armed.(time := s.time + 5.1), distance);
            var up := Step(rising, high, distance);
            var settling := Step(up, high, distance);
            && arming.state == ARMING && waiting.state == ARMED_WAIT_FOR_SPINUP
            && spinning.state == ARMED_WAIT_FOR_SPINUP && rising.state == TAKING_OFF
            && up.state == TAKEN_OFF && settling.state == TAKEN_OFF
            && Step(settling, high.(time := s.time + 5.1), distance).state == MISSION
  {}

  /** The pilot takes over a mission by calling it off and gives it back, at a safe altitude, by requesting it
      again; once the drone is on the ground and disarmed it stands by. */
  lemma OverrideAndResume(f: Flight, s: Sensors, distance: Distance)
    requires f.state == MISSION && !s.runUasMission && s.armed
    ensures var taken := Step(f, s, distance);
            var back := s.(runUasMission := true, position := s.position.(altitude := MIN_TAKEOFF_ALTITUDE));
            && taken.state == SAFETY_PILOT_CONTROL && Step(taken, s, distance).state == SAFETY_PILOT_CONTROL
            && (!f.landCommanded ==> Step(taken, back, distance).state == MISSION)
            && Step(taken, s.(armed := false), distance).state == STANDBY
  {}

  /** Over every run, two ways: what leads to each state. */
  lemma StatesFollowSensors(f: Flight, events: seq<Event>, n: nat, distance: Distance)
    requires n < |events| && events[n].Iterate?
    ensures var g, s := After(f, events, n, distance), events[n].sensors;
            var next, run := After(f, events, n + 1, distance).state, RunMission(g, s);
            var spun, settled :=
              s.time - g.spinup.Started(s.time).start > 5.0, s.time - g.takenOff.Started(s.time).start > 5.0;
            var altitude, loitering := s.position.altitude, s.autopilotState == LOITER;
            && (next == STANDBY <==>
                  ((g.state == STANDBY || g.state == ARMING) && !run) || (g.state == LANDING && !s.armed) ||
                  (g.state == SAFETY_PILOT_CONTROL && !(run && altitude >= 2.0) && !s.armed))
            && (next == ARMING <==>
                  run && !s.armed && g.state != MISSION && g.state != SAFETY_PILOT_CONTROL && g.state != LANDING)
            && (next == ARMED_WAIT_FOR_SPINUP <==>
                  run && s.armed &&
                  (g.state == STANDBY || (g.state == ARMING && altitude <= 2.0) ||
                   (g.state == ARMED_WAIT_FOR_SPINUP && altitude <= 2.0 && !spun)))
            && (next == TAKING_OFF <==>
                  run && s.armed &&
                  ((g.state == ARMED_WAIT_FOR_SPINUP && altitude <= 2.0 && spun) ||
                   (g.state == TAKING_OFF && !(loitering && altitude > 2.0)) ||
                   (g.state == TAKEN_OFF && altitude < 2.0)))
            && (next == TAKEN_OFF <==>
                  run && s.armed &&
                  (((g.state == ARMING || g.state == ARMED_WAIT_FOR_SPINUP) && altitude > 2.0) ||
                   (g.state == TAKING_OFF && loitering && altitude > 2.0) ||
                   (g.state == TAKEN_OFF && altitude >= 2.0 && !settled)))
            && (next == MISSION <==>
                  run && ((g.state == TAKEN_OFF && s.armed && altitude >= 2.0 && settled) ||
                          (g.state == MISSION && Prepared(g.mission, s).state != LAND) ||
                          (g.state == SAFETY_PILOT_CONTROL && altitude >= 2.0)))
            && (next == SAFETY_PILOT_CONTROL <==>
                  (g.state == MISSION && !run) ||
                  (g.state == SAFETY_PILOT_CONTROL && !(run && altitude >= 2.0) && s.armed))
            && (next == LANDING <==>
                  (!run && (g.state == ARMED_WAIT_FOR_SPINUP || g.state == TAKING_OFF || g.state == TAKEN_OFF)) ||
                  (run && g.state == MISSION && Prepared(g.mission, s).state == LAND) ||
                  (g.state == LANDING && s.armed))
  {}
}
