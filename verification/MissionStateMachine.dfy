/** The interpreter of drone programs (mission_state_machine.cc). */
module MissionStates {
  import opened Wrappers
  import opened ControlMessages

  /** The three-dimensional distance between two positions; the interpreter works for any. */
  type Distance = (Position, Position) -> real

  datatype Machine = Machine(
    state: MissionState, program: DroneProgram, index: nat,
    setpointInitialized: bool, setpoint: Position, yaw: real, newMissionReady: bool,
    destination: Position, sleep: Timer, sleepPeriod: real)

  function WithMission(m: Machine, program: DroneProgram): Machine {
    m.(program := program, index := 0, newMissionReady := true)
  }

  /** Whether this iteration ends the command being executed. */
  predicate Finished(m: Machine, s: Sensors, distance: Distance) {
    match m.state
    case GET_NEXT_CMD => true
    case TRANSLATE => distance(s.position, m.destination) < ACCEPTANCE_RADIUS
    case UGV_DROP => s.doneDropping
    case LAND => false
    case SLEEP => s.time - m.sleep.Started(s.time).start > m.sleepPeriod
  }

  function StateFor(c: DroneCommand): MissionState {
    match c
    case TranslateCommand(_) => TRANSLATE
    case TriggerBombDropCommand => UGV_DROP
    case LandCommand => LAND
    case SleepCommand(_) => SLEEP
    case _ => GET_NEXT_CMD
  }

  /** Loading the next command, if there is one. The sleep timer restarts only when the state is
      entered from another one. */
  function Advanced(m: Machine): Machine {
    if m.index < |m.program| then
      var c := m.program[m.index];
      m.(state := StateFor(c), index := m.index + 1,
         destination := if c.TranslateCommand? then c.goal else m.destination,
         sleepPeriod := if c.SleepCommand? then c.time else m.sleepPeriod,
         sleep := if c.SleepCommand? && m.state != SLEEP then RESET_TIMER else m.sleep)
    else m.(state := GET_NEXT_CMD)
  }

  /** The state in which an iteration finds the command to execute. */
  function Prepared(m: Machine, s: Sensors): Machine {
    var m := if m.setpointInitialized then m
             else m.(setpointInitialized := true, setpoint := s.position, yaw := s.heading);
    if m.newMissionReady then m.(state := GET_NEXT_CMD, newMissionReady := false) else m
  }

  /** What the handler of the current state does to the machine. */
  function Handled(p: Machine, s: Sensors): Machine {
    if p.state == TRANSLATE then p.(setpoint := p.destination)
    else if p.state == SLEEP then p.(sleep := p.sleep.Started(s.time)) else p
  }

  function Tick(m: Machine, s: Sensors, distance: Distance): Machine {
    var p := Prepared(m, s);
    if Finished(p, s, distance) then Advanced(Handled(p, s)) else Handled(p, s)
  }

  /** What the handler of the current state writes out. */
  function Written(p: Machine, s: Sensors, o: Output, distance: Distance): Output {
    o.(missionState := if Finished(p, s, distance) then GET_NEXT_CMD else p.state,
       sendSetpoint := o.sendSetpoint || p.state == TRANSLATE,
       setpoint := if p.state == TRANSLATE then p.destination else o.setpoint,
       deploy := if p.state == UGV_DROP then !s.doneDropping else o.deploy,
       missionCommandedLand := o.missionCommandedLand || p.state == LAND)
  }

  function Emitted(m: Machine, s: Sensors, o: Output, distance: Distance): Output {
    var p := Prepared(m, s);
    var shown := o.(setpoint := p.setpoint, setpointYaw := p.yaw, missionState := p.state);
    Written(p, s, shown, distance).(sendSetpoint := true)
  }

  lemma AdvancedKeepsSetpoint(h: Machine, setpoint: Position)
    ensures Advanced(h).(setpoint := setpoint) == Advanced(h.(setpoint := setpoint))
  {}

  class MissionStateMachine {
    const distance: Distance
    var state: MissionState
    var program: DroneProgram
    var index: nat
    var setpointInitialized: bool
    var setpoint: Position
    var yaw: real
    var newMissionReady: bool
    var destination: Position
    var sleep: Timer
    var sleepPeriod: real

    ghost function View(): Machine
      reads this
    {
      Machine(state, program, index, setpointInitialized, setpoint, yaw, newMissionReady,
              destination, sleep, sleepPeriod)
    }

    /** The setpoint and the destination start out uninitialised. */
    constructor (distance: Distance, garbage: Position, garbageYaw: real)
      ensures this.distance == distance
      ensures View() == Machine(GET_NEXT_CMD, [], 0, false, garbage, garbageYaw, false, garbage, RESET_TIMER, 0.0)
    {
      this.distance := distance;
      state, program, index := GET_NEXT_CMD, [], 0;
      setpointInitialized, setpoint, yaw, newMissionReady := false, garbage, garbageYaw, false;
      destination, sleep, sleepPeriod := garbage, RESET_TIMER, 0.0;
    }

    method LoadMission(newProgram: DroneProgram)
      modifies this
      ensures View() == WithMission(old(View()), newProgram)
    {
      program := newProgram;
      index := 0;
      newMissionReady := true;
    }

    method Handle(s: Sensors, output: Output) returns (o: Output)
      modifies this
      ensures View() == Tick(old(View()), s, distance)
      ensures o == Emitted(old(View()), s, output, distance)
    {
      Prepare(s);
      ghost var p := View();
      o := output.(setpoint := setpoint, setpointYaw := yaw, missionState := state);
      o := HandleState(s, o);
      ghost var h := View();
      StateTransition(o);
      setpoint := o.setpoint;
      yaw := o.setpointYaw;
      o := o.(sendSetpoint := true);
      AdvancedKeepsSetpoint(h, setpoint);
      assert h.(setpoint := setpoint) == Handled(p, s);
    }

    /** The first iteration takes over the drone's position, and a new mission interrupts. */
    method Prepare(s: Sensors)
      modifies this
      ensures View() == Prepared(old(View()), s)
    {
      if !setpointInitialized {
        setpoint := s.position;
        yaw := s.heading;
        setpointInitialized := true;
      }
      if newMissionReady {
        state := GET_NEXT_CMD;
        newMissionReady := false;
      }
    }

    /** The handler of the current state. */
    method HandleState(s: Sensors, output: Output) returns (o: Output)
      requires output.missionState == state
      modifies this`sleep
      ensures sleep == if state == SLEEP then old(sleep).Started(s.time) else old(sleep)
      ensures o == Written(old(View()), s, output, distance)
    {
      match state {
        case GET_NEXT_CMD => o := output;
        case TRANSLATE => o := HandleTranslate(s, output);
        case UGV_DROP => o := HandleDrop(s, output);
        case LAND => o := output.(missionCommandedLand := true);
        case SLEEP => o := HandleSleep(s, output);
      }
    }

    method HandleTranslate(s: Sensors, output: Output) returns (o: Output)
      requires state == TRANSLATE == output.missionState
      ensures o == Written(View(), s, output, distance)
    {
      o := output.(sendSetpoint := true, setpoint := destination);
      var distanceFromDestination := distance(s.position, destination);
      if distanceFromDestination < ACCEPTANCE_RADIUS {
        o := o.(missionState := GET_NEXT_CMD);
      }
    }

    method HandleDrop(s: Sensors, output: Output) returns (o: Output)
      requires state == UGV_DROP == output.missionState
      ensures o == Written(View(), s, output, distance)
    {
      if s.doneDropping {
        o := output.(deploy := false);
        o := o.(missionState := GET_NEXT_CMD);
      } else {
        o := output.(deploy := true);
      }
    }

    method HandleSleep(s: Sensors, output: Output) returns (o: Output)
      requires state == SLEEP == output.missionState
      modifies this`sleep
      ensures sleep == old(sleep).Started(s.time)
      ensures o == Written(old(View()), s, output, distance)
    {
      o := output;
      if sleep.wasReset {
        sleep := Timer(s.time, false);
      }
      assert Finished(old(View()), s, distance) <==> s.time - sleep.start > sleepPeriod;
      if s.time - sleep.start > sleepPeriod {
        o := o.(missionState := GET_NEXT_CMD);
      }
    }

    method StateTransition(o: Output)
      modifies this`state, this`index, this`destination, this`sleep, this`sleepPeriod
      ensures View() == if o.missionState == GET_NEXT_CMD then Advanced(old(View())) else old(View())
    {
      var oldState, newState := state, o.missionState;
      if oldState == newState && newState != GET_NEXT_CMD { return; }
      if newState != GET_NEXT_CMD { return; }
      if |program| > index {
        var loaded := program[index];
        if loaded.TranslateCommand? {
          newState := TRANSLATE;
          destination := loaded.goal;
        } else if loaded.TriggerBombDropCommand? {
          newState := UGV_DROP;
        } else if loaded.LandCommand? {
          newState := LAND;
        } else if loaded.SleepCommand? {
          sleepPeriod := loaded.time;
          newState := SLEEP;
        }
        index := index + 1;
      } else {
        newState := GET_NEXT_CMD;
      }
      if newState != oldState {
        state := newState;
        if state == SLEEP { sleep := RESET_TIMER; }
      }
    }
  }

  // ---- program execution over whole runs ----

  /** The interpreter is reset by loads and stepped by iterations; it is not stepped while the pilot
      has control. */
  datatype Event = Load(program: DroneProgram) | Iterate(sensors: Sensors)

  function Apply(m: Machine, e: Event, distance: Distance): Machine {
    match e
    case Load(program) => WithMission(m, program)
    case Iterate(s) => Tick(m, s, distance)
  }

  function Run(m: Machine, events: seq<Event>, distance: Distance): Machine {
    if events == [] then m
    else Apply(Run(m, events[..|events| - 1], distance), events[|events| - 1], distance)
  }

  /** The commands taken up since the last load: one each time an iteration moves the index on. */
  function Loaded(m: Machine, events: seq<Event>, distance: Distance): seq<DroneCommand> {
    if events == [] then [] else
      var before := events[..|events| - 1];
      var was := Run(m, before, distance);
      match events[|events| - 1]
      case Load(_) => []
      case Iterate(s) =>
        if Tick(was, s, distance).index == was.index then Loaded(m, before, distance)
        else Loaded(m, before, distance) + if was.index < |was.program| then [was.program[was.index]] else []
  }

  /** A machine as constructed. */
  predicate Fresh(m: Machine) {
    m.state == GET_NEXT_CMD && m.program == [] && m.index == 0 && !m.newMissionReady
  }

  /** Whatever is being executed is the last command taken up, with its own goal or period. */
  predicate Executing(m: Machine) {
    m.index <= |m.program| && (m.newMissionReady ==> m.index == 0) &&
    (!m.newMissionReady && m.state != GET_NEXT_CMD ==>
       m.index > 0 && StateFor(m.program[m.index - 1]) == m.state &&
       (m.state == TRANSLATE ==> m.program[m.index - 1] == TranslateCommand(m.destination)) &&
       (m.state == SLEEP ==> m.program[m.index - 1] == SleepCommand(m.sleepPeriod)))
  }

  lemma TickExecutes(m: Machine, s: Sensors, distance: Distance)
    requires Executing(m)
    ensures var after := Tick(m, s, distance);
            Executing(after) && after.program == m.program &&
            (after.index == m.index || (after.index == m.index + 1 && m.index < |m.program|))
  {}

  /** In every run, the commands taken up since the last load are exactly a prefix of the program,
      in order and each once, and the machine executes the last of them. */
  lemma {:induction false} LoadedIsPrefix(m: Machine, events: seq<Event>, distance: Distance)
    requires Fresh(m)
    ensures var after := Run(m, events, distance);
            Executing(after) && Loaded(m, events, distance) == after.program[..after.index]
  {
    if events != [] {
      var before := events[..|events| - 1];
      LoadedIsPrefix(m, before, distance);
      var was := Run(m, before, distance);
      match events[|events| - 1]
      case Load(_) =>
      case Iterate(s) =>
        TickExecutes(was, s, distance);
        if was.index < |was.program| { PrefixNext(was.program, was.index); }
    }
  }

  lemma PrefixNext<T>(s: seq<T>, k: nat)
    requires k < |s|
    ensures s[..k + 1] == s[..k] + [s[k]]
  {}

  predicate OnlyIterations(events: seq<Event>) {
    forall e :: e in events ==> e.Iterate?
  }

  /** The next command is taken up exactly by an iteration that finishes the current one. */
  lemma AdvanceIffFinished(m: Machine, s: Sensors, distance: Distance)
    requires Executing(m)
    ensures var after := Tick(m, s, distance);
            after.program == m.program && m.index <= after.index <= m.index + 1 &&
            (after.index == m.index + 1 <==>
               m.index < |m.program| && Finished(Prepared(m, s), s, distance))
  {}

  /** Once landing, nothing further is taken up, whatever happens, until the next load. */
  lemma {:induction false} NothingFollowsLand(m: Machine, events: seq<Event>, distance: Distance)
    requires m.state == LAND && !m.newMissionReady && OnlyIterations(events)
    ensures var after := Run(m, events, distance);
            after.state == LAND && !after.newMissionReady && after.index == m.index && after.program == m.program
  {
    if events != [] {
      assert events[|events| - 1] in events;
      NothingFollowsLand(m, events[..|events| - 1], distance);
    }
  }

  /** A sleep entered from another state holds through every iteration within its period of the
      first one, and is over at the first iteration strictly beyond it. */
  lemma {:induction false} SleepLasts(m: Machine, events: seq<Event>, distance: Distance)
    requires Executing(m) && m.state == SLEEP && m.sleep == RESET_TIMER && !m.newMissionReady
    requires OnlyIterations(events) && events != []
    requires forall i :: 0 <= i < |events| - 1 ==>
               events[i].sensors.time - events[0].sensors.time <= m.sleepPeriod
    ensures var after := Run(m, events, distance);
            var last := events[|events| - 1].sensors;
            if last.time - events[0].sensors.time > m.sleepPeriod
            then after.index > m.index || after.state == GET_NEXT_CMD
            else after.index == m.index && after.state == SLEEP && after.sleepPeriod == m.sleepPeriod
    ensures var after := Run(m, events, distance);
            after.state == SLEEP ==> after.sleep == Timer(events[0].sensors.time, false)
  {
    var before, last := events[..|events| - 1], events[|events| - 1];
    assert last in events;
    if before == [] {
      assert Run(m, before, distance) == m;
    } else {
      SleepHolds(m, before, distance);
    }
  }

  lemma {:induction false} SleepHolds(m: Machine, events: seq<Event>, distance: Distance)
    requires Executing(m) && m.state == SLEEP && m.sleep == RESET_TIMER && !m.newMissionReady
    requires OnlyIterations(events) && events != []
    requires forall i :: 0 <= i < |events| ==>
               events[i].sensors.time - events[0].sensors.time <= m.sleepPeriod
    ensures var after := Run(m, events, distance);
            Executing(after) && after.state == SLEEP && !after.newMissionReady && after.index == m.index &&
            after.program == m.program && after.sleepPeriod == m.sleepPeriod &&
            after.sleep == Timer(events[0].sensors.time, false)
  {
    var before, last := events[..|events| - 1], events[|events| - 1];
    assert last in events;
    if before == [] {
      assert Run(m, before, distance) == m;
    } else {
      SleepHolds(m, before, distance);
    }
  }

  /** Back-to-back sleeps share the first one's start: the second is over at its very first iteration
      exactly if its own period has already run out since the first began. */
  lemma SecondSleepSharesStart(m: Machine, s: Sensors, t: Sensors, distance: Distance)
    requires Executing(m) && m.state == SLEEP && !m.newMissionReady && !m.sleep.wasReset
    requires m.index + 1 < |m.program| && m.program[m.index].SleepCommand?
    requires s.time - m.sleep.start > m.sleepPeriod
    ensures var second := Tick(m, s, distance);
            second.state == SLEEP && second.sleep == m.sleep && second.sleepPeriod == m.program[m.index].time &&
            (Tick(second, t, distance).index > second.index <==>
               t.time - m.sleep.start > m.program[m.index].time)
  {}

  /** A run from the start in which two sleeps of ten seconds take 10.2 seconds together. */
  lemma SecondSleepCanBeSkipped(m: Machine, s: Sensors, distance: Distance)
    requires Fresh(m)
    ensures var program := [SleepCommand(10.0), SleepCommand(10.0), LandCommand];
            var first := Tick(WithMission(m, program), s.(time := 0.0), distance);
            var begun := Tick(first, s.(time := 0.0), distance);
            var second := Tick(begun, s.(time := 10.1), distance);
            && first.state == SLEEP && first.index == 1 && begun.state == SLEEP && begun.index == 1
            && second.state == SLEEP && second.index == 2
            && Tick(second, s.(time := 10.2), distance).state == LAND
  {
    var loaded := WithMission(m, [SleepCommand(10.0), SleepCommand(10.0), LandCommand]);
    TakesUp(loaded, s.(time := 0.0), distance);
    var first := Tick(loaded, s.(time := 0.0), distance);
    SleepsOn(first, s.(time := 0.0), distance);
    var begun := Tick(first, s.(time := 0.0), distance);
    TakesUp(begun, s.(time := 10.1), distance);
    TakesUp(Tick(begun, s.(time := 10.1), distance), s.(time := 10.2), distance);
  }

  lemma RunAppend(m: Machine, events: seq<Event>, e: Event, distance: Distance)
    ensures Run(m, events + [e], distance) == Apply(Run(m, events, distance), e, distance)
  {
    assert (events + [e])[..|events|] == events;
  }

  /** An iteration that finishes a command and takes up the next. */
  lemma TakesUp(m: Machine, s: Sensors, distance: Distance)
    requires m.index < |m.program| && Finished(Prepared(m, s), s, distance)
    ensures var c, p, after := m.program[m.index], Prepared(m, s), Tick(m, s, distance);
            && after.program == m.program && after.index == m.index + 1 && after.state == StateFor(c)
            && !after.newMissionReady
            && (c.TranslateCommand? ==> after.destination == c.goal)
            && (c.SleepCommand? ==>
                  after.sleepPeriod == c.time &&
                  after.sleep == if p.state == SLEEP then p.sleep.Started(s.time) else RESET_TIMER)
  {}

  /** An iteration within a sleep's period. */
  lemma SleepsOn(m: Machine, s: Sensors, distance: Distance)
    requires m.state == SLEEP && !m.newMissionReady && s.time - m.sleep.Started(s.time).start <= m.sleepPeriod
    ensures var after := Tick(m, s, distance);
            && after.program == m.program && after.index == m.index && after.state == SLEEP
            && !after.newMissionReady && after.sleepPeriod == m.sleepPeriod && after.sleep == m.sleep.Started(s.time)
  {}

  /** The goal of the last translate of a program. */
  function LastGoal(p: DroneProgram): Option<Position> {
    if p == [] then None
    else if p[|p| - 1].TranslateCommand? then Some(p[|p| - 1].goal)
    else LastGoal(p[..|p| - 1])
  }

  /** The machine holds, or is about to send out, the goal of the last translate taken up. */
  predicate Headed(m: Machine) {
    m.index <= |m.program| && (m.index > 0 ==> m.setpointInitialized) &&
    var goal := LastGoal(m.program[..m.index]);
    goal.Some? ==> goal.value == if m.state == TRANSLATE then m.destination else m.setpoint
  }

  lemma TickHeaded(m: Machine, s: Sensors, distance: Distance)
    requires Executing(m) && Headed(m)
    ensures Headed(Tick(m, s, distance))
  {
    var after := Tick(m, s, distance);
    TickExecutes(m, s, distance);
    if after.index == m.index + 1 {
      assert m.program[..m.index + 1][..m.index] == m.program[..m.index];
    }
  }

  /** In every run the machine heads for the last translate taken up since the last load. */
  lemma {:induction false} AlwaysHeaded(m: Machine, events: seq<Event>, distance: Distance)
    requires Fresh(m)
    ensures Headed(Run(m, events, distance))
  {
    if events != [] {
      var before := events[..|events| - 1];
      AlwaysHeaded(m, before, distance);
      LoadedIsPrefix(m, before, distance);
      match events[|events| - 1]
      case Load(_) =>
      case Iterate(s) => TickHeaded(Run(m, before, distance), s, distance);
    }
  }

  /** Two ways, for each kind of command: when an iteration is its last. */
  lemma CommandEndsIff(m: Machine, s: Sensors, distance: Distance)
    requires Executing(m) && !m.newMissionReady && m.index < |m.program|
    ensures var left := Tick(m, s, distance).index > m.index;
            match m.state
            case TRANSLATE => left <==> distance(s.position, m.program[m.index - 1].goal) < 4.0
            case UGV_DROP => left <==> s.doneDropping
            case SLEEP =>
              left <==> (if m.sleep.wasReset then 0.0 else s.time - m.sleep.start) > m.program[m.index - 1].time
            case LAND => !left
            case GET_NEXT_CMD => left
  {}

  /** A drop being executed has the winch deploy at every iteration until dropping is done, and is then over;
      nothing else has. */
  lemma DropDeploysUntilDone(m: Machine, s: Sensors, o: Output, distance: Distance)
    requires Executing(m) && !o.deploy
    ensures Emitted(m, s, o, distance).deploy <==> m.state == UGV_DROP && !m.newMissionReady && !s.doneDropping
    ensures m.state == UGV_DROP && !m.newMissionReady ==>
              var after := Tick(m, s, distance);
              if s.doneDropping then after.index > m.index || after.state == GET_NEXT_CMD
              else after.state == UGV_DROP && after.index == m.index
  {}

  /** At some iteration since the last load the drone was within reach of the goal, which the machine was
      then heading for. */
  predicate Visited(m: Machine, events: seq<Event>, goal: Position, distance: Distance) {
    events != [] &&
    var before := events[..|events| - 1];
    match events[|events| - 1]
    case Load(_) => false
    case Iterate(s) =>
      Visited(m, before, goal, distance) || Reaching(Run(m, before, distance), s, goal, distance)
  }

  predicate Reaching(m: Machine, s: Sensors, goal: Position, distance: Distance) {
    !m.newMissionReady && m.state == TRANSLATE && m.destination == goal &&
    distance(s.position, goal) < ACCEPTANCE_RADIUS
  }

  lemma TickLeavesGoal(m: Machine, s: Sensors, distance: Distance)
    requires Executing(m)
    ensures var after := Tick(m, s, distance);
            after.index <= |after.program| &&
            var goal := LastGoal(after.program[..after.index]);
            goal.Some? && after.state != TRANSLATE ==>
              if m.state == TRANSLATE then Reaching(m, s, goal.value, distance)
              else LastGoal(m.program[..m.index]) == goal
  {
    var after := Tick(m, s, distance);
    TickExecutes(m, s, distance);
    if after.index == m.index + 1 {
      assert m.program[..m.index + 1][..m.index] == m.program[..m.index];
    }
  }

  /** In every run, a translate is left only after an iteration with the drone within reach of its goal. */
  lemma {:induction false} AlwaysVisited(m: Machine, events: seq<Event>, distance: Distance)
    requires Fresh(m)
    ensures var now := Run(m, events, distance);
            now.index <= |now.program| &&
            var goal := LastGoal(now.program[..now.index]);
            goal.Some? && now.state != TRANSLATE ==> Visited(m, events, goal.value, distance)
  {
    if events != [] {
      var before := events[..|events| - 1];
      AlwaysVisited(m, before, distance);
      LoadedIsPrefix(m, before, distance);
      match events[|events| - 1]
      case Load(_) =>
      case Iterate(s) => TickLeavesGoal(Run(m, before, distance), s, distance);
    }
  }

  /** The setpoint sent out is the goal of the last translate taken up, or where the drone was when
      the machine first ran. */
  lemma SetpointFollowsTranslate(m: Machine, s: Sensors, o: Output, distance: Distance)
    requires Executing(m)
    ensures var out := Emitted(m, s, o, distance);
            var p := Prepared(m, s);
            out.sendSetpoint && out.setpoint == Tick(m, s, distance).setpoint &&
            out.setpointYaw == Tick(m, s, distance).yaw == (if m.setpointInitialized then m.yaw else s.heading) &&
            (p.state == TRANSLATE ==> m.index > 0 && m.program[m.index - 1] == TranslateCommand(out.setpoint)) &&
            (p.state != TRANSLATE && m.setpointInitialized ==> out.setpoint == m.setpoint) &&
            (p.state != TRANSLATE && !m.setpointInitialized ==> out.setpoint == s.position)
  {}
}
