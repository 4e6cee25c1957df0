/** The compiler from ground programs to drone programs (ground2drone_visitor.cc). */
module Ground2Drone {
  import opened Wrappers
  import opened Geometry
  import opened ControlMessages
  import opened StartPushes
  import opened Obstacles
  import opened GridSpace
  import opened ObstacleCircles
  import opened RrtAvoidance

  datatype GroundCommand =
    | FlyThrough(goal: Position)
    | Waypoint(goal: Position)
    | UgvDrop(goal: Position)
    | Survey
    | OffAxis
    | Wait(time: real)
    | LandAtLocation(goal: Position)
    | UnsetGround

  datatype GroundProgram = GroundProgram(commands: seq<GroundCommand>, staticObstacles: seq<Obstacle>)

  const FEET_PER_METER := 3.28084
  const WAYPOINT_SLEEP := 10.0

  /** A latitude and a longitude. */
  type Place = Point

  function PlaceOf(p: Position): Place { Point(p.latitude, p.longitude) }

  function InMetres(goal: Position): Position { goal.(altitude := goal.altitude / FEET_PER_METER) }

  predicate Flies(c: GroundCommand) { c.FlyThrough? || c.Waypoint? || c.UgvDrop? || c.LandAtLocation? }

  // ---- the compiler as a function: the commands for each ground command and the new position ----

  /** The routes the planner returned, one for each ground command; it is asked only for commands that
      fly on from a known position. */
  type Routes = seq<seq<Place>>

  function Route(route: seq<Place>, at: Option<Place>, goal: Position): seq<Place> {
    if at.None? then [PlaceOf(goal)] else route
  }

  /** Translates through the given places at one altitude. */
  function Translates(route: seq<Place>, altitude: real): (r: DroneProgram)
    ensures |r| == |route|
  {
    if route == [] then [] else
      var last := route[|route| - 1];
      Translates(route[..|route| - 1], altitude) +
      [TranslateCommand(Position(last.x, last.y, altitude))]
  }

  function GotoCode(route: seq<Place>, at: Option<Place>, goal: Position): DroneProgram {
    Translates(Route(route, at, goal), goal.altitude)
  }

  function Code(route: seq<Place>, at: Option<Place>, c: GroundCommand): DroneProgram {
    match c
    case FlyThrough(goal) => GotoCode(route, at, InMetres(goal))
    case Waypoint(goal) => GotoCode(route, at, InMetres(goal)) + [SleepCommand(WAYPOINT_SLEEP)]
    case UgvDrop(goal) => GotoCode(route, at, InMetres(goal)) + [TriggerBombDropCommand]
    case Wait(time) => [SleepCommand(time)]
    case LandAtLocation(goal) =>
      GotoCode(route, at, InMetres(goal)) + [SleepCommand(WAYPOINT_SLEEP)] + [LandCommand]
    case _ => []
  }

  function Moved(at: Option<Place>, c: GroundCommand): Option<Place> {
    if Flies(c) then Some(PlaceOf(c.goal)) else at
  }

  /** Where the compiler believes the drone to be after a program. */
  function Ends(at: Option<Place>, p: seq<GroundCommand>): Option<Place> {
    if p == [] then at else Moved(Ends(at, p[..|p| - 1]), p[|p| - 1])
  }

  function Compile(routes: Routes, at: Option<Place>, p: seq<GroundCommand>): DroneProgram
    requires |p| <= |routes|
  {
    if p == [] then [] else
      var before := p[..|p| - 1];
      Compile(routes, at, before) + Code(routes[|p| - 1], Ends(at, before), p[|p| - 1])
  }

  /** The planner can be asked for the way of command c from at. */
  predicate LegPlannable(sqrt: Root, metres: real, obstacles: seq<Obstacle>, at: Option<Place>, c: GroundCommand) {
    Flies(c) && at.Some? ==> Plannable(sqrt, at.value, PlaceOf(c.goal), obstacles, metres)
  }

  predicate AllPlannable(sqrt: Root, metres: real, obstacles: seq<Obstacle>, at: Option<Place>, p: seq<GroundCommand>) {
    forall k :: 0 <= k < |p| ==> LegPlannable(sqrt, metres, obstacles, Ends(at, p[..k]), p[k])
  }

  /** The route of command c is one the planner returned, having found a way or not. */
  predicate LegRouted(sqrt: Root, metres: real, obstacles: seq<Obstacle>, at: Option<Place>, c: GroundCommand,
                      route: seq<Place>, found: bool) {
    Flies(c) && at.Some? ==> Routed(sqrt, at.value, PlaceOf(c.goal), obstacles, metres, route, found)
  }

  predicate AllRouted(sqrt: Root, metres: real, obstacles: seq<Obstacle>, at: Option<Place>, p: seq<GroundCommand>,
                      routes: Routes, founds: seq<bool>)
    requires |p| <= |routes| && |p| <= |founds|
  {
    forall k :: 0 <= k < |p| ==> LegRouted(sqrt, metres, obstacles, Ends(at, p[..k]), p[k], routes[k], founds[k])
  }

  /** And it keeps clear of the obstacles, if the search succeeded from free ends. */
  ghost predicate LegGuarded(sqrt: Root, metres: real, obstacles: seq<Obstacle>, at: Option<Place>, c: GroundCommand,
                             route: seq<Place>, found: bool) {
    Flies(c) && at.Some? ==> SafelyRouted(sqrt, at.value, PlaceOf(c.goal), obstacles, metres, route, found)
  }

  ghost predicate AllGuarded(sqrt: Root, metres: real, obstacles: seq<Obstacle>, at: Option<Place>,
                             p: seq<GroundCommand>, routes: Routes, founds: seq<bool>)
    requires |p| <= |routes| && |p| <= |founds|
  {
    forall k :: 0 <= k < |p| ==> LegGuarded(sqrt, metres, obstacles, Ends(at, p[..k]), p[k], routes[k], founds[k])
  }

  lemma {:induction false} CompileExtends(routes: Routes, more: Routes, at: Option<Place>, p: seq<GroundCommand>)
    requires |p| <= |routes| <= |more| && more[..|routes|] == routes
    ensures Compile(more, at, p) == Compile(routes, at, p)
  {
    if p != [] {
      CompileExtends(routes, more, at, p[..|p| - 1]);
      assert more[|p| - 1] == more[..|routes|][|p| - 1];
    }
  }

  /** Compiling one more command. */
  lemma CompileNext(sqrt: Root, metres: real, obstacles: seq<Obstacle>, at: Option<Place>, n: seq<GroundCommand>,
                    routes: Routes, founds: seq<bool>, route: seq<Place>, found: bool)
    requires |routes| == |founds| < |n|
    requires AllRouted(sqrt, metres, obstacles, at, n[..|routes|], routes, founds)
    requires AllGuarded(sqrt, metres, obstacles, at, n[..|routes|], routes, founds)
    requires LegRouted(sqrt, metres, obstacles, Ends(at, n[..|routes|]), n[|routes|], route, found)
    requires LegGuarded(sqrt, metres, obstacles, Ends(at, n[..|routes|]), n[|routes|], route, found)
    ensures var i := |routes|;
            && AllGuarded(sqrt, metres, obstacles, at, n[..i + 1], routes + [route], founds + [found])
            && AllRouted(sqrt, metres, obstacles, at, n[..i + 1], routes + [route], founds + [found])
            && Compile(routes + [route], at, n[..i + 1]) ==
                 Compile(routes, at, n[..i]) + Code(route, Ends(at, n[..i]), n[i])
            && Ends(at, n[..i + 1]) == Moved(Ends(at, n[..i]), n[i])
  {
    var i := |routes|;
    assert n[..i + 1][..i] == n[..i];
    CompileExtends(routes, routes + [route], at, n[..i]);
    forall k | 0 <= k <= i
      ensures LegRouted(sqrt, metres, obstacles, Ends(at, n[..i + 1][..k]), n[k],
                        (routes + [route])[k], (founds + [found])[k])
      ensures LegGuarded(sqrt, metres, obstacles, Ends(at, n[..i + 1][..k]), n[k],
                         (routes + [route])[k], (founds + [found])[k])
    {
      assert n[..i + 1][..k] == n[..k];
      if k < i {
        assert n[..i][..k] == n[..k] && n[..i][k] == n[k];
        assert LegRouted(sqrt, metres, obstacles, Ends(at, n[..i][..k]), n[..i][k], routes[k], founds[k]);
        assert LegGuarded(sqrt, metres, obstacles, Ends(at, n[..i][..k]), n[..i][k], routes[k], founds[k]);
      }
    }
  }

  class Ground2DroneVisitor {
    const rrtAvoidance: RRTAvoidance
    /** Metres in a degree. */
    const metres: real
    var obstacles: seq<Obstacle>
    var currentPosition: Option<Place>

    ghost predicate Valid()
      reads rrtAvoidance.birrt, rrtAvoidance.birrt.startTree, rrtAvoidance.birrt.goalTree
    {
      rrtAvoidance.Valid() && metres > 0.0
    }

    constructor (sqrt: Root, metres: real)
      requires IsRoot(sqrt) && metres > 0.0
      ensures Valid() && fresh(rrtAvoidance.birrt) && fresh(rrtAvoidance.birrt.startTree) &&
              fresh(rrtAvoidance.birrt.goalTree) && fresh(rrtAvoidance.stateSpace.obstacleGrid.obstacles)
      ensures rrtAvoidance.sqrt == sqrt && this.metres == metres && currentPosition == None
    {
      rrtAvoidance := new RRTAvoidance(sqrt);
      this.metres := metres;
      obstacles, currentPosition := [], None;
    }

    /** The routes are the planner's answers; founds tells which of its searches succeeded. */
    method Process(input: GroundProgram)
      returns (program: DroneProgram, ghost routes: Routes, ghost founds: seq<bool>)
      requires Valid()
      requires AllPlannable(rrtAvoidance.sqrt, metres, input.staticObstacles, None, input.commands)
      modifies this, rrtAvoidance.birrt, rrtAvoidance.birrt.startTree, rrtAvoidance.birrt.goalTree,
               rrtAvoidance.stateSpace.obstacleGrid.obstacles
      ensures Valid() && |routes| == |founds| == |input.commands|
      ensures AllRouted(rrtAvoidance.sqrt, metres, input.staticObstacles, None, input.commands, routes, founds)
      ensures AllGuarded(rrtAvoidance.sqrt, metres, input.staticObstacles, None, input.commands, routes, founds)
      ensures program == Compile(routes, None, input.commands) && currentPosition == Ends(None, input.commands)
    {
      obstacles := input.staticObstacles;
      currentPosition := None;
      program, routes, founds := VisitProgram(input.commands);
    }

    method VisitProgram(n: seq<GroundCommand>)
      returns (program: DroneProgram, ghost routes: Routes, ghost founds: seq<bool>)
      requires Valid() && AllPlannable(rrtAvoidance.sqrt, metres, obstacles, currentPosition, n)
      modifies this`currentPosition, rrtAvoidance.birrt, rrtAvoidance.birrt.startTree, rrtAvoidance.birrt.goalTree,
               rrtAvoidance.stateSpace.obstacleGrid.obstacles
      ensures Valid() && |routes| == |founds| == |n|
      ensures AllRouted(rrtAvoidance.sqrt, metres, obstacles, old(currentPosition), n, routes, founds)
      ensures AllGuarded(rrtAvoidance.sqrt, metres, obstacles, old(currentPosition), n, routes, founds)
      ensures program == Compile(routes, old(currentPosition), n)
      ensures currentPosition == Ends(old(currentPosition), n)
    {
      ghost var at := currentPosition;
      program, routes, founds := [], [], [];
      for i := 0 to |n|
        invariant Valid() && |routes| == |founds| == i
        invariant AllRouted(rrtAvoidance.sqrt, metres, obstacles, at, n[..i], routes, founds)
        invariant AllGuarded(rrtAvoidance.sqrt, metres, obstacles, at, n[..i], routes, founds)
        invariant program == Compile(routes, at, n[..i])
        invariant currentPosition == Ends(at, n[..i])
      {
        assert LegPlannable(rrtAvoidance.sqrt, metres, obstacles, Ends(at, n[..i]), n[i]);
        var command;
        ghost var route, found;
        command, route, found := VisitCommand(n[i]);
        CompileNext(rrtAvoidance.sqrt, metres, obstacles, at, n, routes, founds, route, found);
        program := program + command;
        routes, founds := routes + [route], founds + [found];
      }
      assert n[..|n|] == n;
    }

    method VisitCommand(n: GroundCommand) returns (program: DroneProgram, ghost route: seq<Place>, ghost found: bool)
      requires Valid() && LegPlannable(rrtAvoidance.sqrt, metres, obstacles, currentPosition, n)
      modifies this`currentPosition, rrtAvoidance.birrt, rrtAvoidance.birrt.startTree, rrtAvoidance.birrt.goalTree,
               rrtAvoidance.stateSpace.obstacleGrid.obstacles
      ensures Valid() && LegRouted(rrtAvoidance.sqrt, metres, obstacles, old(currentPosition), n, route, found)
      ensures LegGuarded(rrtAvoidance.sqrt, metres, obstacles, old(currentPosition), n, route, found)
      ensures program == Code(route, old(currentPosition), n)
      ensures currentPosition == Moved(old(currentPosition), n)
    {
      route, found := [], true;
      match n {
        case FlyThrough(goal) => program, route, found := VisitGoto(InMetres(goal));
        case Waypoint(goal) => program, route, found := VisitWaypoint(goal);
        case UgvDrop(goal) =>
          program, route, found := VisitGoto(InMetres(goal));
          program := program + [TriggerBombDropCommand];
        case Wait(time) => program := [SleepCommand(time)];
        case LandAtLocation(goal) =>
          program, route, found := VisitWaypoint(goal);
          program := program + [LandCommand];
        case _ => program := [];
      }
    }

    method VisitWaypoint(goal: Position) returns (program: DroneProgram, ghost route: seq<Place>, ghost found: bool)
      requires Valid() && LegPlannable(rrtAvoidance.sqrt, metres, obstacles, currentPosition, Waypoint(goal))
      modifies this`currentPosition, rrtAvoidance.birrt, rrtAvoidance.birrt.startTree, rrtAvoidance.birrt.goalTree,
               rrtAvoidance.stateSpace.obstacleGrid.obstacles
      ensures Valid()
      ensures LegRouted(rrtAvoidance.sqrt, metres, obstacles, old(currentPosition), Waypoint(goal), route, found)
      ensures LegGuarded(rrtAvoidance.sqrt, metres, obstacles, old(currentPosition), Waypoint(goal), route, found)
      ensures program == GotoCode(route, old(currentPosition), InMetres(goal)) + [SleepCommand(WAYPOINT_SLEEP)]
      ensures currentPosition == Some(PlaceOf(goal))
    {
      program, route, found := VisitGoto(InMetres(goal));
      program := program + [SleepCommand(WAYPOINT_SLEEP)];
    }

    method VisitGoto(goal: Position) returns (program: DroneProgram, ghost route: seq<Place>, ghost found: bool)
      requires Valid() && LegPlannable(rrtAvoidance.sqrt, metres, obstacles, currentPosition, FlyThrough(goal))
      modifies this`currentPosition, rrtAvoidance.birrt, rrtAvoidance.birrt.startTree, rrtAvoidance.birrt.goalTree,
               rrtAvoidance.stateSpace.obstacleGrid.obstacles
      ensures Valid()
      ensures LegRouted(rrtAvoidance.sqrt, metres, obstacles, old(currentPosition), FlyThrough(goal), route, found)
      ensures LegGuarded(rrtAvoidance.sqrt, metres, obstacles, old(currentPosition), FlyThrough(goal), route, found)
      ensures program == GotoCode(route, old(currentPosition), goal)
      ensures currentPosition == Some(PlaceOf(goal))
    {
      var end := PlaceOf(goal);
      var avoidancePath := [];
      found := true;
      if currentPosition.None? {
        avoidancePath := [end];
      } else {
        ghost var ax, ay;
        avoidancePath, found, ax, ay := rrtAvoidance.Process(currentPosition.value, end, obstacles, metres);
      }
      route := avoidancePath;
      program := [];
      for i := 0 to |avoidancePath|
        invariant program == Translates(avoidancePath[..i], goal.altitude)
      {
        var step := avoidancePath[i];
        assert avoidancePath[..i + 1][..i] == avoidancePath[..i];
        program := program + [TranslateCommand(Position(step.x, step.y, goal.altitude))];
      }
      assert avoidancePath[..|avoidancePath|] == avoidancePath;
      currentPosition := Some(end);
    }
  }

  // ---- what programs mean ----

  /** What the drone does besides flying, and where. */
  datatype Deed = Pause(at: Option<Place>, time: real) | Drop(at: Option<Place>) | Touchdown(at: Option<Place>)

  /** Where a drone program takes a drone. */
  function Reached(at: Option<Place>, p: DroneProgram): Option<Place> {
    if p == [] then at else
      match p[|p| - 1]
      case TranslateCommand(goal) => Some(PlaceOf(goal))
      case _ => Reached(at, p[..|p| - 1])
  }

  function DeedOf(at: Option<Place>, c: DroneCommand): seq<Deed> {
    match c
    case SleepCommand(time) => [Pause(at, time)]
    case TriggerBombDropCommand => [Drop(at)]
    case LandCommand => [Touchdown(at)]
    case _ => []
  }

  function Deeds(at: Option<Place>, p: DroneProgram): seq<Deed> {
    if p == [] then [] else
      var before := p[..|p| - 1];
      Deeds(at, before) + DeedOf(Reached(at, before), p[|p| - 1])
  }

  /** What a ground command is for, at the place it names. */
  function Intended(at: Option<Place>, c: GroundCommand): seq<Deed> {
    match c
    case Waypoint(goal) => [Pause(Some(PlaceOf(goal)), WAYPOINT_SLEEP)]
    case UgvDrop(goal) => [Drop(Some(PlaceOf(goal)))]
    case Wait(time) => [Pause(at, time)]
    case LandAtLocation(goal) =>
      [Pause(Some(PlaceOf(goal)), WAYPOINT_SLEEP), Touchdown(Some(PlaceOf(goal)))]
    case _ => []
  }

  function Meaning(at: Option<Place>, p: seq<GroundCommand>): seq<Deed> {
    if p == [] then [] else
      var before := p[..|p| - 1];
      Meaning(at, before) + Intended(Ends(at, before), p[|p| - 1])
  }

  lemma ThenDeed(at: Option<Place>, p: DroneProgram, c: DroneCommand)
    ensures Reached(at, p + [c]) == if c.TranslateCommand? then Some(PlaceOf(c.goal)) else Reached(at, p)
    ensures Deeds(at, p + [c]) == Deeds(at, p) + DeedOf(Reached(at, p), c)
  {
    assert (p + [c])[..|p|] == p;
  }

  lemma {:induction false} ReachedAppend(at: Option<Place>, p: DroneProgram, q: DroneProgram)
    ensures Reached(at, p + q) == Reached(Reached(at, p), q)
  {
    if q == [] {
      assert p + q == p;
    } else {
      assert (p + q)[..|p + q| - 1] == p + q[..|q| - 1];
      ReachedAppend(at, p, q[..|q| - 1]);
    }
  }

  lemma {:induction false} DeedsAppend(at: Option<Place>, p: DroneProgram, q: DroneProgram)
    ensures Deeds(at, p + q) == Deeds(at, p) + Deeds(Reached(at, p), q)
  {
    if q == [] {
      assert p + q == p;
    } else {
      var front, c := q[..|q| - 1], q[|q| - 1];
      assert (p + q)[..|p + q| - 1] == p + front && (p + q)[|p + q| - 1] == c;
      DeedsAppend(at, p, front);
      ReachedAppend(at, p, front);
      Regrouped(Deeds(at, p), Deeds(Reached(at, p), front), DeedOf(Reached(at, p + front), c));
    }
  }

  lemma Regrouped<T>(a: seq<T>, b: seq<T>, c: seq<T>)
    ensures (a + b) + c == a + (b + c)
  {}

  /** The translates of a route go through its points, one by one, at the altitude given. */
  lemma {:induction false} TranslateAt(route: seq<Place>, altitude: real, k: nat)
    requires k < |route|
    ensures Translates(route, altitude)[k] == TranslateCommand(Position(route[k].x, route[k].y, altitude))
  {
    if k < |route| - 1 { TranslateAt(route[..|route| - 1], altitude, k); }
  }

  lemma {:induction false} TranslatesMean(at: Option<Place>, route: seq<Place>, altitude: real)
    ensures Deeds(at, Translates(route, altitude)) == []
    ensures Reached(at, Translates(route, altitude)) == if route == [] then at else Some(route[|route| - 1])
  {
    if route != [] {
      var front := Translates(route[..|route| - 1], altitude);
      assert Translates(route, altitude)[..|route| - 1] == front;
      TranslatesMean(at, route[..|route| - 1], altitude);
    }
  }

  lemma GotoReaches(route: seq<Place>, at: Option<Place>, goal: Position)
    ensures Deeds(at, GotoCode(route, at, goal)) == []
    ensures Reached(at, GotoCode(route, at, goal)) ==
            if at.None? then Some(PlaceOf(goal)) else Some(EndOf(at.value, route))
  {
    TranslatesMean(at, Route(route, at, goal), goal.altitude);
  }

  /** Where the code of one command leads, whatever its route. */
  lemma CodeReaches(route: seq<Place>, at: Option<Place>, c: GroundCommand)
    ensures Reached(at, Code(route, at, c)) ==
            if !Flies(c) then at else if at.None? then Some(PlaceOf(c.goal)) else Some(EndOf(at.value, route))
  {
    if Flies(c) {
      var go := GotoCode(route, at, InMetres(c.goal));
      GotoReaches(route, at, InMetres(c.goal));
      match c
      case Waypoint(_) => ThenDeed(at, go, SleepCommand(WAYPOINT_SLEEP));
      case UgvDrop(_) => ThenDeed(at, go, TriggerBombDropCommand);
      case LandAtLocation(_) =>
        ThenDeed(at, go, SleepCommand(WAYPOINT_SLEEP));
        ThenDeed(at, go + [SleepCommand(WAYPOINT_SLEEP)], LandCommand);
      case _ =>
    } else if c.Wait? {
      WaitMeans(at, c.time);
    }
  }

  lemma WaitMeans(at: Option<Place>, time: real)
    ensures Deeds(at, [SleepCommand(time)]) == [Pause(at, time)] && Reached(at, [SleepCommand(time)]) == at
  {
    ThenDeed(at, [], SleepCommand(time));
    assert [] + [SleepCommand(time)] == [SleepCommand(time)];
  }

  lemma CodeMeans(route: seq<Place>, at: Option<Place>, c: GroundCommand)
    requires LegArrives(route, at, c)
    ensures Deeds(at, Code(route, at, c)) == Intended(at, c)
  {
    match c
    case FlyThrough(goal) => GotoReaches(route, at, InMetres(goal));
    case Waypoint(goal) => WaypointMeans(route, at, goal);
    case UgvDrop(goal) => DropMeans(route, at, goal);
    case LandAtLocation(goal) => LandMeans(route, at, InMetres(goal));
    case Wait(time) => WaitMeans(at, time);
    case _ =>
  }

  lemma WaypointMeans(route: seq<Place>, at: Option<Place>, goal: Position)
    requires at.Some? ==> EndOf(at.value, route) == PlaceOf(goal)
    ensures Deeds(at, Code(route, at, Waypoint(goal))) == [Pause(Some(PlaceOf(goal)), WAYPOINT_SLEEP)]
  {
    StopMeans(route, at, InMetres(goal), SleepCommand(WAYPOINT_SLEEP));
  }

  lemma DropMeans(route: seq<Place>, at: Option<Place>, goal: Position)
    requires at.Some? ==> EndOf(at.value, route) == PlaceOf(goal)
    ensures Deeds(at, Code(route, at, UgvDrop(goal))) == [Drop(Some(PlaceOf(goal)))]
  {
    StopMeans(route, at, InMetres(goal), TriggerBombDropCommand);
  }

  lemma StopMeans(route: seq<Place>, at: Option<Place>, goal: Position, c: DroneCommand)
    requires (at.Some? ==> EndOf(at.value, route) == PlaceOf(goal)) && !c.TranslateCommand?
    ensures var code := GotoCode(route, at, goal) + [c];
            Deeds(at, code) == DeedOf(Some(PlaceOf(goal)), c) && Reached(at, code) == Some(PlaceOf(goal))
  {
    GotoReaches(route, at, goal);
    ThenDeed(at, GotoCode(route, at, goal), c);
  }

  lemma LandMeans(route: seq<Place>, at: Option<Place>, goal: Position)
    requires at.Some? ==> EndOf(at.value, route) == PlaceOf(goal)
    ensures Deeds(at, GotoCode(route, at, goal) + [SleepCommand(WAYPOINT_SLEEP)] + [LandCommand]) ==
            [Pause(Some(PlaceOf(goal)), WAYPOINT_SLEEP), Touchdown(Some(PlaceOf(goal)))]
  {
    StopMeans(route, at, goal, SleepCommand(WAYPOINT_SLEEP));
    ThenDeed(at, GotoCode(route, at, goal) + [SleepCommand(WAYPOINT_SLEEP)], LandCommand);
  }

  // ---- when a compiled program does what it should ----

  function EndOf(from: Place, route: seq<Place>): Place {
    if route == [] then from else route[|route| - 1]
  }

  /** The route of command c ends at its goal, or has no points because the drone is there already. */
  predicate LegArrives(route: seq<Place>, at: Option<Place>, c: GroundCommand) {
    Flies(c) && at.Some? ==> EndOf(at.value, route) == PlaceOf(c.goal)
  }

  predicate LegsArrive(routes: Routes, at: Option<Place>, p: seq<GroundCommand>)
    requires |p| <= |routes|
  {
    p == [] ||
    (LegsArrive(routes, at, p[..|p| - 1]) &&
     LegArrives(routes[|p| - 1], Ends(at, p[..|p| - 1]), p[|p| - 1]))
  }

  /** Compiling preserves meaning: if the program's own legs arrive, the commands pause, drop and land
      exactly as the ground program says and at the places it names, and end where it ends. */
  lemma {:induction false} CompilePreservesMeaning(routes: Routes, at: Option<Place>, p: seq<GroundCommand>)
    requires |p| <= |routes| && LegsArrive(routes, at, p)
    ensures Deeds(at, Compile(routes, at, p)) == Meaning(at, p)
    ensures Reached(at, Compile(routes, at, p)) == Ends(at, p)
  {
    if p != [] {
      var before, c, route := p[..|p| - 1], p[|p| - 1], routes[|p| - 1];
      CompilePreservesMeaning(routes, at, before);
      CodeMeans(route, Ends(at, before), c);
      CodeReaches(route, Ends(at, before), c);
      DeedsAppend(at, Compile(routes, at, before), Code(route, Ends(at, before), c));
      ReachedAppend(at, Compile(routes, at, before), Code(route, Ends(at, before), c));
    }
  }

  /** Flying the code of the first k commands ends at the k-th command's stop. */
  predicate StopReached(routes: Routes, at: Option<Place>, p: seq<GroundCommand>, k: nat)
    requires k <= |p| <= |routes|
  {
    Reached(at, Compile(routes, at, p[..k])) == Ends(at, p[..k])
  }

  predicate LegArrivesAt(routes: Routes, at: Option<Place>, p: seq<GroundCommand>, k: nat)
    requires k < |p| <= |routes|
  {
    LegArrives(routes[k], Ends(at, p[..k]), p[k])
  }

  lemma {:induction false} LegsArriveEach(routes: Routes, at: Option<Place>, p: seq<GroundCommand>)
    requires |p| <= |routes|
    ensures LegsArrive(routes, at, p) <==> forall k :: 0 <= k < |p| ==> LegArrivesAt(routes, at, p, k)
  {
    if p != [] {
      var n := |p| - 1;
      LegsArriveEach(routes, at, p[..n]);
      forall k | 0 <= k < n
        ensures LegArrivesAt(routes, at, p[..n], k) <==> LegArrivesAt(routes, at, p, k)
      {
        assert p[..n][..k] == p[..k];
      }
      assert LegArrivesAt(routes, at, p, n) <==> LegArrives(routes[n], Ends(at, p[..n]), p[n]);
    }
  }

  lemma NextStopReached(routes: Routes, at: Option<Place>, p: seq<GroundCommand>, k: nat)
    requires k < |p| <= |routes| && StopReached(routes, at, p, k)
    ensures StopReached(routes, at, p, k + 1) <==> LegArrivesAt(routes, at, p, k)
  {
    var before, after := p[..k], p[..k + 1];
    assert after[..k] == before && after[k] == p[k];
    ReachedAppend(at, Compile(routes, at, before), Code(routes[k], Ends(at, before), p[k]));
    CodeReaches(routes[k], Ends(at, before), p[k]);
  }

  lemma {:induction false} StopReachedAfter(routes: Routes, at: Option<Place>, p: seq<GroundCommand>, k: nat)
    requires k <= |p| <= |routes| && forall j :: 0 <= j < k ==> LegArrivesAt(routes, at, p, j)
    ensures StopReached(routes, at, p, k)
  {
    if k > 0 {
      StopReachedAfter(routes, at, p, k - 1);
      NextStopReached(routes, at, p, k - 1);
    }
  }

  /** A program makes every one of its stops exactly if every one of its legs arrives. */
  lemma StopsReachedIffLegsArrive(routes: Routes, at: Option<Place>, p: seq<GroundCommand>)
    requires |p| <= |routes|
    ensures LegsArrive(routes, at, p) <==> forall k :: 0 <= k <= |p| ==> StopReached(routes, at, p, k)
  {
    LegsArriveEach(routes, at, p);
    if LegsArrive(routes, at, p) {
      forall k | 0 <= k <= |p|
        ensures StopReached(routes, at, p, k)
      {
        StopReachedAfter(routes, at, p, k);
      }
    }
    if forall k :: 0 <= k <= |p| ==> StopReached(routes, at, p, k) {
      forall k | 0 <= k < |p|
        ensures LegArrivesAt(routes, at, p, k)
      {
        NextStopReached(routes, at, p, k);
      }
    }
  }

  /** With the planner's routes, a leg arrives exactly if its search succeeded or there was no way to go. */
  lemma LegArrivesIffFound(sqrt: Root, metres: real, obstacles: seq<Obstacle>, at: Option<Place>, c: GroundCommand,
                           route: seq<Place>, found: bool)
    requires LegPlannable(sqrt, metres, obstacles, at, c) && LegRouted(sqrt, metres, obstacles, at, c, route, found)
    ensures LegArrives(route, at, c) <==> found || !Flies(c) || at.None? || at.value == PlaceOf(c.goal)
  {}

  predicate LegFound(at: Option<Place>, c: GroundCommand, found: bool) {
    found || !Flies(c) || at.None? || at.value == PlaceOf(c.goal)
  }

  /** So a program compiled with the planner makes all its stops exactly if every search it needed
      succeeded. */
  lemma LegsArriveIffFound(sqrt: Root, metres: real, obstacles: seq<Obstacle>, at: Option<Place>,
                           p: seq<GroundCommand>, routes: Routes, founds: seq<bool>)
    requires |p| <= |routes| && |p| <= |founds| && AllPlannable(sqrt, metres, obstacles, at, p)
    requires AllRouted(sqrt, metres, obstacles, at, p, routes, founds)
    ensures LegsArrive(routes, at, p) <==> forall k :: 0 <= k < |p| ==> LegFound(Ends(at, p[..k]), p[k], founds[k])
  {
    LegsArriveEach(routes, at, p);
    forall k | 0 <= k < |p|
      ensures LegArrivesAt(routes, at, p, k) <==> LegFound(Ends(at, p[..k]), p[k], founds[k])
    {
      LegArrivesIffFound(sqrt, metres, obstacles, Ends(at, p[..k]), p[k], routes[k], founds[k]);
    }
  }

  /** The stops are made in order: the code of the first k ground commands is a prefix of the program,
      and flying it ends at the stop of the k-th. */
  lemma StopsInOrder(routes: Routes, at: Option<Place>, p: seq<GroundCommand>, k: nat)
    requires k <= |p| <= |routes| && LegsArrive(routes, at, p)
    ensures Compile(routes, at, p[..k]) <= Compile(routes, at, p)
    ensures Reached(at, Compile(routes, at, p[..k])) == Ends(at, p[..k])
    ensures k > 0 && Flies(p[k - 1]) ==> Reached(at, Compile(routes, at, p[..k])) == Some(PlaceOf(p[k - 1].goal))
  {
    StopsReachedIffLegsArrive(routes, at, p);
    assert StopReached(routes, at, p, k);
    CompilePrefix(routes, at, p, k);
  }

  lemma {:induction false} CompilePrefix(routes: Routes, at: Option<Place>, p: seq<GroundCommand>, k: nat)
    requires k <= |p| <= |routes|
    ensures Compile(routes, at, p[..k]) <= Compile(routes, at, p)
  {
    if k == |p| {
      assert p[..k] == p;
    } else {
      CompilePrefix(routes, at, p[..|p| - 1], k);
      assert p[..|p| - 1][..k] == p[..k];
    }
  }

  // ---- the way the drone is sent ----

  /** A leg's code starts with one translate to each point of its route, in order, at the goal's altitude in
      metres, and has no others. */
  lemma LegCode(route: seq<Place>, at: Place, c: GroundCommand, k: nat)
    requires Flies(c) && k < |Code(route, Some(at), c)|
    ensures |route| <= |Code(route, Some(at), c)|
    ensures var d := Code(route, Some(at), c)[k];
            if k < |route|
            then d == TranslateCommand(Position(route[k].x, route[k].y, c.goal.altitude / FEET_PER_METER))
            else !d.TranslateCommand?
  {
    if k < |route| { TranslateAt(route, InMetres(c.goal).altitude, k); }
  }

  /** The code of command k stands in the program right behind that of the commands before it. */
  lemma CodeInProgram(routes: Routes, at: Option<Place>, p: seq<GroundCommand>, k: nat)
    requires k < |p| <= |routes|
    ensures var base, code := |Compile(routes, at, p[..k])|, Code(routes[k], Ends(at, p[..k]), p[k]);
            base + |code| <= |Compile(routes, at, p)| && Compile(routes, at, p)[base..base + |code|] == code
  {
    CompilePrefix(routes, at, p, k + 1);
    CompileNextCode(routes, at, p, k);
    InPrefix(Compile(routes, at, p), Compile(routes, at, p[..k]), Code(routes[k], Ends(at, p[..k]), p[k]));
  }

  lemma CompileNextCode(routes: Routes, at: Option<Place>, p: seq<GroundCommand>, k: nat)
    requires k < |p| <= |routes|
    ensures Compile(routes, at, p[..k + 1]) == Compile(routes, at, p[..k]) + Code(routes[k], Ends(at, p[..k]), p[k])
  {
    assert p[..k + 1][..k] == p[..k];
  }

  lemma InPrefix<T>(whole: seq<T>, a: seq<T>, b: seq<T>)
    requires a + b <= whole
    ensures |a| + |b| <= |whole| && whole[|a|..|a| + |b|] == b
  {
    assert whole[..|a + b|] == a + b;
    assert whole[|a|..|a| + |b|] == whole[..|a + b|][|a|..];
  }

  /** Where the i-th translate of the k-th command's leg sends the drone. */
  function Stop(routes: Routes, at: Option<Place>, p: seq<GroundCommand>, k: nat, i: nat): Option<Place>
    requires k < |p| <= |routes|
  {
    var n := |Compile(routes, at, p[..k])| + i;
    if n < |Compile(routes, at, p)| && Compile(routes, at, p)[n].TranslateCommand?
    then Some(PlaceOf(Compile(routes, at, p)[n].goal)) else None
  }

  lemma StopIsRoutePoint(routes: Routes, at: Option<Place>, p: seq<GroundCommand>, k: nat, i: nat)
    requires k < |p| <= |routes| && Flies(p[k]) && Ends(at, p[..k]).Some? && i < |routes[k]|
    ensures Stop(routes, at, p, k, i) == Some(routes[k][i])
  {
    var here := Ends(at, p[..k]);
    CodeInProgram(routes, at, p, k);
    LegStarts(routes[k], here.value, p[k]);
    LegCode(routes[k], here.value, p[k], i);
    AtOffset(Compile(routes, at, p), |Compile(routes, at, p[..k])|, Code(routes[k], here, p[k]), i);
  }

  lemma LegStarts(route: seq<Place>, at: Place, c: GroundCommand)
    requires Flies(c)
    ensures |route| <= |Code(route, Some(at), c)|
  {}

  lemma AtOffset<T>(whole: seq<T>, base: nat, part: seq<T>, i: nat)
    requires base + |part| <= |whole| && whole[base..base + |part|] == part && i < |part|
    ensures whole[base + i] == part[i]
  {
    assert whole[base..base + |part|][i] == whole[base + i];
  }

  ghost predicate BetweenClear(ax: Axis, ay: Axis, p: Place, q: Place, obstacles: seq<Obstacle>) {
    forall k :: 0 <= k < |obstacles| ==> SegmentClear(ax, ay, p, q, obstacles[k])
  }

  /** From its i-th translate to the next, the k-th command's leg stays on free squares and clear of the
      obstacles. */
  ghost predicate StepSafe(routes: Routes, at: Option<Place>, p: seq<GroundCommand>, k: nat, i: nat,
                           g: Grid, ax: Axis, ay: Axis, obstacles: seq<Obstacle>)
    requires k < |p| <= |routes| && g.Valid()
  {
    var from, to := Stop(routes, at, p, k, i), Stop(routes, at, p, k, i + 1);
    from.Some? && to.Some? && FreeBetween(g, ax, ay, from.value, to.value) &&
    BetweenClear(ax, ay, from.value, to.value, obstacles)
  }

  ghost predicate LegSafe(routes: Routes, at: Option<Place>, p: seq<GroundCommand>, k: nat,
                          g: Grid, ax: Axis, ay: Axis, obstacles: seq<Obstacle>)
    requires k < |p| <= |routes| && g.Valid()
  {
    forall i :: 0 <= i < |routes[k]| - 1 ==> StepSafe(routes, at, p, k, i, g, ax, ay, obstacles)
  }

  /** The compiled program flies each leg safely: if the leg's search succeeded from free ends, then between the
      places of any two consecutive translates of it every point is on a free square, and clear of the
      obstacles, on the grid it was planned on. */
  lemma CompiledLegSafe(sqrt: Root, metres: real, obstacles: seq<Obstacle>, at: Option<Place>, p: seq<GroundCommand>,
                        routes: Routes, founds: seq<bool>, k: nat)
    returns (g: Grid, ax: Axis, ay: Axis)
    requires k < |p| <= |routes| && |p| <= |founds| && AllGuarded(sqrt, metres, obstacles, at, p, routes, founds)
    requires Flies(p[k]) && Ends(at, p[..k]).Some? && Ends(at, p[..k]).value != PlaceOf(p[k].goal)
    ensures g.Valid() && PushedOut(sqrt, Ends(at, p[..k]).value, obstacles, metres).Some?
    ensures Fits(ax, ay, PushedOut(sqrt, Ends(at, p[..k]).value, obstacles, metres).value, PlaceOf(p[k].goal), metres)
    ensures Drawn(sqrt, g, Circles(ax, ay, obstacles))
    ensures founds[k] && IsFree(g, Point(2.0, 2.0)) && IsFree(g, ToGrid(ax, ay, PlaceOf(p[k].goal))) ==>
              LegSafe(routes, at, p, k, g, ax, ay, obstacles)
  {
    var start, end := Ends(at, p[..k]).value, PlaceOf(p[k].goal);
    assert LegGuarded(sqrt, metres, obstacles, Ends(at, p[..k]), p[k], routes[k], founds[k]);
    g, ax, ay :| GuardedBy(g, ax, ay, sqrt, start, end, obstacles, metres, routes[k], founds[k]);
    if SafePath(g, ax, ay, routes[k]) && KeepsClear(ax, ay, routes[k], obstacles) {
      RouteSafe(routes, at, p, k, g, ax, ay, obstacles);
    }
  }

  lemma RouteSafe(routes: Routes, at: Option<Place>, p: seq<GroundCommand>, k: nat, g: Grid, ax: Axis, ay: Axis,
                  obstacles: seq<Obstacle>)
    requires k < |p| <= |routes| && Flies(p[k]) && Ends(at, p[..k]).Some? && g.Valid()
    requires SafePath(g, ax, ay, routes[k]) && KeepsClear(ax, ay, routes[k], obstacles)
    ensures LegSafe(routes, at, p, k, g, ax, ay, obstacles)
  {
    forall i | 0 <= i < |routes[k]| - 1
      ensures StepSafe(routes, at, p, k, i, g, ax, ay, obstacles)
    {
      StopIsRoutePoint(routes, at, p, k, i);
      StopIsRoutePoint(routes, at, p, k, i + 1);
      assert FreeBetween(g, ax, ay, routes[k][i], routes[k][i + 1]);
      forall o | 0 <= o < |obstacles|
        ensures SegmentClear(ax, ay, routes[k][i], routes[k][i + 1], obstacles[o])
      {}
    }
  }

  // ---- altitudes ----

  /** Each translate of a ground command's code carries that command's altitude in metres. */
  lemma {:induction false} TranslateAltitude(route: seq<Place>, altitude: real, c: DroneCommand)
    requires c in Translates(route, altitude)
    ensures c.TranslateCommand? && c.goal.altitude == altitude && PlaceOf(c.goal) in route
  {
    var front, last := route[..|route| - 1], route[|route| - 1];
    if c in Translates(front, altitude) {
      TranslateAltitude(front, altitude, c);
    }
  }

  lemma CodeAltitude(route: seq<Place>, at: Option<Place>, c: GroundCommand, d: DroneCommand)
    requires d in Code(route, at, c) && d.TranslateCommand?
    ensures Flies(c)
    ensures d.goal.altitude == c.goal.altitude / FEET_PER_METER
  {
    if Flies(c) {
      var goal := InMetres(c.goal);
      assert d in GotoCode(route, at, goal);
      TranslateAltitude(Route(route, at, goal), goal.altitude, d);
    }
  }

  /** So every translate of a compiled program stems from a ground command, whose altitude over
      3.28084 it carries. */
  lemma {:induction false} CompileAltitude(routes: Routes, at: Option<Place>, p: seq<GroundCommand>, d: DroneCommand)
    returns (k: nat)
    requires |p| <= |routes| && d in Compile(routes, at, p) && d.TranslateCommand?
    ensures k < |p| && d in Code(routes[k], Ends(at, p[..k]), p[k])
    ensures Flies(p[k])
    ensures d.goal.altitude == p[k].goal.altitude / FEET_PER_METER
  {
    var before := p[..|p| - 1];
    if d in Compile(routes, at, before) {
      k := CompileAltitude(routes, at, before, d);
      assert before[..k] == p[..k];
    } else {
      k := |p| - 1;
      CodeAltitude(routes[k], Ends(at, before), p[k], d);
    }
  }

  /** The altitude of the last translate of a program. */
  function LastAltitude(p: DroneProgram): Option<real> {
    if p == [] then None
    else if p[|p| - 1].TranslateCommand? then Some(p[|p| - 1].goal.altitude)
    else LastAltitude(p[..|p| - 1])
  }

  lemma {:induction false} LastAltitudeAppend(p: DroneProgram, q: DroneProgram)
    ensures LastAltitude(p + q) == if LastAltitude(q).Some? then LastAltitude(q) else LastAltitude(p)
  {
    if q == [] {
      assert p + q == p;
    } else {
      assert (p + q)[..|p + q| - 1] == p + q[..|q| - 1];
      LastAltitudeAppend(p, q[..|q| - 1]);
    }
  }

  lemma CodeLastAltitude(route: seq<Place>, at: Option<Place>, c: GroundCommand)
    requires Flies(c)
    ensures LastAltitude(Code(route, at, c)) ==
            if at.Some? && route == [] then None else Some(c.goal.altitude / FEET_PER_METER)
  {
    var goal := InMetres(c.goal);
    var go := GotoCode(route, at, goal);
    assert LastAltitude(go) == if at.Some? && route == [] then None else Some(goal.altitude);
    LastAltitudeAppend(go, [SleepCommand(WAYPOINT_SLEEP)]);
    LastAltitudeAppend(go + [SleepCommand(WAYPOINT_SLEEP)], [LandCommand]);
    LastAltitudeAppend(go, [TriggerBombDropCommand]);
  }

  /** A route is empty exactly if the drone is there already. */
  predicate RouteFits(route: seq<Place>, at: Option<Place>, c: GroundCommand) {
    Flies(c) && at.Some? ==> (route == [] <==> at.value == PlaceOf(c.goal))
  }

  predicate RoutesFit(routes: Routes, at: Option<Place>, p: seq<GroundCommand>)
    requires |p| <= |routes|
  {
    forall k :: 0 <= k < |p| ==> RouteFits(routes[k], Ends(at, p[..k]), p[k])
  }

  /** The planner's routes fit. */
  lemma RoutedFit(sqrt: Root, metres: real, obstacles: seq<Obstacle>, at: Option<Place>,
                  p: seq<GroundCommand>, routes: Routes, founds: seq<bool>)
    requires |p| <= |routes| && |p| <= |founds| && AllRouted(sqrt, metres, obstacles, at, p, routes, founds)
    ensures RoutesFit(routes, at, p)
  {
    forall k | 0 <= k < |p|
      ensures RouteFits(routes[k], Ends(at, p[..k]), p[k])
    {
      assert LegRouted(sqrt, metres, obstacles, Ends(at, p[..k]), p[k], routes[k], founds[k]);
    }
  }

  lemma RoutesFitBefore(routes: Routes, at: Option<Place>, p: seq<GroundCommand>, k: nat)
    requires k <= |p| <= |routes| && RoutesFit(routes, at, p)
    ensures RoutesFit(routes, at, p[..k])
  {
    forall j | 0 <= j < k
      ensures RouteFits(routes[j], Ends(at, p[..k][..j]), p[..k][j])
    {
      assert p[..k][..j] == p[..j];
    }
  }

  /** The altitude in metres of the last command that flies on to another place. */
  function Commanded(at: Option<Place>, p: seq<GroundCommand>): Option<real> {
    if p == [] then None else
      var before, c := p[..|p| - 1], p[|p| - 1];
      if Flies(c) && Ends(at, before) != Some(PlaceOf(c.goal)) then Some(c.goal.altitude / FEET_PER_METER)
      else Commanded(at, before)
  }

  lemma {:induction false} LastAltitudeIsCommanded(routes: Routes, at: Option<Place>, p: seq<GroundCommand>)
    requires |p| <= |routes| && RoutesFit(routes, at, p)
    ensures LastAltitude(Compile(routes, at, p)) == Commanded(at, p)
  {
    if p != [] {
      var n := |p| - 1;
      RoutesFitBefore(routes, at, p, n);
      LastAltitudeIsCommanded(routes, at, p[..n]);
      assert RouteFits(routes[n], Ends(at, p[..n]), p[n]);
      LastAltitudeAppend(Compile(routes, at, p[..n]), Code(routes[n], Ends(at, p[..n]), p[n]));
      if Flies(p[n]) { CodeLastAltitude(routes[n], Ends(at, p[..n]), p[n]); }
    }
  }

  /** The altitude of a stop is the last one commanded exactly if the stop is the first, lies elsewhere than
      the one before it, or has the altitude of the last command that flew on: without a way to fly there is
      no translate to carry an altitude. */
  lemma AltitudeCommandedIff(routes: Routes, at: Option<Place>, p: seq<GroundCommand>, k: nat)
    requires k < |p| <= |routes| && Flies(p[k]) && RoutesFit(routes, at, p)
    ensures var wanted := p[k].goal.altitude / FEET_PER_METER;
            LastAltitude(Compile(routes, at, p[..k + 1])) == Some(wanted) <==>
              Ends(at, p[..k]) != Some(PlaceOf(p[k].goal)) || Commanded(at, p[..k]) == Some(wanted)
  {
    RoutesFitBefore(routes, at, p, k + 1);
    LastAltitudeIsCommanded(routes, at, p[..k + 1]);
    assert p[..k + 1][..k] == p[..k];
  }

  /** A goal straight above or below the previous one adds nothing to the program: the change of altitude
      is lost. */
  lemma VerticalMoveIsLost(sqrt: Root, metres: real, obstacles: seq<Obstacle>, routes: Routes, founds: seq<bool>,
                           from: Position, goal: Position)
    requires PlaceOf(from) == PlaceOf(goal) && |routes| == |founds| == 2
    requires AllRouted(sqrt, metres, obstacles, None, [FlyThrough(from), FlyThrough(goal)], routes, founds)
    ensures Compile(routes, None, [FlyThrough(from), FlyThrough(goal)]) == Compile(routes, None, [FlyThrough(from)])
  {
    var p := [FlyThrough(from), FlyThrough(goal)];
    assert p[..1] == [FlyThrough(from)];
    assert [FlyThrough(from)][..0] == [];
    assert Ends(None, p[..1]) == Some(PlaceOf(from));
    assert LegRouted(sqrt, metres, obstacles, Ends(None, p[..1]), p[1], routes[1], founds[1]);
  }
}
