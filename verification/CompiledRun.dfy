/** Compiled ground programs on the drone's interpreter: what it does, where, and for how long. */
module CompiledRuns {
  import opened Wrappers
  import opened ControlMessages
  import opened MissionStates
  import opened MissionSleeps
  import opened Ground2Drone

  // ---- what is done, and where ----

  /** The place of the last translate is where the program leads. */
  lemma {:induction false} GoalIsReached(p: DroneProgram)
    ensures Reached(None, p) == if LastGoal(p).None? then None else Some(PlaceOf(LastGoal(p).value))
  {
    if p != [] { GoalIsReached(p[..|p| - 1]); }
  }

  lemma DeedsPrefix(at: Option<Place>, p: DroneProgram, k: nat)
    requires k <= |p|
    ensures Deeds(at, p[..k]) <= Deeds(at, p)
  {
    assert p == p[..k] + p[k..];
    DeedsAppend(at, p[..k], p[k..]);
  }

  /** A deed is being done. */
  predicate Busy(m: Machine) { m.state == SLEEP || m.state == UGV_DROP || m.state == LAND }

  /** Over every run of the interpreter: if all legs arrive, the commands taken up since a compiled program
      was loaded are its first ones in order, what they have the drone do is a beginning of what the ground
      program says, and is all of it once they are all taken up; and whatever is being done is the last of
      it, at the place whose setpoint the interpreter holds and within reach of which the drone has been while
      it headed there. */
  lemma CompiledProgramFlown(routes: Routes, p: seq<GroundCommand>, m: Machine, events: seq<Event>, distance: Distance)
    requires |p| <= |routes| && LegsArrive(routes, None, p) && Fresh(m)
    requires Run(m, events, distance).program == Compile(routes, None, p)
    ensures var now := Run(m, events, distance);
            now.index <= |now.program| &&
            var done := Deeds(None, now.program[..now.index]);
            && Loaded(m, events, distance) == now.program[..now.index]
            && done <= Meaning(None, p) && (now.index == |now.program| ==> done == Meaning(None, p))
            && (Busy(now) && !now.newMissionReady ==>
                  done != [] &&
                  (done[|done| - 1].at.Some? ==>
                     done[|done| - 1].at == Some(PlaceOf(now.setpoint)) && Visited(m, events, now.setpoint, distance)))
  {
    LoadedIsPrefix(m, events, distance);
    AlwaysHeaded(m, events, distance);
    AlwaysVisited(m, events, distance);
    var now := Run(m, events, distance);
    BegunInOrder(routes, p, now.index);
    if Busy(now) && !now.newMissionReady { BusyWithLast(now); }
  }

  lemma BegunInOrder(routes: Routes, p: seq<GroundCommand>, k: nat)
    requires |p| <= |routes| && LegsArrive(routes, None, p) && k <= |Compile(routes, None, p)|
    ensures var code := Compile(routes, None, p);
            Deeds(None, code[..k]) <= Meaning(None, p) && (k == |code| ==> Deeds(None, code[..k]) == Meaning(None, p))
  {
    var code := Compile(routes, None, p);
    CompilePreservesMeaning(routes, None, p);
    DeedsPrefix(None, code, k);
    assert code[..|code|] == code;
  }

  lemma BusyWithLast(now: Machine)
    requires Executing(now) && Headed(now) && Busy(now) && !now.newMissionReady
    ensures var done := Deeds(None, now.program[..now.index]);
            done != [] &&
            (done[|done| - 1].at.Some? ==>
               done[|done| - 1].at == Some(PlaceOf(now.setpoint)) &&
               LastGoal(now.program[..now.index]) == Some(now.setpoint))
  {
    var before, c := now.program[..now.index - 1], now.program[now.index - 1];
    assert now.program[..now.index] == before + [c];
    ThenDeed(None, before, c);
    GoalIsReached(now.program[..now.index]);
  }

  // ---- for how long: sleeps next to each other ----

  /** Two sleeps next to each other: the second does not get a clock of its own. */
  ghost predicate AdjacentSleeps(p: DroneProgram) { exists n :: SleepsAt(p, n) }

  predicate LastIsSleep(p: DroneProgram) { p != [] && p[|p| - 1].SleepCommand? }

  predicate FirstIsSleep(p: DroneProgram) { p != [] && p[0].SleepCommand? }

  lemma AdjacentAppend(p: DroneProgram, q: DroneProgram)
    ensures AdjacentSleeps(p + q) <==> AdjacentSleeps(p) || AdjacentSleeps(q) || (LastIsSleep(p) && FirstIsSleep(q))
  {
    if AdjacentSleeps(p) {
      var n :| SleepsAt(p, n);
      assert SleepsAt(p + q, n);
    }
    if AdjacentSleeps(q) {
      var n :| SleepsAt(q, n);
      assert SleepsAt(p + q, |p| + n);
    }
    if LastIsSleep(p) && FirstIsSleep(q) {
      assert SleepsAt(p + q, |p| - 1);
    }
    if AdjacentSleeps(p + q) {
      var n :| SleepsAt(p + q, n);
      if n + 1 < |p| {
        assert SleepsAt(p, n);
      } else if n >= |p| {
        assert SleepsAt(q, n - |p|);
      }
    }
  }

  /** Whether a ground command's code is empty, begins with a sleep, or ends with one. */
  predicate Silent(at: Option<Place>, c: GroundCommand) {
    match c
    case FlyThrough(goal) => at == Some(PlaceOf(goal))
    case Survey => true
    case OffAxis => true
    case UnsetGround => true
    case _ => false
  }

  predicate BeginsAsleep(at: Option<Place>, c: GroundCommand) {
    c.Wait? || ((c.Waypoint? || c.LandAtLocation?) && at == Some(PlaceOf(c.goal)))
  }

  predicate EndsAsleep(c: GroundCommand) { c.Wait? || c.Waypoint? }

  lemma GotoSleepless(route: seq<Place>, at: Option<Place>, goal: Position)
    ensures var go := GotoCode(route, at, goal);
            !AdjacentSleeps(go) && !LastIsSleep(go) && !FirstIsSleep(go) && (go == [] <==> at.Some? && route == [])
  {
    var go := GotoCode(route, at, goal);
    forall c | c in go
      ensures c.TranslateCommand?
    {
      TranslateAltitude(Route(route, at, goal), goal.altitude, c);
    }
    assert forall n :: 0 <= n < |go| ==> go[n] in go;
  }

  lemma CodeSleeps(route: seq<Place>, at: Option<Place>, c: GroundCommand)
    requires RouteFits(route, at, c)
    ensures var code := Code(route, at, c);
            && !AdjacentSleeps(code) && (code == [] <==> Silent(at, c))
            && (FirstIsSleep(code) <==> BeginsAsleep(at, c)) && (LastIsSleep(code) <==> EndsAsleep(c))
  {
    if Flies(c) {
      var goal := InMetres(c.goal);
      var go := GotoCode(route, at, goal);
      GotoSleepless(route, at, goal);
      AdjacentAppend(go, [SleepCommand(WAYPOINT_SLEEP)]);
      AdjacentAppend(go + [SleepCommand(WAYPOINT_SLEEP)], [LandCommand]);
      AdjacentAppend(go, [TriggerBombDropCommand]);
    }
  }

  /** The last command of p that emits any code ends with a sleep. */
  predicate Dozing(at: Option<Place>, p: seq<GroundCommand>) {
    p != [] &&
    var before, c := p[..|p| - 1], p[|p| - 1];
    if Silent(Ends(at, before), c) then Dozing(at, before) else EndsAsleep(c)
  }

  /** Command j begins with a sleep straight after one: it is a wait, or a waypoint or landing where the drone
      is already, and the last command before it that emits code is a wait or a waypoint. */
  predicate Merged(at: Option<Place>, p: seq<GroundCommand>, j: nat)
    requires j < |p|
  {
    Dozing(at, p[..j]) && BeginsAsleep(Ends(at, p[..j]), p[j])
  }

  lemma {:induction false} CompileEndsAsleep(routes: Routes, at: Option<Place>, p: seq<GroundCommand>)
    requires |p| <= |routes| && RoutesFit(routes, at, p)
    ensures LastIsSleep(Compile(routes, at, p)) <==> Dozing(at, p)
  {
    if p != [] {
      var n := |p| - 1;
      RoutesFitBefore(routes, at, p, n);
      CompileEndsAsleep(routes, at, p[..n]);
      assert RouteFits(routes[n], Ends(at, p[..n]), p[n]);
      CodeSleeps(routes[n], Ends(at, p[..n]), p[n]);
    }
  }

  lemma MergedBefore(at: Option<Place>, p: seq<GroundCommand>, j: nat)
    requires j + 1 < |p|
    ensures Merged(at, p[..|p| - 1], j) <==> Merged(at, p, j)
  {
    assert p[..|p| - 1][..j] == p[..j];
  }

  lemma AdjacentStep(routes: Routes, at: Option<Place>, p: seq<GroundCommand>)
    requires 0 < |p| <= |routes| && RoutesFit(routes, at, p)
    ensures AdjacentSleeps(Compile(routes, at, p)) <==>
              AdjacentSleeps(Compile(routes, at, p[..|p| - 1])) || Merged(at, p, |p| - 1)
  {
    var n := |p| - 1;
    RoutesFitBefore(routes, at, p, n);
    CompileEndsAsleep(routes, at, p[..n]);
    assert RouteFits(routes[n], Ends(at, p[..n]), p[n]);
    CodeSleeps(routes[n], Ends(at, p[..n]), p[n]);
    AdjacentAppend(Compile(routes, at, p[..n]), Code(routes[n], Ends(at, p[..n]), p[n]));
  }

  ghost predicate AnyMerged(at: Option<Place>, p: seq<GroundCommand>) {
    exists j :: 0 <= j < |p| && Merged(at, p, j)
  }

  lemma AnyMergedStep(at: Option<Place>, p: seq<GroundCommand>)
    requires p != []
    ensures AnyMerged(at, p) <==> AnyMerged(at, p[..|p| - 1]) || Merged(at, p, |p| - 1)
  {
    var before := p[..|p| - 1];
    if j :| 0 <= j < |p| - 1 && Merged(at, p, j) { MergedBefore(at, p, j); }
    if j :| 0 <= j < |before| && Merged(at, before, j) { MergedBefore(at, p, j); }
  }

  lemma {:induction false} MergedUpTo(routes: Routes, at: Option<Place>, p: seq<GroundCommand>, k: nat)
    requires k <= |p| <= |routes| && RoutesFit(routes, at, p)
    ensures AdjacentSleeps(Compile(routes, at, p[..k])) <==> AnyMerged(at, p[..k])
  {
    if k > 0 {
      MergedUpTo(routes, at, p, k - 1);
      AdjacentAt(routes, at, p, k);
      AnyMergedAt(at, p, k);
    }
  }

  lemma AdjacentAt(routes: Routes, at: Option<Place>, p: seq<GroundCommand>, k: nat)
    requires 0 < k <= |p| <= |routes| && RoutesFit(routes, at, p)
    ensures AdjacentSleeps(Compile(routes, at, p[..k])) <==>
              AdjacentSleeps(Compile(routes, at, p[..k - 1])) || Merged(at, p[..k], k - 1)
  {
    RoutesFitBefore(routes, at, p, k);
    assert p[..k][..k - 1] == p[..k - 1];
    AdjacentStep(routes, at, p[..k]);
  }

  lemma AnyMergedAt(at: Option<Place>, p: seq<GroundCommand>, k: nat)
    requires 0 < k <= |p|
    ensures AnyMerged(at, p[..k]) <==> AnyMerged(at, p[..k - 1]) || Merged(at, p[..k], k - 1)
  {
    assert p[..k][..k - 1] == p[..k - 1];
    AnyMergedStep(at, p[..k]);
  }

  /** Exactly when a compiled program has two sleeps next to each other, by the ground program alone. */
  lemma AdjacentSleepsIffMerged(routes: Routes, at: Option<Place>, p: seq<GroundCommand>)
    requires |p| <= |routes| && RoutesFit(routes, at, p)
    ensures AdjacentSleeps(Compile(routes, at, p)) <==> AnyMerged(at, p)
  {
    MergedUpTo(routes, at, p, |p|);
    assert p[..|p|] == p;
  }

  // ---- the same with landings ----

  ghost predicate SomeCanBeCut(p: DroneProgram) { exists n :: CanBeCut(p, n) }

  predicate Landless(p: DroneProgram) { NoLandBefore(p, |p|) }

  predicate FirstIsLongSleep(p: DroneProgram) { FirstIsSleep(p) && p[0].time >= 0.0 }

  lemma CutAppend(p: DroneProgram, q: DroneProgram)
    requires !AdjacentSleeps(q)
    ensures SomeCanBeCut(p + q) <==> SomeCanBeCut(p) || (Landless(p) && LastIsSleep(p) && FirstIsLongSleep(q))
  {
    if n :| CanBeCut(p, n) {
      assert CanBeCut(p + q, n);
    }
    if Landless(p) && LastIsSleep(p) && FirstIsLongSleep(q) {
      assert CanBeCut(p + q, |p| - 1);
    }
    if n :| CanBeCut(p + q, n) {
      assert forall k :: 0 <= k < |p| ==> p[k] == (p + q)[k];
      assert !SleepsAt(q, n - |p|);
      if n + 1 < |p| {
        assert CanBeCut(p, n);
      } else {
        assert Landless(p);
      }
    }
  }

  predicate NoLanding(p: seq<GroundCommand>) { forall c :: c in p ==> !c.LandAtLocation? }

  lemma CodeLands(route: seq<Place>, at: Option<Place>, c: GroundCommand)
    ensures Landless(Code(route, at, c)) <==> !c.LandAtLocation?
  {
    if Flies(c) {
      var goal := InMetres(c.goal);
      var go := GotoCode(route, at, goal);
      forall k | 0 <= k < |go|
        ensures go[k].TranslateCommand?
      {
        TranslateAltitude(Route(route, at, goal), goal.altitude, go[k]);
      }
      var code := Code(route, at, c);
      if c.LandAtLocation? { assert code[|code| - 1] == LandCommand; }
    }
  }

  lemma {:induction false} CompileLands(routes: Routes, at: Option<Place>, p: seq<GroundCommand>)
    requires |p| <= |routes|
    ensures Landless(Compile(routes, at, p)) <==> NoLanding(p)
  {
    if p != [] {
      var n := |p| - 1;
      CompileLands(routes, at, p[..n]);
      CodeLands(routes[n], Ends(at, p[..n]), p[n]);
      LandlessAppend(Compile(routes, at, p[..n]), Code(routes[n], Ends(at, p[..n]), p[n]));
      assert p == p[..n] + [p[n]];
    }
  }

  lemma LandlessAppend(p: DroneProgram, q: DroneProgram)
    ensures Landless(p + q) <==> Landless(p) && Landless(q)
  {
    if Landless(p + q) {
      assert forall k :: 0 <= k < |p| ==> p[k] == (p + q)[k];
      assert forall k :: 0 <= k < |q| ==> q[k] == (p + q)[|p| + k];
    }
  }

  /** Command j is merged into a sleep before it, is reached, and is no wait of negative length. */
  predicate Lost(at: Option<Place>, p: seq<GroundCommand>, j: nat)
    requires j < |p|
  {
    Merged(at, p, j) && NoLanding(p[..j]) && (p[j].Wait? ==> p[j].time >= 0.0)
  }

  lemma CodeFirstSleep(route: seq<Place>, at: Option<Place>, c: GroundCommand)
    requires RouteFits(route, at, c)
    ensures FirstIsLongSleep(Code(route, at, c)) <==> BeginsAsleep(at, c) && (c.Wait? ==> c.time >= 0.0)
  {
    CodeSleeps(route, at, c);
  }

  lemma CutStep(routes: Routes, at: Option<Place>, p: seq<GroundCommand>)
    requires 0 < |p| <= |routes| && RoutesFit(routes, at, p)
    ensures SomeCanBeCut(Compile(routes, at, p)) <==>
              SomeCanBeCut(Compile(routes, at, p[..|p| - 1])) || Lost(at, p, |p| - 1)
  {
    var n := |p| - 1;
    RoutesFitBefore(routes, at, p, n);
    CompileEndsAsleep(routes, at, p[..n]);
    CompileLands(routes, at, p[..n]);
    assert RouteFits(routes[n], Ends(at, p[..n]), p[n]);
    CodeSleeps(routes[n], Ends(at, p[..n]), p[n]);
    CodeFirstSleep(routes[n], Ends(at, p[..n]), p[n]);
    CutAppend(Compile(routes, at, p[..n]), Code(routes[n], Ends(at, p[..n]), p[n]));
  }

  lemma LostBefore(at: Option<Place>, p: seq<GroundCommand>, j: nat)
    requires j + 1 < |p|
    ensures Lost(at, p[..|p| - 1], j) <==> Lost(at, p, j)
  {
    assert p[..|p| - 1][..j] == p[..j];
  }

  ghost predicate AnyLost(at: Option<Place>, p: seq<GroundCommand>) {
    exists j :: 0 <= j < |p| && Lost(at, p, j)
  }

  lemma AnyLostStep(at: Option<Place>, p: seq<GroundCommand>)
    requires p != []
    ensures AnyLost(at, p) <==> AnyLost(at, p[..|p| - 1]) || Lost(at, p, |p| - 1)
  {
    var before := p[..|p| - 1];
    if j :| 0 <= j < |p| - 1 && Lost(at, p, j) { LostBefore(at, p, j); }
    if j :| 0 <= j < |before| && Lost(at, before, j) { LostBefore(at, p, j); }
  }

  lemma {:induction false} LostUpTo(routes: Routes, at: Option<Place>, p: seq<GroundCommand>, k: nat)
    requires k <= |p| <= |routes| && RoutesFit(routes, at, p)
    ensures SomeCanBeCut(Compile(routes, at, p[..k])) <==> AnyLost(at, p[..k])
  {
    if k > 0 {
      LostUpTo(routes, at, p, k - 1);
      CutAt(routes, at, p, k);
      AnyLostAt(at, p, k);
    }
  }

  lemma CutAt(routes: Routes, at: Option<Place>, p: seq<GroundCommand>, k: nat)
    requires 0 < k <= |p| <= |routes| && RoutesFit(routes, at, p)
    ensures SomeCanBeCut(Compile(routes, at, p[..k])) <==>
              SomeCanBeCut(Compile(routes, at, p[..k - 1])) || Lost(at, p[..k], k - 1)
  {
    RoutesFitBefore(routes, at, p, k);
    assert p[..k][..k - 1] == p[..k - 1];
    CutStep(routes, at, p[..k]);
  }

  lemma AnyLostAt(at: Option<Place>, p: seq<GroundCommand>, k: nat)
    requires 0 < k <= |p|
    ensures AnyLost(at, p[..k]) <==> AnyLost(at, p[..k - 1]) || Lost(at, p[..k], k - 1)
  {
    assert p[..k][..k - 1] == p[..k - 1];
    AnyLostStep(at, p[..k]);
  }

  lemma SomeCanBeCutIffLost(routes: Routes, at: Option<Place>, p: seq<GroundCommand>)
    requires |p| <= |routes| && RoutesFit(routes, at, p)
    ensures SomeCanBeCut(Compile(routes, at, p)) <==> AnyLost(at, p)
  {
    LostUpTo(routes, at, p, |p|);
    assert p[..|p|] == p;
  }

  /** Exactly the ground programs with such a command have a run, on a clock that never goes back, that cuts a
      sleep of the compiled program short. */
  lemma CompiledCutShortIff(routes: Routes, p: seq<GroundCommand>, m: Machine, s: Sensors, distance: Distance)
    requires |p| <= |routes| && RoutesFit(routes, None, p) && Fresh(m) && AtGoal(distance)
    ensures AnyLost(None, p) <==>
              exists before, s, held, last ::
                CutShort(m, Compile(routes, None, p), before, s, held, last, distance) &&
                NonDecreasing(Whole(before, s, held, last))
  {
    SomeCanBeCutIffLost(routes, None, p);
    CutShortIffAdjacent(m, Compile(routes, None, p), s, distance);
  }

  /** Without merged commands no run at all, whatever the clock does, cuts a sleep of a compiled program short. */
  lemma CompiledSleepsHeld(routes: Routes, p: seq<GroundCommand>, m: Machine, before: seq<Event>, s: Sensors,
                           held: seq<Event>, last: Sensors, distance: Distance)
    requires |p| <= |routes| && RoutesFit(routes, None, p) && Fresh(m)
    requires !AnyMerged(None, p)
    ensures !CutShort(m, Compile(routes, None, p), before, s, held, last, distance)
  {
    AdjacentSleepsIffMerged(routes, None, p);
    if CutShort(m, Compile(routes, None, p), before, s, held, last, distance) {
      OnlySecondCutShort(m, Compile(routes, None, p), before, s, held, last, distance);
    }
  }

  /** A program whose wait is lost: a waypoint, then a wait of five seconds. Both legs and all commands are
      in order, but the wait is taken up at 10.1 s and over at 10.2 s. */
  lemma WaitIsLost(routes: Routes, goal: Position, m: Machine, s: Sensors, distance: Distance)
    requires Fresh(m) && |routes| == 2 && distance(s.position, InMetres(goal)) < ACCEPTANCE_RADIUS
    ensures var p := [Waypoint(goal), Wait(5.0)];
            var loaded := WithMission(m, Compile(routes, None, p));
            var flying := Tick(loaded, s.(time := 0.0), distance);
            var there := Tick(flying, s.(time := 0.0), distance);
            var pausing := Tick(there, s.(time := 0.0), distance);
            var waiting := Tick(pausing, s.(time := 10.1), distance);
            var over := Tick(waiting, s.(time := 10.2), distance);
            && LegsArrive(routes, None, p) && Merged(None, p, 1)
            && waiting.state == SLEEP && waiting.sleepPeriod == 5.0 && pausing.index == 2 && waiting.index == 3
            && over.state == GET_NEXT_CMD
  {
    var p, there := [Waypoint(goal), Wait(5.0)], InMetres(goal);
    CompiledWait(routes, goal);
    var loaded := WithMission(m, Compile(routes, None, p));
    TakesUp(loaded, s.(time := 0.0), distance);
    var flying := Tick(loaded, s.(time := 0.0), distance);
    TakesUp(flying, s.(time := 0.0), distance);
    var at := Tick(flying, s.(time := 0.0), distance);
    SleepsOn(at, s.(time := 0.0), distance);
    var pausing := Tick(at, s.(time := 0.0), distance);
    TakesUp(pausing, s.(time := 10.1), distance);
    LastSleepOver(Tick(pausing, s.(time := 10.1), distance), s.(time := 10.2), distance);
  }

  lemma LastSleepOver(m: Machine, s: Sensors, distance: Distance)
    requires m.index == |m.program| && m.state == SLEEP && !m.newMissionReady
    requires s.time - m.sleep.Started(s.time).start > m.sleepPeriod
    ensures Tick(m, s, distance).state == GET_NEXT_CMD
  {}

  lemma CompiledWait(routes: Routes, goal: Position)
    requires |routes| == 2
    ensures var p := [Waypoint(goal), Wait(5.0)];
            && Compile(routes, None, p) ==
                 [TranslateCommand(InMetres(goal)), SleepCommand(WAYPOINT_SLEEP), SleepCommand(5.0)]
            && LegsArrive(routes, None, p) && Merged(None, p, 1)
  {
    var p := [Waypoint(goal), Wait(5.0)];
    var first := [Waypoint(goal)];
    assert p[..1] == first && first[..0] == [];
    assert Ends(None, first) == Some(PlaceOf(goal));
    var place := PlaceOf(InMetres(goal));
    assert [place][..0] == [];
    assert Translates([place], InMetres(goal).altitude) == [TranslateCommand(InMetres(goal))];
    assert Compile(routes, None, first) == Code(routes[0], None, Waypoint(goal));
    assert LegArrives(routes[0], None, Waypoint(goal)) && LegsArrive(routes, None, []);
    assert LegsArrive(routes, None, first);
    assert Dozing(None, first);
  }
}
