/** How long the interpreter's sleeps last over whole runs (mission_state_machine.cc). */
module MissionSleeps {
  import opened ControlMessages
  import opened MissionStates

  /** An iteration takes up a sleep command that does not follow another sleep. */
  predicate TakesUpSleep(m: Machine, s: Sensors, distance: Distance) {
    m.index < |m.program| && m.program[m.index].SleepCommand? && Finished(Prepared(m, s), s, distance) &&
    (m.index == 0 || !m.program[m.index - 1].SleepCommand?)
  }

  lemma SleepEntered(m: Machine, s: Sensors, distance: Distance)
    requires Executing(m) && TakesUpSleep(m, s, distance)
    ensures var after := Tick(m, s, distance);
            Executing(after) && after.state == SLEEP && after.sleep == RESET_TIMER && !after.newMissionReady &&
            after.index == m.index + 1 && after.sleepPeriod == m.program[m.index].time
  {
    TakesUp(m, s, distance);
    TickExecutes(m, s, distance);
  }

  /** Since the sleep taken up in since, the machine has gone on or is asleep with the given clock. */
  predicate AsleepOrOn(since: Machine, now: Machine, clock: Timer) {
    Executing(now) && !now.newMissionReady && now.index >= since.index &&
    (now.state == SLEEP && now.index == since.index ==>
       now.program == since.program && now.sleepPeriod == since.sleepPeriod && now.sleep == clock)
  }

  lemma AsleepStep(since: Machine, m: Machine, s: Sensors, clock: Timer, distance: Distance)
    requires AsleepOrOn(since, m, clock)
    ensures AsleepOrOn(since, Tick(m, s, distance), clock.Started(s.time))
    ensures m.state == SLEEP && m.index == since.index &&
            !(Tick(m, s, distance).state == SLEEP && Tick(m, s, distance).index == since.index) ==>
              s.time - clock.Started(s.time).start > since.sleepPeriod
  {}

  /** The sleep's clock runs from the first iteration after it was taken up. */
  lemma {:induction false} AsleepSince(since: Machine, held: seq<Event>, distance: Distance)
    requires AsleepOrOn(since, since, RESET_TIMER) && OnlyIterations(held)
    ensures AsleepOrOn(since, Run(since, held, distance),
                       if held == [] then RESET_TIMER else Timer(held[0].sensors.time, false))
  {
    if held != [] {
      var before, last := held[..|held| - 1], held[|held| - 1];
      assert last in held;
      AsleepSince(since, before, distance);
      var clock := if before == [] then RESET_TIMER else Timer(held[0].sensors.time, false);
      AsleepStep(since, Run(since, before, distance), last.sensors, clock, distance);
    }
  }

  /** Over every run: a sleep whose command does not follow another sleep lasts strictly longer than its own
      period. The run is before, then the iteration s that takes the sleep up, the iterations held during
      which it lasts, and the iteration last that ends it; its time counts from the first one after s. */
  lemma SleepHeldBeyondPeriod(m: Machine, before: seq<Event>, s: Sensors, held: seq<Event>, last: Sensors,
                              distance: Distance)
    requires Fresh(m) && OnlyIterations(held) && TakesUpSleep(Run(m, before, distance), s, distance)
    requires var since := Tick(Run(m, before, distance), s, distance);
             var now := Run(since, held, distance);
             var over := Tick(now, last, distance);
             now.state == SLEEP && now.index == since.index && !(over.state == SLEEP && over.index == since.index)
    ensures var was := Run(m, before, distance);
            last.time - (if held == [] then last else held[0].sensors).time > was.program[was.index].time
  {
    LoadedIsPrefix(m, before, distance);
    var was := Run(m, before, distance);
    var since := Tick(was, s, distance);
    SleepEntered(was, s, distance);
    AsleepSince(since, held, distance);
    var clock := if held == [] then RESET_TIMER else Timer(held[0].sensors.time, false);
    AsleepStep(since, Run(since, held, distance), last, clock, distance);
  }

  // ---- when a sleep is cut short ----

  /** Commands n and n + 1 are both sleeps. */
  predicate SleepsAt(p: DroneProgram, n: int) {
    0 <= n && n + 1 < |p| && p[n].SleepCommand? && p[n + 1].SleepCommand?
  }

  predicate NoLandBefore(p: DroneProgram, n: int)
    requires n <= |p|
  {
    forall j :: 0 <= j < n ==> !p[j].LandCommand?
  }

  /** No landing is left behind, nor waited out. */
  predicate BeforeLand(m: Machine) {
    m.index <= |m.program| && NoLandBefore(m.program, m.index - 1) &&
    (m.index > 0 && m.state == GET_NEXT_CMD ==> !m.program[m.index - 1].LandCommand?)
  }

  lemma TickStaysBeforeLand(m: Machine, s: Sensors, distance: Distance)
    requires Executing(m) && BeforeLand(m)
    ensures BeforeLand(Tick(m, s, distance))
  {
    AdvanceIffFinished(m, s, distance);
    TickExecutes(m, s, distance);
  }

  /** In every run the commands left behind include no landing. */
  lemma {:induction false} LandsNotPassed(m: Machine, events: seq<Event>, distance: Distance)
    requires Fresh(m)
    ensures BeforeLand(Run(m, events, distance))
  {
    if events != [] {
      var before := events[..|events| - 1];
      LandsNotPassed(m, before, distance);
      LoadedIsPrefix(m, before, distance);
      match events[|events| - 1]
      case Load(_) =>
      case Iterate(s) => TickStaysBeforeLand(Run(m, before, distance), s, distance);
    }
  }

  lemma {:induction false} RunConcat(m: Machine, a: seq<Event>, b: seq<Event>, distance: Distance)
    ensures Run(m, a + b, distance) == Run(Run(m, a, distance), b, distance)
  {
    if b == [] {
      assert a + b == a;
    } else {
      var front, e := b[..|b| - 1], b[|b| - 1];
      assert a + b == (a + front) + [e] && b == front + [e];
      RunConcat(m, a, front, distance);
      RunAppend(m, a + front, e, distance);
      RunAppend(Run(m, a, distance), front, e, distance);
    }
  }

  lemma RunOne(m: Machine, s: Sensors, distance: Distance)
    ensures Run(m, [Iterate(s)], distance) == Tick(m, s, distance)
  {
    RunAppend(m, [], Iterate(s), distance);
    assert [] + [Iterate(s)] == [Iterate(s)];
  }

  /** The machine is at its k-th command, and the mission is not about to be replaced. */
  predicate AtCommand(m: Machine, p: DroneProgram, k: nat) {
    k <= |p| && Executing(m) && m.program == p && m.index == k && !m.newMissionReady &&
    (k > 0 ==> m.state == StateFor(p[k - 1]))
  }

  ghost predicate AtGoal(distance: Distance) {
    forall p: Position :: distance(p, p) < ACCEPTANCE_RADIUS
  }

  /** A sensor clock never goes back. */
  predicate NonDecreasing(events: seq<Event>) {
    forall i, j :: 0 <= i < j < |events| && events[i].Iterate? && events[j].Iterate? ==>
      events[i].sensors.time <= events[j].sensors.time
  }

  /** Iterations only, by a clock that runs from lo to hi at most. */
  predicate Steady(events: seq<Event>, lo: real, hi: real) {
    lo <= hi && NonDecreasing(events) &&
    forall i :: 0 <= i < |events| ==> events[i].Iterate? && lo <= events[i].sensors.time <= hi
  }

  lemma SteadyConcat(a: seq<Event>, b: seq<Event>, lo: real, mid: real, hi: real)
    requires Steady(a, lo, mid) && Steady(b, mid, hi)
    ensures Steady(a + b, lo, hi)
  {}

  /** Sensors by which the current command can be finished at time t, or when a running sleep is over. */
  function Finishing(m: Machine, s: Sensors, t: real): Sensors {
    var over := m.sleep.start + m.sleepPeriod + 1.0;
    s.(position := m.destination, doneDropping := true,
       time := if m.state == SLEEP && !m.sleep.wasReset && over > t then over else t)
  }

  /** Drops get done, sleeps run out, and a drone can be where it is sent: from time t on every command but a
      landing can be finished, by iteration f after the iterations pre. */
  lemma CanFinish(m: Machine, p: DroneProgram, k: nat, s: Sensors, t: real, distance: Distance)
    returns (pre: seq<Event>, f: Sensors)
    requires AtCommand(m, p, k) && 0 < k < |p| && !p[k - 1].LandCommand? && AtGoal(distance)
    ensures Steady(pre, t, f.time) && AtCommand(Run(m, pre, distance), p, k)
    ensures Finished(Prepared(Run(m, pre, distance), f), f, distance)
  {
    if m.state == SLEEP && m.sleep.wasReset && m.sleepPeriod >= 0.0 {
      var now := s.(time := t);
      SleepsOn(m, now, distance);
      TickExecutes(m, now, distance);
      pre, f := [Iterate(now)], s.(time := t + m.sleepPeriod + 1.0);
      RunOne(m, now, distance);
    } else {
      assert distance(m.destination, m.destination) < ACCEPTANCE_RADIUS;
      pre, f := [], Finishing(m, s, t);
    }
  }

  /** Every command with no landing before it is reached in some run, by a clock that starts at t. */
  lemma {:induction false} CanReach(m: Machine, p: DroneProgram, k: nat, s: Sensors, t: real, distance: Distance)
    returns (events: seq<Event>, now: real)
    requires Fresh(m) && 0 < k <= |p| && NoLandBefore(p, k - 1) && AtGoal(distance)
    ensures Steady(events, t, now) && AtCommand(Run(WithMission(m, p), events, distance), p, k)
  {
    var loaded := WithMission(m, p);
    if k == 1 {
      var first := s.(time := t);
      events, now := [Iterate(first)], t;
      RunOne(loaded, first, distance);
      TakesUp(loaded, first, distance);
      TickExecutes(loaded, first, distance);
    } else {
      var first, mid := CanReach(m, p, k - 1, s, t, distance);
      var pre, f := CanFinish(Run(loaded, first, distance), p, k - 1, s, mid, distance);
      RunConcat(loaded, first, pre, distance);
      SteadyConcat(first, pre, t, mid, f.time);
      NextReached(loaded, p, k - 1, first + pre, f, distance);
      SteadyConcat(first + pre, [Iterate(f)], t, f.time, f.time);
      events, now := first + pre + [Iterate(f)], f.time;
    }
  }

  lemma NextReached(m: Machine, p: DroneProgram, k: nat, events: seq<Event>, f: Sensors, distance: Distance)
    requires k < |p| && AtCommand(Run(m, events, distance), p, k)
    requires Finished(Prepared(Run(m, events, distance), f), f, distance)
    ensures AtCommand(Run(m, events + [Iterate(f)], distance), p, k + 1)
  {
    RunAppend(m, events, Iterate(f), distance);
    TakesUp(Run(m, events, distance), f, distance);
    TickExecutes(Run(m, events, distance), f, distance);
  }

  /** The run before, s, held, last takes up a sleep of program p by iteration s and ends it by iteration
      last within its own period. */
  predicate CutShort(m: Machine, p: DroneProgram, before: seq<Event>, s: Sensors, held: seq<Event>, last: Sensors,
                     distance: Distance) {
    var was := Run(m, before, distance);
    was.program == p && was.index < |p| && p[was.index].SleepCommand? && Finished(Prepared(was, s), s, distance) &&
    OnlyIterations(held) &&
    var since := Tick(was, s, distance);
    var now := Run(since, held, distance);
    var over := Tick(now, last, distance);
    now.state == SLEEP && now.index == since.index && !(over.state == SLEEP && over.index == since.index) &&
    last.time - (if held == [] then last else held[0].sensors).time <= p[was.index].time
  }

  lemma NotHeld(m: Machine, p: DroneProgram, before: seq<Event>, s: Sensors, held: seq<Event>, last: Sensors,
                distance: Distance)
    requires Fresh(m) && CutShort(m, p, before, s, held, last, distance)
    ensures !TakesUpSleep(Run(m, before, distance), s, distance)
  {
    if TakesUpSleep(Run(m, before, distance), s, distance) {
      SleepHeldBeyondPeriod(m, before, s, held, last, distance);
    }
  }

  /** Only the second of two sleeps in a row can be cut short, and only with no landing before them. */
  lemma OnlySecondCutShort(m: Machine, p: DroneProgram, before: seq<Event>, s: Sensors, held: seq<Event>,
                           last: Sensors, distance: Distance)
    requires Fresh(m) && CutShort(m, p, before, s, held, last, distance)
    ensures var n := Run(m, before, distance).index - 1; SleepsAt(p, n) && NoLandBefore(p, n)
  {
    LandsNotPassed(m, before, distance);
    NotHeld(m, p, before, s, held, last, distance);
  }

  /** The whole run of a CutShort. */
  function Whole(before: seq<Event>, s: Sensors, held: seq<Event>, last: Sensors): seq<Event> {
    before + [Iterate(s)] + held + [Iterate(last)]
  }

  /** Commands n and n + 1 are sleeps that are reached, the second with a period a clock can stay within. */
  predicate CanBeCut(p: DroneProgram, n: int) {
    SleepsAt(p, n) && NoLandBefore(p, n) && p[n + 1].time >= 0.0
  }

  /** Some run, on a clock that never goes back, cuts a sleep of the program short, exactly if the program has
      two sleeps in a row with no landing before them. */
  lemma CutShortIffAdjacent(m: Machine, p: DroneProgram, s: Sensors, distance: Distance)
    requires Fresh(m) && AtGoal(distance)
    ensures (exists n :: CanBeCut(p, n)) <==>
              exists before, s, held, last ::
                CutShort(m, p, before, s, held, last, distance) && NonDecreasing(Whole(before, s, held, last))
  {
    if n :| CanBeCut(p, n) {
      var before, f, last := CutSecondShort(m, p, n, s, distance);
    }
    if before, s, held, last :|
      CutShort(m, p, before, s, held, last, distance) && NonDecreasing(Whole(before, s, held, last))
    {
      OnlySecondCutShort(m, p, before, s, held, last, distance);
      PeriodNotNegative(before, s, held, last);
      assert CanBeCut(p, Run(m, before, distance).index - 1);
    }
  }

  lemma PeriodNotNegative(before: seq<Event>, s: Sensors, held: seq<Event>, last: Sensors)
    requires OnlyIterations(held) && NonDecreasing(Whole(before, s, held, last))
    ensures last.time - (if held == [] then last else held[0].sensors).time >= 0.0
  {
    var whole := Whole(before, s, held, last);
    if held != [] {
      assert held[0] in held;
      assert whole[|before| + 1] == held[0] && whole[|whole| - 1] == Iterate(last);
    }
  }

  lemma CutSecondShort(m: Machine, p: DroneProgram, n: nat, s: Sensors, distance: Distance)
    returns (before: seq<Event>, f: Sensors, last: Sensors)
    requires Fresh(m) && AtGoal(distance) && CanBeCut(p, n)
    ensures CutShort(m, p, before, f, [], last, distance) && NonDecreasing(Whole(before, f, [], last))
  {
    var loaded := WithMission(m, p);
    var events, now := CanReach(m, p, n + 1, s, 0.0, distance);
    var pre;
    pre, f := CanFinish(Run(loaded, events, distance), p, n + 1, s, now, distance);
    RunConcat(loaded, events, pre, distance);
    SteadyConcat(events, pre, 0.0, now, f.time);
    FromLoad(m, p, events + pre, distance);
    before := [Load(p)] + (events + pre);
    last := CutAtOnce(m, p, n, before, f, distance);
    SteadyConcat([Iterate(f)], [Iterate(last)], f.time, f.time, last.time);
    SteadyConcat(events + pre, [Iterate(f)] + [Iterate(last)], 0.0, f.time, last.time);
    LoadKeepsClock(p, events + pre, f, last);
  }

  lemma LoadKeepsClock(p: DroneProgram, events: seq<Event>, f: Sensors, last: Sensors)
    requires NonDecreasing(events + ([Iterate(f)] + [Iterate(last)]))
    ensures NonDecreasing(Whole([Load(p)] + events, f, [], last))
  {
    var rest := events + ([Iterate(f)] + [Iterate(last)]);
    assert Whole([Load(p)] + events, f, [], last) == [Load(p)] + rest;
  }

  /** The second sleep's first iteration ends it, if the clock of both has run beyond its period by then. */
  lemma CutAtOnce(m: Machine, p: DroneProgram, n: nat, before: seq<Event>, f: Sensors, distance: Distance)
    returns (last: Sensors)
    requires CanBeCut(p, n)
    requires AtCommand(Run(m, before, distance), p, n + 1)
    requires Finished(Prepared(Run(m, before, distance), f), f, distance)
    ensures CutShort(m, p, before, f, [], last, distance) && last.time >= f.time
  {
    var was := Run(m, before, distance);
    TakesUp(was, f, distance);
    TickExecutes(was, f, distance);
    var over := was.sleep.Started(f.time).start + p[n + 1].time + 1.0;
    last := f.(time := if over > f.time then over else f.time);
    SleepEnds(Tick(was, f, distance), last, distance);
  }

  lemma SleepEnds(m: Machine, s: Sensors, distance: Distance)
    requires Executing(m) && m.state == SLEEP && !m.newMissionReady
    requires s.time - m.sleep.Started(s.time).start > m.sleepPeriod
    ensures var after := Tick(m, s, distance); !(after.state == SLEEP && after.index == m.index)
  {}

  lemma FromLoad(m: Machine, p: DroneProgram, events: seq<Event>, distance: Distance)
    ensures Run(m, [Load(p)] + events, distance) == Run(WithMission(m, p), events, distance)
  {
    RunAppend(m, [], Load(p), distance);
    assert [] + [Load(p)] == [Load(p)];
    RunConcat(m, [Load(p)], events, distance);
  }
}
