/** The winch controller: latch, motor and hot wire (deployment.cc). */
module Deployments {
  import opened Geometry

  datatype State = LATCHED | UNLATCHING | MOTOR_ASSISTED_DEPLOYMENT | CUT_LINE | END_DROP

  datatype Input = Input(latch: bool, direction: int, cut: bool, cancel: bool)

  datatype Output = Output(motor: real, latch: bool, hotwire: bool, endDrop: bool)

  const WAIT_TIME_BEFORE_UNLATCH := 0.0
  const WAIT_TIME_AFTER_UNLATCH := 3.0
  const MAX_HOTWIRE_TIME := 10.0
  const MOTOR_DEPLOY_POWER := 0.6

  datatype Controller = Controller(state: State, timer: real)

  /** The state the current state's handler moves to, before cancel and latch have their say. */
  function Wanted(c: Controller, i: Input): State {
    match c.state
    case LATCHED => if !i.latch && c.timer > WAIT_TIME_BEFORE_UNLATCH then UNLATCHING else LATCHED
    case UNLATCHING =>
      if i.direction > 0 && c.timer > WAIT_TIME_AFTER_UNLATCH then MOTOR_ASSISTED_DEPLOYMENT else UNLATCHING
    case MOTOR_ASSISTED_DEPLOYMENT => if i.cut then CUT_LINE else MOTOR_ASSISTED_DEPLOYMENT
    case CUT_LINE =>
      if !i.cut then MOTOR_ASSISTED_DEPLOYMENT else if c.timer > MAX_HOTWIRE_TIME then END_DROP else CUT_LINE
    case END_DROP => END_DROP
  }

  /** The timer as the handler leaves it. */
  function Ticked(c: Controller, i: Input, frequency: int): real
    requires frequency > 0
  {
    var next := c.timer + 1.0 / frequency as real;
    match c.state
    case LATCHED => if i.latch then 0.0 else if c.timer > WAIT_TIME_BEFORE_UNLATCH then c.timer else next
    case UNLATCHING => if i.direction <= 0 then 0.0 else if c.timer > WAIT_TIME_AFTER_UNLATCH then c.timer else next
    case CUT_LINE => if i.cut then next else c.timer
    case _ => c.timer
  }

  function Next(c: Controller, i: Input, frequency: int): Controller
    requires frequency > 0
  {
    var state := if i.cancel then END_DROP else if i.latch then LATCHED else Wanted(c, i);
    Controller(state, if state != c.state then 0.0 else Ticked(c, i, frequency))
  }

  function Driven(c: Controller, i: Input): Output {
    match c.state
    case LATCHED => Output(0.0, true, false, false)
    case UNLATCHING => Output(0.0, false, false, false)
    case MOTOR_ASSISTED_DEPLOYMENT =>
      var power := if i.direction > 0 then MOTOR_DEPLOY_POWER else -MOTOR_DEPLOY_POWER;
      Output(if i.cut || i.direction == 0 then 0.0 else power, false, false, false)
    case CUT_LINE => Output(0.0, false, i.cut && c.timer <= MAX_HOTWIRE_TIME, false)
    case END_DROP => Output(0.0, true, false, true)
  }

  class Deployment {
    const loopFrequency: int
    var state: State
    var timer: real

    ghost function View(): Controller
      reads this
    {
      Controller(state, timer)
    }

    constructor (frequency: int)
      requires frequency > 0
      ensures loopFrequency == frequency && View() == Controller(LATCHED, 0.0)
    {
      loopFrequency, state, timer := frequency, LATCHED, 0.0;
    }

    method RunIteration(input: Input) returns (output: Output)
      requires loopFrequency > 0
      modifies this
      ensures View() == Next(old(View()), input, loopFrequency)
      ensures output == Driven(old(View()), input)
    {
      var nextState := state;
      output := Output(0.0, true, false, false);
      match state {
        case LATCHED =>
          if !input.latch {
            if timer > WAIT_TIME_BEFORE_UNLATCH { nextState := UNLATCHING; } else { TickTimer(); }
          } else {
            ResetTimer();
          }
        case UNLATCHING =>
          output := output.(latch := false);
          if input.direction > 0 {
            if timer > WAIT_TIME_AFTER_UNLATCH { nextState := MOTOR_ASSISTED_DEPLOYMENT; } else { TickTimer(); }
          } else {
            ResetTimer();
          }
        case MOTOR_ASSISTED_DEPLOYMENT =>
          output := output.(latch := false);
          if input.cut {
            nextState := CUT_LINE;
          } else if input.direction != 0 {
            output := output.(motor := if input.direction > 0 then MOTOR_DEPLOY_POWER else -MOTOR_DEPLOY_POWER);
          }
        case CUT_LINE =>
          output := output.(latch := false);
          if !input.cut {
            nextState := MOTOR_ASSISTED_DEPLOYMENT;
          } else {
            if !(timer > MAX_HOTWIRE_TIME) {
              output := output.(hotwire := true);
            } else {
              nextState := END_DROP;
            }
            TickTimer();
          }
        case END_DROP => output := output.(endDrop := true);
      }
      if input.cancel {
        nextState := END_DROP;
      } else if input.latch {
        nextState := LATCHED;
      }
      if state != nextState {
        ResetTimer();
        state := nextState;
      }
    }

    method TickTimer()
      requires loopFrequency > 0
      modifies this`timer
      ensures timer == old(timer) + 1.0 / loopFrequency as real
    {
      timer := timer + 1.0 / loopFrequency as real;
    }

    method ResetTimer()
      modifies this`timer
      ensures timer == 0.0
    {
      timer := 0.0;
    }
  }

  // ---- whole runs ----

  /** The controller after the first n inputs. */
  function After(inputs: seq<Input>, n: nat, f: int): Controller
    requires n <= |inputs| && f > 0
  {
    if n == 0 then Controller(LATCHED, 0.0) else Next(After(inputs, n - 1, f), inputs[n - 1], f)
  }

  function OutputAt(inputs: seq<Input>, n: nat, f: int): Output
    requires n < |inputs| && f > 0
  {
    Driven(After(inputs, n, f), inputs[n])
  }

  predicate Energised(o: Output) { o.motor != 0.0 || o.hotwire }

  /** Motor and hot wire are never on together, and on only with the latch open. */
  lemma Interlock(inputs: seq<Input>, n: nat, f: int)
    requires n < |inputs| && f > 0
    ensures var o := OutputAt(inputs, n, f);
            !(o.motor != 0.0 && o.hotwire) && (Energised(o) ==> !o.latch)
  {}

  /** From j until before n the controller was unlatching with the winch told to let out. */
  ghost predicate LettingOut(inputs: seq<Input>, j: nat, n: nat, f: int)
    requires j <= n <= |inputs| && f > 0
  {
    forall i :: j <= i < n ==> After(inputs, i, f).state == UNLATCHING && inputs[i].direction > 0
  }

  predicate NeverLatched(inputs: seq<Input>, j: nat, n: nat, f: int)
    requires j <= n <= |inputs| && f > 0
  {
    forall i :: j <= i < n ==> After(inputs, i, f).state != LATCHED
  }

  lemma AddTick(k: nat, f: int)
    requires f > 0
    ensures Scaled(k as real, 1.0 / f as real) + 1.0 / f as real == Scaled((k + 1) as real, 1.0 / f as real)
  {}

  /** While unlatching, the timer counts the iterations since letting out last began. */
  lemma {:induction false} UnlatchTimer(inputs: seq<Input>, n: nat, f: int) returns (j: nat)
    requires n <= |inputs| && f > 0
    ensures j <= n
    ensures var c := After(inputs, n, f);
            c.state == UNLATCHING ==>
              c.timer == Scaled((n - j) as real, 1.0 / f as real) && LettingOut(inputs, j, n, f)
  {
    j := n;
    ScaledUnits(1.0 / f as real);
    if n > 0 && After(inputs, n, f).state == UNLATCHING {
      var was := After(inputs, n - 1, f);
      if was.state == UNLATCHING && inputs[n - 1].direction > 0 {
        j := UnlatchTimer(inputs, n - 1, f);
        AddTick(n - 1 - j, f);
      }
    }
  }

  /** From j on the controller let out unbroken in UNLATCHING for more than three seconds of
      iterations, ending at k, and has not been latched since. */
  ghost predicate Released(inputs: seq<Input>, j: nat, k: nat, n: nat, f: int)
    requires j <= k < n <= |inputs| && f > 0
  {
    LettingOut(inputs, j, k + 1, f) && Scaled((k - j) as real, 1.0 / f as real) > WAIT_TIME_AFTER_UNLATCH &&
    NeverLatched(inputs, k, n, f)
  }

  predicate Powered(state: State) { state == MOTOR_ASSISTED_DEPLOYMENT || state == CUT_LINE }

  lemma PowerFollowsRelease(c: Controller, i: Input, f: int)
    requires f > 0 && Powered(Next(c, i, f).state)
    ensures Powered(c.state) || (c.state == UNLATCHING && i.direction > 0 && c.timer > WAIT_TIME_AFTER_UNLATCH)
  {}

  lemma {:induction false} ReleasedBefore(inputs: seq<Input>, n: nat, f: int) returns (j: nat, k: nat)
    requires n <= |inputs| && f > 0
    requires Powered(After(inputs, n, f).state)
    ensures j <= k < n && Released(inputs, j, k, n, f)
  {
    var was := After(inputs, n - 1, f);
    PowerFollowsRelease(was, inputs[n - 1], f);
    if was.state == UNLATCHING {
      k := n - 1;
      j := UnlatchTimer(inputs, n - 1, f);
    } else {
      j, k := ReleasedBefore(inputs, n - 1, f);
    }
  }

  /** Neither the motor nor the hot wire is on unless the winch was told to let out, unbroken in
      UNLATCHING, for more than three seconds of iterations since the controller was last latched. */
  lemma EnergisedOnlyWhenReleased(inputs: seq<Input>, n: nat, f: int) returns (j: nat, k: nat)
    requires n < |inputs| && f > 0 && Energised(OutputAt(inputs, n, f))
    ensures j <= k < n && Released(inputs, j, k, n, f)
    ensures NeverLatched(inputs, j, n + 1, f)
    ensures k - j > 3 * f
  {
    j, k := ReleasedBefore(inputs, n, f);
    WaitInTicks(k - j, f);
  }

  /** At f iterations a second, k seconds take k * f of them. */
  lemma SecondsInTicks(k: nat, f: int)
    requires f > 0
    ensures Scaled((k * f) as real, 1.0 / f as real) == k as real
  {
    DivScaled(1.0, f as real);
    ScaledAssoc(k as real, f as real, 1.0 / f as real);
    assert Scaled(k as real, f as real) == (k * f) as real;
  }

  lemma WaitInTicks(ticks: nat, f: int)
    requires f > 0 && Scaled(ticks as real, 1.0 / f as real) > 3.0
    ensures ticks > 3 * f
  {
    SecondsInTicks(3, f);
    PositiveReciprocal(f);
    if ticks <= 3 * f { ScaledMono(ticks as real, (3 * f) as real, 1.0 / f as real); }
  }

  /** The hot wire is on at every iteration from j until before n. */
  predicate HotThroughout(inputs: seq<Input>, j: nat, n: nat, f: int)
    requires j <= n <= |inputs| && f > 0
  {
    forall i :: j <= i < n ==> OutputAt(inputs, i, f).hotwire
  }

  lemma {:induction false} HotTimer(inputs: seq<Input>, j: nat, n: nat, f: int)
    requires j < n <= |inputs| && f > 0 && HotThroughout(inputs, j, n, f)
    ensures After(inputs, n - 1, f).state == CUT_LINE
    ensures After(inputs, n - 1, f).timer >= Scaled((n - 1 - j) as real, 1.0 / f as real)
  {
    assert OutputAt(inputs, n - 1, f).hotwire;
    TimerNonNegative(inputs, n - 1, f);
    ScaledUnits(1.0 / f as real);
    if n - 1 > j {
      HotTimer(inputs, j, n - 1, f);
      AddTick(n - 2 - j, f);
    }
  }

  lemma {:induction false} TimerNonNegative(inputs: seq<Input>, n: nat, f: int)
    requires n <= |inputs| && f > 0
    ensures After(inputs, n, f).timer >= 0.0
  {
    if n > 0 {
      TimerNonNegative(inputs, n - 1, f);
      DivMono(0.0, 1.0, f as real);
      DivScaled(0.0, f as real);
    }
  }

  /** The hot wire is never on for more than ten seconds of iterations and one more in a row. */
  lemma HotwireBounded(inputs: seq<Input>, j: nat, n: nat, f: int)
    requires j < n <= |inputs| && f > 0 && HotThroughout(inputs, j, n, f)
    ensures n - j <= 10 * f + 1
  {
    HotTimer(inputs, j, n, f);
    assert OutputAt(inputs, n - 1, f).hotwire;
    var ticks := n - 1 - j;
    SecondsInTicks(10, f);
    PositiveReciprocal(f);
    if ticks > 10 * f { ScaledStrict((10 * f) as real, ticks as real, 1.0 / f as real); }
  }

  lemma PositiveReciprocal(f: int)
    requires f > 0
    ensures 1.0 / f as real > 0.0
  {}

  /** The bound is reached: after the release, an uninterrupted cut keeps the wire on that long. */
  lemma {:induction false} HotwireReachesBound(inputs: seq<Input>, j: nat, n: nat, f: int)
    requires j <= n < |inputs| && f > 0 && n - j <= 10 * f
    requires After(inputs, j, f) == Controller(CUT_LINE, 0.0)
    requires forall i :: j <= i <= n ==> inputs[i].cut && !inputs[i].cancel && !inputs[i].latch
    ensures After(inputs, n, f) == Controller(CUT_LINE, Scaled((n - j) as real, 1.0 / f as real))
    ensures OutputAt(inputs, n, f).hotwire
  {
    var u := 1.0 / f as real;
    ScaledUnits(u);
    SecondsInTicks(10, f);
    PositiveReciprocal(f);
    ScaledMono((n - j) as real, (10 * f) as real, u);
    if n > j {
      HotwireReachesBound(inputs, j, n - 1, f);
      ScaledMono((n - 1 - j) as real, (10 * f) as real, u);
      CutGoesOn(After(inputs, n - 1, f), inputs[n - 1], f);
      AddTick(n - 1 - j, f);
    }
  }

  lemma CutGoesOn(c: Controller, i: Input, f: int)
    requires f > 0 && c.state == CUT_LINE && c.timer <= MAX_HOTWIRE_TIME && i.cut && !i.cancel && !i.latch
    ensures Next(c, i, f) == Controller(CUT_LINE, c.timer + 1.0 / f as real)
  {}

  /** The motor turns exactly in motor-assisted deployment with no cut asked for, at full deploy power and the
      way the winch is told to go; the wire, the latch and the end of the drop follow the state. */
  lemma OutputsFollowInput(inputs: seq<Input>, n: nat, f: int)
    requires n < |inputs| && f > 0
    ensures var c, i, o := After(inputs, n, f), inputs[n], OutputAt(inputs, n, f);
            && (o.motor > 0.0 <==> c.state == MOTOR_ASSISTED_DEPLOYMENT && !i.cut && i.direction > 0)
            && (o.motor < 0.0 <==> c.state == MOTOR_ASSISTED_DEPLOYMENT && !i.cut && i.direction < 0)
            && (o.motor == 0.0 || o.motor == 0.6 || o.motor == -0.6)
            && (o.hotwire <==> c.state == CUT_LINE && i.cut && c.timer <= 10.0)
            && (o.latch <==> c.state == LATCHED || c.state == END_DROP)
            && (o.endDrop <==> c.state == END_DROP)
  {}

  /** The winch is released, told to let out, and neither cut nor cancelled nor latched again. */
  predicate LettingGo(i: Input) { !i.latch && i.direction > 0 && !i.cut && !i.cancel }

  lemma {:induction false} ReleaseTimer(inputs: seq<Input>, n: nat, f: int)
    requires 2 <= n <= |inputs| && f > 0 && n <= 3 * f + 3
    requires forall i :: 0 <= i < n ==> LettingGo(inputs[i])
    ensures After(inputs, n, f) == Controller(UNLATCHING, Scaled((n - 2) as real, 1.0 / f as real))
  {
    ScaledUnits(1.0 / f as real);
    PositiveReciprocal(f);
    assert LettingGo(inputs[n - 1]);
    if n == 2 {
      assert After(inputs, 0, f) == Controller(LATCHED, 0.0) && LettingGo(inputs[0]);
      assert After(inputs, 1, f) == Controller(LATCHED, 1.0 / f as real);
    } else {
      ReleaseTimer(inputs, n - 1, f);
      SecondsInTicks(3, f);
      ScaledMono((n - 3) as real, (3 * f) as real, 1.0 / f as real);
      AddTick(n - 3, f);
    }
  }

  /** A release gets to the motor after exactly three seconds of iterations and four more, and the motor then
      lets out. */
  lemma ReleaseReachesMotor(inputs: seq<Input>, f: int)
    requires f > 0 && |inputs| == 3 * f + 5 && forall i :: 0 <= i < |inputs| ==> LettingGo(inputs[i])
    ensures After(inputs, 3 * f + 3, f).state == UNLATCHING
    ensures After(inputs, 3 * f + 4, f) == Controller(MOTOR_ASSISTED_DEPLOYMENT, 0.0)
    ensures OutputAt(inputs, 3 * f + 4, f).motor == MOTOR_DEPLOY_POWER
  {
    var n := 3 * f + 3;
    ReleaseTimer(inputs, n, f);
    SecondsInTicks(3, f);
    PositiveReciprocal(f);
    ScaledStrict((3 * f) as real, (n - 2) as real, 1.0 / f as real);
    assert LettingGo(inputs[n]) && LettingGo(inputs[n + 1]);
  }

  /** Over every run, two ways: what leads to each state. Cancelling comes before latching, and latching before
      everything else. */
  lemma StatesFollowInput(inputs: seq<Input>, n: nat, f: int)
    requires n < |inputs| && f > 0
    ensures var c, i, next := After(inputs, n, f), inputs[n], After(inputs, n + 1, f).state;
            var free := !i.cancel && !i.latch;
            && (next == END_DROP <==>
                  i.cancel || (!i.latch && c.state == END_DROP) ||
                  (!i.latch && c.state == CUT_LINE && i.cut && c.timer > 10.0))
            && (next == LATCHED <==> !i.cancel && (i.latch || (c.state == LATCHED && c.timer <= 0.0)))
            && (next == UNLATCHING <==>
                  free && ((c.state == LATCHED && c.timer > 0.0) ||
                           (c.state == UNLATCHING && !(i.direction > 0 && c.timer > 3.0))))
            && (next == MOTOR_ASSISTED_DEPLOYMENT <==>
                  free && ((c.state == UNLATCHING && i.direction > 0 && c.timer > 3.0) ||
                           (Powered(c.state) && !i.cut)))
            && (next == CUT_LINE <==>
                  free && i.cut && (c.state == MOTOR_ASSISTED_DEPLOYMENT || (c.state == CUT_LINE && c.timer <= 10.0)))
  {}
}
