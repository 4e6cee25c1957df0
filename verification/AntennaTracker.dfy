/** Turning the antenna towards the drone without tangling its wires (antenna_tracker.py). Positions
    are in motor steps; requested is the step of the drone's bearing. */
module AntennaTrackers {
  import Steppers

  const MAX_REVOLUTIONS := 2

  function Turns(k: int, spr: int): int { k * spr }

  /** The antenna points the same way at p and q. */
  ghost predicate SameHeading(p: int, q: int, spr: int) { exists k :: p == q + Turns(k, spr) }

  predicate Untangled(p: int, spr: int) { 0 - spr * MAX_REVOLUTIONS <= p <= spr * MAX_REVOLUTIONS }

  function Abs(n: int): nat { if n < 0 then -n else n }

  // The four loops of the program, as functions.

  function TurnedDown(n: int, pos: int, spr: nat): int
    requires spr > 0
    decreases if 2 * (n - pos) > spr then 2 * (n - pos) else 0
  {
    if 2 * (n - pos) > spr then TurnedDown(n - spr, pos, spr) else n
  }

  function TurnedUp(n: int, pos: int, spr: nat): int
    requires spr > 0
    decreases if 2 * (n - pos) < 0 - spr then 2 * (pos - n) else 0
  {
    if 2 * (n - pos) < 0 - spr then TurnedUp(n + spr, pos, spr) else n
  }

  function UnwoundDown(n: int, spr: nat): int
    requires spr > 0
    decreases if n > spr * MAX_REVOLUTIONS then n else 0
  {
    if n > spr * MAX_REVOLUTIONS then UnwoundDown(n - spr, spr) else n
  }

  function UnwoundUp(n: int, spr: nat): int
    requires spr > 0
    decreases if n < 0 - spr * MAX_REVOLUTIONS then 0 - n else 0
  {
    if n < 0 - spr * MAX_REVOLUTIONS then UnwoundUp(n + spr, spr) else n
  }

  /** The position nearest to pos with the heading asked for, wires or no wires. */
  function ShortWay(requested: int, pos: int, spr: nat): int
    requires spr > 0
  {
    TurnedUp(TurnedDown(requested, pos, spr), pos, spr)
  }

  function Unwound(requested: int, pos: int, spr: nat): int
    requires spr > 0
  {
    UnwoundUp(UnwoundDown(ShortWay(requested, pos, spr), spr), spr)
  }

  // ---- headings ----

  lemma HeadingStays(p: int, spr: int)
    ensures SameHeading(p, p, spr)
  {
    assert p == p + Turns(0, spr);
  }

  lemma HeadingTurned(p: int, q: int, spr: int)
    requires SameHeading(p, q, spr)
    ensures SameHeading(p + spr, q, spr) && SameHeading(p - spr, q, spr)
    ensures SameHeading(q, p, spr)
  {
    var k :| p == q + Turns(k, spr);
    assert Turns(k + 1, spr) == Turns(k, spr) + spr && Turns(k - 1, spr) == Turns(k, spr) - spr;
    assert Turns(-k, spr) == -Turns(k, spr);
    assert p + spr == q + Turns(k + 1, spr) && p - spr == q + Turns(k - 1, spr) && q == p + Turns(-k, spr);
  }

  lemma HeadingTransitive(p: int, q: int, r: int, spr: int)
    requires SameHeading(p, q, spr) && SameHeading(q, r, spr)
    ensures SameHeading(p, r, spr)
  {
    var j :| p == q + Turns(j, spr);
    var k :| q == r + Turns(k, spr);
    assert Turns(j + k, spr) == Turns(j, spr) + Turns(k, spr);
  }

  /** Positions with one heading are equal or at least a revolution apart. */
  lemma HeadingsApart(p: int, q: int, spr: nat)
    requires SameHeading(p, q, spr)
    ensures p == q || p >= q + spr || p <= q - spr
  {
    var k :| p == q + Turns(k, spr);
    if k > 0 {
      assert Turns(k, spr) == Turns(k - 1, spr) + spr;
      TurnsSign(k - 1, spr);
    } else if k < 0 {
      assert Turns(k, spr) == -Turns(-k - 1, spr) - spr;
      TurnsSign(-k - 1, spr);
    } else {
      assert Turns(k, spr) == 0;
    }
  }

  lemma TurnsSign(k: nat, spr: nat)
    ensures Turns(k, spr) >= 0
  {}

  lemma {:induction false} TurnedDownKeeps(n: int, pos: int, spr: nat)
    requires spr > 0
    ensures var d := TurnedDown(n, pos, spr);
            && SameHeading(d, n, spr) && 2 * (d - pos) <= spr
            && (2 * (n - pos) >= 0 - spr ==> 2 * (d - pos) >= 0 - spr)
    decreases if 2 * (n - pos) > spr then 2 * (n - pos) else 0
  {
    HeadingStays(n, spr);
    if 2 * (n - pos) > spr {
      TurnedDownKeeps(n - spr, pos, spr);
      HeadingTurned(n, n, spr);
      HeadingTransitive(TurnedDown(n, pos, spr), n - spr, n, spr);
    }
  }

  lemma {:induction false} TurnedUpKeeps(n: int, pos: int, spr: nat)
    requires spr > 0 && 2 * (n - pos) <= spr
    ensures var u := TurnedUp(n, pos, spr);
            SameHeading(u, n, spr) && 0 - spr <= 2 * (u - pos) <= spr
    decreases if 2 * (n - pos) < 0 - spr then 2 * (pos - n) else 0
  {
    HeadingStays(n, spr);
    if 2 * (n - pos) < 0 - spr {
      TurnedUpKeeps(n + spr, pos, spr);
      HeadingTurned(n, n, spr);
      HeadingTransitive(TurnedUp(n, pos, spr), n + spr, n, spr);
    }
  }

  lemma ShortWayIsHalfATurn(requested: int, pos: int, spr: nat)
    requires spr > 0
    ensures var s := ShortWay(requested, pos, spr);
            SameHeading(s, requested, spr) && 2 * Abs(s - pos) <= spr
  {
    var d := TurnedDown(requested, pos, spr);
    TurnedDownKeeps(requested, pos, spr);
    TurnedUpKeeps(d, pos, spr);
    HeadingTransitive(ShortWay(requested, pos, spr), d, requested, spr);
  }

  /** Within two revolutions either way, pointing as asked. The short way is taken if the limit
      allows it; otherwise the antenna goes back by the long way, less than a revolution. */
  lemma UnwoundKeeps(requested: int, pos: int, spr: nat)
    requires spr > 0 && Untangled(pos, spr)
    ensures var end, short := Unwound(requested, pos, spr), ShortWay(requested, pos, spr);
            && Untangled(end, spr) && SameHeading(end, requested, spr)
            && end == (if Untangled(short, spr) then short else if short > 0 then short - spr else short + spr)
            && (if Untangled(short, spr) then 2 * Abs(end - pos) <= spr
                else spr <= 2 * Abs(end - pos) < 2 * spr && (end < pos <==> short > pos))
  {
    var short := ShortWay(requested, pos, spr);
    ShortWayIsHalfATurn(requested, pos, spr);
    HeadingTurned(short, requested, spr);
    if short > spr * MAX_REVOLUTIONS {
      assert UnwoundDown(short, spr) == UnwoundDown(short - spr, spr) == short - spr;
    } else if short < 0 - spr * MAX_REVOLUTIONS {
      assert UnwoundUp(short, spr) == UnwoundUp(short + spr, spr) == short + spr;
    }
  }

  /** No other position within the limit and with the heading asked for is nearer. */
  lemma UnwoundIsNearest(requested: int, pos: int, spr: nat, p: int)
    requires spr > 0 && Untangled(pos, spr) && Untangled(p, spr) && SameHeading(p, requested, spr)
    ensures Abs(Unwound(requested, pos, spr) - pos) <= Abs(p - pos)
  {
    var end, short := Unwound(requested, pos, spr), ShortWay(requested, pos, spr);
    UnwoundKeeps(requested, pos, spr);
    ShortWayIsHalfATurn(requested, pos, spr);
    HeadingTurned(short, requested, spr);
    HeadingTurned(end, requested, spr);
    HeadingTransitive(p, requested, short, spr);
    HeadingTransitive(p, requested, end, spr);
    HeadingsApart(p, short, spr);
    HeadingsApart(p, end, spr);
  }

  datatype Turn = Idle | Turn(wave: Steppers.Wave)

  class AntennaTracker {
    const spr: nat
    const stepperUtils: Steppers.StepperUtils
    var positionConfigured: bool
    var stepperPos: int

    ghost predicate Valid()
      reads this
    {
      stepperUtils.Valid() && stepperUtils.spr == spr && spr >= 16 && Untangled(stepperPos, spr)
    }

    constructor (spr: nat)
      requires spr >= 16
      ensures Valid() && this.spr == spr && stepperPos == 0 && !positionConfigured
    {
      this.spr := spr;
      stepperUtils := new Steppers.StepperUtils(spr);
      positionConfigured, stepperPos := false, 0;
    }

    method ConfigurePos()
      requires Valid()
      modifies this`positionConfigured
      ensures Valid() && positionConfigured
    {
      positionConfigured := true;
    }

    /** The pulses sent to the motor always add up to the change of position recorded, so the record
        stays true. Nothing moves while the last wave is still going out. */
    method Track(requested: int, busy: bool) returns (turn: Turn)
      requires Valid()
      modifies this`stepperPos
      ensures Valid()
      ensures turn.Idle? <==> !positionConfigured || busy
      ensures turn.Idle? ==> stepperPos == old(stepperPos)
      ensures turn.Turn? ==>
                && stepperPos == Unwound(requested, old(stepperPos), spr)
                && turn.wave == Steppers.WaveFor(stepperPos - old(stepperPos), stepperUtils.gear)
                && stepperPos == old(stepperPos) + Steppers.Net(turn.wave)
    {
      if !positionConfigured || busy {
        return Idle;
      }
      var newStepperPos := requested;
      while 2 * (newStepperPos - stepperPos) > spr
        invariant TurnedDown(newStepperPos, stepperPos, spr) == TurnedDown(requested, stepperPos, spr)
        decreases newStepperPos - stepperPos
      {
        newStepperPos := newStepperPos - spr;
      }
      ghost var turned := newStepperPos;
      while 2 * (newStepperPos - stepperPos) < 0 - spr
        invariant TurnedUp(newStepperPos, stepperPos, spr) == TurnedUp(turned, stepperPos, spr)
      {
        newStepperPos := newStepperPos + spr;
      }
      ghost var short := newStepperPos;
      while newStepperPos > spr * MAX_REVOLUTIONS
        invariant UnwoundDown(newStepperPos, spr) == UnwoundDown(short, spr)
      {
        newStepperPos := newStepperPos - spr;
      }
      ghost var lowered := newStepperPos;
      while newStepperPos < 0 - spr * MAX_REVOLUTIONS
        invariant UnwoundUp(newStepperPos, spr) == UnwoundUp(lowered, spr)
      {
        newStepperPos := newStepperPos + spr;
      }
      UnwoundKeeps(requested, stepperPos, spr);
      Steppers.GearIsGood(spr);
      var wave := stepperUtils.MoveStepper(newStepperPos - stepperPos);
      stepperPos := newStepperPos;
      return Turn(wave);
    }
  }

  // ---- runs ----

  /** One report of the drone's place: the step of its bearing, and whether the motor is still busy. */
  datatype Report = Report(requested: int, busy: bool)

  function Next(pos: int, r: Report, spr: nat): int
    requires spr > 0
  {
    if r.busy then pos else Unwound(r.requested, pos, spr)
  }

  function After(pos: int, reports: seq<Report>, spr: nat): int
    requires spr > 0
  {
    if reports == [] then pos
    else Next(After(pos, reports[..|reports| - 1], spr), reports[|reports| - 1], spr)
  }

  /** Over any reports from a place within the limit: never beyond it, every move less than a
      revolution and pointing as asked, by a wave of that many pulses net whose loop counts are bytes. */
  lemma {:induction false} NeverTangles(pos: int, reports: seq<Report>, spr: nat, k: nat)
    requires 16 <= spr <= 0x1_0000 && Untangled(pos, spr) && k <= |reports|
    ensures Untangled(After(pos, reports[..k], spr), spr)
    ensures k < |reports| && !reports[k].busy ==>
              var before := After(pos, reports[..k], spr);
              var after := Next(before, reports[k], spr);
              && SameHeading(after, reports[k].requested, spr)
              && Abs(after - before) < spr
              && WaveRight(after - before, spr)
  {
    if k > 0 {
      NeverTangles(pos, reports, spr, k - 1);
      assert reports[..k][..k - 1] == reports[..k - 1];
      UnwoundKeeps(reports[k - 1].requested, After(pos, reports[..k - 1], spr), spr);
    }
    if k < |reports| && !reports[k].busy {
      var before := After(pos, reports[..k], spr);
      UnwoundKeeps(reports[k].requested, before, spr);
      WaveIsRight(Next(before, reports[k], spr) - before, spr);
    }
  }

  predicate ByteCounts(b: Steppers.Block) { 0 <= b.low < 256 && 0 <= b.high < 256 }

  ghost predicate WaveRight(move: int, spr: nat)
    requires spr >= 16
  {
    Steppers.GearIsGood(spr);
    var wave := Steppers.WaveFor(move, Steppers.GearFor(spr));
    Steppers.Net(wave) == move && forall j :: 0 <= j < |wave.blocks| ==> ByteCounts(wave.blocks[j])
  }

  lemma WaveIsRight(move: int, spr: nat)
    requires 16 <= spr && Abs(move) < 0x1_0000
    ensures WaveRight(move, spr)
  {
    var g := Steppers.GearFor(spr);
    Steppers.GearIsGood(spr);
    Steppers.ChainTotal(Abs(move), g);
    var wave := Steppers.WaveFor(move, g);
    forall j | 0 <= j < |wave.blocks| ensures ByteCounts(wave.blocks[j]) {
      Steppers.LoopCountsAreBytes(Abs(move), g, j);
    }
  }
}
