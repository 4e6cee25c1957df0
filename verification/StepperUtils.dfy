/** The ramp generator of the antenna's stepper motor (stepper_utils.py). */
module Steppers {

  const CW := 1
  const CCW := 0

  /** A stretch of pulses at one speed; the number of pulses is sent as a low and a high byte. */
  datatype Block = Block(hz: real, low: int, high: int)

  datatype Wave = Wave(direction: int, blocks: seq<Block>)

  function Pulses(b: Block): int { b.low + 256 * b.high }

  function Total(s: seq<Block>): int { if s == [] then 0 else Pulses(s[0]) + Total(s[1..]) }

  /** Where the motor ends after the wave, counted from where it was. */
  function Net(w: Wave): int { if w.direction == CCW then Total(w.blocks) else -Total(w.blocks) }

  /** Speeds in steps a second; the speed grows by amount after every interval steps. */
  datatype Gear = Gear(min: real, max: real, interval: nat, amount: real)

  function GearFor(spr: nat): Gear
    requires spr >= 4
  {
    var min, max := spr as real / 20.0, spr as real / 5.0;
    var interval, minToMaxSpeedSteps := spr / 16, spr / 4;
    Gear(min, max, interval, (max - min) * interval as real / minToMaxSpeedSteps as real)
  }

  predicate GoodGear(g: Gear) { g.min < g.max && g.interval > 0 && g.amount > 0.0 }

  lemma GearIsGood(spr: nat)
    requires spr >= 16
    ensures GoodGear(GearFor(spr))
    ensures spr % 16 == 0 ==> GearFor(spr).max - GearFor(spr).min == 4.0 * GearFor(spr).amount
  {
    var g := GearFor(spr);
    var rise, quarter := g.max - g.min, (spr / 4) as real;
    var top := rise * g.interval as real;
    assert top > 0.0;
    assert top / quarter > 0.0 by { Quotient(top, quarter); }
    if spr % 16 == 0 {
      assert spr / 4 == 4 * g.interval;
      assert 4.0 * top == rise * quarter;
      QuotientIs(4.0 * top, quarter, rise);
      Quotient(top, quarter);
      QuotientIs(4.0 * top, quarter, 4.0 * (top / quarter));
    }
  }

  lemma Quotient(a: real, b: real)
    requires a > 0.0 && b > 0.0
    ensures a / b > 0.0 && (a / b) * b == a
  {
    var q := a / b;
    assert q * b == a;
    FactorPositive(q, b);
  }

  lemma FactorPositive(q: real, b: real)
    requires b > 0.0 && q * b > 0.0
    ensures q > 0.0
  {}

  lemma QuotientIs(a: real, b: real, q: real)
    requires b > 0.0 && a == q * b
    ensures a / b == q
  {}

  /** The speed of ramp block k. */
  function SpeedAt(k: nat, g: Gear): real { if k == 0 then g.min else SpeedAt(k - 1, g) + g.amount }

  function StepBlock(hz: real, pulses: int): Block { Block(hz, pulses % 256, pulses / 256) }

  function Up(k: nat, g: Gear): seq<Block> {
    if k == 0 then [] else Up(k - 1, g) + [StepBlock(SpeedAt(k - 1, g), g.interval)]
  }

  function Down(k: nat, g: Gear): seq<Block> {
    if k == 0 then [] else [StepBlock(SpeedAt(k - 1, g), g.interval)] + Down(k - 1, g)
  }

  /** How many blocks the ramp has when n are available and k have gone by. */
  function RampLength(k: nat, n: nat, g: Gear): (r: nat)
    requires k <= n
    decreases n - k
    ensures k <= r <= n
    ensures k < n ==> k < r
    ensures r < n ==> SpeedAt(r, g) >= g.max
    ensures forall i :: k < i < r ==> SpeedAt(i, g) < g.max
  {
    if k == n || k + 1 == n || SpeedAt(k + 1, g) >= g.max then (if k == n then k else k + 1)
    else RampLength(k + 1, n, g)
  }

  /** How many blocks each half of a move of so many steps has room for, and what is left over. */
  function Intervals(steps: nat, g: Gear): (n: nat)
    requires g.interval > 0
    ensures Times(n, 2 * g.interval) + Leftover(steps, g) == steps
  {
    Quotients(steps, 2 * g.interval);
    steps / (2 * g.interval)
  }

  function Leftover(steps: nat, g: Gear): nat
    requires g.interval > 0
  {
    steps % (2 * g.interval)
  }

  function Times(a: int, b: int): int { a * b }

  lemma TimesNext(a: int, b: int)
    ensures Times(a + 1, b) == Times(a, b) + b
  {}

  lemma Quotients(a: nat, d: nat)
    requires d > 0
    ensures 0 <= a / d && Times(a / d, d) + a % d == a
  {}

  function MiddleSteps(r: nat, n: nat, g: Gear): (k: nat)
    requires r <= n
    ensures k == Times(n - r, 2 * g.interval)
  {
    TimesTwice(g.interval, n - r);
    g.interval * (n - r) * 2
  }

  lemma TimesTwice(a: nat, b: nat)
    ensures a * b * 2 == Times(b, 2 * a) >= 0
  {}

  /** The middle stretch at full speed, in place of the ramp blocks not needed. */
  function Middle(r: nat, n: nat, g: Gear): seq<Block>
    requires r <= n
  {
    if r < n then [StepBlock(g.max, MiddleSteps(r, n, g))] else []
  }

  function Chain(steps: nat, g: Gear): seq<Block>
    requires g.interval > 0
  {
    var n := Intervals(steps, g);
    var r := RampLength(0, n, g);
    Up(r, g) + Middle(r, n, g) + Down(r, g) + [StepBlock(g.min, Leftover(steps, g))]
  }

  function WaveFor(steps: int, g: Gear): Wave
    requires g.interval > 0
  {
    Wave(if steps > 0 then CCW else CW, Chain(if steps > 0 then steps else -steps, g))
  }

  class StepperUtils {
    const spr: nat
    const gear: Gear

    ghost predicate Valid() { spr >= 16 && gear == GearFor(spr) }

    constructor (spr: nat)
      requires spr >= 16
      ensures Valid() && this.spr == spr
    {
      this.spr := spr;
      gear := GearFor(spr);
    }

    method RepeatStepPulse(hz: real, pulses: nat) returns (b: Block)
      ensures b.hz == hz && Pulses(b) == pulses && 0 <= b.low < 256
      ensures b == StepBlock(hz, pulses)
    {
      b := Block(hz, pulses % 256, pulses / 256);
    }

    /** The first loop of MoveStepper: gaining speed over at most n blocks; i is how many it took. */
    method RampUp(n: nat) returns (blocks: seq<Block>, totalSteps: int, i: nat, hz: real)
      ensures i == RampLength(0, n, gear) && hz == SpeedAt(i, gear)
      ensures blocks == Up(i, gear) && totalSteps == Times(i, gear.interval)
    {
      blocks, totalSteps, i, hz := [], 0, 0, gear.min;
      while i < n
        invariant 0 <= i <= n && hz == SpeedAt(i, gear)
        invariant RampLength(i, n, gear) == RampLength(0, n, gear)
        invariant blocks == Up(i, gear)
        invariant totalSteps == Times(i, gear.interval)
      {
        var b := RepeatStepPulse(hz, gear.interval);
        TimesNext(i, gear.interval);
        blocks := blocks + [b];
        totalSteps := totalSteps + gear.interval;
        hz := hz + gear.amount;
        i := i + 1;
        if hz >= gear.max { break; }
      }
    }

    /** The second loop of MoveStepper: slowing down again from speed hz over i blocks. */
    method RampDown(i: nat, hz: real) returns (blocks: seq<Block>, totalSteps: int)
      requires hz == SpeedAt(i, gear)
      ensures blocks == Down(i, gear) && totalSteps == Times(i, gear.interval)
    {
      blocks, totalSteps := [], 0;
      var speed, j := hz, 0;
      while j < i
        invariant 0 <= j <= i && speed == SpeedAt(i - j, gear)
        invariant blocks + Down(i - j, gear) == Down(i, gear)
        invariant totalSteps == Times(j, gear.interval)
      {
        speed := speed - gear.amount;
        var b := RepeatStepPulse(speed, gear.interval);
        DownTaken(blocks, i - j, gear);
        blocks := blocks + [b];
        TimesNext(j, gear.interval);
        totalSteps := totalSteps + gear.interval;
        j := j + 1;
      }
    }

    /** The chain for a move of count steps; the program's own final assertion holds. */
    method MakeChain(count: nat) returns (blocks: seq<Block>)
      requires gear.interval > 0
      ensures blocks == Chain(count, gear)
    {
      var numIntervals := Intervals(count, gear);
      var up, totalSteps, i, hz := RampUp(numIntervals);
      blocks := up;
      if i < numIntervals {
        var maxSpeedSteps := MiddleSteps(i, numIntervals, gear);
        var b := RepeatStepPulse(gear.max, maxSpeedSteps);
        blocks := blocks + [b];
        totalSteps := totalSteps + maxSpeedSteps;
      }
      assert blocks == Up(i, gear) + Middle(i, numIntervals, gear);
      var descent, descentSteps := RampDown(i, hz);
      blocks, totalSteps := blocks + descent, totalSteps + descentSteps;
      var leftoverSteps := Leftover(count, gear);
      var b := RepeatStepPulse(gear.min, leftoverSteps);
      blocks := blocks + [b];
      totalSteps := totalSteps + leftoverSteps;
      IntervalsAddUp(i, numIntervals, gear.interval);
      assert totalSteps == count;
    }

    /** The wave turns the motor by exactly the steps asked for. */
    method MoveStepper(steps: int) returns (wave: Wave)
      requires Valid()
      ensures Net(wave) == steps && wave.direction == if steps > 0 then 0 else 1
      ensures wave == WaveFor(steps, gear)
    {
      GearIsGood(spr);
      var direction, count := CCW, steps;
      if steps <= 0 {
        direction, count := CW, -steps;
      }
      var blocks := MakeChain(count);
      ChainTotal(count, gear);
      wave := Wave(direction, blocks);
    }
  }

  // ---- properties of the chain ----

  lemma {:induction false} TotalAppend(s: seq<Block>, t: seq<Block>)
    ensures Total(s + t) == Total(s) + Total(t)
  {
    if s == [] {
      assert s + t == t;
    } else {
      assert (s + t)[1..] == s[1..] + t;
      TotalAppend(s[1..], t);
    }
  }

  /** Writing the next block of the way down leaves the whole the same. */
  lemma DownTaken(done: seq<Block>, k: nat, g: Gear)
    requires k > 0
    ensures done + Down(k, g) == (done + [StepBlock(SpeedAt(k - 1, g), g.interval)]) + Down(k - 1, g)
  {}

  lemma {:induction false} RampTotals(k: nat, g: Gear)
    ensures Total(Up(k, g)) == Total(Down(k, g)) == Times(k, g.interval)
  {
    if k > 0 {
      RampTotals(k - 1, g);
      TotalAppend(Up(k - 1, g), [StepBlock(SpeedAt(k - 1, g), g.interval)]);
      TotalAppend([StepBlock(SpeedAt(k - 1, g), g.interval)], Down(k - 1, g));
      assert Times(k, g.interval) == Times(k - 1, g.interval) + g.interval;
    }
  }

  /** No step is lost or added. */
  lemma ChainTotal(steps: nat, g: Gear)
    requires g.interval > 0
    ensures Total(Chain(steps, g)) == steps
  {
    var n := Intervals(steps, g);
    var r := RampLength(0, n, g);
    var up, mid, down, last := Up(r, g), Middle(r, n, g), Down(r, g), [StepBlock(g.min, Leftover(steps, g))];
    RampTotals(r, g);
    TotalAppend(up, mid);
    TotalAppend(up + mid, down);
    TotalAppend(up + mid + down, last);
    assert Total(mid) == Times(n - r, 2 * g.interval);
    IntervalsAddUp(r, n, g.interval);
  }

  lemma IntervalsAddUp(r: int, n: int, interval: int)
    ensures 2 * Times(r, interval) + Times(n - r, 2 * interval) == Times(n, 2 * interval)
  {}

  /** The ramp down is the ramp up backwards. */
  lemma {:induction false} DownMirrorsUp(k: nat, g: Gear, j: nat)
    requires j < k
    ensures |Up(k, g)| == |Down(k, g)| == k
    ensures Up(k, g)[j] == Down(k, g)[k - 1 - j] == StepBlock(SpeedAt(j, g), g.interval)
  {
    if k > 1 {
      DownMirrorsUp(k - 1, g, if j < k - 1 then j else 0);
    }
  }

  lemma {:induction false} SpeedRises(k: nat, g: Gear)
    requires g.amount > 0.0
    ensures SpeedAt(k, g) >= g.min
  {
    if k > 0 { SpeedRises(k - 1, g); }
  }

  lemma RampSizes(k: nat, g: Gear)
    ensures |Up(k, g)| == |Down(k, g)| == k
  {
    if k > 0 { DownMirrorsUp(k, g, 0); }
  }

  /** The speed of block j of a chain, by its place. */
  lemma ChainSpeedAt(steps: nat, g: Gear, j: nat)
    requires GoodGear(g) && j < |Chain(steps, g)|
    ensures var n := Intervals(steps, g);
            var r := RampLength(0, n, g);
            var m := if r < n then 1 else 0;
            && |Chain(steps, g)| == 2 * r + m + 1
            && Chain(steps, g)[j].hz ==
                 if j < r then SpeedAt(j, g)
                 else if j < r + m then g.max
                 else if j < 2 * r + m then SpeedAt(2 * r + m - 1 - j, g)
                 else g.min
  {
    var n := Intervals(steps, g);
    var r := RampLength(0, n, g);
    var m := |Middle(r, n, g)|;
    RampSizes(r, g);
    if j < r {
      DownMirrorsUp(r, g, j);
    } else if r + m <= j < 2 * r + m {
      DownMirrorsUp(r, g, 2 * r + m - 1 - j);
    }
  }

  /** Every block is between the least and the greatest speed, and the speed of neighbours differs by
      at most one increment, at the top and at the leftover steps too. */
  lemma ChainIsSmooth(steps: nat, g: Gear, j: nat)
    requires GoodGear(g) && j < |Chain(steps, g)|
    ensures g.min <= Chain(steps, g)[j].hz <= g.max
    ensures j + 1 < |Chain(steps, g)| ==>
              -g.amount <= Chain(steps, g)[j + 1].hz - Chain(steps, g)[j].hz <= g.amount
  {
    var n := Intervals(steps, g);
    var r := RampLength(0, n, g);
    var m := if r < n then 1 else 0;
    ChainSpeedAt(steps, g, j);
    if j < r {
      SpeedRises(j, g);
    } else if r + m <= j < 2 * r + m {
      SpeedRises(2 * r + m - 1 - j, g);
    }
    if j + 1 < |Chain(steps, g)| {
      ChainSpeedAt(steps, g, j + 1);
      if j + 1 == r && m == 1 { assert SpeedAt(r, g) >= g.max; }
    }
  }

  /** Both bytes of every loop count are bytes, as long as the move has fewer than 65536 steps. */
  lemma LoopCountsAreBytes(steps: nat, g: Gear, j: nat)
    requires g.interval > 0 && j < |Chain(steps, g)| && steps < 0x1_0000
    ensures 0 <= Chain(steps, g)[j].low < 256 && 0 <= Chain(steps, g)[j].high < 256
  {
    BlocksFormed(steps, g);
    ChainTotal(steps, g);
    PartOfTotal(Chain(steps, g), j);
    assert Formed(Chain(steps, g)[j]);
  }

  /** Counts below 256 in the low byte and none negative in the high one. */
  predicate Formed(b: Block) { 0 <= b.low < 256 && b.high >= 0 }

  lemma {:induction false} RampFormed(k: nat, g: Gear)
    ensures forall b :: b in Up(k, g) || b in Down(k, g) ==> Formed(b)
  {
    if k > 0 { RampFormed(k - 1, g); }
  }

  lemma BlocksFormed(steps: nat, g: Gear)
    requires g.interval > 0
    ensures forall b :: b in Chain(steps, g) ==> Formed(b)
  {
    var n := Intervals(steps, g);
    RampFormed(RampLength(0, n, g), g);
  }

  lemma {:induction false} PartOfTotal(s: seq<Block>, j: nat)
    requires j < |s| && forall b :: b in s ==> Formed(b)
    ensures 0 <= Pulses(s[j]) <= Total(s)
  {
    assert Formed(s[0]);
    if |s| > 1 { PartOfTotal(s[1..], if j > 0 then j - 1 else 0); }
  }

  /** With a revolution a multiple of 16 steps, full speed is reached in a quarter revolution exactly,
      unless the move is too short for it. */
  lemma QuarterRevolution(spr: nat, n: nat)
    requires spr >= 16 && spr % 16 == 0
    ensures var g := GearFor(spr);
            var r := RampLength(0, n, g);
            && r == (if n < 4 then n else 4)
            && (n >= 4 ==> SpeedAt(r, g) == g.max && Total(Up(r, g)) == spr / 4)
  {
    var g := GearFor(spr);
    GearIsGood(spr);
    assert SpeedAt(1, g) == g.min + g.amount;
    assert SpeedAt(2, g) == g.min + 2.0 * g.amount;
    assert SpeedAt(3, g) == g.min + 3.0 * g.amount;
    assert SpeedAt(4, g) == g.max;
    RampTotals(4, g);
  }
}
