/** Velocity commands limited in acceleration and speed (motion_profile.cc). Square roots are real
    numbers whose squares are given. */
module MotionProfiles {
  import opened Geometry

  datatype Vec = Vec(x: real, y: real, z: real)

  function Dot(u: Vec, v: Vec): real { u.x * v.x + u.y * v.y + u.z * v.z }
  function Plus(u: Vec, v: Vec): Vec { Vec(u.x + v.x, u.y + v.y, u.z + v.z) }
  function Minus(u: Vec, v: Vec): Vec { Vec(u.x - v.x, u.y - v.y, u.z - v.z) }
  function Times(v: Vec, k: real): Vec { Vec(v.x * k, v.y * k, v.z * k) }
  function Over(v: Vec, k: real): Vec requires k != 0.0 { Vec(v.x / k, v.y / k, v.z / k) }

  const ZERO := Vec(0.0, 0.0, 0.0)

  /** n is the Euclidean norm of v. */
  predicate IsNorm(n: real, v: Vec) { n >= 0.0 && Square(n) == Dot(v, v) }

  /** v is no longer than m. */
  predicate Within(v: Vec, m: real) { Dot(v, v) <= Square(m) }

  function Min(a: real, b: real): real { if b < a then b else a }

  /** v, of norm n, cut to length m: made a unit vector and stretched again. */
  function Limited(v: Vec, n: real, m: real): Vec {
    Times(if n > 0.0 then Over(v, n) else ZERO, Min(n, m))
  }

  /** The velocity after accelerating towards the target, before the speed limit. */
  function Accelerated(output: Vec, target: Vec, n: real, maxAcceleration: real, dt: real): Vec {
    Plus(output, Times(Limited(Minus(target, output), n, maxAcceleration), dt))
  }

  // ---- vector facts ----

  lemma DotTimes(u: Vec, v: Vec, k: real)
    ensures Dot(Times(u, k), v) == Scaled(k, Dot(u, v))
    ensures Dot(Times(u, k), Times(u, k)) == Scaled(Square(k), Dot(u, u))
  {
    Factor(u.x, v.x, k);
    Factor(u.y, v.y, k);
    Factor(u.z, v.z, k);
    Distribute(k, u.x * v.x, u.y * v.y, u.z * v.z, Dot(u, v));
    Distribute(Square(k), u.x * u.x, u.y * u.y, u.z * u.z, Dot(u, u));
  }

  lemma Factor(a: real, b: real, k: real)
    ensures (a * k) * b == Scaled(k, a * b) && (a * k) * (a * k) == Scaled(Square(k), a * a)
  {}

  lemma Distribute(k: real, a: real, b: real, c: real, sum: real)
    requires sum == a + b + c
    ensures Scaled(k, sum) == Scaled(k, a) + Scaled(k, b) + Scaled(k, c)
  {}

  lemma DotMinus(u: Vec, v: Vec)
    ensures Dot(Minus(u, v), Minus(u, v)) == Dot(u, u) - 2.0 * Dot(u, v) + Dot(v, v)
  {
    assert (u.x - v.x) * (u.x - v.x) == u.x * u.x - 2.0 * (u.x * v.x) + v.x * v.x;
    assert (u.y - v.y) * (u.y - v.y) == u.y * u.y - 2.0 * (u.y * v.y) + v.y * v.y;
    assert (u.z - v.z) * (u.z - v.z) == u.z * u.z - 2.0 * (u.z * v.z) + v.z * v.z;
  }

  /** The identity of Lagrange. */
  lemma Lagrange(u: Vec, v: Vec)
    ensures Scaled(Dot(u, u), Dot(v, v)) - Square(Dot(u, v)) ==
            Square(u.x * v.y - u.y * v.x) + Square(u.x * v.z - u.z * v.x) + Square(u.y * v.z - u.z * v.y)
  {}

  /** The Cauchy-Schwarz inequality. */
  lemma CauchySchwarz(u: Vec, v: Vec)
    ensures Square(Dot(u, v)) <= Scaled(Dot(u, u), Dot(v, v))
  {
    Lagrange(u, v);
    SquareNonNegative(u.x * v.y - u.y * v.x);
    SquareNonNegative(u.x * v.z - u.z * v.x);
    SquareNonNegative(u.y * v.z - u.z * v.y);
  }

  /** A vector of norm n makes a product of at most n * m with one no longer than m. */
  lemma DotBound(u: Vec, n: real, v: Vec, m: real)
    requires IsNorm(n, u) && Within(v, m) && m >= 0.0
    ensures Dot(u, v) <= Scaled(n, m)
  {
    CauchySchwarz(u, v);
    SquareNonNegative(n);
    ScaledMono(Dot(v, v), Square(m), Square(n));
    assert Scaled(Dot(v, v), Square(n)) == Scaled(Square(n), Dot(v, v));
    SquareOfProduct(n, m);
    ScaledMono(0.0, n, m);
    ScaledUnits(m);
    SquareOrder(Dot(u, v), Scaled(n, m));
  }

  /** Cutting to length m is scaling by min(1, m/n). */
  lemma LimitedIsScaled(v: Vec, n: real, m: real)
    requires IsNorm(n, v) && n > 0.0
    ensures Limited(v, n, m) == Times(v, Min(n, m) / n)
  {
    var k := Min(n, m);
    QuotientTimes(v.x, n, k);
    QuotientTimes(v.y, n, k);
    QuotientTimes(v.z, n, k);
  }

  lemma QuotientTimes(a: real, n: real, k: real)
    requires n > 0.0
    ensures a / n * k == a * (k / n)
  {
    var p, q := a / n, k / n;
    DivScaled(a, n);
    DivScaled(k, n);
    assert p * k == p * (q * n) by { assert q * n == k; }
    assert a * q == (p * n) * q by { assert p * n == a; }
    assert p * (q * n) == (p * n) * q;
  }

  lemma ZeroVector(v: Vec)
    requires Dot(v, v) == 0.0
    ensures v == ZERO
  {
    assert Dot(v, v) == Square(v.x) + Square(v.y) + Square(v.z);
    SquareNonNegative(v.x);
    SquareNonNegative(v.y);
    SquareNonNegative(v.z);
    if v.x != 0.0 { SquarePositive(v.x); }
    if v.y != 0.0 { SquarePositive(v.y); }
    if v.z != 0.0 { SquarePositive(v.z); }
  }

  /** The result of cutting is never longer than m, and a vector no longer than m is left alone. */
  lemma LimitedLength(v: Vec, n: real, m: real)
    requires IsNorm(n, v) && m >= 0.0
    ensures Within(Limited(v, n, m), m)
    ensures n <= m ==> Limited(v, n, m) == v
  {
    if n > 0.0 {
      var k := Min(n, m);
      var q := k / n;
      LimitedIsScaled(v, n, m);
      DotTimes(v, v, q);
      DivScaled(k, n);
      SquareOfProduct(q, n);
      assert Dot(Limited(v, n, m), Limited(v, n, m)) == Square(k);
      SquareMono(k, m);
      if n <= m {
        DivScaled(n, n);
        SelfQuotient(n);
        assert Times(v, 1.0) == v;
      }
    } else {
      ZeroVector(v);
      SquareNonNegative(m);
    }
  }

  lemma SelfQuotient(n: real)
    requires n > 0.0
    ensures n / n == 1.0
  {}

  /** Cutting to a ball does not move a point away from any point of the ball. */
  lemma LimitedNonExpansive(x: Vec, n: real, m: real, w: Vec)
    requires IsNorm(n, x) && m >= 0.0 && Within(w, m)
    ensures var p := Minus(Limited(x, n, m), w);
            Dot(p, p) <= Dot(Minus(x, w), Minus(x, w))
  {
    if n <= m {
      LimitedLength(x, n, m);
    } else {
      var s := m / n;
      LimitedIsScaled(x, n, m);
      DotTimes(x, w, s);
      DotMinus(x, w);
      DotMinus(Times(x, s), w);
      DotBound(x, n, w, m);
      DivScaled(m, n);
      FractionBelowOne(m, n);
      Shrink(s, Dot(x, w), Square(n));
      assert Scaled(s, Square(n)) == Scaled(n, m) by {
        ScaledAssoc(s, n, n);
        assert Scaled(n, n) == Square(n) && Scaled(m, n) == Scaled(n, m);
      }
    }
  }

  lemma FractionBelowOne(m: real, n: real)
    requires 0.0 <= m < n
    ensures 0.0 <= m / n < 1.0
  {
    DivMono(0.0, m, n);
    DivScaled(m, n);
    ScaledUnits(n);
    var q := m / n;
    if q >= 1.0 { ScaledMono(1.0, q, n); }
  }

  /** The inequality behind non-expansiveness, with d the inner product and e the squared norm. */
  lemma Shrink(s: real, d: real, e: real)
    requires 0.0 <= s <= 1.0 && e >= 0.0
    ensures d <= Scaled(s, e) ==> Scaled(Square(s), e) - 2.0 * Scaled(s, d) <= e - 2.0 * d
  {
    var k := 1.0 - s;
    if d <= Scaled(s, e) {
      ScaledMono(d, Scaled(s, e), 2.0 * k);
      SquareNonNegative(k);
      ScaledMono(0.0, Square(k), e);
      ScaledUnits(e);
      // (e - 2d) - (s*s*e - 2sd) == k*k*e + 2k*(s*e - d)
      calc {
        (e - 2.0 * d) - (s * s * e - 2.0 * (s * d));
        (1.0 - s) * (1.0 - s) * e + 2.0 * (1.0 - s) * (s * e - d);
      }
      assert 2.0 * k * (s * e - d) == Scaled(Scaled(s, e), 2.0 * k) - Scaled(d, 2.0 * k);
    }
  }

  class MotionProfile {
    const maxVelocity: real
    const maxAcceleration: real
    const deltaTime: real
    var output: Vec
    var actualAcceleration: Vec

    constructor (maxVelocity: real, maxAcceleration: real, deltaTime: real)
      ensures output == ZERO && this.maxVelocity == maxVelocity
      ensures this.maxAcceleration == maxAcceleration && this.deltaTime == deltaTime
    {
      this.maxVelocity, this.maxAcceleration, this.deltaTime := maxVelocity, maxAcceleration, deltaTime;
      output, actualAcceleration := ZERO, ZERO;
    }

    method SetOutput(v: Vec)
      modifies this`output
      ensures output == v
    {
      output := v;
    }

    /** accelerationNorm and speed are the two square roots the code takes. The new output is within
        the speed limit; if the old one was, the acceleration is within its limit too. */
    method Calculate(flightDirection: Vec, accelerationNorm: real, speed: real) returns (result: Vec)
      requires maxVelocity >= 0.0 && maxAcceleration >= 0.0 && deltaTime > 0.0
      requires IsNorm(accelerationNorm, Minus(flightDirection, output))
      requires IsNorm(speed, Accelerated(output, flightDirection, accelerationNorm, maxAcceleration, deltaTime))
      modifies this
      ensures var wanted := Accelerated(old(output), flightDirection, accelerationNorm, maxAcceleration, deltaTime);
              output == Limited(wanted, speed, maxVelocity)
      ensures result == output && Within(output, maxVelocity)
      ensures actualAcceleration == Over(Minus(output, old(output)), deltaTime)
      ensures Within(old(output), maxVelocity) ==> Within(actualAcceleration, maxAcceleration)
    {
      var initialOutput := output;
      var desired := Limit(Minus(flightDirection, output), accelerationNorm, maxAcceleration);
      output := Plus(output, Times(desired, deltaTime));
      LimitedLength(output, speed, maxVelocity);
      output := Limit(output, speed, maxVelocity);
      actualAcceleration := Over(Minus(output, initialOutput), deltaTime);
      result := output;
      if Within(initialOutput, maxVelocity) {
        AccelerationBound(initialOutput, flightDirection, accelerationNorm, maxAcceleration, deltaTime,
                          speed, maxVelocity);
      }
    }
  }

  /** What the code does to both vectors: divide by the norm unless it is zero, then multiply by the
      smaller of norm and limit. */
  method Limit(v: Vec, norm: real, limit: real) returns (r: Vec)
    ensures r == Limited(v, norm, limit)
  {
    var length := Min(norm, limit);
    r := v;
    if norm > 0.0 {
      r := Over(r, norm);
    } else {
      r := ZERO;
    }
    r := Times(r, length);
  }

  lemma AccelerationBound(w: Vec, target: Vec, n: real, maxA: real, dt: real, speed: real, maxV: real)
    requires maxV >= 0.0 && maxA >= 0.0 && dt > 0.0 && Within(w, maxV) && IsNorm(n, Minus(target, w))
    requires IsNorm(speed, Accelerated(w, target, n, maxA, dt))
    ensures var out := Limited(Accelerated(w, target, n, maxA, dt), speed, maxV);
            Within(Over(Minus(out, w), dt), maxA)
  {
    var a := Limited(Minus(target, w), n, maxA);
    var wanted := Accelerated(w, target, n, maxA, dt);
    var out := Limited(wanted, speed, maxV);
    LimitedLength(Minus(target, w), n, maxA);
    LimitedNonExpansive(wanted, speed, maxV, w);
    assert Minus(wanted, w) == Times(a, dt);
    DotTimes(a, a, dt);
    var step := Minus(out, w);
    var acc := Over(step, dt);
    DivScaled(step.x, dt);
    DivScaled(step.y, dt);
    DivScaled(step.z, dt);
    assert step == Times(acc, dt);
    DotTimes(acc, acc, dt);
    SquareNonNegative(dt);
    SquareStrict(dt, 0.0);
    // Square(dt) * acc.acc <= Square(dt) * a.a
    CancelSquare(Square(dt), Dot(acc, acc), Dot(a, a));
  }

  lemma CancelSquare(k: real, a: real, b: real)
    requires k > 0.0 && Scaled(k, a) <= Scaled(k, b)
    ensures a <= b
  {
    assert Scaled(b, k) == Scaled(k, b) && Scaled(a, k) == Scaled(k, a);
    if b < a { ScaledStrict(b, a, k); }
  }

  // ---- towards the target ----

  lemma Remainder(w: real, t: real, q: real, dt: real)
    ensures w + (t - w) * q * dt - t == (w - t) * (1.0 - Scaled(q, dt))
  {}

  lemma TowardsBy(w: Vec, target: Vec, q: real, dt: real)
    ensures Minus(Plus(w, Times(Times(Minus(target, w), q), dt)), target) ==
            Times(Minus(w, target), 1.0 - Scaled(q, dt))
  {
    Remainder(w.x, target.x, q, dt);
    Remainder(w.y, target.y, q, dt);
    Remainder(w.z, target.z, q, dt);
  }

  /** Cutting to a length scales by a factor between 0 and 1, which is 1 for short vectors. */
  lemma LimitedFactor(d: Vec, n: real, m: real) returns (q: real)
    requires m >= 0.0 && IsNorm(n, d)
    ensures 0.0 <= q <= 1.0 && Limited(d, n, m) == Times(d, q) && (n <= m ==> q == 1.0)
  {
    if n > 0.0 {
      q := Min(n, m) / n;
      LimitedIsScaled(d, n, m);
      Fraction(Min(n, m), n);
    } else {
      q := 1.0;
      ZeroVector(d);
      ZeroLimited(m);
    }
  }

  lemma Fraction(k: real, n: real)
    requires 0.0 <= k <= n && n > 0.0
    ensures 0.0 <= k / n <= 1.0 && (k == n ==> k / n == 1.0)
  {
    SelfQuotient(n);
    DivMono(0.0, k, n);
    DivMono(k, n, n);
    DivScaled(0.0, n);
  }

  lemma ZeroLimited(m: real)
    ensures Limited(ZERO, 0.0, m) == Times(ZERO, 1.0) == ZERO
  {}

  /** Accelerating takes the difference to the target down by a factor between 1 and 1 - dt. */
  lemma AcceleratedTowards(w: Vec, target: Vec, n: real, maxA: real, dt: real) returns (k: real)
    requires maxA >= 0.0 && 0.0 < dt <= 2.0 && IsNorm(n, Minus(target, w))
    ensures -1.0 <= k <= 1.0 && Minus(Accelerated(w, target, n, maxA, dt), target) == Times(Minus(w, target), k)
    ensures n <= maxA ==> k == 1.0 - dt
  {
    var q := LimitedFactor(Minus(target, w), n, maxA);
    ScaledMono(0.0, q, dt);
    ScaledMono(q, 1.0, dt);
    ScaledUnits(dt);
    k := 1.0 - Scaled(q, dt);
    TowardsBy(w, target, q, dt);
  }

  lemma AcceleratedNearer(w: Vec, target: Vec, n: real, maxA: real, dt: real)
    requires maxA >= 0.0 && 0.0 < dt <= 2.0 && IsNorm(n, Minus(target, w))
    ensures var gap := Minus(Accelerated(w, target, n, maxA, dt), target);
            Dot(gap, gap) <= Dot(Minus(w, target), Minus(w, target)) &&
            (dt == 1.0 && n <= maxA ==> Dot(gap, gap) == 0.0)
  {
    var k := AcceleratedTowards(w, target, n, maxA, dt);
    var d := Minus(w, target);
    DotTimes(d, d, k);
    Magnitudes(d);
    UnitSquare(k);
    ScaledMono(Square(k), 1.0, Dot(d, d));
    ScaledUnits(Dot(d, d));
    if k == 0.0 { assert Square(k) == 0.0; }
  }

  /** The velocity moves towards a target within the speed limit: with a time step of at most two, it is never
      farther from it after a call than before; and with a step of one and the target within reach of the
      acceleration limit, it gets there. */
  lemma Approaches(w: Vec, target: Vec, n: real, maxA: real, dt: real, speed: real, maxV: real)
    requires maxV >= 0.0 && maxA >= 0.0 && 0.0 < dt <= 2.0 && Within(target, maxV) && IsNorm(n, Minus(target, w))
    requires IsNorm(speed, Accelerated(w, target, n, maxA, dt))
    ensures var gap := Minus(Limited(Accelerated(w, target, n, maxA, dt), speed, maxV), target);
            Dot(gap, gap) <= Dot(Minus(w, target), Minus(w, target)) && (dt == 1.0 && n <= maxA ==> gap == ZERO)
  {
    var wanted := Accelerated(w, target, n, maxA, dt);
    var gap := Minus(Limited(wanted, speed, maxV), target);
    LimitedNonExpansive(wanted, speed, maxV, target);
    AcceleratedNearer(w, target, n, maxA, dt);
    Magnitudes(gap);
    if Dot(gap, gap) == 0.0 { ZeroVector(gap); }
  }

  lemma Magnitudes(v: Vec)
    ensures Dot(v, v) >= 0.0
  {
    SquareNonNegative(v.x);
    SquareNonNegative(v.y);
    SquareNonNegative(v.z);
  }

  lemma UnitSquare(k: real)
    requires -1.0 <= k <= 1.0
    ensures Square(k) <= 1.0
  {
    if k >= 0.0 { SquareMono(k, 1.0); } else {
      SquareMono(-k, 1.0);
      assert Square(-k) == Square(k);
    }
  }

  // ---- runs ----

  /** One call of Calculate with its two square roots. */
  datatype Call = Call(target: Vec, accelerationNorm: real, speed: real)

  function Next(output: Vec, c: Call, maxV: real, maxA: real, dt: real): Vec {
    Limited(Accelerated(output, c.target, c.accelerationNorm, maxA, dt), c.speed, maxV)
  }

  predicate RootsRight(output: Vec, c: Call, maxA: real, dt: real) {
    IsNorm(c.accelerationNorm, Minus(c.target, output)) &&
    IsNorm(c.speed, Accelerated(output, c.target, c.accelerationNorm, maxA, dt))
  }

  function After(output: Vec, calls: seq<Call>, maxV: real, maxA: real, dt: real): Vec {
    if calls == [] then output
    else Next(After(output, calls[..|calls| - 1], maxV, maxA, dt), calls[|calls| - 1], maxV, maxA, dt)
  }

  /** Over any sequence of targets, from any output within the speed limit, the speed limit and the
      acceleration limit hold at every call. */
  lemma {:induction false} AlwaysLimited(output: Vec, calls: seq<Call>, maxV: real, maxA: real, dt: real, k: nat)
    requires maxV >= 0.0 && maxA >= 0.0 && dt > 0.0 && Within(output, maxV) && k <= |calls|
    requires forall i :: 0 <= i < |calls| ==> RootsRight(After(output, calls[..i], maxV, maxA, dt), calls[i], maxA, dt)
    ensures Within(After(output, calls[..k], maxV, maxA, dt), maxV)
    ensures k < |calls| ==>
              var before := After(output, calls[..k], maxV, maxA, dt);
              Within(Over(Minus(Next(before, calls[k], maxV, maxA, dt), before), dt), maxA)
  {
    if k > 0 {
      AlwaysLimited(output, calls, maxV, maxA, dt, k - 1);
      var before := After(output, calls[..k - 1], maxV, maxA, dt);
      var c := calls[k - 1];
      assert calls[..k][..k - 1] == calls[..k - 1];
      LimitedLength(Accelerated(before, c.target, c.accelerationNorm, maxA, dt), c.speed, maxV);
    }
    if k < |calls| {
      var c := calls[k];
      var before := After(output, calls[..k], maxV, maxA, dt);
      AccelerationBound(before, c.target, c.accelerationNorm, maxA, dt, c.speed, maxV);
    }
  }
}
