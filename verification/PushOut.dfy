/** The obstacles of a mission and how the start is pushed out of them (the first loop of Process in
    rrt_avoidance.cc). */
module StartPushes {
  import opened Wrappers
  import opened Geometry
  import MotionProfiles

  /** The square root of the C library, on exact numbers. */
  type Root = real -> real

  ghost predicate IsRoot(sqrt: Root) {
    forall v: real :: v >= 0.0 ==> sqrt(v) >= 0.0 && Square(sqrt(v)) == v
  }

  lemma RootOfSquare(sqrt: Root, a: real)
    requires IsRoot(sqrt) && a >= 0.0
    ensures sqrt(Square(a)) == a
  {
    SquareNonNegative(a);
    SquareOrder(a, sqrt(Square(a)));
    SquareOrder(sqrt(Square(a)), a);
  }

  datatype Obstacle = Obstacle(centre: Point, cylinderRadius: real) {
    /** In metres. */
    function Radius(): real { cylinderRadius * 0.3548 }
  }

  function DistanceSquared(p: Point, q: Point): real { Square(p.x - q.x) + Square(p.y - q.y) }

  /** The distance between two places in metres. */
  function Gap(sqrt: Root, p: Point, q: Point, metres: real): real {
    Scaled(sqrt(DistanceSquared(p, q)), metres)
  }

  // ---- pushing the start out ----

  /** A start within 1.2 radii is moved away from the centre to 1.4 radii. At the very centre there is
      no direction to move in, and the code computes not-a-number. */
  function PushedBy(sqrt: Root, start: Point, o: Obstacle, metres: real): Option<Point> {
    var dx, dy := o.centre.x - start.x, o.centre.y - start.y;
    var distance := Gap(sqrt, o.centre, start, metres);
    if distance >= 1.2 * o.Radius() then Some(start)
    else if distance == 0.0 then None
    else
      var factor := 1.4 * o.Radius() / distance;
      Some(Point(o.centre.x - Scaled(dx, factor), o.centre.y - Scaled(dy, factor)))
  }

  /** The obstacles push one after the other. */
  function PushedOut(sqrt: Root, start: Point, obstacles: seq<Obstacle>, metres: real): Option<Point> {
    if obstacles == [] then Some(start) else
      var before := PushedOut(sqrt, start, obstacles[..|obstacles| - 1], metres);
      if before.None? then None else PushedBy(sqrt, before.value, obstacles[|obstacles| - 1], metres)
  }

  /** p is at least r metres from q. */
  predicate Away(p: Point, q: Point, metres: real, r: real) {
    Scaled(DistanceSquared(p, q), Square(metres)) >= Square(r)
  }

  /** After its turn, an obstacle has the start at least 1.2 radii away. */
  lemma PushedByClears(sqrt: Root, start: Point, o: Obstacle, metres: real)
    requires IsRoot(sqrt) && metres > 0.0 && o.Radius() >= 0.0 && PushedBy(sqrt, start, o, metres).Some?
    ensures Away(PushedBy(sqrt, start, o, metres).value, o.centre, metres, 1.2 * o.Radius())
  {
    var end := PushedBy(sqrt, start, o, metres).value;
    if Gap(sqrt, o.centre, start, metres) < 1.2 * o.Radius() {
      var _ := OnePush(sqrt, start, o, metres);
    }
    GapFacts(sqrt, end, o.centre, metres);
    AwayIffGap(sqrt, end, o.centre, metres, 1.2 * o.Radius());
  }

  lemma SumScaled(a: real, b: real, c: real)
    ensures Scaled(a, c) + Scaled(b, c) == Scaled(a + b, c)
  {}

  // ---- when every obstacle ends up cleared ----

  lemma GapFacts(sqrt: Root, p: Point, q: Point, metres: real)
    requires IsRoot(sqrt) && metres > 0.0
    ensures Gap(sqrt, p, q, metres) >= 0.0 && Gap(sqrt, p, q, metres) == Gap(sqrt, q, p, metres)
    ensures Square(Gap(sqrt, p, q, metres)) == Scaled(DistanceSquared(p, q), Square(metres))
  {
    SquareNonNegative(p.x - q.x);
    SquareNonNegative(p.y - q.y);
    SquareOfNegative(p.x - q.x);
    SquareOfNegative(p.y - q.y);
    var n := sqrt(DistanceSquared(p, q));
    ScaledMono(0.0, n, metres);
    ScaledUnits(metres);
    SquareOfProduct(n, metres);
  }

  lemma AwayIffGap(sqrt: Root, p: Point, q: Point, metres: real, r: real)
    requires IsRoot(sqrt) && metres > 0.0 && r >= 0.0
    ensures Away(p, q, metres, r) <==> Gap(sqrt, p, q, metres) >= r
  {
    var gap := Gap(sqrt, p, q, metres);
    GapFacts(sqrt, p, q, metres);
    if gap >= r { SquareMono(r, gap); } else { SquareStrict(r, gap); }
  }

  /** The farther of two places is so in degrees and in metres. */
  lemma GapOrder(sqrt: Root, a: Point, p: Point, q: Point, metres: real)
    requires IsRoot(sqrt) && metres > 0.0
    ensures Gap(sqrt, a, p, metres) <= Gap(sqrt, a, q, metres) <==> DistanceSquared(a, p) <= DistanceSquared(a, q)
  {
    RootNonNegative(sqrt, a, p);
    RootNonNegative(sqrt, a, q);
    var n, m := sqrt(DistanceSquared(a, p)), sqrt(DistanceSquared(a, q));
    if n <= m {
      SquareMono(n, m);
      ScaledMono(n, m, metres);
    } else {
      SquareStrict(n, m);
      ScaledStrict(m, n, metres);
    }
  }

  lemma RootNonNegative(sqrt: Root, p: Point, q: Point)
    requires IsRoot(sqrt)
    ensures DistanceSquared(p, q) >= 0.0
    ensures sqrt(DistanceSquared(p, q)) >= 0.0 && Square(sqrt(DistanceSquared(p, q))) == DistanceSquared(p, q)
  {
    SquareNonNegative(p.x - q.x);
    SquareNonNegative(p.y - q.y);
  }

  /** The triangle inequality. */
  lemma Triangle(sqrt: Root, a: Point, b: Point, c: Point, metres: real)
    requires IsRoot(sqrt) && metres > 0.0
    ensures Gap(sqrt, a, c, metres) <= Gap(sqrt, a, b, metres) + Gap(sqrt, b, c, metres)
  {
    RootNonNegative(sqrt, a, b);
    RootNonNegative(sqrt, b, c);
    RootNonNegative(sqrt, a, c);
    var n, m, k := sqrt(DistanceSquared(a, b)), sqrt(DistanceSquared(b, c)), sqrt(DistanceSquared(a, c));
    var u, v := MotionProfiles.Vec(a.x - b.x, a.y - b.y, 0.0), MotionProfiles.Vec(b.x - c.x, b.y - c.y, 0.0);
    var d := MotionProfiles.Dot(u, v);
    MotionProfiles.CauchySchwarz(u, v);
    PlanarDots(a, b, c, u, v);
    SquareOfProduct(n, m);
    ScaledMono(0.0, n, m);
    ScaledUnits(m);
    SquareOrder(d, Scaled(n, m));
    SquareOfSum(n, m);
    SquareOrder(k, n + m);
    ScaledMono(k, n + m, metres);
    SumScaled(n, m, metres);
  }

  lemma PlanarDots(a: Point, b: Point, c: Point, u: MotionProfiles.Vec, v: MotionProfiles.Vec)
    requires u == MotionProfiles.Vec(a.x - b.x, a.y - b.y, 0.0) && v == MotionProfiles.Vec(b.x - c.x, b.y - c.y, 0.0)
    ensures MotionProfiles.Dot(u, u) == DistanceSquared(a, b) && MotionProfiles.Dot(v, v) == DistanceSquared(b, c)
    ensures DistanceSquared(a, c) == DistanceSquared(a, b) + 2.0 * MotionProfiles.Dot(u, v) + DistanceSquared(b, c)
  {
    SquareOfSum(a.x - b.x, b.x - c.x);
    SquareOfSum(a.y - b.y, b.y - c.y);
  }

  lemma SquareOfSum(a: real, b: real)
    ensures Square(a + b) == Square(a) + 2.0 * Scaled(a, b) + Square(b)
  {}

  /** A disc is convex: between a point of it and a point strictly inside, one is strictly inside. */
  lemma DiscConvex(a: Point, p: Point, q: Point, t: real, w: real)
    requires 0.0 < t <= 1.0 && DistanceSquared(a, p) <= w && DistanceSquared(a, q) < w
    ensures DistanceSquared(a, Between(p, q, t)) < w
  {
    var d, e := DistanceSquared(a, p), DistanceSquared(a, q);
    AxisConvex(a.x, p.x, q.x, t);
    AxisConvex(a.y, p.y, q.y, t);
    SumScaled(Square(a.x - p.x), Square(a.y - p.y), 1.0 - t);
    SumScaled(Square(a.x - q.x), Square(a.y - q.y), t);
    ScaledMono(d, w, 1.0 - t);
    ScaledStrict(e, w, t);
    assert Scaled(w, 1.0 - t) + Scaled(w, t) == w;
  }

  lemma AxisConvex(a: real, p: real, q: real, t: real)
    requires 0.0 <= t <= 1.0
    ensures Square(a - Lerp(p, q, t)) <= Scaled(Square(a - p), 1.0 - t) + Scaled(Square(a - q), t)
  {
    SquareNonNegative(p - q);
    var k := Scaled(t, 1.0 - t);
    ScaledMono(0.0, t, 1.0 - t);
    ScaledUnits(1.0 - t);
    ScaledMono(0.0, k, Square(p - q));
    ScaledUnits(Square(p - q));
    calc {
      Scaled(Square(a - p), 1.0 - t) + Scaled(Square(a - q), t) - Square(a - Lerp(p, q, t));
      ((a - p) * (a - p)) * (1.0 - t) + ((a - q) * (a - q)) * t - (a - p - t * (q - p)) * (a - p - t * (q - p));
      (t * (1.0 - t)) * ((p - q) * (p - q));
      Scaled(k, Square(p - q));
    }
  }

  /** What one push does: the start lies between the centre and the place it is pushed to, which is 1.4
      radii from the centre. */
  lemma OnePush(sqrt: Root, start: Point, o: Obstacle, metres: real) returns (t: real)
    requires IsRoot(sqrt) && metres > 0.0 && o.Radius() >= 0.0
    requires Gap(sqrt, o.centre, start, metres) < 1.2 * o.Radius() && PushedBy(sqrt, start, o, metres).Some?
    ensures var end := PushedBy(sqrt, start, o, metres).value;
            Gap(sqrt, o.centre, end, metres) == 1.4 * o.Radius() &&
            0.0 < t <= 1.0 && Between(o.centre, end, t) == start
  {
    var r, distance := o.Radius(), Gap(sqrt, o.centre, start, metres);
    GapFacts(sqrt, o.centre, start, metres);
    var factor := 1.4 * r / distance;
    DivScaled(1.4 * r, distance);
    DivMono(distance, 1.4 * r, distance);
    Self(distance);
    var end := PushedBy(sqrt, start, o, metres).value;
    var dx, dy := o.centre.x - start.x, o.centre.y - start.y;
    t := 1.0 / factor;
    DivScaled(1.0, factor);
    DivMono(1.0, factor, factor);
    Self(factor);
    Reciprocal(factor);
    ScaledBack(dx, factor, t);
    ScaledBack(dy, factor, t);
    assert Between(o.centre, end, t) == start;
    StretchedGap(sqrt, o.centre, start, end, factor, metres);
  }

  lemma Self(v: real)
    requires v > 0.0
    ensures v / v == 1.0
  {}

  lemma Reciprocal(v: real)
    requires v > 0.0
    ensures 1.0 / v > 0.0
  {}

  lemma ScaledBack(d: real, factor: real, t: real)
    requires Scaled(t, factor) == 1.0
    ensures Scaled(t, -Scaled(d, factor)) == -d
  {
    assert t * (d * factor) == d * (t * factor);
  }

  /** Stretching the way from c to p by a factor stretches the distance. */
  lemma StretchedGap(sqrt: Root, c: Point, p: Point, q: Point, factor: real, metres: real)
    requires IsRoot(sqrt) && metres > 0.0
    requires c.x - q.x == Scaled(c.x - p.x, factor) && c.y - q.y == Scaled(c.y - p.y, factor)
    ensures Gap(sqrt, c, q, metres) == Scaled(if factor >= 0.0 then factor else -factor, Gap(sqrt, c, p, metres))
  {
    RootNonNegative(sqrt, c, p);
    var n, f := sqrt(DistanceSquared(c, p)), if factor >= 0.0 then factor else -factor;
    SquareOfNegative(factor);
    SquareOfProduct(c.x - p.x, factor);
    SquareOfProduct(c.y - p.y, factor);
    SumScaled(Square(c.x - p.x), Square(c.y - p.y), Square(factor));
    SquareOfProduct(n, f);
    ScaledMono(0.0, n, f);
    ScaledUnits(f);
    assert Square(f) == Square(factor) && Scaled(n, f) >= 0.0;
    assert DistanceSquared(c, q) == Scaled(DistanceSquared(c, p), Square(factor));
    RootOfSquare(sqrt, Scaled(n, f));
    assert (n * f) * metres == f * (n * metres);
  }

  /** The later obstacle b cannot push a start into the margin of the earlier a: it is far enough away,
      its centre lies within the margin, or a with its margin is well within it. */
  predicate Compatible(sqrt: Root, a: Obstacle, b: Obstacle, metres: real) {
    var d := Gap(sqrt, a.centre, b.centre, metres);
    d >= 1.2 * a.Radius() + 1.4 * b.Radius() || d <= 1.2 * a.Radius() || d <= 1.4 * b.Radius() - 1.2 * a.Radius()
  }

  predicate ClearOfMargin(sqrt: Root, p: Point, o: Obstacle, metres: real) {
    Gap(sqrt, o.centre, p, metres) >= 1.2 * o.Radius()
  }

  /** A push by a compatible obstacle keeps the start clear of the earlier one. */
  lemma PushKeepsClear(sqrt: Root, start: Point, a: Obstacle, b: Obstacle, metres: real)
    requires IsRoot(sqrt) && metres > 0.0 && a.Radius() >= 0.0 && b.Radius() >= 0.0
    requires Compatible(sqrt, a, b, metres) && ClearOfMargin(sqrt, start, a, metres)
    requires PushedBy(sqrt, start, b, metres).Some?
    ensures ClearOfMargin(sqrt, PushedBy(sqrt, start, b, metres).value, a, metres)
  {
    if Gap(sqrt, b.centre, start, metres) < 1.2 * b.Radius() {
      var end := PushedBy(sqrt, start, b, metres).value;
      var t := OnePush(sqrt, start, b, metres);
      Triangle(sqrt, a.centre, end, b.centre, metres);
      Triangle(sqrt, b.centre, a.centre, end, metres);
      GapFacts(sqrt, a.centre, b.centre, metres);
      GapFacts(sqrt, end, b.centre, metres);
      if Gap(sqrt, a.centre, b.centre, metres) <= 1.2 * a.Radius() {
        GapOrder(sqrt, a.centre, b.centre, start, metres);
        GapOrder(sqrt, a.centre, start, end, metres);
        if DistanceSquared(a.centre, end) < DistanceSquared(a.centre, start) {
          DiscConvex(a.centre, b.centre, end, t, DistanceSquared(a.centre, start));
        }
      }
    }
  }

  /** If every obstacle is compatible with the later ones, every start ends up 1.2 radii away from all of
      them. */
  lemma {:induction false} AllCleared(sqrt: Root, start: Point, obstacles: seq<Obstacle>, metres: real, i: nat)
    requires IsRoot(sqrt) && metres > 0.0 && i < |obstacles|
    requires forall k :: 0 <= k < |obstacles| ==> obstacles[k].Radius() >= 0.0
    requires forall j, k :: 0 <= j < k < |obstacles| ==> Compatible(sqrt, obstacles[j], obstacles[k], metres)
    requires PushedOut(sqrt, start, obstacles, metres).Some?
    ensures ClearOfMargin(sqrt, PushedOut(sqrt, start, obstacles, metres).value, obstacles[i], metres)
  {
    var last := |obstacles| - 1;
    var before := PushedOut(sqrt, start, obstacles[..last], metres);
    if i == last {
      var o := obstacles[last];
      if Gap(sqrt, o.centre, before.value, metres) < 1.2 * o.Radius() {
        var _ := OnePush(sqrt, before.value, o, metres);
      }
    } else {
      AllCleared(sqrt, start, obstacles[..last], metres, i);
      assert Compatible(sqrt, obstacles[i], obstacles[last], metres);
      PushKeepsClear(sqrt, before.value, obstacles[i], obstacles[last], metres);
    }
  }

  predicate EndsClear(sqrt: Root, start: Point, a: Obstacle, b: Obstacle, metres: real) {
    var end := PushedOut(sqrt, start, [a, b], metres);
    end.Some? ==> ClearOfMargin(sqrt, end.value, a, metres) && ClearOfMargin(sqrt, end.value, b, metres)
  }

  /** For two obstacles the condition is exact. */
  lemma CompatibleIffCleared(sqrt: Root, a: Obstacle, b: Obstacle, metres: real)
    requires IsRoot(sqrt) && metres > 0.0 && a.Radius() >= 0.0 && b.Radius() >= 0.0
    ensures Compatible(sqrt, a, b, metres) <==> forall start :: EndsClear(sqrt, start, a, b, metres)
  {
    if Compatible(sqrt, a, b, metres) {
      forall start
        ensures EndsClear(sqrt, start, a, b, metres)
      {
        if PushedOut(sqrt, start, [a, b], metres).Some? {
          AllCleared(sqrt, start, [a, b], metres, 0);
          AllCleared(sqrt, start, [a, b], metres, 1);
        }
      }
    } else {
      var start := PushedIntoMargin(sqrt, a, b, metres);
      assert !EndsClear(sqrt, start, a, b, metres);
    }
  }

  /** A start on the line between the centres, outside the first obstacle's margin and inside the second's,
      is pushed into the first one's margin. */
  lemma PushedIntoMargin(sqrt: Root, a: Obstacle, b: Obstacle, metres: real) returns (start: Point)
    requires IsRoot(sqrt) && metres > 0.0 && a.Radius() >= 0.0 && b.Radius() >= 0.0
    requires !Compatible(sqrt, a, b, metres)
    ensures PushedOut(sqrt, start, [a, b], metres).Some?
    ensures !ClearOfMargin(sqrt, PushedOut(sqrt, start, [a, b], metres).value, a, metres)
  {
    var d := Gap(sqrt, a.centre, b.centre, metres);
    var x := if d - b.Radius() >= 1.2 * a.Radius() then d - b.Radius() else 1.2 * a.Radius();
    var t := x / d;
    DivScaled(x, d);
    DivMono(x, d, d);
    DivMono(0.0, x, d);
    Self(d);
    start := Between(a.centre, b.centre, t);
    AlongGap(sqrt, a.centre, b.centre, t, metres);
    GapFacts(sqrt, a.centre, start, metres);
    assert PushedBy(sqrt, start, a, metres) == Some(start);
    assert 0.0 < Gap(sqrt, b.centre, start, metres) == d - x < 1.2 * b.Radius();
    var end := PushedBy(sqrt, start, b, metres).value;
    var factor := 1.4 * b.Radius() / (d - x);
    DivScaled(1.4 * b.Radius(), d - x);
    var u := 1.0 - Scaled(1.0 - t, factor);
    PushedAlong(a.centre, b.centre, t, factor);
    AlongGap(sqrt, a.centre, b.centre, u, metres);
    LengthLeft(t, factor, d);
    assert Scaled(u, d) == d - 1.4 * b.Radius();
    assert Scaled(-u, d) == -Scaled(u, d);
    PushedTwice(sqrt, start, a, b, metres);
  }

  lemma LengthLeft(t: real, factor: real, d: real)
    ensures Scaled(1.0 - Scaled(1.0 - t, factor), d) == d - Scaled(factor, d - Scaled(t, d))
  {}

  lemma PushedAlong(a: Point, b: Point, t: real, factor: real)
    ensures var start, end := Between(a, b, t), Between(a, b, 1.0 - Scaled(1.0 - t, factor));
            end == Point(b.x - Scaled(b.x - start.x, factor), b.y - Scaled(b.y - start.y, factor))
  {
    AxisAlong(a.x, b.x, t, factor);
    AxisAlong(a.y, b.y, t, factor);
  }

  lemma AxisAlong(a: real, b: real, t: real, factor: real)
    ensures Lerp(a, b, 1.0 - Scaled(1.0 - t, factor)) == b - Scaled(b - Lerp(a, b, t), factor)
  {
    calc {
      a + (1.0 - (1.0 - t) * factor) * (b - a);
      b - (b - (a + t * (b - a))) * factor;
    }
  }

  /** Distances from both ends of a point on the line through a and b. */
  lemma AlongGap(sqrt: Root, a: Point, b: Point, t: real, metres: real)
    requires IsRoot(sqrt) && metres > 0.0
    ensures var p, d := Between(a, b, t), Gap(sqrt, a, b, metres);
            Gap(sqrt, a, p, metres) == (if t >= 0.0 then Scaled(t, d) else -Scaled(t, d)) &&
            (t <= 1.0 ==> Gap(sqrt, b, p, metres) == d - Scaled(t, d))
  {
    var p := Between(a, b, t);
    FromFarEnd(a.x, b.x, t);
    FromFarEnd(a.y, b.y, t);
    StretchedGap(sqrt, a, b, p, t, metres);
    GapFacts(sqrt, a, b, metres);
    var d := Gap(sqrt, a, b, metres);
    assert Scaled(-t, d) == -Scaled(t, d);
    if t <= 1.0 {
      StretchedGap(sqrt, b, a, p, 1.0 - t, metres);
      assert Scaled(1.0 - t, d) == d - Scaled(t, d);
    }
  }

  lemma FromFarEnd(a: real, b: real, t: real)
    ensures b - Lerp(a, b, t) == Scaled(b - a, 1.0 - t)
    ensures a - Lerp(a, b, t) == Scaled(a - b, t)
  {}

  /** The last obstacle of the list always ends up 1.2 radii away. */
  lemma LastObstacleCleared(sqrt: Root, start: Point, obstacles: seq<Obstacle>, metres: real)
    requires IsRoot(sqrt) && metres > 0.0 && obstacles != [] && obstacles[|obstacles| - 1].Radius() >= 0.0
    requires PushedOut(sqrt, start, obstacles, metres).Some?
    ensures var o := obstacles[|obstacles| - 1];
            Away(PushedOut(sqrt, start, obstacles, metres).value, o.centre, metres, 1.2 * o.Radius())
  {
    var before := PushedOut(sqrt, start, obstacles[..|obstacles| - 1], metres);
    PushedByClears(sqrt, before.value, obstacles[|obstacles| - 1], metres);
  }

  /** A start already clear of every obstacle is left where it is. */
  lemma {:induction false} ClearStartStays(sqrt: Root, start: Point, obstacles: seq<Obstacle>, metres: real)
    requires IsRoot(sqrt) && metres > 0.0
    requires forall i :: 0 <= i < |obstacles| ==>
               obstacles[i].Radius() >= 0.0 && Away(start, obstacles[i].centre, metres, 1.2 * obstacles[i].Radius())
    ensures PushedOut(sqrt, start, obstacles, metres) == Some(start)
  {
    if obstacles != [] {
      var o := obstacles[|obstacles| - 1];
      ClearStartStays(sqrt, start, obstacles[..|obstacles| - 1], metres);
      GapFacts(sqrt, start, o.centre, metres);
      AwayIffGap(sqrt, start, o.centre, metres, 1.2 * o.Radius());
    }
  }

  /** One push along an axis, from distance d. */
  lemma PushedAlongAxis(sqrt: Root, x: real, o: Obstacle, d: real, factor: real)
    requires IsRoot(sqrt) && o.centre.y == 0.0 && 0.0 < d < 1.2 * o.Radius()
    requires (o.centre.x - x == d || o.centre.x - x == -d) && Scaled(factor, d) == 1.4 * o.Radius()
    ensures PushedBy(sqrt, Point(x, 0.0), o, 1.0) ==
              Some(Point(o.centre.x - Scaled(o.centre.x - x, factor), 0.0))
  {
    var dx, far := o.centre.x - x, 1.4 * o.Radius();
    SquareOfNegative(dx);
    RootOfSquare(sqrt, d);
    ZeroTerms(dx, d, far / d);
    DivScaled(far, d);
    SameFactor(factor, far / d, d);
  }

  lemma SameFactor(a: real, b: real, d: real)
    requires d > 0.0 && Scaled(a, d) == Scaled(b, d)
    ensures a == b
  {
    if a < b { ScaledStrict(a, b, d); } else if b < a { ScaledStrict(b, a, d); }
  }

  lemma ZeroTerms(a: real, d: real, f: real)
    ensures Square(a) + Square(0.0) == Square(a) && Scaled(d, 1.0) == d && Scaled(0.0, f) == 0.0
  {}

  /** An earlier obstacle is not safe from a later one: here the second, 15 m further on, throws the
      start back to within 1 m of the centre of the first, both of radius 10 m. */
  lemma LaterObstaclePushesBack(sqrt: Root, a: Obstacle, b: Obstacle)
    requires IsRoot(sqrt) && a.Radius() == b.Radius() == 10.0
    requires a.centre == Point(0.0, 0.0) && b.centre == Point(15.0, 0.0)
    ensures PushedOut(sqrt, Point(5.0, 0.0), [a, b], 1.0) == Some(Point(1.0, 0.0))
    ensures !Away(Point(1.0, 0.0), a.centre, 1.0, a.Radius())
  {
    Products();
    PushedAlongAxis(sqrt, 5.0, a, 5.0, 2.8);
    PushedAlongAxis(sqrt, 14.0, b, 1.0, 14.0);
    PushedTwice(sqrt, Point(5.0, 0.0), a, b, 1.0);
  }

  lemma Products()
    ensures Scaled(2.8, 5.0) == 14.0 && Scaled(14.0, 1.0) == 14.0 && Scaled(-5.0, 2.8) == -14.0
    ensures Scaled(1.0, 14.0) == 14.0
    ensures !Away(Point(1.0, 0.0), Point(0.0, 0.0), 1.0, 10.0)
  {}

  lemma PushedOnce(sqrt: Root, start: Point, o: Obstacle, metres: real)
    ensures PushedOut(sqrt, start, [o], metres) == PushedBy(sqrt, start, o, metres)
  {
    assert [o][..0] == [];
  }

  lemma PushedTwice(sqrt: Root, start: Point, a: Obstacle, b: Obstacle, metres: real)
    ensures var p := PushedBy(sqrt, start, a, metres);
            PushedOut(sqrt, start, [a, b], metres) == if p.None? then None else PushedBy(sqrt, p.value, b, metres)
  {
    assert [a, b][..1] == [a] && [a][..0] == [];
    assert PushedOut(sqrt, start, [a], metres) == PushedBy(sqrt, start, a, metres);
  }

  lemma SquareOfNegative(r: real)
    ensures Square(-r) == Square(r)
  {}

  method PushOut(sqrt: Root, start: Point, obstacles: seq<Obstacle>, metres: real) returns (origin: Option<Point>)
    ensures origin == PushedOut(sqrt, start, obstacles, metres)
  {
    origin := Some(start);
    for i := 0 to |obstacles|
      invariant origin == PushedOut(sqrt, start, obstacles[..i], metres)
    {
      assert obstacles[..i + 1][..i] == obstacles[..i];
      if origin.Some? {
        origin := PushedBy(sqrt, origin.value, obstacles[i], metres);
      }
    }
    assert obstacles[..|obstacles|] == obstacles;
  }
}
