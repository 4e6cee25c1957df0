/** Points of the plane, exact real arithmetic, and C++'s conversion of a double to an int. */
module Geometry {

  datatype Point = Point(x: real, y: real)

  function Scaled(t: real, d: real): real { t * d }

  function Lerp(a: real, b: real, t: real): real { a + Scaled(t, b - a) }

  /** The convex combination (1-t)*from + t*to. */
  function Between(from: Point, to: Point, t: real): Point {
    Point(Lerp(from.x, to.x, t), Lerp(from.y, to.y, t))
  }

  /** Conversion of a double to an int: the fraction is dropped, towards zero. */
  function Trunc(r: real): int {
    if r >= 0.0 then r.Floor else -((-r).Floor)
  }

  predicate InRange(n: real, min: real, max: real) { min <= n <= max }

  /** The two-dimensional Euclidean distance between p and q is less than d. */
  predicate CloserThan(p: Point, q: Point, d: real) {
    var dx, dy := p.x - q.x, p.y - q.y;
    d > 0.0 && dx * dx + dy * dy < d * d
  }

  // Facts about products, stated over Scaled so that the solver meets them as terms.

  lemma ScaledMono(a: real, b: real, c: real)
    requires a <= b && c >= 0.0
    ensures Scaled(a, c) <= Scaled(b, c)
  {}

  lemma ScaledStrict(a: real, b: real, c: real)
    requires a < b && c > 0.0
    ensures Scaled(a, c) < Scaled(b, c)
  {}

  lemma ScaledAssoc(a: real, b: real, c: real)
    ensures Scaled(Scaled(a, b), c) == Scaled(a, Scaled(b, c))
  {}

  lemma ScaledUnits(c: real)
    ensures Scaled(0.0, c) == 0.0 && Scaled(1.0, c) == c
  {}

  lemma DivScaled(a: real, b: real)
    requires b != 0.0
    ensures Scaled(a / b, b) == a
    ensures Scaled(b, a / b) == a
  {}

  lemma DivMono(a: real, b: real, c: real)
    requires a <= b && c > 0.0
    ensures a / c <= b / c
  {
    var qa, qb := a / c, b / c;
    DivScaled(a, c);
    DivScaled(b, c);
    if qa > qb { ScaledStrict(qb, qa, c); }
  }

  lemma ScaleBounds(t: real, d: real)
    requires 0.0 <= t <= 1.0
    ensures 0.0 <= Scaled(t, d) <= d || d <= Scaled(t, d) <= 0.0
  {
    var e := -d;
    assert Scaled(t, e) == -Scaled(t, d);
    ScaledUnits(d);
    ScaledUnits(e);
    if d >= 0.0 {
      ScaledMono(0.0, t, d);
      ScaledMono(t, 1.0, d);
    } else {
      ScaledMono(0.0, t, e);
      ScaledMono(t, 1.0, e);
    }
  }

  lemma LerpBounds(a: real, b: real, t: real)
    requires 0.0 <= t <= 1.0
    ensures a <= Lerp(a, b, t) <= b || b <= Lerp(a, b, t) <= a
  {
    ScaleBounds(t, b - a);
  }

  function Square(r: real): real { r * r }

  lemma SquareNonNegative(r: real)
    ensures Square(r) >= 0.0
  {}

  lemma SquarePositive(r: real)
    requires r != 0.0
    ensures Square(r) > 0.0
  {
    if r > 0.0 { ScaledStrict(0.0, r, r); } else { ScaledStrict(0.0, -r, -r); }
    assert Scaled(r, r) == Square(r) == Scaled(-r, -r);
    ScaledUnits(r);
    ScaledUnits(-r);
  }

  lemma SquareOrder(a: real, b: real)
    requires Square(a) <= Square(b) && b >= 0.0
    ensures a <= b
  {
    if a > b {
      ScaledMono(b, a, b);
      SquareStrict(a, b);
    }
  }

  lemma SquareStrict(a: real, b: real)
    requires a > b >= 0.0
    ensures Square(a) > Square(b)
  {
    ScaledMono(b, a, b);
    ScaledStrict(b, a, a);
    assert Scaled(b, b) == Square(b) && Scaled(a, a) == Square(a) && Scaled(b, a) == Scaled(a, b);
  }

  lemma SquareMono(a: real, b: real)
    requires 0.0 <= a <= b
    ensures Square(a) <= Square(b)
  {
    ScaledMono(a, b, a);
    ScaledMono(a, b, b);
    assert Scaled(a, a) == Square(a) && Scaled(b, b) == Square(b) && Scaled(b, a) == Scaled(a, b);
  }

  lemma SquareOfProduct(a: real, b: real)
    ensures Square(Scaled(a, b)) == Scaled(Square(a), Square(b))
    ensures Scaled(Square(b), Square(a)) == Scaled(Square(a), Square(b))
  {
    assert (a * b) * (a * b) == (a * a) * (b * b);
  }
}
