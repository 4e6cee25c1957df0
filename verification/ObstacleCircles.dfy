/** How the obstacles are drawn on the grid as circles (the second loop of Process in
    rrt_avoidance.cc). */
module ObstacleCircles {
  import opened Geometry
  import opened StartPushes
  import MotionProfiles

  /** The row or column of squares an offset leads to. */
  function Cell(v: real, offset: int): int { Trunc(v + offset as real) }

  /** How far the circle reaches above and below its centre at a column offset. */
  function Reach(sqrt: Root, r: int, offset: int): int {
    Trunc(sqrt(Square(r as real) - Square(offset as real)) + 1.0)
  }

  predicate InColumn(c: Point, offset: int, reach: int, x: int, y: int) {
    x == Cell(c.x, offset) && exists j :: -reach <= j <= reach && y == Cell(c.y, j)
  }

  /** A circle to be drawn, in squares. */
  datatype Circle = Circle(centre: Point, r: int)

  /** Square (x, y) belongs to the circle of r squares about c, as drawn. */
  predicate InCircle(sqrt: Root, c: Point, r: int, x: int, y: int) {
    exists offset :: -r <= offset <= r && InColumn(c, offset, Reach(sqrt, r, offset), x, y)
  }

  /** The square a point falls in lies as many squares from c's as their coordinates differ by. */
  lemma CellOf(v: real, c: real, d: real)
    requires v >= 0.0 && -d <= v - c <= d
    ensures var offset := v.Floor - c.Floor;
            Cell(c, offset) == Trunc(v) && (-1.0 - d < offset as real < d + 1.0)
  {}

  /** The drawn circle covers every point at most r - 1 squares from its centre. */
  lemma CircleCovers(sqrt: Root, c: Point, r: int, p: Point)
    requires IsRoot(sqrt) && r >= 1 && p.x >= 0.0 && p.y >= 0.0
    requires DistanceSquared(p, c) <= Square((r - 1) as real)
    ensures InCircle(sqrt, c, r, Trunc(p.x), Trunc(p.y))
  {
    var dx, dy := Magnitude(p.x - c.x), Magnitude(p.y - c.y);
    SquareNonNegative(dx);
    SquareNonNegative(dy);
    SquareOrder(dx, (r - 1) as real);
    CellOf(p.x, c.x, dx);
    CellOf(p.y, c.y, dy);
    var ox, oy := p.x.Floor - c.x.Floor, p.y.Floor - c.y.Floor;
    var below := Square(r as real) - Square(ox as real);
    ColumnTall(r, ox, dx, dy);
    var s := sqrt(below);
    SquareOrder(dy, s);
    assert -Reach(sqrt, r, ox) <= oy <= Reach(sqrt, r, ox);
    assert InColumn(c, ox, Reach(sqrt, r, ox), Trunc(p.x), Trunc(p.y));
  }

  function Magnitude(v: real): (m: real)
    ensures Square(m) == Square(v) && -m <= v <= m && m >= 0.0
  {
    if v < 0.0 then -v else v
  }

  /** At column offset ox the circle of r squares is still taller than dy. */
  lemma ColumnTall(r: int, ox: int, dx: real, dy: real)
    requires 0.0 <= dx <= (r - 1) as real && Square(dx) + Square(dy) <= Square((r - 1) as real)
    requires -1.0 - dx < ox as real < dx + 1.0
    ensures -r < ox < r && 0.0 <= Square(dy) <= Square(r as real) - Square(ox as real)
  {
    var a := if ox < 0 then -ox else ox;
    assert Square(a as real) == Square(ox as real) by { SquareOfNegative(ox as real); }
    SquareNonNegative(dx);
    SquareNonNegative(dy);
    SquareLessOne(r as real);
    SquareLessOne(a as real);
    if a >= 1 {
      SquareMono((a - 1) as real, dx);
    } else {
      SquareMono(0.0, (r - 1) as real);
    }
  }

  lemma SquareLessOne(v: real)
    ensures Square(v - 1.0) == Square(v) - 2.0 * v + 1.0
  {}

  /** Whether a point within radius squares of the centre is covered by the circle as drawn: the radius is
      cut down to whole squares first. */
  predicate Covered(sqrt: Root, c: Point, radius: real, p: Point) {
    p.x >= 0.0 && p.y >= 0.0 && DistanceSquared(p, c) <= Square(radius) ==>
      InCircle(sqrt, c, Trunc(radius), Trunc(p.x), Trunc(p.y))
  }

  /** The whole disc is covered, wherever its centre lies, for radii of exactly no square or one and for no
      other. */
  lemma DiscFilledIff(sqrt: Root, radius: real)
    requires IsRoot(sqrt) && radius >= 0.0
    ensures (forall c, p :: Covered(sqrt, c, radius, p)) <==> radius == 0.0 || radius == 1.0
  {
    if radius == 0.0 || radius == 1.0 {
      forall c, p
        ensures Covered(sqrt, c, radius, p)
      {
        if p.x >= 0.0 && p.y >= 0.0 && DistanceSquared(p, c) <= Square(radius) {
          SmallDiscFilled(sqrt, c, Trunc(radius), p);
        }
      }
    } else if radius < 2.0 {
      FractionNotFilled(sqrt, radius);
      assert !Covered(sqrt, Point((Trunc(radius) + 1) as real - radius, 5.5), radius,
                      Point((Trunc(radius) + 1) as real, 5.5));
    } else {
      var r := Trunc(radius);
      DiscNotFilled(sqrt, r);
      SquareMono(r as real, radius);
      assert !Covered(sqrt, Point(0.9, 0.9), radius, Point(r as real, 2.0));
    }
  }

  /** Below two squares, what the radius loses in being cut down can be a whole column. */
  lemma FractionNotFilled(sqrt: Root, radius: real)
    requires IsRoot(sqrt) && 0.0 < radius < 2.0 && radius != 1.0
    ensures var x := (Trunc(radius) + 1) as real;
            DistanceSquared(Point(x, 5.5), Point(x - radius, 5.5)) == Square(radius) &&
            !InCircle(sqrt, Point(x - radius, 5.5), Trunc(radius), Trunc(x), 5)
  {
    var r := Trunc(radius);
    var c := Point((r + 1) as real - radius, 5.5);
    forall offset | -r <= offset <= r
      ensures !InColumn(c, offset, Reach(sqrt, r, offset), r + 1, 5)
    {
      assert Cell(c.x, offset) <= r;
    }
  }

  /** An obstacle of half a square: a point a fifth of a square from its centre is left free. */
  lemma HalfSquareMissed(sqrt: Root)
    requires IsRoot(sqrt)
    ensures var c, p := Point(5.9, 5.5), Point(6.1, 5.5);
            DistanceSquared(p, c) < Square(0.5) && !InCircle(sqrt, c, Trunc(0.5), Trunc(p.x), Trunc(p.y))
  {
    var c := Point(5.9, 5.5);
    assert Square(6.1 - 5.9) == 0.04 && Square(5.5 - 5.5) == 0.0 && Square(0.5) == 0.25;
    assert !InColumn(c, 0, Reach(sqrt, 0, 0), 6, 5);
  }

  lemma SmallDiscFilled(sqrt: Root, c: Point, r: int, p: Point)
    requires IsRoot(sqrt) && 0 <= r <= 1 && p.x >= 0.0 && p.y >= 0.0
    requires DistanceSquared(p, c) <= Square(r as real)
    ensures InCircle(sqrt, c, r, Trunc(p.x), Trunc(p.y))
  {
    var dx, dy := Magnitude(p.x - c.x), Magnitude(p.y - c.y);
    SquareNonNegative(dx);
    SquareNonNegative(dy);
    SquareOrder(dx, r as real);
    SquareOrder(dy, r as real);
    CellOf(p.x, c.x, dx);
    CellOf(p.y, c.y, dy);
    var ox, oy := p.x.Floor - c.x.Floor, p.y.Floor - c.y.Floor;
    assert -r <= ox <= r && -r <= oy <= r;
    var width := Magnitude(ox as real);
    SquareMono(width, r as real);
    assert Reach(sqrt, r, ox) >= 1;
    assert InColumn(c, ox, Reach(sqrt, r, ox), Trunc(p.x), Trunc(p.y));
  }

  /** From two squares on, some point of some disc is left out: the outermost column is too short. */
  lemma DiscNotFilled(sqrt: Root, r: int)
    requires IsRoot(sqrt) && r >= 2
    ensures var c, p := Point(0.9, 0.9), Point(r as real, 2.0);
            DistanceSquared(p, c) < Square(r as real) && !InCircle(sqrt, c, r, Trunc(p.x), Trunc(p.y))
  {
    var c := Point(0.9, 0.9);
    RootOfSquare(sqrt, 0.0);
    assert Square(r as real - 0.9) == Square(r as real) - 1.8 * r as real + 0.81;
    assert Square(2.0 - 0.9) == 1.21;
    forall offset | -r <= offset <= r
      ensures !InColumn(c, offset, Reach(sqrt, r, offset), r, 2)
    {
      if offset == r {
        assert Reach(sqrt, r, r) == 1;
      }
    }
  }

  /** A circle as drawn reaches less than four squares beyond its radius. */
  lemma CircleIsNear(sqrt: Root, c: Point, r: int, p: Point)
    requires IsRoot(sqrt) && p.x >= 0.0 && p.y >= 0.0 && InCircle(sqrt, c, r, Trunc(p.x), Trunc(p.y))
    ensures r >= 0 && DistanceSquared(p, c) < Square(r as real + 4.0)
  {
    var offset :| -r <= offset <= r && InColumn(c, offset, Reach(sqrt, r, offset), Trunc(p.x), Trunc(p.y));
    var reach := Reach(sqrt, r, offset);
    var j :| -reach <= j <= reach && Trunc(p.y) == Cell(c.y, j);
    var a := Magnitude(offset as real);
    SquareMono(a, r as real);
    var s := sqrt(Square(r as real) - Square(offset as real));
    WithinTwo(p.x, c.x, offset);
    WithinTwo(p.y, c.y, j);
    var dx, dy := Magnitude(p.x - c.x), Magnitude(p.y - c.y);
    SquareMono(dx, a + 2.0);
    SquareMono(dy, s + 3.0);
    OuterCorner(a, s, r as real);
  }

  lemma WithinTwo(v: real, c: real, offset: int)
    requires v >= 0.0 && Trunc(v) == Cell(c, offset)
    ensures -2.0 < v - c - offset as real < 2.0
  {}

  lemma OuterCorner(a: real, s: real, r: real)
    requires a >= 0.0 && s >= 0.0 && r >= 0.0 && Square(a) + Square(s) == Square(r)
    ensures Square(a + 2.0) + Square(s + 3.0) < Square(r + 4.0)
  {
    var u, v := MotionProfiles.Vec(4.0, 6.0, 0.0), MotionProfiles.Vec(a, s, 0.0);
    MotionProfiles.CauchySchwarz(u, v);
    assert MotionProfiles.Dot(v, v) == Square(r) && MotionProfiles.Dot(u, u) == 52.0;
    SquareNonNegative(r);
    assert Square(4.0 * a + 6.0 * s) <= Square(8.0 * r);
    SquareOrder(4.0 * a + 6.0 * s, 8.0 * r);
    SquareOfSum(a, 2.0);
    SquareOfSum(s, 3.0);
    SquareOfSum(r, 4.0);
  }
}
