/** The state space the planner searches: which points are free and which straight moves are
    allowed (GridStateSpace.cpp, PlaneStateSpace.hpp). */
module GridSpace {
  import opened Geometry
  import opened Obstacles

  /** In bounds and not in an obstacle square. */
  predicate IsFree(g: Grid, p: Point)
    requires g.Valid()
  {
    g.InBounds(p) && !g.Blocked(g.Col(p), g.Row(p))
  }

  // The line through two points with different abscissae is y = Slope * x + Intercept.

  function Slope(from: Point, to: Point): real
    requires from.x != to.x
  {
    (to.y - from.y) / (to.x - from.x)
  }

  function Intercept(from: Point, to: Point): real
    requires from.x != to.x
  {
    to.y - Scaled(Slope(from, to), to.x)
  }

  /** The whole line y = m * x + b has a point in the closed box [l, r] x [t, u]. */
  ghost predicate LineMeetsBox(m: real, b: real, l: real, r: real, t: real, u: real) {
    exists x: real :: l <= x <= r && t <= Scaled(m, x) + b <= u
  }

  /** A vertical segment runs strictly past the lower or the upper edge of the closed box. */
  predicate VerticalMeetsBox(from: Point, to: Point, l: real, r: real, t: real, u: real) {
    var lower := if to.y < from.y then to.y else from.y;
    var higher := if to.y < from.y then from.y else to.y;
    l <= from.x <= r && (lower < t < higher || lower < u < higher)
  }

  ghost predicate Obstructs(g: Grid, from: Point, to: Point, x: int, y: int)
    requires g.Valid()
  {
    if from.x != to.x then
      LineMeetsBox(Slope(from, to), Intercept(from, to), g.Left(x), g.Left(x + 1), g.Top(y), g.Top(y + 1))
    else
      VerticalMeetsBox(from, to, g.Left(x), g.Left(x + 1), g.Top(y), g.Top(y + 1))
  }

  /** Square (x, y) lies in the rectangle of squares spanned by the two points. */
  predicate InSpan(g: Grid, from: Point, to: Point, x: int, y: int)
    requires g.Valid()
  {
    (g.Col(from) <= x <= g.Col(to) || g.Col(to) <= x <= g.Col(from)) &&
    (g.Row(from) <= y <= g.Row(to) || g.Row(to) <= y <= g.Row(from))
  }

  /** What transitionValid decides: the target is free, and no obstacle square spanned by the two
      points meets the line through them. */
  ghost predicate TransitionFree(g: Grid, from: Point, to: Point)
    requires g.Valid()
  {
    IsFree(g, to) &&
    forall x, y :: InSpan(g, from, to, x, y) && g.Blocked(x, y) ==> !Obstructs(g, from, to, x, y)
  }

  // ---- the four-sided intersection test ----

  /** The source's test: where the line crosses the lines through the box's sides. */
  predicate SidesTest(m: real, b: real, l: real, r: real, t: real, u: real) {
    InRange(Scaled(m, l) + b, t, u) || InRange(Scaled(m, r) + b, t, u) || m == 0.0 ||
    InRange((t - b) / m, l, r) || InRange((u - b) / m, l, r)
  }

  /** A line has a point in a closed box exactly when it crosses one of its four sides. */
  lemma SidesTestDecidesLineMeetsBox(m: real, b: real, l: real, r: real, t: real, u: real)
    requires l <= r && t <= u
    requires m == 0.0 ==> t <= b <= u
    ensures SidesTest(m, b, l, r, t, u) <==> LineMeetsBox(m, b, l, r, t, u)
  {
    if m == 0.0 {
      assert Scaled(m, l) == 0.0;
    } else {
      DivScaled(t - b, m);
      DivScaled(u - b, m);
      if x: real :| l <= x <= r && t <= Scaled(m, x) + b <= u {
        LineLeavesThroughSide(m, b, l, r, t, u, x);
      }
    }
  }

  lemma LineLeavesThroughSide(m: real, b: real, l: real, r: real, t: real, u: real, x: real)
    requires m != 0.0 && l <= x <= r && t <= Scaled(m, x) + b <= u
    ensures SidesTest(m, b, l, r, t, u)
  {
    var q, p := (t - b) / m, (u - b) / m;
    DivScaled(t - b, m);
    DivScaled(u - b, m);
    ScaledOrder(m, l, x);
    ScaledOrder(m, x, r);
    if m > 0.0 {
      if q < l { ScaledOrder(m, q, l); } else if q > x { ScaledOrder(m, x, q); }
    } else {
      if p < l { ScaledOrder(m, p, l); } else if p > x { ScaledOrder(m, x, p); }
    }
  }

  lemma ScaledOrder(m: real, a: real, c: real)
    requires a <= c
    ensures m >= 0.0 ==> Scaled(m, a) <= Scaled(m, c)
    ensures m <= 0.0 ==> Scaled(m, c) <= Scaled(m, a)
    ensures m > 0.0 && a < c ==> Scaled(m, a) < Scaled(m, c)
    ensures m < 0.0 && a < c ==> Scaled(m, c) < Scaled(m, a)
  {}

  // ---- soundness: an allowed move stays free ----

  lemma OnLine(from: Point, to: Point, t: real)
    requires from.x != to.x
    ensures Scaled(Slope(from, to), Between(from, to, t).x) + Intercept(from, to) == Between(from, to, t).y
  {
    var m, dx, dy := Slope(from, to), to.x - from.x, to.y - from.y;
    DivScaled(dy, dx);
    assert m * dx == dy;
    calc {
      m * (from.x + t * dx) + (to.y - m * to.x);
      to.y - m * dx + t * (m * dx);
      to.y - dy + t * dy;
    }
  }

  /** A point of the segment lies in bounds and in a spanned square. */
  lemma BetweenInSpan(g: Grid, from: Point, to: Point, t: real)
    requires g.Valid() && g.InBounds(from) && g.InBounds(to) && 0.0 <= t <= 1.0
    ensures g.InBounds(Between(from, to, t))
    ensures InSpan(g, from, to, g.Col(Between(from, to, t)), g.Row(Between(from, to, t)))
  {
    var p := Between(from, to, t);
    LerpBounds(from.x, to.x, t);
    LerpBounds(from.y, to.y, t);
    if from.x <= to.x {
      PartMono(from.x, p.x, g.width, g.cols);
      PartMono(p.x, to.x, g.width, g.cols);
    } else {
      PartMono(to.x, p.x, g.width, g.cols);
      PartMono(p.x, from.x, g.width, g.cols);
    }
    if from.y <= to.y {
      PartMono(from.y, p.y, g.height, g.rows);
      PartMono(p.y, to.y, g.height, g.rows);
    } else {
      PartMono(to.y, p.y, g.height, g.rows);
      PartMono(p.y, from.y, g.height, g.rows);
    }
  }

  lemma EdgesAscend(j: int, k: int, extent: real, n: int)
    requires j <= k && extent > 0.0 && n > 0
    ensures Edge(j, extent, n) <= Edge(k, extent, n)
  {
    PositiveQuotient(extent, n as real);
    ScaledMono(j as real, k as real, extent / n as real);
  }

  /** A free point in the column of a blocked square is above or below that square. */
  lemma OutsideRow(g: Grid, p: Point, y: int)
    requires g.Valid() && IsFree(g, p) && 0 <= y < g.rows
    requires g.Blocked(g.Col(p), y)
    ensures p.y < g.Top(y) || g.Top(y + 1) <= p.y
  {
    SquareForLocation(g, p);
    if g.Row(p) < y {
      EdgesAscend(g.Row(p) + 1, y, g.height, g.rows);
    } else {
      assert g.Row(p) != y;
      EdgesAscend(y + 1, g.Row(p), g.height, g.rows);
    }
  }

  lemma VerticalThroughSquare(g: Grid, from: Point, to: Point, p: Point)
    requires g.Valid() && IsFree(g, from) && IsFree(g, to) && g.InBounds(p)
    requires from.x == to.x == p.x
    requires from.y <= p.y <= to.y || to.y <= p.y <= from.y
    requires g.Blocked(g.Col(p), g.Row(p))
    ensures Obstructs(g, from, to, g.Col(p), g.Row(p))
  {
    SquareForLocation(g, p);
    OutsideRow(g, from, g.Row(p));
    OutsideRow(g, to, g.Row(p));
  }

  /** Segment soundness: every point of an allowed move from a free point is free. */
  lemma SegmentSound(g: Grid, from: Point, to: Point, t: real)
    requires g.Valid() && IsFree(g, from) && TransitionFree(g, from, to) && 0.0 <= t <= 1.0
    ensures IsFree(g, Between(from, to, t))
  {
    var p := Between(from, to, t);
    BetweenInSpan(g, from, to, t);
    SquareForLocation(g, p);
    if g.Blocked(g.Col(p), g.Row(p)) {
      if from.x != to.x {
        OnLine(from, to, t);
      } else {
        LerpBounds(from.x, to.x, t);
        LerpBounds(from.y, to.y, t);
        VerticalThroughSquare(g, from, to, p);
      }
      assert false;
    }
  }

  /** For vertical moves between free points the test is exact: allowed if and only if every
      point of the move is free. */
  lemma VerticalExact(g: Grid, from: Point, to: Point)
    requires g.Valid() && IsFree(g, from) && IsFree(g, to) && from.x == to.x
    ensures TransitionFree(g, from, to) <==>
              forall t: real :: 0.0 <= t <= 1.0 ==> IsFree(g, Between(from, to, t))
  {
    if TransitionFree(g, from, to) {
      forall t: real | 0.0 <= t <= 1.0
        ensures IsFree(g, Between(from, to, t))
      {
        SegmentSound(g, from, to, t);
      }
    } else {
      var x, y :| InSpan(g, from, to, x, y) && g.Blocked(x, y) && Obstructs(g, from, to, x, y);
      var t := VerticalRejected(g, from, to, x, y);
    }
  }

  lemma VerticalRejected(g: Grid, from: Point, to: Point, x: int, y: int) returns (t: real)
    requires g.Valid() && IsFree(g, from) && IsFree(g, to) && from.x == to.x
    requires InSpan(g, from, to, x, y) && g.Blocked(x, y) && Obstructs(g, from, to, x, y)
    ensures 0.0 <= t <= 1.0 && !IsFree(g, Between(from, to, t))
  {
    OutsideRow(g, from, y);
    OutsideRow(g, to, y);
    EdgesAscend(y, y + 1, g.height, g.rows);
    t := PassesThrough(from.y, to.y, g.Top(y));
    var p := Between(from, to, t);
    LerpBounds(from.x, to.x, t);
    RowOfTop(g, y);
    assert g.Col(p) == x && g.Row(p) == y;
  }

  lemma PassesThrough(a: real, b: real, v: real) returns (t: real)
    requires (a < b && a <= v <= b) || (b < a && b <= v <= a)
    ensures 0.0 <= t <= 1.0 && Lerp(a, b, t) == v
  {
    var num, den := if a < b then v - a else a - v, if a < b then b - a else a - b;
    t := num / den;
    DivMono(0.0, num, den);
    DivMono(num, den, den);
    DivScaled(num, den);
    assert b - a == den || b - a == -den;
    assert Scaled(t, -den) == -Scaled(t, den);
  }

  /** The upper-left corner of a row belongs to that row. */
  lemma RowOfTop(g: Grid, y: int)
    requires g.Valid() && 0 <= y < g.rows
    ensures Part(g.Top(y), g.height, g.rows) == y
  {
    var n, q := g.rows as real, g.height / g.rows as real;
    DivScaled(g.height, n);
    var top := Scaled(y as real, q);
    assert Scaled(top / g.height, n) == y as real by {
      TopQuotient(y as real, q, g.height, n);
    }
  }

  lemma TopQuotient(y: real, q: real, h: real, n: real)
    requires h > 0.0 && n > 0.0 && Scaled(q, n) == h
    ensures Scaled(Scaled(y, q) / h, n) == y
  {
    var a := Scaled(y, q);
    var c := a / h;
    DivScaled(a, h);
    // c * h == y * q and q * n == h, so c * n * h == y * h
    ScaledAssoc(y, q, n);
    ScaledAssoc(c, n, h);
    ScaledAssoc(c, h, n);
    assert Scaled(n, h) == Scaled(h, n);
    assert Scaled(Scaled(c, n), h) == Scaled(y, h);
    if Scaled(c, n) < y { ScaledStrict(Scaled(c, n), y, h); }
    if Scaled(c, n) > y { ScaledStrict(y, Scaled(c, n), h); }
  }

  // ---- symmetry ----

  lemma SameLine(from: Point, to: Point)
    requires from.x != to.x
    ensures Slope(from, to) == Slope(to, from) && Intercept(from, to) == Intercept(to, from)
  {
    var m, m', dx, dy := Slope(from, to), Slope(to, from), to.x - from.x, to.y - from.y;
    DivScaled(dy, dx);
    DivScaled(-dy, -dx);
    assert m * dx == dy && m' * dx == dy;
    if m < m' { ScaledOrder(dx, m, m'); } else { ScaledOrder(dx, m', m); }
    assert Scaled(dx, m) == m * dx && Scaled(dx, m') == m' * dx;
    assert m == m';
    assert m * to.x - m * from.x == dy;
  }

  /** Between free points, a move is allowed exactly when its reverse is. */
  lemma TransitionSymmetric(g: Grid, from: Point, to: Point)
    requires g.Valid() && IsFree(g, from) && IsFree(g, to)
    ensures TransitionFree(g, from, to) <==> TransitionFree(g, to, from)
  {
    SquareForLocation(g, from);
    SquareForLocation(g, to);
    if from.x != to.x { SameLine(from, to); }
    forall x, y
      ensures InSpan(g, from, to, x, y) <==> InSpan(g, to, from, x, y)
      ensures Obstructs(g, from, to, x, y) <==> Obstructs(g, to, from, x, y)
    {}
  }

  // ---- exactness: sloped moves ----

  /** p lies in the closed square (x, y), edges included. */
  predicate InClosedSquare(g: Grid, x: int, y: int, p: Point)
    requires g.Valid()
  {
    g.Left(x) <= p.x <= g.Left(x + 1) && g.Top(y) <= p.y <= g.Top(y + 1)
  }

  /** p is on the right or the lower edge of square (x, y): those edges belong to other squares. */
  predicate OnFarEdge(g: Grid, x: int, y: int, p: Point)
    requires g.Valid()
  {
    p.x == g.Left(x + 1) || p.y == g.Top(y + 1)
  }

  ghost predicate SegmentMeetsSquare(g: Grid, from: Point, to: Point, x: int, y: int)
    requires g.Valid()
  {
    exists t: real :: 0.0 <= t <= 1.0 && InClosedSquare(g, x, y, Between(from, to, t))
  }

  ghost predicate SegmentFree(g: Grid, from: Point, to: Point)
    requires g.Valid()
  {
    forall t: real :: 0.0 <= t <= 1.0 ==> IsFree(g, Between(from, to, t))
  }

  /** The line's height at X, told apart from its height at an end by the slope. */
  lemma Heights(from: Point, to: Point, e: Point, X: real)
    requires from.x != to.x && (e == from || e == to)
    ensures var m := Slope(from, to);
            var h := Scaled(m, X) + Intercept(from, to);
            && (m == 0.0 ==> h == e.y)
            && (m > 0.0 && X > e.x ==> h > e.y) && (m > 0.0 && X < e.x ==> h < e.y)
            && (m < 0.0 && X > e.x ==> h < e.y) && (m < 0.0 && X < e.x ==> h > e.y)
  {
    var m := Slope(from, to);
    ThroughEnds(from, to);
    if X < e.x { ScaledOrder(m, X, e.x); } else { ScaledOrder(m, e.x, X); }
  }

  lemma ThroughEnds(from: Point, to: Point)
    requires from.x != to.x
    ensures Scaled(Slope(from, to), from.x) + Intercept(from, to) == from.y
    ensures Scaled(Slope(from, to), to.x) + Intercept(from, to) == to.y
    ensures Slope(from, to) == 0.0 ==> from.y == to.y
    ensures Slope(from, to) > 0.0 ==> (from.x < to.x <==> from.y < to.y) && from.y != to.y
    ensures Slope(from, to) < 0.0 ==> (from.x < to.x <==> from.y > to.y) && from.y != to.y
  {
    var m := Slope(from, to);
    DivScaled(to.y - from.y, to.x - from.x);
    assert m * to.x - m * from.x == to.y - from.y;
    if from.x < to.x { ScaledOrder(m, from.x, to.x); } else { ScaledOrder(m, to.x, from.x); }
  }

  /** Beyond an end of the segment, the line leaves the span without meeting any square but that end's
      own. */
  lemma BeyondTheEnd(g: Grid, from: Point, to: Point, e: Point, x: int, y: int, X: real)
    requires g.Valid() && IsFree(g, from) && IsFree(g, to) && from.x != to.x && InSpan(g, from, to, x, y)
    requires e == from || e == to
    requires (X > e.x >= from.x && e.x >= to.x) || (X < e.x <= from.x && e.x <= to.x)
    requires g.Left(x) <= X <= g.Left(x + 1)
    requires g.Top(y) <= Scaled(Slope(from, to), X) + Intercept(from, to) <= g.Top(y + 1)
    ensures x == g.Col(e) && y == g.Row(e)
  {
    var other := if e == from then to else from;
    SquareForLocation(g, e);
    ThroughEnds(from, to);
    Heights(from, to, e, X);
    if X > e.x {
      PartMono(other.x, e.x, g.width, g.cols);
      if x < g.Col(e) { EdgesAscend(x + 1, g.Col(e), g.width, g.cols); }
    } else {
      PartMono(e.x, other.x, g.width, g.cols);
      if x > g.Col(e) { EdgesAscend(g.Col(e) + 1, x, g.width, g.cols); }
    }
    if e.y >= other.y { PartMono(other.y, e.y, g.height, g.rows); }
    if e.y <= other.y { PartMono(e.y, other.y, g.height, g.rows); }
    if y < g.Row(e) { EdgesAscend(y + 1, g.Row(e), g.height, g.rows); }
    if y > g.Row(e) { EdgesAscend(g.Row(e) + 1, y, g.height, g.rows); }
  }

  /** Testing the whole line loses nothing: between free points, the line meets a blocked square of the
      span exactly if the segment itself does. */
  lemma ObstructsIffSegmentMeets(g: Grid, from: Point, to: Point, x: int, y: int)
    requires g.Valid() && IsFree(g, from) && IsFree(g, to) && from.x != to.x
    requires InSpan(g, from, to, x, y) && g.Blocked(x, y)
    ensures Obstructs(g, from, to, x, y) <==> SegmentMeetsSquare(g, from, to, x, y)
  {
    var m, b := Slope(from, to), Intercept(from, to);
    if Obstructs(g, from, to, x, y) {
      var X: real :| g.Left(x) <= X <= g.Left(x + 1) && g.Top(y) <= Scaled(m, X) + b <= g.Top(y + 1);
      var left, right := if from.x < to.x then from else to, if from.x < to.x then to else from;
      if X < left.x {
        BeyondTheEnd(g, from, to, left, x, y, X);
      } else if X > right.x {
        BeyondTheEnd(g, from, to, right, x, y, X);
      } else {
        var t := PassesThrough(from.x, to.x, X);
        OnLine(from, to, t);
        assert InClosedSquare(g, x, y, Between(from, to, t));
      }
    }
    if SegmentMeetsSquare(g, from, to, x, y) {
      var t: real :| 0.0 <= t <= 1.0 && InClosedSquare(g, x, y, Between(from, to, t));
      OnLine(from, to, t);
      assert g.Left(x) <= Between(from, to, t).x <= g.Left(x + 1);
    }
  }

  /** Sloped moves exactly: between free points, a move is allowed if and only if it touches no blocked
      square of the span, edges and corners included. */
  lemma SlopedExact(g: Grid, from: Point, to: Point)
    requires g.Valid() && IsFree(g, from) && IsFree(g, to) && from.x != to.x
    ensures TransitionFree(g, from, to) <==>
              forall x, y :: InSpan(g, from, to, x, y) && g.Blocked(x, y) ==> !SegmentMeetsSquare(g, from, to, x, y)
  {
    forall x, y | InSpan(g, from, to, x, y) && g.Blocked(x, y)
      ensures Obstructs(g, from, to, x, y) <==> SegmentMeetsSquare(g, from, to, x, y)
    {
      ObstructsIffSegmentMeets(g, from, to, x, y);
    }
  }

  /** Only one square holds a point. */
  lemma HoldsIsSquare(g: Grid, p: Point, x: int, y: int)
    requires g.Valid() && g.InBounds(p) && g.Holds(x, y, p)
    ensures x == g.Col(p) && y == g.Row(p)
  {
    SquareForLocation(g, p);
    if x < g.Col(p) { EdgesAscend(x + 1, g.Col(p), g.width, g.cols); }
    if x > g.Col(p) { EdgesAscend(g.Col(p) + 1, x, g.width, g.cols); }
    if y < g.Row(p) { EdgesAscend(y + 1, g.Row(p), g.height, g.rows); }
    if y > g.Row(p) { EdgesAscend(g.Row(p) + 1, y, g.height, g.rows); }
  }

  /** Where the segment touches square (x, y) at all, it touches a far edge. */
  ghost predicate OnlyTouches(g: Grid, from: Point, to: Point, x: int, y: int)
    requires g.Valid()
  {
    forall t: real :: 0.0 <= t <= 1.0 && InClosedSquare(g, x, y, Between(from, to, t)) ==>
      OnFarEdge(g, x, y, Between(from, to, t))
  }

  /** A segment between free points is free exactly if it only touches blocked squares. */
  lemma FreeIffOnlyTouches(g: Grid, from: Point, to: Point)
    requires g.Valid() && g.InBounds(from) && g.InBounds(to)
    ensures SegmentFree(g, from, to) <==>
              forall x, y :: InSpan(g, from, to, x, y) && g.Blocked(x, y) ==> OnlyTouches(g, from, to, x, y)
  {
    if SegmentFree(g, from, to) {
      forall x, y | InSpan(g, from, to, x, y) && g.Blocked(x, y)
        ensures OnlyTouches(g, from, to, x, y)
      {
        forall t: real | 0.0 <= t <= 1.0 && InClosedSquare(g, x, y, Between(from, to, t))
          ensures OnFarEdge(g, x, y, Between(from, to, t))
        {
          var p := Between(from, to, t);
          assert IsFree(g, p);
          if g.Holds(x, y, p) { HoldsIsSquare(g, p, x, y); }
        }
      }
    } else {
      var t: real :| 0.0 <= t <= 1.0 && !IsFree(g, Between(from, to, t));
      var p := Between(from, to, t);
      BetweenInSpan(g, from, to, t);
      SquareForLocation(g, p);
      assert !OnlyTouches(g, from, to, g.Col(p), g.Row(p));
    }
  }

  /** A sloped move is refused although every point of it is free, exactly if it meets a blocked square
      of the span and meets such squares at their far edges only. */
  lemma RefusedThoughFree(g: Grid, from: Point, to: Point)
    requires g.Valid() && IsFree(g, from) && IsFree(g, to) && from.x != to.x
    ensures !TransitionFree(g, from, to) && SegmentFree(g, from, to) <==>
              (exists x, y :: InSpan(g, from, to, x, y) && g.Blocked(x, y) && SegmentMeetsSquare(g, from, to, x, y)) &&
              (forall x, y :: InSpan(g, from, to, x, y) && g.Blocked(x, y) ==> OnlyTouches(g, from, to, x, y))
  {
    SlopedExact(g, from, to);
    FreeIffOnlyTouches(g, from, to);
  }

  /** Such a move: diagonally past the corner of the only blocked square. */
  lemma CornerRefused(g: Grid)
    requires g.width == g.height == 3.0 && g.cols == g.rows == 3 && g.Valid()
    requires forall x, y :: g.Blocked(x, y) <==> x == 0 && y == 1
    ensures var from, to := Point(0.5, 0.5), Point(1.5, 1.5);
            IsFree(g, from) && IsFree(g, to) && SegmentFree(g, from, to) && !TransitionFree(g, from, to)
  {
    var from, to := Point(0.5, 0.5), Point(1.5, 1.5);
    var corner := Between(from, to, 0.5);
    assert corner == Point(1.0, 1.0);
    assert InClosedSquare(g, 0, 1, corner);
    assert SegmentMeetsSquare(g, from, to, 0, 1);
    SlopedExact(g, from, to);
    forall t: real | 0.0 <= t <= 1.0
      ensures IsFree(g, Between(from, to, t))
    {
      DiagonalSquare(g, from, to, t);
    }
  }

  lemma DiagonalSquare(g: Grid, from: Point, to: Point, t: real)
    requires g.width == g.height == 3.0 && g.cols == g.rows == 3 && g.Valid() && 0.0 <= t <= 1.0
    requires from == Point(0.5, 0.5) && to == Point(1.5, 1.5)
    ensures var p := Between(from, to, t); g.InBounds(p) && g.Col(p) == g.Row(p)
  {
    LerpBounds(0.5, 1.5, t);
  }

  class GridStateSpace {
    const obstacleGrid: ObstacleGrid

    constructor (width: real, height: real, discretizedWidth: int, discretizedHeight: int)
      requires width > 0.0 && height > 0.0 && discretizedWidth > 0 && discretizedHeight > 0
      ensures obstacleGrid.Valid() && fresh(obstacleGrid) && fresh(obstacleGrid.obstacles)
      ensures obstacleGrid.View() == Grid(width, height, discretizedWidth, discretizedHeight,
                                          seq(discretizedWidth * discretizedHeight, _ => false))
    {
      obstacleGrid := new ObstacleGrid(width, height, discretizedWidth, discretizedHeight);
    }

    method StateValid(pt: Point) returns (ok: bool)
      requires obstacleGrid.Valid()
      ensures ok == IsFree(obstacleGrid.View(), pt)
    {
      if !(pt.x >= 0.0 && pt.y >= 0.0 && pt.x < obstacleGrid.width && pt.y < obstacleGrid.height) {
        return false;
      }
      var x, y := obstacleGrid.GridSquareForLocation(pt);
      var blocked := obstacleGrid.ObstacleAt(x, y);
      return !blocked;
    }

    /** The intersection test of TransitionValid for one obstacle square. */
    method SquareObstructs(from: Point, to: Point, deltaX: real, deltaY: real, x: int, y: int,
                           gridSqWidth: real, gridSqHeight: real) returns (hit: bool)
      requires obstacleGrid.Valid()
      requires obstacleGrid.View().InBounds(from) && obstacleGrid.View().InBounds(to)
      requires InSpan(obstacleGrid.View(), from, to, x, y)
      requires deltaX == to.x - from.x && deltaY == to.y - from.y
      requires gridSqWidth == obstacleGrid.width / obstacleGrid.discretizedWidth as real
      requires gridSqHeight == obstacleGrid.height / obstacleGrid.discretizedHeight as real
      ensures hit <==> Obstructs(obstacleGrid.View(), from, to, x, y)
    {
      ghost var g := obstacleGrid.View();
      var ul := Point(Scaled(x as real, gridSqWidth), Scaled(y as real, gridSqHeight));
      var br := Point(ul.x + gridSqWidth, ul.y + gridSqHeight);
      NextEdge(x, g.width, g.cols);
      NextEdge(y, g.height, g.rows);
      if deltaX != 0.0 {
        var slope := deltaY / deltaX;
        var b := to.y - Scaled(slope, to.x);
        SidesTestDecidesObstructs(g, from, to, x, y);
        var yInt := Scaled(slope, ul.x) + b;
        if InRange(yInt, ul.y, br.y) { return true; }
        yInt := Scaled(slope, br.x) + b;
        if InRange(yInt, ul.y, br.y) { return true; }
        if slope == 0.0 { return true; }
        var xInt := (ul.y - b) / slope;
        if InRange(xInt, ul.x, br.x) { return true; }
        xInt := (br.y - b) / slope;
        if InRange(xInt, ul.x, br.x) { return true; }
      } else {
        if InRange(from.x, ul.x, br.x) {
          var lower, higher := from, to;
          if higher.y < lower.y { lower, higher := higher, lower; }
          if lower.y < ul.y && higher.y > ul.y { return true; }
          if lower.y < br.y && higher.y > br.y { return true; }
        }
      }
      return false;
    }

    /** Only the target is checked: the source expects from to be in bounds. Every square it reads
        exists, as the calls of ObstacleAt demand. */
    method TransitionValid(from: Point, to: Point) returns (ok: bool)
      requires obstacleGrid.Valid() && obstacleGrid.View().InBounds(from)
      ensures ok <==> TransitionFree(obstacleGrid.View(), from, to)
    {
      ghost var g := obstacleGrid.View();
      var targetValid := StateValid(to);
      if !targetValid { return false; }
      var deltaX, deltaY := to.x - from.x, to.y - from.y;
      var x1, y1 := obstacleGrid.GridSquareForLocation(from);
      var x2, y2 := obstacleGrid.GridSquareForLocation(to);
      if x1 > x2 { x1, x2 := x2, x1; }
      if y1 > y2 { y1, y2 := y2, y1; }
      var gridSqWidth := obstacleGrid.width / obstacleGrid.discretizedWidth as real;
      var gridSqHeight := obstacleGrid.height / obstacleGrid.discretizedHeight as real;
      var x := x1;
      while x <= x2
        invariant x1 <= x <= x2 + 1
        invariant forall i, j :: InSpan(g, from, to, i, j) && i < x && g.Blocked(i, j) ==>
                    !Obstructs(g, from, to, i, j)
      {
        var y := y1;
        while y <= y2
          invariant y1 <= y <= y2 + 1
          invariant forall j :: InSpan(g, from, to, x, j) && j < y && g.Blocked(x, j) ==>
                      !Obstructs(g, from, to, x, j)
        {
          var blocked := obstacleGrid.ObstacleAt(x, y);
          if blocked {
            var hit := SquareObstructs(from, to, deltaX, deltaY, x, y, gridSqWidth, gridSqHeight);
            if hit { return false; }
          }
          y := y + 1;
        }
        x := x + 1;
      }
      return true;
    }
  }

  lemma NextEdge(k: int, extent: real, n: int)
    requires n > 0
    ensures Edge(k + 1, extent, n) == Edge(k, extent, n) + extent / n as real
  {}

  lemma SidesTestDecidesObstructs(g: Grid, from: Point, to: Point, x: int, y: int)
    requires g.Valid() && g.InBounds(from) && g.InBounds(to) && from.x != to.x
    requires InSpan(g, from, to, x, y)
    ensures Obstructs(g, from, to, x, y) <==>
            SidesTest(Slope(from, to), Intercept(from, to), g.Left(x), g.Left(x + 1), g.Top(y), g.Top(y + 1))
  {
    EdgesAscend(x, x + 1, g.width, g.cols);
    EdgesAscend(y, y + 1, g.height, g.rows);
    var m := Slope(from, to);
    if m == 0.0 {
      DivScaled(to.y - from.y, to.x - from.x);
      ScaledUnits(to.x - from.x);
      ScaledUnits(to.x);
      SquareForLocation(g, to);
    }
    SidesTestDecidesLineMeetsBox(m, Intercept(from, to), g.Left(x), g.Left(x + 1), g.Top(y), g.Top(y + 1));
  }
}
