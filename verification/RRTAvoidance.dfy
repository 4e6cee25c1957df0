/** The planner front end: coordinates to the grid, search, smoothing, and back (rrt_avoidance.cc). */
module RrtAvoidance {
  import opened Geometry
  import opened Obstacles
  import opened GridSpace
  import opened Trees
  import opened BiRrt
  import opened Paths
  import opened Wrappers
  import opened StartPushes
  import opened ObstacleCircles

  const DIMENSION := 50

  /** How one axis is mapped to the grid: shifted by the start, reflected so that the goal lies ahead,
      turned into metres, scaled to the grid and moved two units inwards. */
  datatype Axis = Axis(origin: real, flip: real, metres: real, scale: real) {
    predicate Valid() { (flip == 1.0 || flip == -1.0) && metres > 0.0 && scale > 0.0 }

    function ToGrid(v: real): real {
      Scaled(Scaled(Scaled(v - origin, flip), metres), scale) + 2.0
    }

    function FromGrid(w: real): real requires Valid() {
      Scaled((w - 2.0) / scale / metres, flip) + origin
    }
  }

  function ToGrid(ax: Axis, ay: Axis, p: Point): Point {
    Point(ax.ToGrid(p.x), ay.ToGrid(p.y))
  }

  function FromGrid(ax: Axis, ay: Axis, p: Point): Point
    requires ax.Valid() && ay.Valid()
  {
    Point(ax.FromGrid(p.x), ay.FromGrid(p.y))
  }

  lemma FlipTwice(v: real, flip: real)
    requires flip == 1.0 || flip == -1.0
    ensures Scaled(Scaled(v, flip), flip) == v
  {}

  /** The two maps undo each other exactly. */
  lemma AxisRoundTrip(a: Axis, v: real)
    requires a.Valid()
    ensures a.FromGrid(a.ToGrid(v)) == v
    ensures a.ToGrid(a.FromGrid(v)) == v
  {
    var u := v - a.origin;
    var r := Scaled(u, a.flip);
    var m := Scaled(r, a.metres);
    var s := Scaled(m, a.scale);
    QuotientOfProduct(m, a.scale);
    QuotientOfProduct(r, a.metres);
    FlipTwice(u, a.flip);
    assert a.ToGrid(v) - 2.0 == s;
    assert a.FromGrid(a.ToGrid(v)) == v;
    var w := (v - 2.0) / a.scale;
    var x := w / a.metres;
    DivScaled(v - 2.0, a.scale);
    DivScaled(w, a.metres);
    FlipTwice(x, a.flip);
    assert a.FromGrid(v) - a.origin == Scaled(x, a.flip);
  }

  lemma QuotientOfProduct(a: real, b: real)
    requires b > 0.0
    ensures Scaled(a, b) / b == a
  {
    var q := Scaled(a, b) / b;
    DivScaled(Scaled(a, b), b);
    if q < a { ScaledStrict(q, a, b); }
    if a < q { ScaledStrict(a, q, b); }
  }

  /** The map to the grid takes segments to segments. */
  lemma AxisAffine(a: Axis, u: real, v: real, t: real)
    ensures a.ToGrid(Lerp(u, v, t)) == Lerp(a.ToGrid(u), a.ToGrid(v), t)
  {
    ScaledLerp(u, v, t, a.origin, a.flip);
    var u1, v1 := Scaled(u - a.origin, a.flip), Scaled(v - a.origin, a.flip);
    ScaledLerp(u1, v1, t, 0.0, a.metres);
    var u2, v2 := Scaled(u1, a.metres), Scaled(v1, a.metres);
    ScaledLerp(u2, v2, t, 0.0, a.scale);
    LerpShift(Scaled(u2, a.scale), Scaled(v2, a.scale), t, 2.0);
  }

  lemma ScaledLerp(u: real, v: real, t: real, o: real, k: real)
    ensures Scaled(Lerp(u, v, t) - o, k) == Lerp(Scaled(u - o, k), Scaled(v - o, k), t)
  {
    calc {
      (u + t * (v - u) - o) * k;
      (u - o) * k + t * ((v - o) * k - (u - o) * k);
    }
  }

  lemma LerpShift(u: real, v: real, t: real, c: real)
    ensures Lerp(u, v, t) + c == Lerp(u + c, v + c, t)
  {
    assert (v + c) - (u + c) == v - u;
  }

  /** The axis through the start: it maps the start to 2 and the goal between 2 and 48. */
  lemma AxisInside(a: Axis, goal: real, longest: real)
    requires a.Valid() && longest > 0.0 && a.scale == 46.0 / longest
    requires a.flip == if goal - a.origin >= 0.0 then 1.0 else -1.0
    requires Scaled(Scaled(goal - a.origin, a.flip), a.metres) <= longest
    ensures a.ToGrid(a.origin) == 2.0
    ensures 2.0 <= a.ToGrid(goal) <= 48.0
    ensures Scaled(Scaled(goal - a.origin, a.flip), a.metres) == longest ==> a.ToGrid(goal) == 48.0
  {
    ScaledUnits(a.flip);
    ScaledUnits(a.metres);
    ScaledUnits(a.scale);
    var r := Scaled(goal - a.origin, a.flip);
    assert r >= 0.0;
    ScaledMono(0.0, r, a.metres);
    var m := Scaled(r, a.metres);
    ScaledMono(0.0, m, a.scale);
    ScaledMono(m, longest, a.scale);
    DivScaled(46.0, longest);
  }

  /** The axes start at origin, two units in, and are stretched equally so that the goal lies within the
      grid with two units to spare, and just so along its longer side. */
  predicate Fits(ax: Axis, ay: Axis, origin: Point, end: Point, metres: real) {
    var goal := ToGrid(ax, ay, end);
    ax.Valid() && ay.Valid() && Point(ax.origin, ay.origin) == origin && ax.metres == ay.metres == metres &&
    ax.scale == ay.scale && ToGrid(ax, ay, origin) == Point(2.0, 2.0) &&
    2.0 <= goal.x <= 48.0 && 2.0 <= goal.y <= 48.0 && (goal.x == 48.0 || goal.y == 48.0)
  }

  /** The start is not at the very centre of an obstacle that pushes it, and is not pushed onto the goal. */
  predicate Plannable(sqrt: Root, start: Point, end: Point, obstacles: seq<Obstacle>, metres: real) {
    start != end ==> var origin := PushedOut(sqrt, start, obstacles, metres); origin.Some? && origin.value != end
  }

  /** A path as returned: none if the drone is there already; otherwise from the pushed-out start to the
      goal, or back to the start if the search found nothing. */
  predicate Routed(sqrt: Root, start: Point, end: Point, obstacles: seq<Obstacle>, metres: real,
                   path: seq<Point>, found: bool) {
    if start == end then path == [] else
      var origin := PushedOut(sqrt, start, obstacles, metres);
      origin.Some? && path != [] && path[0] == origin.value &&
      path[|path| - 1] == if found then end else origin.value
  }

  class RRTAvoidance {
    const stateSpace: GridStateSpace
    const birrt: BiRRT
    const sqrt: Root

    ghost predicate Valid()
      reads birrt, birrt.startTree, birrt.goalTree
    {
      IsRoot(sqrt) && birrt.Idle() && birrt.startTree.stateSpace == stateSpace &&
      birrt.minIterations < birrt.maxIterations && 0 < birrt.maxIterations &&
      stateSpace.obstacleGrid.width == DIMENSION as real && stateSpace.obstacleGrid.height == DIMENSION as real &&
      stateSpace.obstacleGrid.discretizedWidth == DIMENSION &&
      stateSpace.obstacleGrid.discretizedHeight == DIMENSION
    }

    constructor (sqrt: Root)
      requires IsRoot(sqrt)
      ensures Valid() && this.sqrt == sqrt && fresh(birrt) && fresh(birrt.startTree) && fresh(birrt.goalTree)
      ensures fresh(stateSpace.obstacleGrid.obstacles)
    {
      var space := new GridStateSpace(DIMENSION as real, DIMENSION as real, DIMENSION, DIMENSION);
      var rrt := new BiRRT(space, 0.1, 10000, 400);
      stateSpace, birrt := space, rrt;
      this.sqrt := sqrt;
    }

    /** Blocks the squares of one column of a circle; squares off the grid are passed over. */
    method DrawColumn(c: Point, offset: int, reach: int)
      requires stateSpace.obstacleGrid.Valid()
      modifies stateSpace.obstacleGrid.obstacles
      ensures var g, before := stateSpace.obstacleGrid.View(), old(stateSpace.obstacleGrid.View());
              forall x, y :: g.HasSquare(x, y) ==>
                (g.Blocked(x, y) <==> before.Blocked(x, y) || InColumn(c, offset, reach, x, y))
    {
      var grid := stateSpace.obstacleGrid;
      ghost var before := grid.View();
      var j := -reach;
      while j <= reach
        invariant j >= -reach
        invariant forall x, y :: before.HasSquare(x, y) ==>
                    (grid.View().Blocked(x, y) <==>
                       before.Blocked(x, y) ||
                       (x == Cell(c.x, offset) && exists i :: -reach <= i < j && i <= reach && y == Cell(c.y, i)))
      {
        var x, y := Cell(c.x, offset), Cell(c.y, j);
        if !(x < 0 || x >= grid.discretizedWidth || y < 0 || y >= grid.discretizedHeight) {
          grid.SetObstacleAt(x, y, true);
        }
        j := j + 1;
      }
    }

    method DrawCircle(c: Circle)
      requires stateSpace.obstacleGrid.Valid()
      modifies stateSpace.obstacleGrid.obstacles
      ensures var g, before := stateSpace.obstacleGrid.View(), old(stateSpace.obstacleGrid.View());
              forall x, y :: g.HasSquare(x, y) ==>
                (g.Blocked(x, y) <==> before.Blocked(x, y) || InCircle(sqrt, c.centre, c.r, x, y))
    {
      var grid := stateSpace.obstacleGrid;
      ghost var before := grid.View();
      var offset := -c.r;
      while offset <= c.r
        invariant offset >= -c.r
        invariant forall x, y :: before.HasSquare(x, y) ==>
                    (grid.View().Blocked(x, y) <==>
                       before.Blocked(x, y) ||
                       (exists i :: -c.r <= i < offset && i <= c.r && InColumn(c.centre, i, Reach(sqrt, c.r, i), x, y)))
      {
        DrawColumn(c.centre, offset, Reach(sqrt, c.r, offset));
        offset := offset + 1;
      }
    }

    /** Frees every square, then draws the circles. */
    method DrawObstacles(circles: seq<Circle>)
      requires stateSpace.obstacleGrid.Valid()
      modifies stateSpace.obstacleGrid.obstacles
      ensures Drawn(sqrt, stateSpace.obstacleGrid.View(), circles)
    {
      var grid := stateSpace.obstacleGrid;
      grid.Clear();
      for i := 0 to |circles|
        invariant Drawn(sqrt, grid.View(), circles[..i])
      {
        DrawCircle(circles[i]);
        assert circles[..i + 1] == circles[..i] + [circles[i]];
      }
      assert circles[..|circles|] == circles;
    }

    /** The axes of the grid map, and where the goal lands. The source divides by the larger of the
        two distances, so the goal must differ from the origin. */
    method Axes(end: Point, origin: Point, metres: real) returns (ax: Axis, ay: Axis, goal: Point)
      requires metres > 0.0 && origin != end
      ensures Fits(ax, ay, origin, end, metres) && goal == ToGrid(ax, ay, end)
    {
      // Shift, reflect, convert to metres, scale, and leave a border.
      var gx, gy := end.x - origin.x, end.y - origin.y;
      var flipX, flipY := if gx >= 0.0 then 1.0 else -1.0, if gy >= 0.0 then 1.0 else -1.0;
      gx, gy := Scaled(gx, flipX), Scaled(gy, flipY);
      LongestPositive(gx, gy, metres);
      gx, gy := Scaled(gx, metres), Scaled(gy, metres);
      var longest := if gx > gy then gx else gy;
      var scale := (DIMENSION - 4) as real / longest;
      PositiveQuotient(46.0, longest);
      ax, ay := Axis(origin.x, flipX, metres, scale), Axis(origin.y, flipY, metres, scale);
      AxisInside(ax, end.x, longest);
      AxisInside(ay, end.y, longest);
      goal := Point(Scaled(gx, scale) + 2.0, Scaled(gy, scale) + 2.0);
    }

    /** Searches the grid. The path is used whether the search succeeds or not: found tells the two
        apart. */
    method Search(position: Point, goal: Point) returns (path: seq<Point>, ghost found: bool)
      requires Valid()
      requires stateSpace.obstacleGrid.View().InBounds(position) && stateSpace.obstacleGrid.View().InBounds(goal)
      modifies birrt, birrt.startTree, birrt.goalTree
      ensures birrt.Valid()
      ensures |path| >= 2 && path[0] == position && path[|path| - 1] == if found then goal else position
      ensures forall k :: 0 <= k < |path| ==> stateSpace.obstacleGrid.View().InBounds(path[k])
      ensures found && IsFree(stateSpace.obstacleGrid.View(), goal) ==> Legs(stateSpace.obstacleGrid.View(), path)
    {
      birrt.IdleIsValid();
      birrt.SetStartState(position);
      birrt.SetGoalState(goal);
      var numIterations := birrt.Run();
      path := birrt.GetPath();
      found := numIterations >= 0;
      PlannedPath(birrt, path, found, position, goal);
    }

    method Smoothed(path: seq<Point>) returns (smooth: seq<Point>)
      requires stateSpace.obstacleGrid.Valid() && path != []
      requires forall k :: 0 <= k < |path| ==> stateSpace.obstacleGrid.View().InBounds(path[k])
      ensures smooth == Smooth(stateSpace.obstacleGrid.View(), path, 2)
      ensures smooth != [] && smooth[0] == path[0] && smooth[|smooth| - 1] == path[|path| - 1]
      ensures Legs(stateSpace.obstacleGrid.View(), path) ==> Legs(stateSpace.obstacleGrid.View(), smooth)
    {
      ghost var idx := SmoothThins(stateSpace.obstacleGrid.View(), path);
      var smoothPath := new Vector(path);
      SmoothPath(smoothPath, stateSpace);
      smooth := smoothPath.items;
    }

    /** Undoes the coordinate operations in reverse order on every point. */
    method MapBack(smooth: seq<Point>, ax: Axis, ay: Axis) returns (final: seq<Point>)
      requires ax.Valid() && ay.Valid()
      ensures |final| == |smooth|
      ensures forall i :: 0 <= i < |smooth| ==> final[i] == FromGrid(ax, ay, smooth[i])
    {
      final := [];
      for i := 0 to |smooth|
        invariant |final| == i
        invariant forall k :: 0 <= k < i ==> final[k] == FromGrid(ax, ay, smooth[k])
      {
        var x, y := smooth[i].x - 2.0, smooth[i].y - 2.0;
        x, y := x / ax.scale, y / ay.scale;
        x, y := x / ax.metres, y / ay.metres;
        x, y := Scaled(x, ax.flip), Scaled(y, ay.flip);
        x, y := x + ax.origin, y + ay.origin;
        final := final + [Point(x, y)];
      }
    }

    /** Plans around the obstacles. The path starts where the start ends up once pushed out of them, and
        if the search succeeds it ends exactly at the goal. If both lie on free squares, every point of
        it does, and it keeps its distance from every obstacle. */
    method Process(start: Point, end: Point, obstacles: seq<Obstacle>, metres: real)
      returns (finalPath: seq<Point>, ghost found: bool, ghost ax: Axis, ghost ay: Axis)
      requires Valid() && metres > 0.0
      requires Plannable(sqrt, start, end, obstacles, metres)
      modifies birrt, birrt.startTree, birrt.goalTree, stateSpace.obstacleGrid.obstacles
      ensures Valid()
      ensures Routed(sqrt, start, end, obstacles, metres, finalPath, found)
      ensures SafelyRouted(sqrt, start, end, obstacles, metres, finalPath, found)
      ensures start != end ==> Fits(ax, ay, PushedOut(sqrt, start, obstacles, metres).value, end, metres)
      ensures var g := stateSpace.obstacleGrid.View();
              start != end ==> Drawn(sqrt, g, Circles(ax, ay, obstacles))
      ensures var g := stateSpace.obstacleGrid.View();
              start != end && found && IsFree(g, Point(2.0, 2.0)) && IsFree(g, ToGrid(ax, ay, end)) ==>
                SafePath(g, ax, ay, finalPath) && KeepsClear(ax, ay, finalPath, obstacles)
      ensures start != end && found && FarFromAll(ax, PushedOut(sqrt, start, obstacles, metres).value, obstacles) &&
              FarFromAll(ax, end, obstacles) ==>
                SafePath(stateSpace.obstacleGrid.View(), ax, ay, finalPath) && KeepsClear(ax, ay, finalPath, obstacles)
    {
      finalPath, found := [], false;
      ax, ay := Axis(0.0, 1.0, 1.0, 1.0), Axis(0.0, 1.0, 1.0, 1.0);
      if start == end { return; }
      birrt.IdleIsValid();
      birrt.Reset();
      var origin := PushOut(sqrt, start, obstacles, metres);
      finalPath, found, ax, ay := PlanFrom(origin.value, end, obstacles, metres);
      if FarFromAll(ax, origin.value, obstacles) && FarFromAll(ax, end, obstacles) {
        FarIsFree(sqrt, stateSpace.obstacleGrid.View(), ax, ay, origin.value, obstacles);
        FarIsFree(sqrt, stateSpace.obstacleGrid.View(), ax, ay, end, obstacles);
      }
      assert GuardedBy(stateSpace.obstacleGrid.View(), ax, ay, sqrt, start, end, obstacles, metres, finalPath, found);
    }

    /** From the axes on: draw, search, smooth and map back, then leave the trees clean. */
    method PlanFrom(origin: Point, end: Point, obstacles: seq<Obstacle>, metres: real)
      returns (finalPath: seq<Point>, ghost found: bool, ghost ax: Axis, ghost ay: Axis)
      requires Valid() && metres > 0.0 && origin != end
      modifies birrt, birrt.startTree, birrt.goalTree, stateSpace.obstacleGrid.obstacles
      ensures Valid() && Fits(ax, ay, origin, end, metres)
      ensures finalPath != [] && finalPath[0] == origin && finalPath[|finalPath| - 1] == if found then end else origin
      ensures Drawn(sqrt, stateSpace.obstacleGrid.View(), Circles(ax, ay, obstacles))
      ensures var g := stateSpace.obstacleGrid.View();
              found && IsFree(g, Point(2.0, 2.0)) && IsFree(g, ToGrid(ax, ay, end)) ==>
                SafePath(g, ax, ay, finalPath) && KeepsClear(ax, ay, finalPath, obstacles)
    {
      var axisX, axisY, goal := Axes(end, origin, metres);
      ax, ay := axisX, axisY;
      DrawObstacles(Circles(axisX, axisY, obstacles));
      finalPath, found := PlanMapped(end, origin, axisX, axisY, goal, obstacles);
      birrt.Reset();
    }

    /** Search, smoothing and the way back to the caller's coordinates, on the grid as it stands. */
    method PlanMapped(end: Point, origin: Point, ax: Axis, ay: Axis, goal: Point, ghost obstacles: seq<Obstacle>)
      returns (finalPath: seq<Point>, ghost found: bool)
      requires Valid() && Fits(ax, ay, origin, end, ax.metres) && goal == ToGrid(ax, ay, end)
      requires Drawn(sqrt, stateSpace.obstacleGrid.View(), Circles(ax, ay, obstacles))
      modifies birrt, birrt.startTree, birrt.goalTree
      ensures birrt.Valid()
      ensures finalPath != [] && finalPath[0] == origin && finalPath[|finalPath| - 1] == if found then end else origin
      ensures var g := stateSpace.obstacleGrid.View();
              found && IsFree(g, Point(2.0, 2.0)) && IsFree(g, goal) ==>
                SafePath(g, ax, ay, finalPath) && KeepsClear(ax, ay, finalPath, obstacles)
    {
      ghost var g := stateSpace.obstacleGrid.View();
      var path;
      path, found := Search(Point(2.0, 2.0), goal);
      var smooth := Smoothed(path);
      finalPath := MapBack(smooth, ax, ay);
      MapBackEnds(ax, ay, smooth, finalPath, origin, if found then end else origin);
      if found && IsFree(g, Point(2.0, 2.0)) && IsFree(g, goal) {
        MappedPathFree(g, ax, ay, smooth, finalPath);
        SafeIsClear(sqrt, g, ax, ay, finalPath, obstacles);
      }
    }
  }

  /** An obstacle as drawn: its radius is scaled and its fraction dropped. */
  function CircleOf(ax: Axis, ay: Axis, o: Obstacle): Circle {
    Circle(ToGrid(ax, ay, o.centre), Trunc(Scaled(o.Radius(), ax.scale)))
  }

  function Circles(ax: Axis, ay: Axis, obstacles: seq<Obstacle>): seq<Circle> {
    seq(|obstacles|, i requires 0 <= i < |obstacles| => CircleOf(ax, ay, obstacles[i]))
  }

  /** The blocked squares are those of the circles. */
  predicate OnCircle(sqrt: Root, circles: seq<Circle>, x: int, y: int) {
    exists i :: 0 <= i < |circles| && InCircle(sqrt, circles[i].centre, circles[i].r, x, y)
  }

  ghost predicate Drawn(sqrt: Root, g: Grid, circles: seq<Circle>)
    requires g.Valid()
  {
    forall x, y :: g.HasSquare(x, y) ==> (g.Blocked(x, y) <==> OnCircle(sqrt, circles, x, y))
  }

  /** Every point between p and q, mapped to the grid, is free. */
  ghost predicate FreeBetween(g: Grid, ax: Axis, ay: Axis, p: Point, q: Point)
    requires g.Valid()
  {
    forall t: real :: 0.0 <= t <= 1.0 ==> IsFree(g, ToGrid(ax, ay, Between(p, q, t)))
  }

  ghost predicate SafePath(g: Grid, ax: Axis, ay: Axis, path: seq<Point>)
    requires g.Valid()
  {
    forall i :: 0 <= i < |path| - 1 ==> FreeBetween(g, ax, ay, path[i], path[i + 1])
  }

  /** How many squares a degree spans, the same along both axes. */
  function SquaresPerDegree(a: Axis): real { Scaled(a.metres, a.scale) }

  /** Counted in grid squares: p is more than one from the obstacle's centre, and more than its radius in
      whole squares less one. An obstacle of less than one square keeps p out of the centre's square and the
      two above and below it only. */
  predicate ClearOf(ax: Axis, ay: Axis, p: Point, o: Obstacle) {
    var c, q := CircleOf(ax, ay, o), ToGrid(ax, ay, p);
    var distance := if c.r > 2 then (c.r - 1) as real else 1.0;
    if c.r >= 1 then Scaled(DistanceSquared(p, o.centre), Square(SquaresPerDegree(ax))) > Square(distance)
    else c.r == 0 ==> !InColumn(c.centre, 0, 1, Trunc(q.x), Trunc(q.y))
  }

  ghost predicate SegmentClear(ax: Axis, ay: Axis, p: Point, q: Point, o: Obstacle) {
    forall t: real :: 0.0 <= t <= 1.0 ==> ClearOf(ax, ay, Between(p, q, t), o)
  }

  ghost predicate KeepsClear(ax: Axis, ay: Axis, path: seq<Point>, obstacles: seq<Obstacle>) {
    forall i, k :: 0 <= i < |path| - 1 && 0 <= k < |obstacles| ==>
      SegmentClear(ax, ay, path[i], path[i + 1], obstacles[k])
  }

  /** The path was planned on grid g, drawn with the obstacles and mapped by the axes: if the search succeeded
      from free ends, every point of it is on a free square and clear of the obstacles. */
  ghost predicate GuardedBy(g: Grid, ax: Axis, ay: Axis, sqrt: Root, start: Point, end: Point,
                            obstacles: seq<Obstacle>, metres: real, path: seq<Point>, found: bool) {
    var origin := PushedOut(sqrt, start, obstacles, metres);
    g.Valid() && origin.Some? && Fits(ax, ay, origin.value, end, metres) &&
    Drawn(sqrt, g, Circles(ax, ay, obstacles)) &&
    (found && IsFree(g, Point(2.0, 2.0)) && IsFree(g, ToGrid(ax, ay, end)) ==>
       SafePath(g, ax, ay, path) && KeepsClear(ax, ay, path, obstacles))
  }

  ghost predicate SafelyRouted(sqrt: Root, start: Point, end: Point, obstacles: seq<Obstacle>, metres: real,
                               path: seq<Point>, found: bool) {
    start != end ==>
      exists g, ax, ay :: GuardedBy(g, ax, ay, sqrt, start, end, obstacles, metres, path, found)
  }

  /** The map to the grid stretches all distances alike. */
  lemma GridDistance(ax: Axis, ay: Axis, p: Point, q: Point)
    requires ax.Valid() && ay.Valid() && ax.metres == ay.metres && ax.scale == ay.scale
    ensures DistanceSquared(ToGrid(ax, ay, p), ToGrid(ax, ay, q)) ==
            Scaled(DistanceSquared(p, q), Square(SquaresPerDegree(ax)))
  {
    AxisDistance(ax, p.x, q.x);
    AxisDistance(ay, p.y, q.y);
    SumScaled(Square(p.x - q.x), Square(p.y - q.y), Square(SquaresPerDegree(ax)));
  }

  lemma AxisDistance(a: Axis, u: real, v: real)
    requires a.Valid()
    ensures Square(a.ToGrid(u) - a.ToGrid(v)) == Scaled(Square(u - v), Square(SquaresPerDegree(a)))
  {
    var d, k := u - v, SquaresPerDegree(a);
    var fu, fv := Scaled(u - a.origin, a.flip), Scaled(v - a.origin, a.flip);
    assert fu - fv == d || fu - fv == -d;
    ScaledAssoc(fu, a.metres, a.scale);
    ScaledAssoc(fv, a.metres, a.scale);
    ScaledDifference(fu, fv, k);
    SquareOfProduct(fu - fv, k);
    SquareOfNegative(d);
  }

  lemma ScaledDifference(u: real, v: real, k: real)
    ensures Scaled(u, k) - Scaled(v, k) == Scaled(u - v, k)
  {}

  lemma UnitSquares(v: real)
    ensures Part(v, 50.0, 50) == Trunc(v)
  {
    DivScaled(v, 50.0);
  }

  /** A free point keeps clear of every circle drawn. */
  lemma FreeIsClear(sqrt: Root, g: Grid, ax: Axis, ay: Axis, p: Point, obstacles: seq<Obstacle>, k: nat)
    requires g.Valid() && g.width == g.height == 50.0 && g.cols == g.rows == 50 && IsRoot(sqrt)
    requires ax.Valid() && ay.Valid() && ax.metres == ay.metres && ax.scale == ay.scale && k < |obstacles|
    requires Drawn(sqrt, g, Circles(ax, ay, obstacles)) && IsFree(g, ToGrid(ax, ay, p))
    ensures ClearOf(ax, ay, p, obstacles[k])
  {
    var o, q := obstacles[k], ToGrid(ax, ay, p);
    var c := CircleOf(ax, ay, o);
    assert Circles(ax, ay, obstacles)[k] == c;
    UnitSquares(q.x);
    UnitSquares(q.y);
    SquareForLocation(g, q);
    assert !OnCircle(sqrt, Circles(ax, ay, obstacles), g.Col(q), g.Row(q));
    assert !InCircle(sqrt, c.centre, c.r, g.Col(q), g.Row(q));
    GridDistance(ax, ay, p, o.centre);
    if c.r > 2 && DistanceSquared(q, c.centre) <= Square((c.r - 1) as real) {
      CircleCovers(sqrt, c.centre, c.r, q);
    }
    if c.r == 2 && DistanceSquared(q, c.centre) <= Square(1.0) {
      CircleCovers(sqrt, c.centre, 2, q);
    }
    if c.r == 1 && DistanceSquared(q, c.centre) <= Square(1.0) {
      SmallDiscFilled(sqrt, c.centre, 1, q);
    }
    if c.r == 0 {
      RootOfSquare(sqrt, 0.0);
      assert Reach(sqrt, 0, 0) == 1;
    }
  }

  /** Counted in grid squares, p is at least the obstacle's radius and four from its centre. */
  predicate FarFrom(a: Axis, p: Point, o: Obstacle) {
    Scaled(DistanceSquared(p, o.centre), Square(SquaresPerDegree(a))) >= Square(Scaled(o.Radius(), a.scale) + 4.0)
  }

  predicate FarFromAll(a: Axis, p: Point, obstacles: seq<Obstacle>) {
    forall k :: 0 <= k < |obstacles| ==> obstacles[k].Radius() >= 0.0 && FarFrom(a, p, obstacles[k])
  }

  /** A place far from every obstacle lies on a free square. */
  lemma FarIsFree(sqrt: Root, g: Grid, ax: Axis, ay: Axis, p: Point, obstacles: seq<Obstacle>)
    requires g.Valid() && g.width == g.height == 50.0 && g.cols == g.rows == 50 && IsRoot(sqrt)
    requires ax.Valid() && ay.Valid() && ax.metres == ay.metres && ax.scale == ay.scale
    requires Drawn(sqrt, g, Circles(ax, ay, obstacles)) && g.InBounds(ToGrid(ax, ay, p))
    requires FarFromAll(ax, p, obstacles)
    ensures IsFree(g, ToGrid(ax, ay, p))
  {
    var q := ToGrid(ax, ay, p);
    UnitSquares(q.x);
    UnitSquares(q.y);
    SquareForLocation(g, q);
    var circles := Circles(ax, ay, obstacles);
    forall k | 0 <= k < |circles|
      ensures !InCircle(sqrt, circles[k].centre, circles[k].r, g.Col(q), g.Row(q))
    {
      var c, o := circles[k], obstacles[k];
      assert c == CircleOf(ax, ay, o) && FarFrom(ax, p, o);
      if InCircle(sqrt, c.centre, c.r, g.Col(q), g.Row(q)) {
        CircleIsNear(sqrt, c.centre, c.r, q);
        GridDistance(ax, ay, p, o.centre);
        ScaledMono(0.0, o.Radius(), ax.scale);
        ScaledUnits(ax.scale);
        SquareMono(c.r as real + 4.0, Scaled(o.Radius(), ax.scale) + 4.0);
      }
    }
  }

  /** What pushing the start out is for: if the obstacles are compatible and measure at least twenty squares,
      it ends up far from all of them, so on a free square. */
  lemma PushedStartFar(sqrt: Root, a: Axis, start: Point, obstacles: seq<Obstacle>, metres: real)
    requires IsRoot(sqrt) && a.Valid() && a.metres == metres && PushedOut(sqrt, start, obstacles, metres).Some?
    requires forall k :: 0 <= k < |obstacles| ==> Scaled(obstacles[k].Radius(), a.scale) >= 20.0
    requires forall j, k :: 0 <= j < k < |obstacles| ==> Compatible(sqrt, obstacles[j], obstacles[k], metres)
    ensures FarFromAll(a, PushedOut(sqrt, start, obstacles, metres).value, obstacles)
  {
    forall k | 0 <= k < |obstacles|
      ensures obstacles[k].Radius() >= 0.0
    {
      ScaledUnits(a.scale);
      if obstacles[k].Radius() < 0.0 { ScaledMono(obstacles[k].Radius(), 0.0, a.scale); }
    }
    var p := PushedOut(sqrt, start, obstacles, metres).value;
    forall k | 0 <= k < |obstacles|
      ensures FarFrom(a, p, obstacles[k])
    {
      AllCleared(sqrt, start, obstacles, metres, k);
      MarginIsFar(sqrt, a, p, obstacles[k]);
    }
  }

  lemma MarginIsFar(sqrt: Root, a: Axis, p: Point, o: Obstacle)
    requires IsRoot(sqrt) && a.Valid() && ClearOfMargin(sqrt, p, o, a.metres)
    requires o.Radius() >= 0.0 && Scaled(o.Radius(), a.scale) >= 20.0
    ensures FarFrom(a, p, o)
  {
    var gap, radius := Gap(sqrt, o.centre, p, a.metres), Scaled(o.Radius(), a.scale);
    GapFacts(sqrt, o.centre, p, a.metres);
    GapFacts(sqrt, p, o.centre, a.metres);
    ScaledMono(1.2 * o.Radius(), gap, a.scale);
    assert Scaled(1.2 * o.Radius(), a.scale) == 1.2 * radius;
    SquareMono(radius + 4.0, Scaled(gap, a.scale));
    SquareOfProduct(gap, a.scale);
    SquareOfProduct(a.metres, a.scale);
    ScaledAssoc(DistanceSquared(p, o.centre), Square(a.metres), Square(a.scale));
  }

  /** A map of one square to a metre, without reflection. */
  const UNIT_AXIS := Axis(0.0, 1.0, 1.0, 1.0)

  lemma UnitAxis(v: real)
    ensures UNIT_AXIS.ToGrid(v) == v + 2.0
  {
    assert Scaled(v - 0.0, 1.0) == v && Scaled(v, 1.0) == v;
  }

  /** A small obstacle can leave the start it has pushed out on a blocked square: here, on the way 46 m along
      one axis, one of a single square, which pushes it to 1.4 squares, into the next column. */
  lemma PushedStartBlocked(sqrt: Root, g: Grid, o: Obstacle)
    requires IsRoot(sqrt) && g.Valid() && g.width == g.height == 50.0 && g.cols == g.rows == 50
    requires o.centre == Point(1.4, 0.0) && o.Radius() == 1.0
    requires Drawn(sqrt, g, Circles(UNIT_AXIS, UNIT_AXIS, [o]))
    ensures PushedOut(sqrt, Point(0.4, 0.0), [o], 1.0) == Some(Point(0.0, 0.0))
    ensures Fits(UNIT_AXIS, UNIT_AXIS, Point(0.0, 0.0), Point(46.0, 0.0), 1.0)
    ensures !IsFree(g, ToGrid(UNIT_AXIS, UNIT_AXIS, Point(0.0, 0.0)))
  {
    PushedTo(sqrt, o);
    SingleSquare(o);
    OneCircle(UNIT_AXIS, UNIT_AXIS, o);
    BlockedAtStart(sqrt, g, [Circle(Point(3.4, 2.0), 1)]);
    UnitFits();
  }

  lemma OneCircle(ax: Axis, ay: Axis, o: Obstacle)
    ensures Circles(ax, ay, [o]) == [CircleOf(ax, ay, o)]
  {}

  lemma UnitFits()
    ensures Fits(UNIT_AXIS, UNIT_AXIS, Point(0.0, 0.0), Point(46.0, 0.0), 1.0)
    ensures ToGrid(UNIT_AXIS, UNIT_AXIS, Point(0.0, 0.0)) == Point(2.0, 2.0)
  {
    UnitAxis(0.0);
    UnitAxis(46.0);
  }

  lemma PushedTo(sqrt: Root, o: Obstacle)
    requires IsRoot(sqrt) && o.centre == Point(1.4, 0.0) && o.Radius() == 1.0
    ensures PushedOut(sqrt, Point(0.4, 0.0), [o], 1.0) == Some(Point(0.0, 0.0))
  {
    assert Scaled(1.4, 1.0) == 1.4;
    PushedAlongAxis(sqrt, 0.4, o, 1.0, 1.4);
    assert Scaled(o.centre.x - 0.4, 1.4) == 1.4 by { ScaledUnits(1.4); }
    PushedOnce(sqrt, Point(0.4, 0.0), o, 1.0);
  }

  lemma SingleSquare(o: Obstacle)
    requires o.centre == Point(1.4, 0.0) && o.Radius() == 1.0
    ensures CircleOf(UNIT_AXIS, UNIT_AXIS, o) == Circle(Point(3.4, 2.0), 1)
  {
    UnitAxis(1.4);
    UnitAxis(0.0);
    assert Scaled(o.Radius(), 1.0) == o.Radius();
  }

  lemma BlockedAtStart(sqrt: Root, g: Grid, circles: seq<Circle>)
    requires IsRoot(sqrt) && g.Valid() && g.width == g.height == 50.0 && g.cols == g.rows == 50
    requires circles == [Circle(Point(3.4, 2.0), 1)] && Drawn(sqrt, g, circles)
    ensures !IsFree(g, Point(2.0, 2.0))
  {
    NextColumnCovered(sqrt);
    assert OnCircle(sqrt, circles, 2, 2) by { assert circles[0].r == 1; }
    UnitSquares(2.0);
    assert g.Blocked(2, 2);
  }

  lemma NextColumnCovered(sqrt: Root)
    requires IsRoot(sqrt)
    ensures InCircle(sqrt, Point(3.4, 2.0), 1, 2, 2)
  {
    RootOfSquare(sqrt, 0.0);
    assert Square(1.0) - Square(-1.0) == 0.0 && Square(0.0) == 0.0;
    assert Reach(sqrt, 1, -1) == 1;
    assert Cell(2.0, 0) == 2 && Cell(3.4, -1) == 2;
    assert InColumn(Point(3.4, 2.0), -1, Reach(sqrt, 1, -1), 2, 2);
  }

  lemma SafeIsClear(sqrt: Root, g: Grid, ax: Axis, ay: Axis, path: seq<Point>, obstacles: seq<Obstacle>)
    requires g.Valid() && g.width == g.height == 50.0 && g.cols == g.rows == 50 && IsRoot(sqrt)
    requires ax.Valid() && ay.Valid() && ax.metres == ay.metres && ax.scale == ay.scale
    requires Drawn(sqrt, g, Circles(ax, ay, obstacles)) && SafePath(g, ax, ay, path)
    ensures KeepsClear(ax, ay, path, obstacles)
  {
    forall i, k | 0 <= i < |path| - 1 && 0 <= k < |obstacles|
      ensures SegmentClear(ax, ay, path[i], path[i + 1], obstacles[k])
    {
      var p, q, o := path[i], path[i + 1], obstacles[k];
      assert FreeBetween(g, ax, ay, p, q);
      forall t: real | 0.0 <= t <= 1.0
        ensures ClearOf(ax, ay, Between(p, q, t), o)
      {
        FreeIsClear(sqrt, g, ax, ay, Between(p, q, t), obstacles, k);
      }
    }
  }

  lemma MapBackEnds(ax: Axis, ay: Axis, smooth: seq<Point>, final: seq<Point>, origin: Point, last: Point)
    requires ax.Valid() && ay.Valid() && |final| == |smooth| && smooth != []
    requires forall i :: 0 <= i < |smooth| ==> final[i] == FromGrid(ax, ay, smooth[i])
    requires smooth[0] == ToGrid(ax, ay, origin) && smooth[|smooth| - 1] == ToGrid(ax, ay, last)
    ensures final[0] == origin && final[|final| - 1] == last
  {
    AxisRoundTrip(ax, origin.x);
    AxisRoundTrip(ay, origin.y);
    AxisRoundTrip(ax, last.x);
    AxisRoundTrip(ay, last.y);
  }

  lemma LongestPositive(gx: real, gy: real, metres: real)
    requires gx >= 0.0 && gy >= 0.0 && (gx > 0.0 || gy > 0.0) && metres > 0.0
    ensures Scaled(gx, metres) > 0.0 || Scaled(gy, metres) > 0.0
  {
    ScaledUnits(metres);
    if gx > 0.0 { ScaledStrict(0.0, gx, metres); } else { ScaledStrict(0.0, gy, metres); }
  }

  /** What the search hands to SmoothPath: with a solution, the way from the start to the goal; without
      one, the way from the start to some node and back to the start. */
  lemma PlannedPath(b: BiRRT, path: seq<Point>, found: bool, start: Point, goal: Point)
    requires b.Valid() && b.startTree.nodes != [] && b.goalTree.nodes != []
    requires b.startTree.nodes[0].state == start && b.goalTree.nodes[0].state == goal
    requires found <==> b.startSolutionNode != null
    requires found ==> path == SolutionPath(b.Found())
    requires !found ==> var lineage := b.startTree.nodes[|b.startTree.nodes| - 1].lineage;
                        path == lineage + Reverse(lineage)
    ensures |path| >= 2 && path[0] == start && path[|path| - 1] == if found then goal else start
    ensures forall k :: 0 <= k < |path| ==> b.View().InBounds(path[k])
    ensures found && IsFree(b.View(), goal) ==> Legs(b.View(), path)
  {
    var down, up;
    if found {
      down, up := b.startSolutionNode.lineage, b.goalSolutionNode.lineage;
      if IsFree(b.View(), goal) { SolutionPathValid(b.Found(), b.View(), start, goal); }
    } else {
      var last := b.startTree.nodes[|b.startTree.nodes| - 1];
      assert b.startTree.Grown(last);
      down, up := last.lineage, last.lineage;
    }
    ReverseAt(up, |up| - 1);
    forall k | 0 <= k < |path|
      ensures b.View().InBounds(path[k])
    {
      if k >= |down| { ReverseAt(up, k - |down|); }
    }
  }

  /** Every point of every segment of the path in the caller's coordinates falls on a free point. */
  lemma MappedPathFree(g: Grid, ax: Axis, ay: Axis, smooth: seq<Point>, final: seq<Point>)
    requires g.Valid() && ax.Valid() && ay.Valid() && |final| == |smooth|
    requires smooth != [] && Legs(g, smooth) && IsFree(g, smooth[0])
    requires forall i :: 0 <= i < |smooth| ==> final[i] == FromGrid(ax, ay, smooth[i])
    ensures SafePath(g, ax, ay, final)
  {
    forall i | 0 <= i < |final| - 1
      ensures FreeBetween(g, ax, ay, final[i], final[i + 1])
    {
      var p, q := final[i], final[i + 1];
      forall t: real | 0.0 <= t <= 1.0
        ensures IsFree(g, ToGrid(ax, ay, Between(p, q, t)))
      {
        MappedBetween(ax, ay, smooth[i], smooth[i + 1], t);
        LegsFree(g, smooth, i, t);
      }
    }
  }

  lemma MappedBetween(ax: Axis, ay: Axis, p: Point, q: Point, t: real)
    requires ax.Valid() && ay.Valid()
    ensures ToGrid(ax, ay, Between(FromGrid(ax, ay, p), FromGrid(ax, ay, q), t)) == Between(p, q, t)
  {
    AxisAffine(ax, ax.FromGrid(p.x), ax.FromGrid(q.x), t);
    AxisAffine(ay, ay.FromGrid(p.y), ay.FromGrid(q.y), t);
    AxisRoundTrip(ax, p.x);
    AxisRoundTrip(ay, p.y);
    AxisRoundTrip(ax, q.x);
    AxisRoundTrip(ay, q.y);
  }
}
