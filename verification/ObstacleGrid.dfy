/** A grid of obstacle squares laid over a rectangle (ObstacleGrid.cpp). */
module Obstacles {
  import opened Geometry

  /** The value of a grid: its extent, its number of squares each way and which squares are
      blocked, column-minor as the source stores them. */
  datatype Grid = Grid(width: real, height: real, cols: int, rows: int, blocked: seq<bool>) {
    ghost predicate Valid() {
      width > 0.0 && height > 0.0 && cols > 0 && rows > 0 && |blocked| == cols * rows
    }

    predicate HasSquare(x: int, y: int) { 0 <= x < cols && 0 <= y < rows }

    /** The edges of square (x, y): Left(x), Left(x + 1), Top(y) and Top(y + 1). */
    function Left(x: int): real requires cols > 0 { Edge(x, width, cols) }
    function Top(y: int): real requires rows > 0 { Edge(y, height, rows) }

    predicate Blocked(x: int, y: int)
      requires Valid()
    {
      HasSquare(x, y) && (IndexInside(x, y, cols, rows); blocked[x + cols * y])
    }

    predicate InBounds(p: Point) { p.x >= 0.0 && p.y >= 0.0 && p.x < width && p.y < height }

    function Col(p: Point): int requires Valid() { Part(p.x, width, cols) }
    function Row(p: Point): int requires Valid() { Part(p.y, height, rows) }

    /** p lies in the half-open square (x, y). */
    predicate Holds(x: int, y: int, p: Point)
      requires Valid()
    {
      Left(x) <= p.x < Left(x + 1) && Top(y) <= p.y < Top(y + 1)
    }
  }

  lemma IndexInside(x: int, y: int, cols: int, rows: int)
    requires 0 <= x < cols && 0 <= y < rows
    ensures 0 <= x + cols * y < cols * rows
  {
    assert cols * y <= cols * (rows - 1);
    assert cols * (rows - 1) == cols * rows - cols;
    assert 0 <= cols * y;
  }

  lemma MulAtLeast(n: int, d: int)
    requires n >= 0 && d >= 1
    ensures n * d >= n
  {}

  /** Two different squares never share a cell of the array. */
  lemma IndexInjective(x: int, y: int, x': int, y': int, cols: int)
    requires 0 <= x < cols && 0 <= x' < cols && x + cols * y == x' + cols * y'
    ensures x == x' && y == y'
  {
    if y > y' {
      MulAtLeast(cols, y - y');
    } else if y < y' {
      MulAtLeast(cols, y' - y);
    }
  }

  /** Which of n equal parts of [0, extent) the source puts the coordinate v in. */
  function Part(v: real, extent: real, n: int): int
    requires extent > 0.0
  {
    Trunc(Scaled(v / extent, n as real))
  }

  /** The lower edge of the k-th of n equal parts of [0, extent). */
  function Edge(k: int, extent: real, n: int): real
    requires n > 0
  {
    Scaled(k as real, extent / n as real)
  }

  lemma PositiveQuotient(a: real, b: real)
    requires a > 0.0 && b > 0.0
    ensures a / b > 0.0
  {
    DivScaled(a, b);
    ScaledUnits(b);
    var q := a / b;
    if q <= 0.0 { ScaledMono(q, 0.0, b); }
  }

  /** The coordinate v falls in the part it is assigned to. */
  lemma PartHolds(v: real, extent: real, n: int)
    requires 0.0 <= v < extent && n > 0
    ensures 0 <= Part(v, extent, n) < n
    ensures Edge(Part(v, extent, n), extent, n) <= v < Edge(Part(v, extent, n) + 1, extent, n)
  {
    var nr := n as real;
    var q, w := v / extent, extent / nr;
    var s := Scaled(q, nr);
    DivScaled(v, extent);
    DivScaled(extent, nr);
    DivMono(0.0, v, extent);
    ScaledUnits(extent);
    ScaledUnits(nr);
    if q >= 1.0 { ScaledMono(1.0, q, extent); }
    ScaledMono(0.0, q, nr);
    ScaledStrict(q, 1.0, nr);
    PositiveQuotient(extent, nr);
    ScaledAssoc(q, nr, w);
    ScaledMono(s.Floor as real, s, w);
    ScaledStrict(s, (s.Floor + 1) as real, w);
  }

  /** Later coordinates fall in later parts. */
  lemma PartMono(u: real, v: real, extent: real, n: int)
    requires 0.0 <= u <= v < extent && n > 0
    ensures Part(u, extent, n) <= Part(v, extent, n)
  {
    DivMono(0.0, u, extent);
    DivMono(u, v, extent);
    ScaledUnits(n as real);
    ScaledMono(0.0, u / extent, n as real);
    ScaledMono(u / extent, v / extent, n as real);
  }

  /** The square computed for an in-bounds point exists and contains it. */
  lemma SquareForLocation(g: Grid, p: Point)
    requires g.Valid() && g.InBounds(p)
    ensures g.HasSquare(g.Col(p), g.Row(p))
    ensures g.Holds(g.Col(p), g.Row(p), p)
  {
    PartHolds(p.x, g.width, g.cols);
    PartHolds(p.y, g.height, g.rows);
  }

  class ObstacleGrid {
    const width: real
    const height: real
    const discretizedWidth: int
    const discretizedHeight: int
    const obstacles: array<bool>

    ghost predicate Valid() {
      width > 0.0 && height > 0.0 && discretizedWidth > 0 && discretizedHeight > 0 &&
      obstacles.Length == discretizedWidth * discretizedHeight
    }

    ghost function View(): (g: Grid)
      requires Valid()
      reads obstacles
      ensures g.Valid()
    {
      Grid(width, height, discretizedWidth, discretizedHeight, obstacles[..])
    }

    constructor (width: real, height: real, discretizedWidth: int, discretizedHeight: int)
      requires width > 0.0 && height > 0.0 && discretizedWidth > 0 && discretizedHeight > 0
      ensures Valid() && fresh(obstacles)
      ensures View() == Grid(width, height, discretizedWidth, discretizedHeight,
                             seq(discretizedWidth * discretizedHeight, _ => false))
    {
      this.width, this.height := width, height;
      this.discretizedWidth, this.discretizedHeight := discretizedWidth, discretizedHeight;
      assert discretizedWidth * discretizedHeight >= 0;
      obstacles := new bool[discretizedWidth * discretizedHeight];
      new;
      Clear();
      AllFalse(View());
    }

    method GridSquareForLocation(loc: Point) returns (x: int, y: int)
      requires Valid()
      ensures x == View().Col(loc) && y == View().Row(loc)
      ensures View().InBounds(loc) ==> View().HasSquare(x, y) && View().Holds(x, y, loc)
    {
      x := Part(loc.x, width, discretizedWidth);
      y := Part(loc.y, height, discretizedHeight);
      if View().InBounds(loc) {
        SquareForLocation(View(), loc);
      }
    }

    method ObstacleAt(x: int, y: int) returns (blocked: bool)
      requires Valid() && View().HasSquare(x, y)
      ensures blocked == View().Blocked(x, y)
    {
      IndexInside(x, y, discretizedWidth, discretizedHeight);
      blocked := obstacles[x + discretizedWidth * y];
    }

    /** Writing through the reference that obstacleAt returns. */
    method SetObstacleAt(x: int, y: int, blocked: bool)
      requires Valid() && View().HasSquare(x, y)
      modifies obstacles
      ensures forall i, j :: View().HasSquare(i, j) ==>
                View().Blocked(i, j) == if i == x && j == y then blocked else old(View()).Blocked(i, j)
    {
      IndexInside(x, y, discretizedWidth, discretizedHeight);
      ghost var before := View();
      obstacles[x + discretizedWidth * y] := blocked;
      forall i, j | View().HasSquare(i, j)
        ensures View().Blocked(i, j) == if i == x && j == y then blocked else before.Blocked(i, j)
      {
        IndexInside(i, j, discretizedWidth, discretizedHeight);
        if i + discretizedWidth * j == x + discretizedWidth * y {
          IndexInjective(i, j, x, y, discretizedWidth);
        }
      }
    }

    method Clear()
      requires Valid()
      modifies obstacles
      ensures forall i, j :: View().HasSquare(i, j) ==> !View().Blocked(i, j)
    {
      for x := 0 to discretizedWidth
        invariant forall i, j :: 0 <= i < x && View().HasSquare(i, j) ==> !View().Blocked(i, j)
      {
        for y := 0 to discretizedHeight
          invariant forall i, j :: 0 <= i < x && View().HasSquare(i, j) ==> !View().Blocked(i, j)
          invariant forall j :: 0 <= j < y ==> !View().Blocked(x, j)
        {
          SetObstacleAt(x, y, false);
        }
      }
    }
  }

  lemma QuotientInside(k: int, cols: int, rows: int)
    requires cols > 0 && 0 <= k < cols * rows
    ensures 0 <= k / cols < rows
  {
    if k / cols >= rows {
      MulOrder(cols, rows, k / cols);
    }
  }

  lemma MulOrder(c: int, a: int, b: int)
    requires c >= 0 && a <= b
    ensures c * a <= c * b
  {}

  /** A grid with no blocked square is the all-false array: every cell is some square's. */
  lemma AllFalse(g: Grid)
    requires g.Valid()
    requires forall i, j :: g.HasSquare(i, j) ==> !g.Blocked(i, j)
    ensures g.blocked == seq(g.cols * g.rows, _ => false)
  {
    forall k | 0 <= k < |g.blocked|
      ensures !g.blocked[k]
    {
      var x, y := k % g.cols, k / g.cols;
      assert k == x + g.cols * y;
      QuotientInside(k, g.cols, g.rows);
      assert g.HasSquare(x, y) && !g.Blocked(x, y);
    }
  }
}
