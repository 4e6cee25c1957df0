/** Thinning out paths and vectors in place (Path.hpp). */
module Paths {
  import opened Geometry
  import opened Obstacles
  import opened GridSpace
  import opened Trees

  /** A vector passed by reference. */
  class Vector<T> {
    var items: seq<T>

    constructor (items: seq<T>)
      ensures this.items == items
    {
      this.items := items;
    }

    method Erase(at: int)
      requires 0 <= at < |items|
      modifies this
      ensures items == old(items)[..at] + old(items)[at + 1..]
    {
      items := items[..at] + items[at + 1..];
    }
  }

  // ---- SmoothPath ----

  /** One pass of shortcuts over span edges, from position i on. */
  ghost function Pass(g: Grid, pts: seq<Point>, i: nat, span: nat): (r: seq<Point>)
    requires g.Valid() && span >= 2
    ensures |r| <= |pts|
    decreases if i + span < |pts| then |pts| - i else 0
  {
    if i + span >= |pts| then pts
    else if TransitionFree(g, pts[i], pts[i + span]) then Pass(g, pts[..i + 1] + pts[i + span..], i + 1, span)
    else Pass(g, pts, i + 1, span)
  }

  /** Passes with growing span, repeated at each span as long as they shorten the path. */
  ghost function Smooth(g: Grid, pts: seq<Point>, span: nat): seq<Point>
    requires g.Valid() && span >= 2
    decreases if span < |pts| then |pts| - span else 0
  {
    if span >= |pts| then pts else
      var next := Pass(g, pts, 0, span);
      if |next| < |pts| then Smooth(g, next, span) else Smooth(g, next, span + 1)
  }

  /** cur consists of the points of orig at the positions idx, with both ends. */
  ghost predicate Picks(orig: seq<Point>, cur: seq<Point>, idx: seq<nat>) {
    |idx| == |cur| &&
    (forall k :: 0 <= k < |cur| ==> idx[k] < |orig| && cur[k] == orig[idx[k]]) &&
    (orig == [] ==> cur == []) &&
    (orig != [] ==> cur != [] && idx[0] == 0 && idx[|idx| - 1] == |orig| - 1)
  }

  /** From one position of the selection to the next: forward, and over left-out points only where
      the direct move is allowed. */
  ghost predicate Steps(g: Grid, cur: seq<Point>, idx: seq<nat>, j: nat)
    requires g.Valid() && |idx| == |cur| && j + 1 < |cur|
  {
    idx[j] < idx[j + 1] && (idx[j + 1] == idx[j] + 1 || TransitionFree(g, cur[j], cur[j + 1]))
  }

  ghost predicate Selects(g: Grid, orig: seq<Point>, cur: seq<Point>, idx: seq<nat>)
    requires g.Valid()
  {
    Picks(orig, cur, idx) && (forall k :: 0 <= k < |cur| - 1 ==> Steps(g, cur, idx, k))
  }

  lemma Shortcut(g: Grid, orig: seq<Point>, cur: seq<Point>, idx: seq<nat>, i: nat, span: nat) returns (idx': seq<nat>)
    requires g.Valid() && span >= 2 && Selects(g, orig, cur, idx)
    requires i + span < |cur| && TransitionFree(g, cur[i], cur[i + span])
    ensures Selects(g, orig, cur[..i + 1] + cur[i + span..], idx')
  {
    idx' := idx[..i + 1] + idx[i + span..];
    var cur' := cur[..i + 1] + cur[i + span..];
    ShortcutPicks(orig, cur, idx, i, span);
    forall k | 0 <= k < |cur'| - 1
      ensures Steps(g, cur', idx', k)
    {
      var j := if k <= i then k else k + span - 1;
      var j' := if k < i then k + 1 else k + span;
      assert cur'[k] == cur[j] && idx'[k] == idx[j];
      assert cur'[k + 1] == cur[j'] && idx'[k + 1] == idx[j'];
      if k == i {
        Increasing(g, cur, idx, i, i + span);
      } else {
        assert Steps(g, cur, idx, j);
      }
    }
  }

  lemma ShortcutPicks(orig: seq<Point>, cur: seq<Point>, idx: seq<nat>, i: nat, span: nat)
    requires Picks(orig, cur, idx) && span >= 1 && i + span < |cur|
    ensures Picks(orig, cur[..i + 1] + cur[i + span..], idx[..i + 1] + idx[i + span..])
  {}

  lemma {:induction false} Increasing(g: Grid, cur: seq<Point>, idx: seq<nat>, i: nat, j: nat)
    requires g.Valid() && |idx| == |cur| && i < j < |cur|
    requires forall k :: 0 <= k < |cur| - 1 ==> Steps(g, cur, idx, k)
    ensures idx[i] < idx[j]
  {
    assert Steps(g, cur, idx, j - 1);
    if i + 1 < j { Increasing(g, cur, idx, i, j - 1); }
  }

  lemma {:induction false} PassSelects(g: Grid, orig: seq<Point>, cur: seq<Point>, idx: seq<nat>, i: nat, span: nat)
    returns (idx': seq<nat>)
    requires g.Valid() && span >= 2 && Selects(g, orig, cur, idx)
    ensures Selects(g, orig, Pass(g, cur, i, span), idx')
    decreases if i + span < |cur| then |cur| - i else 0
  {
    idx' := idx;
    if i + span < |cur| {
      if TransitionFree(g, cur[i], cur[i + span]) {
        idx' := Shortcut(g, orig, cur, idx, i, span);
        idx' := PassSelects(g, orig, cur[..i + 1] + cur[i + span..], idx', i + 1, span);
      } else {
        idx' := PassSelects(g, orig, cur, idx, i + 1, span);
      }
    }
  }

  lemma {:induction false} SmoothSelects(g: Grid, orig: seq<Point>, cur: seq<Point>, idx: seq<nat>, span: nat)
    returns (idx': seq<nat>)
    requires g.Valid() && span >= 2 && Selects(g, orig, cur, idx)
    ensures Selects(g, orig, Smooth(g, cur, span), idx')
    decreases if span < |cur| then |cur| - span else 0
  {
    idx' := idx;
    if span < |cur| {
      idx' := PassSelects(g, orig, cur, idx, 0, span);
      var next := Pass(g, cur, 0, span);
      idx' := SmoothSelects(g, orig, next, idx', if |next| < |cur| then span else span + 1);
    }
  }

  /** Smoothing keeps some of the points, in order, with both ends, and leaves a path of allowed
      moves a path of allowed moves. */
  lemma SmoothThins(g: Grid, pts: seq<Point>) returns (idx: seq<nat>)
    requires g.Valid()
    ensures Selects(g, pts, Smooth(g, pts, 2), idx)
    ensures Legs(g, pts) ==> Legs(g, Smooth(g, pts, 2))
  {
    idx := seq(|pts|, k => k);
    idx := SmoothSelects(g, pts, pts, idx, 2);
    if Legs(g, pts) {
      var cur := Smooth(g, pts, 2);
      forall k | 0 <= k < |cur| - 1
        ensures TransitionFree(g, cur[k], cur[k + 1])
      {
        assert Steps(g, cur, idx, k);
      }
    }
  }

  /** With nothing in the way the smoothed path is the straight line from its start to its end. */
  lemma {:induction false} SmoothUnobstructed(g: Grid, pts: seq<Point>)
    requires g.Valid() && (forall x, y :: !g.Blocked(x, y))
    requires |pts| >= 2 && (forall k :: 0 <= k < |pts| ==> g.InBounds(pts[k]))
    ensures Smooth(g, pts, 2) == [pts[0], pts[|pts| - 1]]
    decreases |pts|
  {
    if |pts| > 2 {
      var next := Pass(g, pts, 0, 2);
      assert next == Pass(g, pts[..1] + pts[2..], 1, 2);
      var idx := PassSelects(g, pts, pts, seq(|pts|, k => k), 0, 2);
      SmoothUnobstructed(g, next);
    }
  }

  /** The direct move over span edges from position i is allowed. */
  ghost predicate ShortcutAt(g: Grid, pts: seq<Point>, i: nat, span: nat)
    requires g.Valid()
  {
    span >= 2 && i + span < |pts| && TransitionFree(g, pts[i], pts[i + span])
  }

  /** A pass from position i on shortens the path exactly if it meets such a move, and otherwise leaves it. */
  lemma {:induction false} PassShortens(g: Grid, pts: seq<Point>, i: nat, span: nat)
    requires g.Valid() && span >= 2
    ensures (forall k :: i <= k ==> !ShortcutAt(g, pts, k, span)) ==> Pass(g, pts, i, span) == pts
    ensures (exists k :: i <= k && ShortcutAt(g, pts, k, span)) ==> |Pass(g, pts, i, span)| < |pts|
    decreases if i + span < |pts| then |pts| - i else 0
  {
    if i + span < |pts| {
      if TransitionFree(g, pts[i], pts[i + span]) {
        assert ShortcutAt(g, pts, i, span);
      } else {
        PassShortens(g, pts, i + 1, span);
        if k :| i <= k && ShortcutAt(g, pts, k, span) { assert i + 1 <= k; }
      }
    }
  }

  lemma {:induction false} SmoothNoLonger(g: Grid, pts: seq<Point>, span: nat)
    requires g.Valid() && span >= 2
    ensures |Smooth(g, pts, span)| <= |pts|
    decreases if span < |pts| then |pts| - span else 0
  {
    if span < |pts| {
      var next := Pass(g, pts, 0, span);
      SmoothNoLonger(g, next, if |next| < |pts| then span else span + 1);
    }
  }

  ghost predicate AnyShortcut(g: Grid, pts: seq<Point>, least: nat)
    requires g.Valid()
  {
    exists i, span :: least <= span && ShortcutAt(g, pts, i, span)
  }

  /** Smoothing from some span on shortens the path exactly if a direct move over that many edges or more is
      allowed anywhere, and otherwise leaves it. */
  lemma {:induction false} SmoothShortensIff(g: Grid, pts: seq<Point>, span: nat)
    requires g.Valid() && span >= 2
    ensures if AnyShortcut(g, pts, span) then |Smooth(g, pts, span)| < |pts| else Smooth(g, pts, span) == pts
    decreases if span < |pts| then |pts| - span else 0
  {
    if span < |pts| {
      PassShortens(g, pts, 0, span);
      var next := Pass(g, pts, 0, span);
      if |next| < |pts| {
        SmoothNoLonger(g, next, span);
        assert exists k :: 0 <= k && ShortcutAt(g, pts, k, span);
      } else {
        assert forall k: nat :: !ShortcutAt(g, pts, k, span);
        assert next == pts;
        SmoothShortensIff(g, pts, span + 1);
        if i, s :| span <= s && ShortcutAt(g, pts, i, s) { assert s != span; }
      }
    }
  }

  /** A direct move between two points of the path that are not next to each other is allowed. */
  ghost predicate Shortenable(g: Grid, pts: seq<Point>)
    requires g.Valid()
  {
    exists i, j :: 0 <= i && i + 2 <= j < |pts| && TransitionFree(g, pts[i], pts[j])
  }

  lemma ShortenableIsShortcut(g: Grid, pts: seq<Point>)
    requires g.Valid()
    ensures Shortenable(g, pts) <==> AnyShortcut(g, pts, 2)
  {
    if i: nat, span: nat :| ShortcutAt(g, pts, i, span) {
      assert TransitionFree(g, pts[i], pts[i + span]);
    }
    if i, j :| 0 <= i && i + 2 <= j < |pts| && TransitionFree(g, pts[i], pts[j]) {
      assert ShortcutAt(g, pts, i, j - i);
    }
  }

  /** So smoothing shortens a path exactly if such a move is allowed, and otherwise leaves it as it is. */
  lemma SmoothShortens(g: Grid, pts: seq<Point>)
    requires g.Valid()
    ensures if Shortenable(g, pts) then |Smooth(g, pts, 2)| < |pts| else Smooth(g, pts, 2) == pts
  {
    ShortenableIsShortcut(g, pts);
    SmoothShortensIff(g, pts, 2);
  }

  method SmoothPath(pts: Vector<Point>, stateSpace: GridStateSpace)
    requires stateSpace.obstacleGrid.Valid()
    requires forall k :: 0 <= k < |pts.items| ==> stateSpace.obstacleGrid.View().InBounds(pts.items[k])
    modifies pts
    ensures pts.items == Smooth(stateSpace.obstacleGrid.View(), old(pts.items), 2)
    ensures if Shortenable(stateSpace.obstacleGrid.View(), old(pts.items)) then |pts.items| < |old(pts.items)|
            else pts.items == old(pts.items)
  {
    ghost var g := stateSpace.obstacleGrid.View();
    var span := 2;
    while span < |pts.items|
      invariant span >= 2 && g == stateSpace.obstacleGrid.View()
      invariant forall k :: 0 <= k < |pts.items| ==> g.InBounds(pts.items[k])
      invariant Smooth(g, pts.items, span) == Smooth(g, old(pts.items), 2)
      decreases |pts.items| - span
    {
      ghost var before := pts.items;
      var changed := false;
      var i := 0;
      while i + span < |pts.items|
        invariant g == stateSpace.obstacleGrid.View() && 0 <= i
        invariant forall k :: 0 <= k < |pts.items| ==> g.InBounds(pts.items[k])
        invariant Pass(g, pts.items, i, span) == Pass(g, before, 0, span)
        invariant |pts.items| <= |before| && (changed <==> |pts.items| < |before|)
        decreases |pts.items| - i
      {
        var ok := stateSpace.TransitionValid(pts.items[i], pts.items[i + span]);
        if ok {
          EraseRun(pts, i + 1, span - 1);
          changed := true;
        }
        i := i + 1;
      }
      if !changed { span := span + 1; }
    }
    SmoothShortens(g, old(pts.items));
  }

  /** The inner loop of SmoothPath: the element at the same position is erased count times. */
  method EraseRun(pts: Vector<Point>, at: nat, count: nat)
    requires at + count <= |pts.items|
    modifies pts
    ensures pts.items == old(pts.items)[..at] + old(pts.items)[at + count..]
  {
    for x := 0 to count
      invariant pts.items == old(pts.items)[..at] + old(pts.items)[at + x..]
    {
      pts.Erase(at);
    }
  }

  // ---- DownSampleVector ----

  /** The elements of s whose positions are not in removed, in order. */
  function Survivors<T>(s: seq<T>, removed: set<int>): seq<T> {
    if s == [] then [] else
      var last := |s| - 1;
      Survivors(s[..last], removed) + if last in removed then [] else [s[last]]
  }

  /** k * n / d rounded to the nearest integer, halves up. */
  function RemovalIndex(k: nat, n: nat, d: nat): int
    requires d > 0
  {
    (Scaled(k as real, n as real / d as real) + 0.5).Floor
  }

  function RemovalSet(n: nat, d: nat, k: nat): set<int>
    requires k == 0 || d > 0
  {
    if k == 0 then {} else RemovalSet(n, d, k - 1) + {RemovalIndex(k - 1, n, d)}
  }

  lemma SpacingAtLeastOne(n: nat, d: nat)
    requires 0 < d <= n
    ensures n as real / d as real >= 1.0
  {
    DivMono(d as real, n as real, d as real);
    DivScaled(d as real, d as real);
  }

  lemma NextMultiple(k: nat, sp: real)
    ensures Scaled((k + 1) as real, sp) == Scaled(k as real, sp) + sp
  {}

  lemma RemovalIndexBounds(k: nat, n: nat, d: nat)
    requires k < d <= n
    ensures k <= RemovalIndex(k, n, d) < n
    ensures k + 1 < d ==> RemovalIndex(k, n, d) < RemovalIndex(k + 1, n, d)
  {
    var sp := n as real / d as real;
    SpacingAtLeastOne(n, d);
    NextMultiple(k, sp);
    ScaledMono((k + 1) as real, d as real, sp);
    DivScaled(n as real, d as real);
    ScaledOrder(k as real, 1.0, sp);
  }

  /** The indices removed are increasing, hence pairwise distinct, and exist. */
  lemma {:induction false} RemovalIndicesIncrease(j: nat, k: nat, n: nat, d: nat)
    requires j < k < d <= n
    ensures 0 <= RemovalIndex(j, n, d) < RemovalIndex(k, n, d) < n
  {
    RemovalIndexBounds(j, n, d);
    RemovalIndexBounds(k, n, d);
    RemovalIndexBounds(k - 1, n, d);
    if j < k - 1 { RemovalIndicesIncrease(j, k - 1, n, d); }
  }

  lemma {:induction false} RemovalSetBelow(n: nat, d: nat, k: nat)
    requires 0 < d <= n && k <= d
    ensures |RemovalSet(n, d, k)| == k
    ensures forall r :: r in RemovalSet(n, d, k) ==> 0 <= r < n && (k < d ==> r < RemovalIndex(k, n, d))
  {
    if k > 0 {
      RemovalSetBelow(n, d, k - 1);
      RemovalIndexBounds(k - 1, n, d);
    }
  }

  /** The removal set in closed form: round-half-up(k * n / d) for 0 <= k < d. */
  lemma {:induction false} RemovalSetMembers(n: nat, d: nat, k: nat, r: int)
    requires 0 < d <= n && k <= d
    ensures r in RemovalSet(n, d, k) <==> exists j: nat :: j < k && r == RemovalIndex(j, n, d)
  {
    if k > 0 { RemovalSetMembers(n, d, k - 1, r); }
  }

  lemma {:induction false} SurvivorsNone<T>(s: seq<T>)
    ensures Survivors(s, {}) == s
  {
    if s != [] {
      SurvivorsNone(s[..|s| - 1]);
      assert s == s[..|s| - 1] + [s[|s| - 1]];
    }
  }

  /** Nothing is removed from position r on: the survivors are those before r and all the rest. */
  lemma {:induction false} SurvivorsSplit<T>(s: seq<T>, removed: set<int>, r: nat)
    requires r <= |s| && (forall x :: x in removed ==> 0 <= x < r)
    ensures Survivors(s, removed) == Survivors(s[..r], removed) + s[r..]
  {
    if r == |s| {
      assert s[..r] == s;
    } else {
      var front := s[..|s| - 1];
      SurvivorsSplit(front, removed, r);
      assert front[..r] == s[..r];
      assert s[r..] == front[r..] + [s[|s| - 1]];
    }
  }

  lemma {:induction false} SurvivorsLength<T>(s: seq<T>, removed: set<int>)
    requires forall x :: x in removed ==> 0 <= x < |s|
    ensures |Survivors(s, removed)| == |s| - |removed|
  {
    if s == [] {
      assert forall x: int | x in removed :: false;
      assert removed == {};
    } else {
      var last := |s| - 1;
      SurvivorsIgnore(s[..last], removed, last);
      SurvivorsLength(s[..last], removed - {last});
    }
  }

  lemma {:induction false} SurvivorsIgnore<T>(s: seq<T>, removed: set<int>, r: int)
    requires r >= |s|
    ensures Survivors(s, removed) == Survivors(s, removed - {r})
  {
    if s != [] { SurvivorsIgnore(s[..|s| - 1], removed, r); }
  }

  /** Removing the next index r erases position r - k of what is left after k removals. */
  lemma EraseNext<T>(s: seq<T>, removed: set<int>, r: nat)
    requires r < |s| && (forall x :: x in removed ==> 0 <= x < r)
    ensures var left := Survivors(s, removed);
            var at := r - |removed|;
            0 <= at < |left| && Survivors(s, removed + {r}) == left[..at] + left[at + 1..]
  {
    var front := Survivors(s[..r], removed);
    SurvivorsSplit(s, removed, r);
    SurvivorsLength(s[..r], removed);
    SurvivorsWithout(s, removed, r);
    CutMiddle(front, s[r..]);
    assert s[r..][1..] == s[r + 1..];
  }

  lemma CutMiddle<T>(a: seq<T>, b: seq<T>)
    requires b != []
    ensures (a + b)[..|a|] == a && (a + b)[|a| + 1..] == b[1..]
  {}

  lemma SurvivorsWithout<T>(s: seq<T>, removed: set<int>, r: nat)
    requires r < |s| && (forall x :: x in removed ==> 0 <= x < r)
    ensures Survivors(s, removed + {r}) == Survivors(s[..r], removed) + s[r + 1..]
  {
    SurvivorsSplit(s, removed + {r}, r + 1);
    SurvivorsIgnore(s[..r], removed + {r}, r);
    assert removed + {r} - {r} == removed;
    var front := s[..r + 1];
    assert front[..r] == s[..r] && front[|front| - 1] == s[r];
    assert Survivors(front, removed + {r}) == Survivors(s[..r], removed + {r});
  }

  /** The result is the original vector without the positions round(k * n / d), 0 <= k < d. */
  method DownSampleVector<T>(states: Vector<T>, maxSize: nat)
    modifies states
    ensures |old(states.items)| <= maxSize ==> states.items == old(states.items)
    ensures |old(states.items)| > maxSize ==>
              var n := |old(states.items)|;
              states.items == Survivors(old(states.items), RemovalSet(n, n - maxSize, n - maxSize)) &&
              |states.items| == maxSize
  {
    if |states.items| > maxSize {
      ghost var orig := states.items;
      ghost var n := |orig|;
      var toDelete := |states.items| - maxSize;
      ghost var d := toDelete;
      ghost var k := 0;
      var spacing := |states.items| as real / toDelete as real;
      var i := 0.0;
      SurvivorsNone(orig);
      while toDelete != 0
        invariant 0 <= toDelete && k + toDelete == d
        invariant i == Scaled(k as real, spacing) - k as real
        invariant states.items == Survivors(orig, RemovalSet(n, d, k))
      {
        toDelete := toDelete - 1;
        var at := Trunc(i + 0.5);
        RemovalSetBelow(n, d, k);
        RemovalIndexBounds(k, n, d);
        EraseNext(orig, RemovalSet(n, d, k), RemovalIndex(k, n, d));
        assert at == RemovalIndex(k, n, d) - k;
        states.Erase(at);
        i := i + (spacing - 1.0);
        NextMultiple(k, spacing);
        k := k + 1;
      }
      RemovalSetBelow(n, d, d);
      SurvivorsLength(orig, RemovalSet(n, d, d));
    }
  }
}
