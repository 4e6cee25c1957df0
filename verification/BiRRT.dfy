/** Two trees, one rooted at the start and one at the goal, grown until they can be joined
    (birrt.cc). */
module BiRrt {
  import opened Geometry
  import opened Obstacles
  import opened GridSpace
  import opened Trees

  const INT_MAX := 0x7fff_ffff

  ghost function DepthOf(n: Node): int { |n.lineage| - 1 }

  /** The shallowest node within maxDist of target, the earliest of them if there are several. */
  ghost function Best(nodes: seq<Node>, target: Point, maxDist: real): Node? {
    if nodes == [] then null else
      var best := Best(nodes[..|nodes| - 1], target, maxDist);
      var last := nodes[|nodes| - 1];
      if CloserThan(last.state, target, maxDist) && DepthOf(last) < (if best == null then INT_MAX else DepthOf(best))
      then last else best
  }

  lemma {:induction false} BestIsShallowest(nodes: seq<Node>, target: Point, maxDist: real)
    ensures var best := Best(nodes, target, maxDist);
            if best == null then
              forall n :: n in nodes && CloserThan(n.state, target, maxDist) ==> DepthOf(n) >= INT_MAX
            else
              best in nodes && CloserThan(best.state, target, maxDist) &&
              (forall n :: n in nodes && CloserThan(n.state, target, maxDist) ==> DepthOf(best) <= DepthOf(n))
  {
    if nodes != [] {
      var rest := nodes[..|nodes| - 1];
      assert nodes == rest + [nodes[|nodes| - 1]];
      BestIsShallowest(rest, target, maxDist);
    }
  }

  /** Of several equally shallow close nodes the one listed first is chosen. */
  lemma {:induction false} BestIsFirst(nodes: seq<Node>, target: Point, maxDist: real, k: nat)
    requires k < |nodes| && CloserThan(nodes[k].state, target, maxDist) && DepthOf(nodes[k]) < INT_MAX
    requires forall n :: n in nodes && CloserThan(n.state, target, maxDist) ==> DepthOf(nodes[k]) <= DepthOf(n)
    requires forall i :: 0 <= i < k && CloserThan(nodes[i].state, target, maxDist) ==>
               DepthOf(nodes[k]) < DepthOf(nodes[i])
    ensures Best(nodes, target, maxDist) == nodes[k]
  {
    var rest := nodes[..|nodes| - 1];
    if k == |rest| {
      BestIsShallowest(rest, target, maxDist);
    } else {
      BestIsFirst(rest, target, maxDist, k);
    }
  }

  datatype Solution = Solution(start: Node?, goal: Node?, length: int)

  /** The node to join added to: the best of the other tree's nodes, provided the total depth comes
      out strictly below the given length and the move from added to it is allowed. */
  ghost function Partner(added: Node?, others: seq<Node>, g: Grid, maxDist: real, length: int): Node?
    requires g.Valid()
  {
    var other := if added == null then null else Best(others, added.state, maxDist);
    if other != null && DepthOf(other) + DepthOf(added) < length && TransitionFree(g, added.state, other.state)
    then other else null
  }

  ghost function JoinFromStart(s: Solution, added: Node?, others: seq<Node>, g: Grid, maxDist: real): Solution
    requires g.Valid()
  {
    var other := Partner(added, others, g, maxDist, s.length);
    if other == null then s else Solution(added, other, DepthOf(added) + DepthOf(other))
  }

  ghost function JoinFromGoal(s: Solution, added: Node?, others: seq<Node>, g: Grid, maxDist: real): Solution
    requires g.Valid()
  {
    var other := Partner(added, others, g, maxDist, s.length);
    if other == null then s else Solution(other, added, DepthOf(added) + DepthOf(other))
  }

  /** The k-th of the other tree's nodes is the one to join added to: close to it, of the close ones the
      shallowest and of those the first, and with an allowed move to it. */
  ghost predicate Candidate(added: Node, others: seq<Node>, k: nat, g: Grid, maxDist: real)
    requires g.Valid()
  {
    k < |others| && CloserThan(others[k].state, added.state, maxDist) &&
    (forall n :: n in others && CloserThan(n.state, added.state, maxDist) ==> DepthOf(others[k]) <= DepthOf(n)) &&
    (forall i :: 0 <= i < k && CloserThan(others[i].state, added.state, maxDist) ==>
       DepthOf(others[k]) < DepthOf(others[i])) &&
    TransitionFree(g, added.state, others[k].state)
  }

  /** From was to now exactly what can be gained by joining added is gained: there is no candidate over which
      the solution would be shorter, and a new solution goes over one. */
  ghost predicate JoinedBest(was: Solution, now: Solution, added: Node?, others: seq<Node>, g: Grid, maxDist: real,
                             fromStart: bool)
    requires g.Valid()
  {
    (added != null ==>
       forall k: nat :: Candidate(added, others, k, g, maxDist) ==>
         now.length <= DepthOf(added) + DepthOf(others[k])) &&
    (now != was ==>
       added != null && now.length < was.length &&
       exists k: nat :: Candidate(added, others, k, g, maxDist) &&
         now.length == DepthOf(added) + DepthOf(others[k]) &&
         (if fromStart then now.start == added && now.goal == others[k]
          else now.goal == added && now.start == others[k]))
  }

  lemma {:induction false} BestIsCandidate(nodes: seq<Node>, target: Point, maxDist: real) returns (k: nat)
    requires Best(nodes, target, maxDist) != null
    ensures k < |nodes| && nodes[k] == Best(nodes, target, maxDist)
    ensures forall i :: 0 <= i < k && CloserThan(nodes[i].state, target, maxDist) ==>
              DepthOf(nodes[k]) < DepthOf(nodes[i])
  {
    var n := |nodes| - 1;
    var best := Best(nodes[..n], target, maxDist);
    BestIsShallowest(nodes[..n], target, maxDist);
    if Best(nodes, target, maxDist) == best && best != null {
      k := BestIsCandidate(nodes[..n], target, maxDist);
    } else {
      k := n;
      assert forall i :: 0 <= i < n ==> nodes[i] in nodes[..n];
    }
  }

  lemma JoinIsBest(s: Solution, added: Node?, others: seq<Node>, g: Grid, maxDist: real)
    requires g.Valid() && s.length <= INT_MAX && (added != null ==> added.Linked())
    ensures JoinedBest(s, JoinFromStart(s, added, others, g, maxDist), added, others, g, maxDist, true)
    ensures JoinedBest(s, JoinFromGoal(s, added, others, g, maxDist), added, others, g, maxDist, false)
  {
    if added != null {
      forall k: nat | Candidate(added, others, k, g, maxDist) && DepthOf(others[k]) < INT_MAX
        ensures Best(others, added.state, maxDist) == others[k]
      {
        BestIsFirst(others, added.state, maxDist, k);
      }
      if Partner(added, others, g, maxDist, s.length) != null {
        BestIsShallowest(others, added.state, maxDist);
        var k := BestIsCandidate(others, added.state, maxDist);
        assert Candidate(added, others, k, g, maxDist);
      }
    }
  }

  /** A solution's two halves lead from the two roots to two free states with an allowed move
      between them, and its length is the sum of their depths. */
  ghost predicate Joined(s: Solution, g: Grid, startState: Point, goalState: Point)
    requires g.Valid()
  {
    s.start != null && s.goal != null && s.start.Linked() && s.goal.Linked() &&
    s.start.lineage[0] == startState && s.goal.lineage[0] == goalState &&
    Legs(g, s.start.lineage) && Legs(g, s.goal.lineage) &&
    IsFree(g, s.start.state) && IsFree(g, s.goal.state) &&
    TransitionFree(g, s.start.state, s.goal.state) &&
    s.length == DepthOf(s.start) + DepthOf(s.goal)
  }

  /** The points of a solution in travel order. */
  ghost function SolutionPath(s: Solution): seq<Point>
    requires s.start != null && s.goal != null
  {
    s.start.lineage + Reverse(s.goal.lineage)
  }

  lemma LegsReversed(g: Grid, lineage: seq<Point>)
    requires g.Valid() && Legs(g, lineage)
    requires lineage != [] && IsFree(g, lineage[0])
    ensures Legs(g, Reverse(lineage))
  {
    var n := |lineage|;
    forall k | 0 <= k < n
      ensures Reverse(lineage)[k] == lineage[n - 1 - k] && g.InBounds(Reverse(lineage)[k])
    {
      ReverseAt(lineage, k);
    }
    forall k | 0 <= k < n - 1
      ensures TransitionFree(g, Reverse(lineage)[k], Reverse(lineage)[k + 1])
    {
      ReverseAt(lineage, k);
      ReverseAt(lineage, k + 1);
      var i := n - 2 - k;
      assert i > 0 ==> TransitionFree(g, lineage[i - 1], lineage[i]);
      TransitionSymmetric(g, lineage[i], lineage[i + 1]);
    }
  }

  /** With a free goal, a solution's path runs from exactly the start to exactly the goal, has
      length + 2 points and consists of allowed moves in travel order. */
  lemma SolutionPathValid(s: Solution, g: Grid, startState: Point, goalState: Point)
    requires g.Valid() && Joined(s, g, startState, goalState) && IsFree(g, goalState)
    ensures var path := SolutionPath(s);
            |path| == s.length + 2 && path[0] == startState && path[|path| - 1] == goalState &&
            Legs(g, path)
  {
    var down, up := s.start.lineage, Reverse(s.goal.lineage);
    LegsReversed(g, s.goal.lineage);
    ReverseAt(s.goal.lineage, 0);
    ReverseAt(s.goal.lineage, |up| - 1);
    var path := down + up;
    forall i | 0 <= i < |path| - 1
      ensures TransitionFree(g, path[i], path[i + 1])
    {
      if i < |down| - 1 {
        assert path[i] == down[i] && path[i + 1] == down[i + 1];
      } else if i == |down| - 1 {
        assert path[i] == s.start.state && path[i + 1] == s.goal.state;
      } else {
        assert path[i] == up[i - |down|] && path[i + 1] == up[i + 1 - |down|];
      }
    }
  }

  /** When moreover the start is free, every point of every segment is free. */
  lemma LegsFree(g: Grid, path: seq<Point>, i: nat, t: real)
    requires g.Valid() && Legs(g, path) && i + 1 < |path| && 0.0 <= t <= 1.0
    requires IsFree(g, path[0])
    ensures IsFree(g, Between(path[i], path[i + 1], t))
  {
    assert i > 0 ==> TransitionFree(g, path[i - 1], path[i]);
    SegmentSound(g, path[i], path[i + 1], t);
  }

  lemma DepthBound(nodes: seq<Node>, node: Node, n: int)
    requires node in nodes && |nodes| <= n + 1
    requires forall k :: 0 <= k < |nodes| ==> |nodes[k].lineage| <= k + 1
    ensures DepthOf(node) <= n
  {
    var k :| 0 <= k < |nodes| && nodes[k] == node;
  }

  class BiRRT {
    const startTree: Tree
    const goalTree: Tree
    const goalMaxDist: real
    const maxIterations: int
    const minIterations: int
    var startSolutionNode: Node?
    var goalSolutionNode: Node?
    var iterationCount: int
    var solutionLength: int

    ghost function Found(): Solution
      reads this
    {
      Solution(startSolutionNode, goalSolutionNode, solutionLength)
    }

    ghost function View(): (g: Grid)
      requires startTree.stateSpace.obstacleGrid.Valid()
      reads startTree.stateSpace.obstacleGrid.obstacles
      ensures g.Valid()
    {
      startTree.View()
    }

    ghost predicate Valid()
      reads this, startTree, goalTree, startTree.stateSpace.obstacleGrid.obstacles
    {
      0 <= iterationCount && Sound(iterationCount, iterationCount)
    }

    /** The invariant, with at most m nodes added to the start tree and n to the goal tree. */
    ghost predicate Sound(m: int, n: int)
      reads this, startTree, goalTree, startTree.stateSpace.obstacleGrid.obstacles
    {
      startTree != goalTree && startTree.stateSpace == goalTree.stateSpace &&
      startTree.Valid() && goalTree.Valid() && |startTree.nodes| <= m + 1 && |goalTree.nodes| <= n + 1 &&
      solutionLength <= INT_MAX && (startSolutionNode == null <==> goalSolutionNode == null) &&
      (startSolutionNode == null ==> solutionLength == INT_MAX) &&
      (startSolutionNode != null ==>
         startTree.nodes != [] && goalTree.nodes != [] && solutionLength <= m + n &&
         Joined(Found(), View(), startTree.nodes[0].state, goalTree.nodes[0].state))
    }

    /** Between two searches only the roots are left, and the grid may be redrawn. */
    ghost predicate Idle()
      reads this, startTree, goalTree
    {
      startTree != goalTree && startTree.stateSpace == goalTree.stateSpace && 0 <= iterationCount &&
      startTree.RootOnly() && goalTree.RootOnly() && Found() == Solution(null, null, INT_MAX)
    }

    lemma IdleIsValid()
      requires Idle()
      ensures Valid()
    {
      startTree.RootOnlyIsValid();
      goalTree.RootOnlyIsValid();
    }

    constructor (stateSpace: GridStateSpace, goalMaxDist: real, maxIterations: int, minIterations: int)
      requires stateSpace.obstacleGrid.Valid()
      ensures Valid() && Idle() && fresh(startTree) && fresh(goalTree)
      ensures startTree.stateSpace == stateSpace && startTree.nodes == [] && goalTree.nodes == []
      ensures Found() == Solution(null, null, INT_MAX) && iterationCount == 0
      ensures this.goalMaxDist == goalMaxDist && this.maxIterations == maxIterations &&
              this.minIterations == minIterations
    {
      startTree := new Tree(stateSpace, Point(0.0, 0.0));
      goalTree := new Tree(stateSpace, Point(0.0, 0.0));
      this.goalMaxDist, this.maxIterations, this.minIterations := goalMaxDist, maxIterations, minIterations;
      startSolutionNode, goalSolutionNode, solutionLength := null, null, INT_MAX;
      iterationCount := 0;
    }

    method Reset()
      requires Valid()
      modifies this, startTree, goalTree
      ensures Valid() && Found() == Solution(null, null, INT_MAX) && iterationCount == 0
      ensures Idle()
    {
      startTree.Reset(false);
      goalTree.Reset(false);
      iterationCount := 0;
      startSolutionNode := null;
      goalSolutionNode := null;
      solutionLength := INT_MAX;
    }

    /** Replacing a root frees the nodes of its tree, so no solution may point into it. */
    method SetStartState(start: Point)
      requires Valid() && startSolutionNode == null && View().InBounds(start)
      modifies startTree, goalTree
      ensures Valid() && |startTree.nodes| == 1 && startTree.nodes[0].state == start
      ensures goalTree.nodes == old(goalTree.nodes) && goalTree.goalState == start
      ensures startTree.goalState == old(startTree.goalState)
    {
      startTree.SetStartState(start);
      goalTree.goalState := start;
    }

    method SetGoalState(goal: Point)
      requires Valid() && startSolutionNode == null && View().InBounds(goal)
      modifies startTree, goalTree
      ensures Valid() && |goalTree.nodes| == 1 && goalTree.nodes[0].state == goal
      ensures startTree.nodes == old(startTree.nodes) && startTree.goalState == goal
      ensures goalTree.goalState == old(goalTree.goalState)
    {
      startTree.goalState := goal;
      goalTree.SetStartState(goal);
    }

    method FindBestPath(targetState: Point, treeToSearch: Tree) returns (bestNode: Node?, depth: int)
      requires treeToSearch.Valid()
      ensures bestNode == Best(treeToSearch.nodes, targetState, goalMaxDist)
      ensures bestNode != null ==> bestNode in treeToSearch.nodes
      ensures depth == if bestNode == null then INT_MAX else DepthOf(bestNode)
    {
      bestNode := null;
      depth := INT_MAX;
      var nodes := treeToSearch.nodes;
      for i := 0 to |nodes|
        invariant bestNode == Best(nodes[..i], targetState, goalMaxDist)
        invariant bestNode != null ==> bestNode in nodes
        invariant depth == if bestNode == null then INT_MAX else DepthOf(bestNode)
      {
        var other := nodes[i];
        assert treeToSearch.Grown(other);
        var otherDepth := other.Depth();
        assert nodes[..i + 1][..i] == nodes[..i];
        if CloserThan(other.state, targetState, goalMaxDist) && otherDepth < depth {
          bestNode := other;
          depth := otherDepth;
        }
      }
      assert nodes[..|nodes|] == nodes;
    }

    /** One new node for each tree, the goal tree searched before it grows and the start tree after. */
    method Grow() returns (ghost newStart: Node?, ghost newGoal: Node?, ghost half: Solution)
      requires Valid()
      modifies this, startTree, goalTree
      ensures Valid() && iterationCount == old(iterationCount) + 1
      ensures startTree.nodes == old(startTree.nodes) + if newStart == null then [] else [newStart]
      ensures goalTree.nodes == old(goalTree.nodes) + if newGoal == null then [] else [newGoal]
      ensures Found() ==
                JoinFromGoal(JoinFromStart(old(Found()), newStart, old(goalTree.nodes), View(), goalMaxDist),
                             newGoal, startTree.nodes, View(), goalMaxDist)
      ensures JoinedBest(old(Found()), half, newStart, old(goalTree.nodes), View(), goalMaxDist, true)
      ensures JoinedBest(half, Found(), newGoal, startTree.nodes, View(), goalMaxDist, false)
      ensures startTree.goalState == old(startTree.goalState) && goalTree.goalState == old(goalTree.goalState)
    {
      newStart := GrowStart(iterationCount, iterationCount);
      half := Found();
      newGoal := GrowGoal(iterationCount + 1, iterationCount);
      assert Found() == JoinFromGoal(half, newGoal, startTree.nodes, View(), goalMaxDist);
      iterationCount := iterationCount + 1;
    }

    method GrowStart(ghost m: int, ghost n: int) returns (ghost added: Node?)
      requires Sound(m, n)
      modifies this`startSolutionNode, this`goalSolutionNode, this`solutionLength, startTree
      ensures Sound(m + 1, n) && startTree.goalState == old(startTree.goalState)
      ensures startTree.nodes == old(startTree.nodes) + if added == null then [] else [added]
      ensures Found() == JoinFromStart(old(Found()), added, goalTree.nodes, View(), goalMaxDist)
      ensures JoinedBest(old(Found()), Found(), added, goalTree.nodes, View(), goalMaxDist, true)
    {
      var node, _, _ := startTree.Grow();
      added := node;
      assert Sound(m + 1, n);
      assert Found() == old(Found());
      JoinStart(node, m + 1, n);
    }

    method GrowGoal(ghost m: int, ghost n: int) returns (ghost added: Node?)
      requires Sound(m, n)
      modifies this`startSolutionNode, this`goalSolutionNode, this`solutionLength, goalTree
      ensures Sound(m, n + 1) && goalTree.goalState == old(goalTree.goalState)
      ensures goalTree.nodes == old(goalTree.nodes) + if added == null then [] else [added]
      ensures Found() == JoinFromGoal(old(Found()), added, startTree.nodes, View(), goalMaxDist)
      ensures JoinedBest(old(Found()), Found(), added, startTree.nodes, View(), goalMaxDist, false)
    {
      var node, _, _ := goalTree.Grow();
      added := node;
      assert Sound(m, n + 1);
      assert Found() == old(Found());
      JoinGoal(node, m, n + 1);
    }

    /** Looks in another tree for a node to join the new one to. */
    method FindPartner(added: Node, treeToSearch: Tree) returns (other: Node?, length: int)
      requires treeToSearch.Valid() && added.Linked() && treeToSearch.stateSpace == startTree.stateSpace
      requires treeToSearch.View().InBounds(added.state)
      ensures other == Partner(added, treeToSearch.nodes, treeToSearch.View(), goalMaxDist, solutionLength)
      ensures other != null ==> other in treeToSearch.nodes && length == DepthOf(added) + DepthOf(other)
      ensures forall k: nat :: Candidate(added, treeToSearch.nodes, k, treeToSearch.View(), goalMaxDist) ==>
                (DepthOf(added) + DepthOf(treeToSearch.nodes[k]) < solutionLength <= INT_MAX ==>
                   other == treeToSearch.nodes[k])
    {
      forall k: nat | Candidate(added, treeToSearch.nodes, k, treeToSearch.View(), goalMaxDist) &&
          DepthOf(treeToSearch.nodes[k]) < INT_MAX
        ensures Best(treeToSearch.nodes, added.state, goalMaxDist) == treeToSearch.nodes[k]
      {
        BestIsFirst(treeToSearch.nodes, added.state, goalMaxDist, k);
      }
      var depth;
      other, depth := FindBestPath(added.state, treeToSearch);
      var ownDepth := added.Depth();
      length := ownDepth + depth;
      if other != null {
        if length >= solutionLength { return null, length; }
        var ok := treeToSearch.stateSpace.TransitionValid(added.state, other.state);
        if !ok { return null, length; }
      }
    }

    method JoinStart(added: Node?, ghost m: int, ghost n: int)
      requires Sound(m, n) && (added != null ==> added in startTree.nodes && IsFree(View(), added.state))
      modifies this`startSolutionNode, this`goalSolutionNode, this`solutionLength
      ensures Sound(m, n)
      ensures Found() == JoinFromStart(old(Found()), added, goalTree.nodes, View(), goalMaxDist)
      ensures JoinedBest(old(Found()), Found(), added, goalTree.nodes, View(), goalMaxDist, true)
    {
      if added != null { assert startTree.Grown(added); }
      JoinIsBest(Found(), added, goalTree.nodes, View(), goalMaxDist);
      JoinStartNode(added, m, n);
    }

    /** The first half of Grow: join the new node of the start tree to the goal tree. */
    method JoinStartNode(added: Node?, ghost m: int, ghost n: int)
      requires Sound(m, n) && (added != null ==> added in startTree.nodes && IsFree(View(), added.state))
      modifies this`startSolutionNode, this`goalSolutionNode, this`solutionLength
      ensures Sound(m, n)
      ensures Found() == JoinFromStart(old(Found()), added, goalTree.nodes, View(), goalMaxDist)
    {
      if added == null { return; }
      assert startTree.Grown(added);
      var other, length := FindPartner(added, goalTree);
      if other == null { return; }
      assert goalTree.Grown(other);
      DepthBound(startTree.nodes, added, m);
      DepthBound(goalTree.nodes, other, n);
      startSolutionNode, goalSolutionNode, solutionLength := added, other, length;
    }

    method JoinGoal(added: Node?, ghost m: int, ghost n: int)
      requires Sound(m, n) && (added != null ==> added in goalTree.nodes && IsFree(View(), added.state))
      modifies this`startSolutionNode, this`goalSolutionNode, this`solutionLength
      ensures Sound(m, n)
      ensures Found() == JoinFromGoal(old(Found()), added, startTree.nodes, View(), goalMaxDist)
      ensures JoinedBest(old(Found()), Found(), added, startTree.nodes, View(), goalMaxDist, false)
    {
      if added != null { assert goalTree.Grown(added); }
      JoinIsBest(Found(), added, startTree.nodes, View(), goalMaxDist);
      JoinGoalNode(added, m, n);
    }

    /** The second half: join the new node of the goal tree to the start tree. */
    method JoinGoalNode(added: Node?, ghost m: int, ghost n: int)
      requires Sound(m, n) && (added != null ==> added in goalTree.nodes && IsFree(View(), added.state))
      modifies this`startSolutionNode, this`goalSolutionNode, this`solutionLength
      ensures Sound(m, n)
      ensures Found() == JoinFromGoal(old(Found()), added, startTree.nodes, View(), goalMaxDist)
    {
      if added == null { return; }
      assert goalTree.Grown(added);
      var other, length := FindPartner(added, startTree);
      if other == null { return; }
      assert startTree.Grown(other);
      TransitionSymmetric(View(), added.state, other.state);
      DepthBound(startTree.nodes, other, m);
      DepthBound(goalTree.nodes, added, n);
      startSolutionNode, goalSolutionNode, solutionLength := other, added, length;
    }

    method Run() returns (r: int)
      requires Valid() && startTree.nodes != [] && goalTree.nodes != []
      modifies this, startTree, goalTree
      ensures Valid() && startTree.nodes != [] && goalTree.nodes != []
      ensures startTree.nodes[0] == old(startTree.nodes[0]) && goalTree.nodes[0] == old(goalTree.nodes[0])
      ensures -1 <= r < maxIterations || r == -1
      ensures r >= 0 ==> startSolutionNode != null && r >= minIterations &&
                         iterationCount == old(iterationCount) + r + 1
      ensures r == -1 && maxIterations > 0 ==> iterationCount == old(iterationCount) + maxIterations
      ensures r == -1 && minIterations < maxIterations && maxIterations > 0 ==> startSolutionNode == null
      ensures solutionLength <= old(solutionLength)
    {
      var i := 0;
      while i < maxIterations
        invariant Valid() && startTree.nodes != [] && goalTree.nodes != [] && 0 <= i
        invariant startTree.nodes[0] == old(startTree.nodes[0]) && goalTree.nodes[0] == old(goalTree.nodes[0])
        invariant iterationCount == old(iterationCount) + i
        invariant i > minIterations && i > 0 ==> startSolutionNode == null
        invariant i <= maxIterations || i == 0
        invariant solutionLength <= old(solutionLength)
      {
        var _, _, _ := Grow();
        if startSolutionNode != null && i >= minIterations {
          return i;
        }
        i := i + 1;
      }
      return -1;
    }

    /** With a solution, its path. Without one, the two calls both fall back on the last node of the
        start tree: the path runs from the start to that node and back to the start. */
    method GetPath() returns (path: seq<Point>)
      requires Valid() && startTree.nodes != []
      ensures startSolutionNode != null ==> path == SolutionPath(Found())
      ensures startSolutionNode == null ==>
                var lineage := startTree.nodes[|startTree.nodes| - 1].lineage;
                path == lineage + Reverse(lineage)
    {
      path := startTree.GetPath([], startSolutionNode, false);
      path := startTree.GetPath(path, goalSolutionNode, true);
    }
  }
}
