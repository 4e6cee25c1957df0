/** The search tree of the planner: nodes linked to their parents (Tree.hpp). */
module Trees {
  import opened Geometry
  import opened Obstacles
  import opened GridSpace

  function Reverse(s: seq<Point>): (r: seq<Point>)
    ensures |r| == |s|
  {
    if s == [] then [] else Reverse(s[1..]) + [s[0]]
  }

  lemma {:induction false} ReverseAt(s: seq<Point>, k: nat)
    requires k < |s|
    ensures Reverse(s)[k] == s[|s| - 1 - k]
  {
    if k < |s| - 1 {
      ReverseAt(s[1..], k);
    }
  }

  lemma {:induction false} ReverseAppend(s: seq<Point>, p: Point)
    ensures Reverse(s + [p]) == [p] + Reverse(s)
  {
    if s == [] {
      assert [p][1..] == [];
    } else {
      assert (s + [p])[1..] == s[1..] + [p];
      ReverseAppend(s[1..], p);
    }
  }

  lemma {:induction false} ReverseTwice(s: seq<Point>)
    ensures Reverse(Reverse(s)) == s
  {
    forall k | 0 <= k < |s|
      ensures Reverse(Reverse(s))[k] == s[k]
    {
      ReverseAt(Reverse(s), k);
      ReverseAt(s, |s| - 1 - k);
    }
  }

  /** Each point is in bounds and each consecutive pair is an allowed move. */
  ghost predicate Legs(g: Grid, path: seq<Point>)
    requires g.Valid()
  {
    (forall i :: 0 <= i < |path| ==> g.InBounds(path[i])) &&
    (forall i :: 0 <= i < |path| - 1 ==> TransitionFree(g, path[i], path[i + 1]))
  }

  class Node {
    const state: Point
    const parent: Node?
    /** The states from the root of the tree down to this node. */
    ghost const lineage: seq<Point>

    ghost predicate Linked()
      decreases |lineage|
    {
      lineage == (if parent == null then [] else parent.lineage) + [state] &&
      (parent != null ==> |parent.lineage| < |lineage| && parent.Linked())
    }

    constructor (state: Point, parent: Node?)
      requires parent != null ==> parent.Linked()
      ensures Linked() && this.state == state && this.parent == parent
      ensures lineage == (if parent == null then [] else parent.lineage) + [state]
    {
      this.state := state;
      this.parent := parent;
      lineage := (if parent == null then [] else parent.lineage) + [state];
    }

    /** The number of ancestors. */
    method Depth() returns (n: int)
      requires Linked()
      ensures n == |lineage| - 1
    {
      n := 0;
      var ancestor := parent;
      while ancestor != null
        invariant ancestor != null ==> ancestor.Linked()
        invariant n + (if ancestor == null then 0 else |ancestor.lineage|) == |lineage| - 1
        decreases if ancestor == null then 0 else |ancestor.lineage|
      {
        n := n + 1;
        ancestor := ancestor.parent;
      }
    }
  }

  class Tree {
    const stateSpace: GridStateSpace
    var nodes: seq<Node>
    var goalState: Point

    ghost function View(): (g: Grid)
      requires stateSpace.obstacleGrid.Valid()
      reads stateSpace.obstacleGrid.obstacles
      ensures g.Valid()
    {
      stateSpace.obstacleGrid.View()
    }

    /** Every node descends from the root by allowed moves. */
    ghost predicate Grown(n: Node)
      requires stateSpace.obstacleGrid.Valid()
      reads this, stateSpace.obstacleGrid.obstacles
    {
      n.Linked() && nodes != [] && n.lineage[0] == nodes[0].state && Legs(View(), n.lineage)
    }

    ghost predicate Valid()
      reads this, stateSpace.obstacleGrid.obstacles
    {
      stateSpace.obstacleGrid.Valid() &&
      (forall n :: n in nodes ==> Grown(n)) &&
      (nodes != [] ==> nodes[0].lineage == [nodes[0].state]) &&
      (forall k :: 0 <= k < |nodes| ==> |nodes[k].lineage| <= k + 1)
    }

    /** At most a root, within the grid: this much does not depend on the obstacles. */
    ghost predicate RootOnly()
      reads this
    {
      stateSpace.obstacleGrid.Valid() && |nodes| <= 1 &&
      (nodes != [] ==>
         nodes[0].Linked() && nodes[0].lineage == [nodes[0].state] &&
         0.0 <= nodes[0].state.x < stateSpace.obstacleGrid.width &&
         0.0 <= nodes[0].state.y < stateSpace.obstacleGrid.height)
    }

    lemma RootOnlyIsValid()
      requires RootOnly()
      ensures Valid()
    {}

    constructor (stateSpace: GridStateSpace, goalState: Point)
      requires stateSpace.obstacleGrid.Valid()
      ensures Valid() && nodes == [] && this.stateSpace == stateSpace && this.goalState == goalState
    {
      this.stateSpace := stateSpace;
      this.goalState := goalState;
      nodes := [];
    }

    method Reset(eraseRoot: bool)
      requires Valid()
      modifies this
      ensures Valid() && goalState == old(goalState)
      ensures eraseRoot ==> nodes == []
      ensures !eraseRoot && |old(nodes)| <= 1 ==> nodes == old(nodes)
      ensures !eraseRoot && |old(nodes)| > 1 ==>
                |nodes| == 1 && nodes[0].parent == null && nodes[0].state == old(nodes[0].state)
      ensures RootOnly()
    {
      assert nodes != [] ==> Grown(nodes[0]);
      if eraseRoot {
        nodes := [];
      } else if |nodes| > 1 {
        var root := new Node(nodes[0].state, null);
        nodes := [root];
      }
    }

    /** The source does not check the start state: it must lie within the grid. */
    method SetStartState(startState: Point)
      requires Valid() && View().InBounds(startState)
      modifies this
      ensures Valid() && goalState == old(goalState)
      ensures |nodes| == 1 && nodes[0].parent == null && nodes[0].state == startState
    {
      Reset(true);
      var root := new Node(startState, null);
      nodes := [root];
    }

    /** The k-d tree and the hash map may come up with any node, or none. */
    method Nearest(target: Point) returns (best: Node?)
      ensures best != null ==> best in nodes
    {
      best := null;
      if |nodes| > 0 {
        if * {
          var i :| 0 <= i < |nodes|;
          best := nodes[i];
        }
      }
    }

    /** One step from source towards target. Nothing below depends on where it lands. */
    method IntermediateState(source: Point, target: Point) returns (p: Point)
    {
      p := *;
    }

    /** A node is added exactly when there is a node to extend from and the step taken from it is
        allowed. */
    method Extend(target: Point, from: Node?) returns (added: Node?, ghost source: Node?, ghost step: Point)
      requires Valid() && (from != null ==> from in nodes)
      modifies this
      ensures Valid() && goalState == old(goalState)
      ensures (from != null ==> source == from) && (source != null ==> source in old(nodes))
      ensures added != null <==> source != null && TransitionFree(View(), source.state, step)
      ensures added == null ==> nodes == old(nodes)
      ensures added != null ==>
                fresh(added) && nodes == old(nodes) + [added] && added.parent == source && added.state == step
    {
      var near := from;
      if near == null {
        near := Nearest(target);
      }
      source := near;
      if near == null { return null, null, target; }
      var intermediate := IntermediateState(near.state, target);
      step := intermediate;
      assert Grown(near) && near.lineage[|near.lineage| - 1] == near.state;
      var ok := stateSpace.TransitionValid(near.state, intermediate);
      if !ok { return null, near, intermediate; }
      added := new Node(intermediate, near);
      assert added.lineage == near.lineage + [intermediate];
      nodes := nodes + [added];
    }

    /** Extends towards the goal or towards a random point. */
    method Grow() returns (added: Node?, ghost source: Node?, ghost step: Point)
      requires Valid()
      modifies this
      ensures Valid() && goalState == old(goalState)
      ensures source != null ==> source in old(nodes)
      ensures added != null <==> source != null && TransitionFree(View(), source.state, step)
      ensures added == null ==> nodes == old(nodes)
      ensures added != null ==>
                fresh(added) && nodes == old(nodes) + [added] && added.parent == source && added.state == step
    {
      var target: Point := goalState;
      if * { target := *; }
      added, source, step := Extend(target, null);
    }

    /** Appends the states from the root to dest, or from dest to the root. With no dest, the last
        node of this tree stands in; the walk itself follows parents and never looks at this tree,
        so dest may belong to another one. */
    method GetPath(vectorOut: seq<Point>, dest: Node?, reverse: bool) returns (out: seq<Point>)
      requires Valid() && (dest != null ==> dest.Linked())
      ensures dest == null && nodes == [] ==> out == vectorOut
      ensures dest != null || nodes != [] ==>
                var lineage := (if dest != null then dest else nodes[|nodes| - 1]).lineage;
                out == vectorOut + if reverse then Reverse(lineage) else lineage
    {
      var node: Node? := dest;
      if dest == null && |nodes| > 0 {
        node := nodes[|nodes| - 1];
        assert Grown(node);
      }
      if reverse {
        out := AppendUpwards(vectorOut, node);
      } else {
        var collected := AppendUpwards([], node);
        out := AppendReversed(vectorOut, collected);
        if node != null {
          assert [] + Reverse(node.lineage) == Reverse(node.lineage);
          ReverseTwice(node.lineage);
        }
      }
    }
  }

  /** Appends the states met on the way from node up to its root. */
  method AppendUpwards(vectorOut: seq<Point>, node: Node?) returns (out: seq<Point>)
    requires node != null ==> node.Linked()
    ensures out == vectorOut + if node == null then [] else Reverse(node.lineage)
  {
    out := vectorOut;
    var at: Node? := node;
    while at != null
      invariant at != null ==> at.Linked()
      invariant vectorOut + (if node == null then [] else Reverse(node.lineage)) ==
                out + (if at == null then [] else Reverse(at.lineage))
      decreases if at == null then 0 else |at.lineage|
    {
      ghost var above := if at.parent == null then [] else at.parent.lineage;
      ReverseAppend(above, at.state);
      assert out + ([at.state] + Reverse(above)) == out + [at.state] + Reverse(above);
      out := out + [at.state];
      at := at.parent;
    }
  }

  /** Appends the points of s, last first. */
  method AppendReversed(vectorOut: seq<Point>, s: seq<Point>) returns (out: seq<Point>)
    ensures out == vectorOut + Reverse(s)
  {
    out := vectorOut;
    var i := |s|;
    assert s[..i] == s;
    while i > 0
      invariant 0 <= i <= |s|
      invariant vectorOut + Reverse(s) == out + Reverse(s[..i])
    {
      i := i - 1;
      assert s[..i + 1] == s[..i] + [s[i]];
      ReverseAppend(s[..i], s[i]);
      assert out + ([s[i]] + Reverse(s[..i])) == out + [s[i]] + Reverse(s[..i]);
      out := out + [s[i]];
    }
  }
}
