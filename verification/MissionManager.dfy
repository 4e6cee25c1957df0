/** A tree of commands with a cursor at every level: popped, queried and unrolled
    (mission_manager.cc). */
module Missions {

  datatype Position3D = Position3D(latitude: real, longitude: real, altitude: real)

  datatype Kind =
    | Waypoint(goal: Position3D)
    | BombDrop(latitude: real, longitude: real)
    | Survey
    | OffAxis
    | Nothing
    | Sleep(time: real)
    | Goto(goal: Position3D, comeToStop: bool)
    | GotoRaw(goal: Position3D, comeToStop: bool)
    | TriggerBombDrop
    | TriggerAlarm
    | Unset

  /** An absent sub-mission reads as the default one: no commands, cursor 0. */
  datatype Command = Command(kind: Kind, sub: Mission)

  datatype Mission = Mission(commands: seq<Command>, current: int)

  const NO_MISSION := Mission([], 0)
  const NOTHING := Command(Nothing, NO_MISSION)

  function Leaf(kind: Kind): Command { Command(kind, NO_MISSION) }

  /** Every cursor points at a command; an empty mission has the default cursor. */
  ghost predicate WellFormed(m: Mission)
    decreases m
  {
    (if m.commands == [] then m.current == 0 else 0 <= m.current < |m.commands|) &&
    (forall c :: c in m.commands ==> WellFormed(c.sub))
  }

  ghost predicate AllWellFormed(cs: seq<Command>) {
    forall c :: c in cs ==> WellFormed(c.sub)
  }

  // ---- the flat list of leaves still to be executed ----

  ghost function Remaining(m: Mission): seq<Command>
    requires WellFormed(m)
    decreases m, 1
  {
    if m.commands == [] then [] else LeavesOf(m.commands[m.current..])
  }

  ghost function LeavesOf(cs: seq<Command>): seq<Command>
    requires AllWellFormed(cs)
    decreases cs, 0
  {
    if cs == [] then [] else Leaves(cs[0]) + LeavesOf(cs[1..])
  }

  /** A command without commands of its own is a leaf; any other is the rest of its sub-mission. */
  ghost function Leaves(c: Command): seq<Command>
    requires WellFormed(c.sub)
    decreases c, 0
  {
    if c.sub.commands == [] then [c] else Remaining(c.sub)
  }

  lemma LeavesSplit(cs: seq<Command>, i: nat)
    requires AllWellFormed(cs) && i < |cs|
    ensures LeavesOf(cs[i..]) == Leaves(cs[i]) + LeavesOf(cs[i + 1..])
  {
    var rest := cs[i..];
    assert AllWellFormed(rest) && rest[0] == cs[i] && rest[1..] == cs[i + 1..];
    assert LeavesOf(rest) == Leaves(rest[0]) + LeavesOf(rest[1..]);
  }

  lemma RemainingIs(m: Mission)
    requires WellFormed(m) && m.commands != []
    ensures AllWellFormed(m.commands) && AllWellFormed(m.commands[m.current..])
    ensures Remaining(m) == LeavesOf(m.commands[m.current..])
  {}

  /** The leaves below the current command come first, then those of the commands after it. */
  lemma RemainingSplit(m: Mission)
    requires WellFormed(m) && m.commands != []
    ensures Remaining(m) == Leaves(m.commands[m.current]) + LeavesOf(m.commands[m.current + 1..])
  {
    RemainingIs(m);
    LeavesSplit(m.commands, m.current);
  }

  lemma {:induction false} SomethingRemains(m: Mission)
    requires WellFormed(m) && m.commands != []
    ensures Remaining(m) != []
    decreases m
  {
    RemainingSplit(m);
    var c := m.commands[m.current];
    if c.sub.commands != [] { SomethingRemains(c.sub); }
  }

  // ---- PopCommand and GetCurrentCommand ----

  /** What PopCommand leaves of a mission, and whether the parent should move on. */
  function Popped(m: Mission): (r: (bool, Mission))
    requires WellFormed(m)
    decreases m
  {
    if m.commands == [] then (true, m) else
      var c := m.commands[m.current];
      var (done, sub) := Popped(c.sub);
      if !done then (false, Mission(m.commands[m.current := Command(c.kind, sub)], m.current))
      else if m.current < |m.commands| - 1 then (false, Mission(m.commands, m.current + 1))
      else (true, m)
  }

  function Current(m: Mission): Command
    requires WellFormed(m)
    decreases m
  {
    if m.commands == [] then NOTHING else
      var c := m.commands[m.current];
      if c.sub.commands == [] then c else Current(c.sub)
  }

  /** Popping drops the head of the remaining leaves; it gives up exactly on the last one. */
  lemma {:induction false} PoppedIsTail(m: Mission)
    requires WellFormed(m)
    ensures var (done, rest) := Popped(m);
            WellFormed(rest) &&
            (done <==> |Remaining(m)| <= 1) && (done ==> rest == m) &&
            (!done ==> rest.commands != [] && Remaining(rest) == Remaining(m)[1..])
    decreases m
  {
    if m.commands != [] {
      var cs, i := m.commands, m.current;
      RemainingSplit(m);
      var c := cs[i];
      PoppedIsTail(c.sub);
      if c.sub.commands != [] { SomethingRemains(c.sub); }
      var (done, sub) := Popped(c.sub);
      if !done {
        UpdateWellFormed(m, Command(c.kind, sub));
        PopBelow(m, Popped(m).1, sub);
      } else if i < |cs| - 1 {
        SomethingRemains(Mission(cs, i + 1));
      } else {
        assert cs[i + 1..] == [];
      }
    }
  }

  lemma UpdateWellFormed(m: Mission, c: Command)
    requires WellFormed(m) && m.commands != [] && WellFormed(c.sub)
    ensures WellFormed(Mission(m.commands[m.current := c], m.current))
  {
    var cs := m.commands[m.current := c];
    forall d | d in cs
      ensures WellFormed(d.sub)
    {
      assert d == c || d in m.commands;
    }
  }

  lemma UpdateTail<T>(cs: seq<T>, i: nat, c: T)
    requires i < |cs|
    ensures cs[i := c][i + 1..] == cs[i + 1..]
  {}

  lemma DropHead<T>(head: seq<T>, tail: seq<T>)
    requires head != []
    ensures (head + tail)[1..] == head[1..] + tail
  {}

  /** Popping below the current command pops the mission. */
  lemma PopBelow(m: Mission, m': Mission, sub: Mission)
    requires WellFormed(m) && m.commands != [] && WellFormed(m')
    requires m' == Mission(m.commands[m.current := Command(m.commands[m.current].kind, sub)], m.current)
    requires WellFormed(sub) && sub.commands != [] && m.commands[m.current].sub.commands != []
    requires var before := Remaining(m.commands[m.current].sub);
             before != [] && Remaining(sub) == before[1..]
    ensures Remaining(m) != [] && Remaining(m') == Remaining(m)[1..]
  {
    var i := m.current;
    RemainingSplit(m);
    RemainingSplit(m');
    UpdateTail(m.commands, i, m'.commands[i]);
    var first, tail := Remaining(m.commands[i].sub), LeavesOf(m.commands[i + 1..]);
    assert Remaining(m) == first + tail;
    assert Remaining(m') == first[1..] + tail;
    DropHead(first, tail);
  }

  /** The current command is the head of the remaining leaves, or "nothing" when there is none. */
  lemma {:induction false} CurrentIsHead(m: Mission)
    requires WellFormed(m)
    ensures Current(m) == if Remaining(m) == [] then NOTHING else Remaining(m)[0]
    decreases m
  {
    if m.commands != [] {
      RemainingSplit(m);
      SomethingRemains(m);
      var c := m.commands[m.current];
      if c.sub.commands != [] {
        SomethingRemains(c.sub);
        CurrentIsHead(c.sub);
      }
    }
  }

  /** The mission after the manager's PopCommand: cleared once there is nothing left. */
  function AfterPop(m: Mission): Mission
    requires WellFormed(m)
  {
    if Popped(m).0 then NO_MISSION else Popped(m).1
  }

  ghost function AfterPops(m: Mission, n: nat): (r: Mission)
    requires WellFormed(m)
    ensures WellFormed(r)
  {
    if n == 0 then m else
      var before := AfterPops(m, n - 1);
      PoppedIsTail(before);
      AfterPop(before)
  }

  /** Repeated pops visit each remaining leaf once and in order; after the last the mission is
      cleared, and from then on the current command is "nothing". */
  lemma {:induction false} PopsVisitRemaining(m: Mission, n: nat)
    requires WellFormed(m)
    ensures n < |Remaining(m)| ==> Current(AfterPops(m, n)) == Remaining(m)[n]
    ensures n <= |Remaining(m)| ==> Remaining(AfterPops(m, n)) == Remaining(m)[n..]
    ensures n >= |Remaining(m)| ==> Current(AfterPops(m, n)) == NOTHING
    ensures n >= |Remaining(m)| && n > 0 ==> AfterPops(m, n) == NO_MISSION
  {
    if n == 0 {
      assert Remaining(m)[0..] == Remaining(m);
    } else {
      PopsVisitRemaining(m, n - 1);
      var before := AfterPops(m, n - 1);
      PoppedIsTail(before);
    }
    CurrentIsHead(AfterPops(m, n));
  }

  // ---- UnrollMission ----

  predicate IsComposite(k: Kind) { k.Waypoint? || k.BombDrop? || k.Goto? }

  /** The commands UnrollMission puts under a composite command that has none. */
  function Expansion(k: Kind): seq<Command> {
    match k
    case Waypoint(goal) => [Leaf(Goto(goal, true)), Leaf(Sleep(2.0))]
    case BombDrop(lat, lng) =>
      [Leaf(Waypoint(Position3D(lat, lng, 50.0))), Leaf(TriggerAlarm), Leaf(Sleep(5.0)),
       Leaf(TriggerBombDrop), Leaf(Sleep(5.0))]
    case Goto(goal, stop) => [Leaf(GotoRaw(goal, stop))]
    case _ => []
  }

  /** A bound on the work below a command: bomb drops expand to waypoints, those to gotos, those to
      raw gotos. */
  ghost function Weight(c: Command): nat
    decreases c, 1
  {
    1 + if c.sub.commands != [] then TotalWeight(c.sub.commands)
        else if c.kind.BombDrop? then 8 else if c.kind.Waypoint? then 3 else if c.kind.Goto? then 1 else 0
  }

  ghost function TotalWeight(cs: seq<Command>): nat
    decreases cs, 0
  {
    if cs == [] then 0 else Weight(cs[0]) + TotalWeight(cs[1..])
  }

  lemma LeavesWeigh(k: Kind)
    ensures TotalWeight(Expansion(k)) == Weight(Leaf(k)) - 1
  {
    match k
    case Waypoint(goal) =>
      SplitWeight(Expansion(k));
      SplitWeight(Expansion(k)[1..]);
    case BombDrop(lat, lng) =>
      var e := Expansion(k);
      SplitWeight(e);
      SplitWeight(e[1..]);
      SplitWeight(e[2..]);
      SplitWeight(e[3..]);
      SplitWeight(e[4..]);
    case _ =>
  }

  lemma SplitWeight(cs: seq<Command>)
    requires cs != []
    ensures TotalWeight(cs) == Weight(cs[0]) + TotalWeight(cs[1..])
    ensures |cs| > 1 ==> cs[1..][0] == cs[1] && cs[1..][1..] == cs[2..]
  {}

  /** The sub-mission a command is given before it is unrolled itself. */
  function Seeded(c: Command): Mission {
    if c.sub.commands == [] then Mission(Expansion(c.kind), c.sub.current) else c.sub
  }

  lemma SeededLighter(c: Command)
    ensures TotalWeight(Seeded(c).commands) < Weight(c)
  {
    LeavesWeigh(c.kind);
  }

  function UnrollAll(cs: seq<Command>): (r: seq<Command>)
    ensures |r| == |cs|
    decreases TotalWeight(cs), |cs|
  {
    if cs == [] then [] else
      var c := cs[0];
      SeededLighter(c);
      var s := Seeded(c);
      [Command(c.kind, Mission(UnrollAll(s.commands), s.current))] + UnrollAll(cs[1..])
  }

  function Unroll(m: Mission): Mission {
    Mission(UnrollAll(m.commands), m.current)
  }

  function UnrollCommand(c: Command): Command {
    Command(c.kind, Unroll(Seeded(c)))
  }

  lemma {:induction false} UnrollAt(cs: seq<Command>, i: nat)
    requires i < |cs|
    ensures UnrollAll(cs)[i] == UnrollCommand(cs[i])
    decreases i
  {
    if i > 0 { UnrollAt(cs[1..], i - 1); }
  }

  lemma {:induction false} UnrollDrop(cs: seq<Command>, i: nat)
    requires i <= |cs|
    ensures UnrollAll(cs)[i..] == UnrollAll(cs[i..])
  {
    if i == 0 {
      assert UnrollAll(cs)[0..] == UnrollAll(cs) && cs[0..] == cs;
    } else {
      UnrollDrop(cs[1..], i - 1);
      assert cs[1..][i - 1..] == cs[i..];
      assert UnrollAll(cs)[i..] == UnrollAll(cs[1..])[i - 1..];
    }
  }

  /** Every command below which nothing hangs is one the flight loop can execute. */
  ghost predicate Settled(cs: seq<Command>)
    decreases cs, 0
  {
    forall c :: c in cs ==> SettledCommand(c)
  }

  ghost predicate SettledCommand(c: Command)
    decreases c, 1
  {
    if c.sub.commands == [] then !IsComposite(c.kind) else Settled(c.sub.commands)
  }

  /** Unrolling leaves no waypoint, bomb-drop or goto leaf anywhere in the tree. */
  lemma {:induction false} UnrollSettles(cs: seq<Command>)
    ensures Settled(UnrollAll(cs))
    decreases TotalWeight(cs), |cs|
  {
    if cs != [] {
      SeededLighter(cs[0]);
      UnrollSettles(Seeded(cs[0]).commands);
      UnrollSettles(cs[1..]);
    }
  }

  /** Unrolling a tree without such leaves changes nothing. */
  lemma {:induction false} UnrollFixed(cs: seq<Command>)
    requires Settled(cs)
    ensures UnrollAll(cs) == cs
    decreases TotalWeight(cs), |cs|
  {
    if cs != [] {
      SeededLighter(cs[0]);
      var c := cs[0];
      assert c in cs && SettledCommand(c);
      assert Seeded(c) == c.sub;
      UnrollFixed(c.sub.commands);
      UnrollFixed(cs[1..]);
      assert UnrollCommand(c) == c;
      assert cs == [cs[0]] + cs[1..];
    }
  }

  lemma UnrollIdempotent(m: Mission)
    ensures Unroll(Unroll(m)) == Unroll(m)
  {
    UnrollSettles(m.commands);
    UnrollFixed(UnrollAll(m.commands));
  }

  lemma {:induction false} UnrollWellFormed(m: Mission)
    requires WellFormed(m)
    ensures WellFormed(Unroll(m))
    decreases TotalWeight(m.commands), |m.commands| + 1
  {
    UnrollAllWellFormed(m.commands);
  }

  lemma {:induction false} UnrollAllWellFormed(cs: seq<Command>)
    requires AllWellFormed(cs)
    ensures AllWellFormed(UnrollAll(cs))
    decreases TotalWeight(cs), |cs|
  {
    if cs != [] {
      SeededLighter(cs[0]);
      SeededWellFormed(cs[0]);
      UnrollWellFormed(Seeded(cs[0]));
      UnrollAllWellFormed(cs[1..]);
    }
  }

  lemma SeededWellFormed(c: Command)
    requires WellFormed(c.sub)
    ensures WellFormed(Seeded(c))
  {
  }

  /** What executing a leaf amounts to, in commands the flight loop can execute. */
  function Expanded(c: Command): seq<Command> {
    match c.kind
    case Waypoint(goal) => [Leaf(GotoRaw(goal, true)), Leaf(Sleep(2.0))]
    case BombDrop(lat, lng) =>
      [Leaf(GotoRaw(Position3D(lat, lng, 50.0), true)), Leaf(Sleep(2.0)), Leaf(TriggerAlarm), Leaf(Sleep(5.0)),
       Leaf(TriggerBombDrop), Leaf(Sleep(5.0))]
    case Goto(goal, stop) => [Leaf(GotoRaw(goal, stop))]
    case _ => [c]
  }

  function ExpandAll(cs: seq<Command>): seq<Command> {
    if cs == [] then [] else Expanded(cs[0]) + ExpandAll(cs[1..])
  }

  lemma SeqAssoc<T>(a: seq<T>, b: seq<T>, c: seq<T>)
    ensures a + (b + c) == (a + b) + c
  {}

  lemma {:induction false} ExpandAppend(a: seq<Command>, b: seq<Command>)
    ensures ExpandAll(a + b) == ExpandAll(a) + ExpandAll(b)
  {
    if a == [] {
      assert a + b == b;
    } else {
      ExpandAppend(a[1..], b);
      assert (a + b)[1..] == a[1..] + b;
      SeqAssoc(Expanded(a[0]), ExpandAll(a[1..]), ExpandAll(b));
    }
  }

  /** Unrolling commutes with the cursor: what remains after it is what remained before, each leaf
      replaced by its own expansion. */
  lemma {:induction false} UnrollRemaining(m: Mission)
    requires WellFormed(m)
    ensures WellFormed(Unroll(m)) && Remaining(Unroll(m)) == ExpandAll(Remaining(m))
    decreases TotalWeight(m.commands), |m.commands| + 1
  {
    UnrollWellFormed(m);
    if m.commands != [] {
      UnrollDrop(m.commands, m.current);
      WeightFrom(m.commands, m.current);
      UnrollLeaves(m.commands[m.current..]);
    }
  }

  lemma {:induction false} WeightFrom(cs: seq<Command>, i: nat)
    requires i <= |cs|
    ensures TotalWeight(cs[i..]) <= TotalWeight(cs)
  {
    if i == 0 {
      assert cs[0..] == cs;
    } else {
      WeightFrom(cs[1..], i - 1);
      assert cs[1..][i - 1..] == cs[i..];
    }
  }

  lemma {:induction false} UnrollLeaves(cs: seq<Command>)
    requires AllWellFormed(cs)
    ensures AllWellFormed(UnrollAll(cs)) && LeavesOf(UnrollAll(cs)) == ExpandAll(LeavesOf(cs))
    decreases TotalWeight(cs), |cs|
  {
    UnrollAllWellFormed(cs);
    if cs != [] {
      var c := cs[0];
      var c' := UnrollCommand(c);
      UnrollLeaves(cs[1..]);
      ExpandAppend(Leaves(c), LeavesOf(cs[1..]));
      SeededLighter(c);
      SeededWellFormed(c);
      UnrollRemaining(Seeded(c));
      if c.sub.commands == [] {
        SeededRemaining(c);
        ExpandOne(c);
      }
    }
  }

  lemma ExpandOne(c: Command)
    ensures ExpandAll([c]) == Expanded(c)
  {}

  /** Expanding the expansion of a leaf gives what the leaf amounts to. */
  lemma SeededRemaining(c: Command)
    requires WellFormed(c.sub) && c.sub.commands == []
    ensures WellFormed(Seeded(c))
    ensures IsComposite(c.kind) ==> ExpandAll(Remaining(Seeded(c))) == Expanded(c)
  {
    SeededWellFormed(c);
    var e := Expansion(c.kind);
    if IsComposite(c.kind) {
      assert e[0..] == e;
      LeavesOfLeaves(e);
      ExpandedTwice(c);
    }
  }

  lemma ExpandedTwice(c: Command)
    requires IsComposite(c.kind)
    ensures ExpandAll(Expansion(c.kind)) == Expanded(c)
  {
    var e := Expansion(c.kind);
    if c.kind.Waypoint? {
      ExpandTwo(e[0], e[1]);
    } else if c.kind.BombDrop? {
      var front, back := [e[0], e[1]], [e[2], e[3]];
      ExpandTwo(e[0], e[1]);
      ExpandTwo(e[2], e[3]);
      ExpandOne(e[4]);
      ExpandAppend(front, back + [e[4]]);
      ExpandAppend(back, [e[4]]);
      assert e == front + (back + [e[4]]);
    } else {
      ExpandOne(e[0]);
    }
  }

  lemma ExpandTwo(a: Command, b: Command)
    ensures ExpandAll([a, b]) == Expanded(a) + Expanded(b)
  {
    ExpandAppend([a], [b]);
    assert [a] + [b] == [a, b];
  }

  lemma {:induction false} LeavesOfLeaves(cs: seq<Command>)
    requires forall c :: c in cs ==> c.sub == NO_MISSION
    ensures AllWellFormed(cs) && LeavesOf(cs) == cs
  {
    if cs != [] {
      LeavesOfLeaves(cs[1..]);
      assert cs == [cs[0]] + cs[1..];
    }
  }

  /** What remains of a mission of one command after unrolling, command by command. */
  lemma UnrolledCommands(kind: Kind)
    ensures var m := Mission([Leaf(kind)], 0);
            WellFormed(Unroll(m)) &&
            Remaining(Unroll(m)) ==
              match kind
              case Goto(g, stop) => [Leaf(GotoRaw(g, stop))]
              case Waypoint(g) => [Leaf(GotoRaw(g, true)), Leaf(Sleep(2.0))]
              case BombDrop(lat, lng) =>
                [Leaf(GotoRaw(Position3D(lat, lng, 50.0), true)), Leaf(Sleep(2.0)), Leaf(TriggerAlarm),
                 Leaf(Sleep(5.0)), Leaf(TriggerBombDrop), Leaf(Sleep(5.0))]
              case _ => [Leaf(kind)]
  {
    var m := Mission([Leaf(kind)], 0);
    UnrollRemaining(m);
    LeavesOfLeaves([Leaf(kind)]);
    assert [Leaf(kind)][0..] == [Leaf(kind)];
    ExpandOne(Leaf(kind));
  }

  /** Preprocess copies the mission, unrolls the copy and writes it back, each under the lock but not
      together. A pop that comes in between is lost: the command popped is unrolled into the mission again,
      in front of everything that should have remained. */
  lemma InterveningPopIsLost(m: Mission)
    requires WellFormed(m) && Remaining(m) != []
    ensures WellFormed(AfterPop(m)) && WellFormed(Unroll(m)) && WellFormed(Unroll(AfterPop(m)))
    ensures Expanded(Remaining(m)[0]) != []
    ensures Remaining(Unroll(m)) == Expanded(Remaining(m)[0]) + Remaining(Unroll(AfterPop(m)))
  {
    PoppedIsTail(m);
    var rest := AfterPop(m);
    UnrollRemaining(m);
    UnrollRemaining(rest);
    HeadExpanded(Remaining(m));
    if |Remaining(m)| == 1 { assert Remaining(m)[1..] == []; }
    assert Remaining(rest) == Remaining(m)[1..];
  }

  lemma HeadExpanded(cs: seq<Command>)
    requires cs != []
    ensures Expanded(cs[0]) != [] && ExpandAll(cs) == Expanded(cs[0]) + ExpandAll(cs[1..])
  {}

  class MissionManager {
    var mission: Mission
    var newCommand: bool

    constructor ()
      ensures mission == NO_MISSION && !newCommand
    {
      mission := NO_MISSION;
      newCommand := false;
    }

    method SetCommands(m: Mission)
      modifies this`mission
      ensures mission == m
    {
      mission := m;
    }

    method ClearCommands()
      modifies this`mission
      ensures mission == NO_MISSION
    {
      mission := NO_MISSION;
    }

    method CheckNewCommand() returns (isNew: bool)
      modifies this`newCommand
      ensures isNew == old(newCommand) && !newCommand
    {
      if newCommand {
        newCommand := false;
        return true;
      }
      return false;
    }

    method PopCommand()
      requires WellFormed(mission)
      modifies this
      ensures newCommand && mission == AfterPop(old(mission))
      ensures WellFormed(mission)
      ensures Remaining(mission) == if Remaining(old(mission)) == [] then [] else Remaining(old(mission))[1..]
    {
      PoppedIsTail(mission);
      newCommand := true;
      var done, rest := PopFrom(mission);
      mission := rest;
      if done { mission := NO_MISSION; }
    }

    /** The recursive PopCommand: a copy of the current sub-mission is popped, and written back only
        if something was popped in it. */
    static method PopFrom(m: Mission) returns (done: bool, rest: Mission)
      requires WellFormed(m)
      ensures (done, rest) == Popped(m)
      decreases m
    {
      rest := m;
      if |m.commands| == 0 { return true, m; }
      var subDone, subMission := PopFrom(m.commands[m.current].sub);
      if !subDone {
        rest := Mission(m.commands[m.current := Command(m.commands[m.current].kind, subMission)], m.current);
        return false, rest;
      }
      if m.current < |m.commands| - 1 {
        rest := rest.(current := m.current + 1);
        return false, rest;
      }
      return true, rest;
    }

    method GetCurrentCommand() returns (c: Command)
      requires WellFormed(mission)
      ensures c == if Remaining(mission) == [] then NOTHING else Remaining(mission)[0]
    {
      CurrentIsHead(mission);
      c := Current(mission);
    }

    /** With no writer between the copy and the write-back. */
    method Preprocess()
      modifies this`mission
      ensures mission == Unroll(old(mission))
    {
      var copy := CopyMission();
      var unrolled := UnrollMission(copy);
      WriteBack(unrolled);
    }

    /** The first critical section of Preprocess. */
    method CopyMission() returns (copy: Mission)
      ensures copy == mission
    {
      copy := mission;
    }

    /** The second one: whatever was written meanwhile is overwritten. */
    method WriteBack(unrolled: Mission)
      modifies this`mission
      ensures mission == unrolled
    {
      mission := unrolled;
    }

    static method UnrollMission(m: Mission) returns (unrolled: Mission)
      ensures unrolled == Unroll(m)
      decreases TotalWeight(m.commands)
    {
      unrolled := m;
      var i := 0;
      while i < |unrolled.commands|
        invariant 0 <= i <= |unrolled.commands| == |m.commands| && unrolled.current == m.current
        invariant forall k :: 0 <= k < i ==> unrolled.commands[k] == UnrollCommand(m.commands[k])
        invariant forall k :: i <= k < |m.commands| ==> unrolled.commands[k] == m.commands[k]
      {
        var cmd := unrolled.commands[i];
        var sub := cmd.sub;
        if cmd.kind.Waypoint? {
          if |sub.commands| == 0 {
            sub := sub.(commands := sub.commands + [Leaf(Goto(cmd.kind.goal, true))]);
            sub := sub.(commands := sub.commands + [Leaf(Sleep(2.0))]);
          }
        } else if cmd.kind.Survey? {
        } else if cmd.kind.BombDrop? {
          if |sub.commands| == 0 {
            var goal := Position3D(cmd.kind.latitude, cmd.kind.longitude, 50.0);
            sub := sub.(commands := sub.commands + [Leaf(Waypoint(goal))]);
            sub := sub.(commands := sub.commands + [Leaf(TriggerAlarm)]);
            sub := sub.(commands := sub.commands + [Leaf(Sleep(5.0))]);
            sub := sub.(commands := sub.commands + [Leaf(TriggerBombDrop)]);
            sub := sub.(commands := sub.commands + [Leaf(Sleep(5.0))]);
          }
        } else if cmd.kind.Goto? {
          if |sub.commands| == 0 {
            sub := sub.(commands := sub.commands + [Leaf(GotoRaw(cmd.kind.goal, cmd.kind.comeToStop))]);
          }
        }
        assert sub == Seeded(cmd);
        SeededLighter(cmd);
        WeightAt(m.commands, i);
        sub := UnrollMission(sub);
        unrolled := unrolled.(commands := unrolled.commands[i := Command(cmd.kind, sub)]);
        i := i + 1;
      }
      forall k | 0 <= k < |m.commands|
        ensures unrolled.commands[k] == UnrollAll(m.commands)[k]
      {
        UnrollAt(m.commands, k);
      }
    }
  }

  lemma {:induction false} WeightAt(cs: seq<Command>, i: nat)
    requires i < |cs|
    ensures Weight(cs[i]) <= TotalWeight(cs)
  {
    if i > 0 { WeightAt(cs[1..], i - 1); }
  }
}
