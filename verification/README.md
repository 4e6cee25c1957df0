# Verification model of the UAS@UCLA drone software

A Dafny model of the parts of the drone, ground-station and vision software that carry safety or
protocol properties, with machine-checked proofs of those properties. `dafny verify dfyconfig.toml`
checks everything.

| area | files | what is proved |
|---|---|---|
| obstacle-avoiding planner | `ObstacleGrid`, `GridStateSpace`, `Tree`, `BiRRT`, `Path`, `PushOut`, `ObstacleCircles`, `RRTAvoidance` | the returned path stays on free squares and clear of the obstacles, from the start to the goal |
| mission tree | `MissionManager` | the nested cursor is a list; expansion commutes with it |
| command pipeline | `Ground2DroneVisitor`, `MissionStateMachine`, `MissionSleeps`, `CompiledRun`, `FlightStateMachine`, `Deployment` | compiled programs do on the interpreter what the ground program says, each command once and in order, a commanded landing is final, the winch interlock holds |
| links | `MavConnUdp`, `Base64Tools`, `SerialDevice` | no byte lost or reordered, codec and framing round trips |
| auctions | `ServerWorker` | one owner, one timer, one award, over all interleavings |
| bounded motion | `MotionProfile`, `StepperUtils`, `AntennaTracker` | limits hold over every run, wires never tangle, every step accounted for |

Objects whose methods change fields are classes; each method is tied to a function of its old state,
and the properties of whole runs are lemmas about those functions. C++ and Python floating-point
numbers are exact reals. A conversion of a double to an int truncates (`Geometry.Trunc`); unsigned char
arithmetic is modulo 256. Products of reals are written through `Geometry.Scaled`.

Clocks, sensors, random draws, bids and completions are inputs: the properties hold for all of them.
`nearest` in the search tree may return any node or none, and a step may land anywhere.

## Findings

Where the code does not do what one would expect, the model follows the code and a lemma shows it.

- When the search fails the path is used all the same. It leads from the start to some node and back to
  the start (`BiRrt.BiRRT.GetPath`); the caller is not told (lib/rrt_avoidance/rrt_avoidance.cc:132-133).
  A compiled program makes its stops exactly if all its own searches succeed
  (`Ground2Drone.StopsReachedIffLegsArrive`, `Ground2Drone.LegsArriveIffFound`).
- Obstacles are drawn a little too small. The radius is cut down to whole squares and the outermost columns
  are short, so the whole disc is covered for every centre exactly for radii of no square or one
  (`ObstacleCircles.DiscFilledIff`); an obstacle of half a square can be missed a fifth of a square from its
  centre (`ObstacleCircles.HalfSquareMissed`). Of radii from two squares on, points within the radius less two always are covered
  (`ObstacleCircles.CircleCovers`). Radii are multiplied by 0.3548 on the way in.
- Pushing the start out of one obstacle can push it into an earlier one. `StartPushes.AllCleared` gives a
  condition on the obstacles under which no start is left in any margin, exact for two
  (`StartPushes.CompatibleIffCleared`). Even then a small obstacle can leave it on a blocked square
  (`RrtAvoidance.PushedStartBlocked`); large ones do not (`RrtAvoidance.PushedStartFar`).
- A ground command straight above or below the previous stop yields no translate, so its altitude is not
  commanded, unless the last command that flew on had the same (`Ground2Drone.AltitudeCommandedIff`).
- A sleep command right after a sleep command keeps the first one's start time and can be over at once.
  Exactly programs with two sleeps in a row, the second not of negative length, and no landing before them
  have such runs (`MissionSleeps.CutShortIffAdjacent`); `CompiledRuns.CompiledCutShortIff` says which ground programs those
  are: a wait after a waypoint can be lost (`CompiledRuns.WaitIsLost`).
- A received line is decoded from a fixed position even when the preamble is found further on: any garbage
  in front of a message on its line loses some payload (`SerialDevices.SurvivesIffClean`).
- `transitionValid` refuses sloped moves that only touch a blocked square's right or lower edge, although
  every point of them is free (`GridSpace.RefusedThoughFree`, `GridSpace.CornerRefused`), because it takes
  squares with all their edges. Its test of the whole line is as good as one of the segment
  (`GridSpace.SlopedExact`), and it never allows an obstructed move (`GridSpace.SegmentSound`). For
  vertical moves it is exact (`GridSpace.VerticalExact`).
- A cheaper bid that arrives between the worker's last look at the list and the award does not get it
  (`Auctions.LateBidLoses`); all other awards go to the first least bid of the whole list
  (`Auctions.AwardsLeastIffNoneLate`).
- A pop during `Preprocess` is undone by its write-back (`Missions.InterveningPopIsLost`).
- The compiler's test (ground2drone_visitor_test.cc) expects altitudes as given and no pause after
  waypoints; the code divides altitudes by 3.28084 and adds a sleep of 10 s. The constant
  `kWaypointSleepTime` (7 s) of the same component is not used for it.

## Model

| member | source | states |
|---|---|---|
| `RrtAvoidance.RRTAvoidance.Process` | lib/rrt_avoidance/rrt_avoidance.cc:20-166 | End to end: the path starts exactly at the start as pushed out of the obstacles and, when the search succeeds, ends exactly at the goal (when it fails, back at its start); with start and goal on free squares (as they are when both are at least radius + 4 squares from every obstacle's centre) every point of every segment, in the caller's coordinates, is on a free square and, counted in squares, more than one from the centre of every obstacle of at least one square, and more than its whole radius less one; the planner is left ready for the next call |
| `RrtAvoidance.RRTAvoidance.PlanFrom` | lib/rrt_avoidance/rrt_avoidance.cc:73-163 | The same from the pushed-out start on |
| `RrtAvoidance.RRTAvoidance.PlanMapped` | lib/rrt_avoidance/rrt_avoidance.cc:129-157 | The same on a grid already drawn |
| `RrtAvoidance.RRTAvoidance.Search` | lib/rrt_avoidance/rrt_avoidance.cc:129-133 | The raw path is in bounds, has the stated ends, and with a free goal is a chain of allowed moves in travel order |
| `RrtAvoidance.RRTAvoidance.Axes` | lib/rrt_avoidance/rrt_avoidance.cc:59-95 | The map sends the start to (2, 2), stretches both axes alike and puts the goal within two squares of the border, exactly so along the longer side |
| `RrtAvoidance.RRTAvoidance.DrawObstacles` | lib/rrt_avoidance/rrt_avoidance.cc:99-126 | Afterwards a square is blocked if and only if it belongs to one of the circles |
| `RrtAvoidance.RRTAvoidance.DrawCircle` | lib/rrt_avoidance/rrt_avoidance.cc:107-125 | Adds exactly the squares of one circle |
| `RrtAvoidance.RRTAvoidance.DrawColumn` | lib/rrt_avoidance/rrt_avoidance.cc:111-124 | Adds exactly the squares of one column of a circle that are on the grid |
| `RrtAvoidance.RRTAvoidance.Smoothed` | lib/rrt_avoidance/rrt_avoidance.cc:134-135 | Smoothing keeps both ends and leaves a chain of allowed moves one |
| `RrtAvoidance.RRTAvoidance.MapBack` | lib/rrt_avoidance/rrt_avoidance.cc:150-161 | Every point is mapped by the exact inverse of the map to the grid |
| `RrtAvoidance.AxisRoundTrip` | lib/rrt_avoidance/rrt_avoidance.cc:59-155 | The map to the grid and the map back undo each other exactly, both ways round |
| `RrtAvoidance.AxisAffine` | lib/rrt_avoidance/rrt_avoidance.cc:59-90 | The map to the grid takes segments to segments, point by point |
| `RrtAvoidance.AxisInside` | lib/rrt_avoidance/rrt_avoidance.cc:78-95 | The start lands at 2 and the goal between 2 and 48 on its axis |
| `RrtAvoidance.MappedPathFree` | lib/rrt_avoidance/rrt_avoidance.cc:134-161 | A chain of allowed moves, mapped back, has every point of every segment on a free square |
| `RrtAvoidance.FreeIsClear` | lib/rrt_avoidance/rrt_avoidance.cc:106-126 | A point whose square is free is, in squares, more than one from the centre of every obstacle of at least one square, and more than its whole radius less one; an obstacle of less than one square keeps it out of the centre's square and the two above and below |
| `RrtAvoidance.FarIsFree` | lib/rrt_avoidance/rrt_avoidance.cc:106-126 | A place at least radius + 4 squares from every obstacle's centre lies on a free square: a condition the caller can check before the call |
| `RrtAvoidance.PushedStartFar` | lib/rrt_avoidance/rrt_avoidance.cc:41-126 | What pushing out is for: with compatible obstacles of at least twenty squares the start ends up far enough from all of them to be on a free square |
| `RrtAvoidance.PushedStartBlocked` | lib/rrt_avoidance/rrt_avoidance.cc:41-126 | Small obstacles can leave the start they have pushed out on a blocked square: one of a single square does |
| `RrtAvoidance.GridDistance` | lib/rrt_avoidance/rrt_avoidance.cc:70-84 | The map to the grid multiplies all distances by one factor |
| `RrtAvoidance.PlannedPath` | lib/rrt_avoidance/rrt_avoidance.cc:132-133 | What the search hands over: start to goal with a solution; without one, from the start to a node and back |
| `ObstacleCircles.CircleCovers` | lib/rrt_avoidance/rrt_avoidance.cc:107-124 | The drawn circle covers every point at most r − 1 squares from its centre, truncations and the square root included |
| `ObstacleCircles.DiscFilledIff` | lib/rrt_avoidance/rrt_avoidance.cc:107-124 | For every scaled radius, fractions included: every point of the disc is covered, wherever the centre lies, if and only if the radius is no square or exactly one |
| `ObstacleCircles.FractionNotFilled` | lib/rrt_avoidance/rrt_avoidance.cc:107-124 | For every other radius below two squares, a point of a disc left free because the radius is cut down to whole squares |
| `ObstacleCircles.HalfSquareMissed` | lib/rrt_avoidance/rrt_avoidance.cc:107-124 | An obstacle of half a square with a point a fifth of a square from its centre left free |
| `ObstacleCircles.DiscNotFilled` | lib/rrt_avoidance/rrt_avoidance.cc:107-124 | For every whole radius of at least two squares a disc and a point of it left free |
| `ObstacleCircles.CircleIsNear` | lib/rrt_avoidance/rrt_avoidance.cc:107-124 | Every point of a covered square is less than r + 4 squares from the centre |
| `StartPushes.PushOut` | lib/rrt_avoidance/rrt_avoidance.cc:41-57 | The obstacles push the start one after the other |
| `StartPushes.PushedByClears` | lib/rrt_avoidance/rrt_avoidance.cc:46-56 | After its turn an obstacle has the start at least 1.2 radii away, in metres |
| `StartPushes.LastObstacleCleared` | lib/rrt_avoidance/rrt_avoidance.cc:41-57 | The last obstacle of the list always ends up 1.2 radii away |
| `StartPushes.ClearStartStays` | lib/rrt_avoidance/rrt_avoidance.cc:51-56 | A start already clear of every obstacle is not moved |
| `StartPushes.AllCleared` | lib/rrt_avoidance/rrt_avoidance.cc:41-57 | If every obstacle is compatible with the later ones (centres at least 1.2 r + 1.4 r' metres apart, or at most 1.2 r, or at most 1.4 r' − 1.2 r), every start ends up 1.2 radii away from all of them |
| `StartPushes.CompatibleIffCleared` | lib/rrt_avoidance/rrt_avoidance.cc:41-57 | For two obstacles of any radii that condition is exact: it holds if and only if every start ends up clear of both |
| `StartPushes.PushedIntoMargin` | lib/rrt_avoidance/rrt_avoidance.cc:46-56 | For two obstacles not compatible, a start that the second pushes into the first one's margin |
| `StartPushes.LaterObstaclePushesBack` | lib/rrt_avoidance/rrt_avoidance.cc:41-57 | An example in numbers: two obstacles that throw the start back inside the first |
| `GridSpace.GridStateSpace.StateValid` | lib/rrt_avoidance/2dplane/GridStateSpace.cpp:19-22 | True exactly for points in bounds and off the obstacle squares; the array is only read inside its bounds |
| `GridSpace.GridStateSpace.SquareObstructs` | lib/rrt_avoidance/2dplane/GridStateSpace.cpp:83-143 | The four-sided test and the vertical test answer exactly whether the line (or the vertical segment) obstructs the square |
| `GridSpace.GridStateSpace.TransitionValid` | lib/rrt_avoidance/2dplane/GridStateSpace.cpp:51-149 | True if and only if the target is free and no obstacle square spanned by the two points meets the line through them; every array access is in range |
| `GridSpace.SegmentSound` | lib/rrt_avoidance/2dplane/GridStateSpace.cpp:51-149 | Segment soundness: from a free point, an allowed move has every convex combination of its ends free (sloped, horizontal, vertical and degenerate) |
| `GridSpace.SlopedExact` | lib/rrt_avoidance/2dplane/GridStateSpace.cpp:83-122 | Sloped moves between free points exactly: allowed if and only if the segment touches no blocked square of the span, edges and corners included |
| `GridSpace.ObstructsIffSegmentMeets` | lib/rrt_avoidance/2dplane/GridStateSpace.cpp:104-122 | Testing the whole line loses nothing: between free points it meets a blocked square of the span exactly if the segment does |
| `GridSpace.RefusedThoughFree` | lib/rrt_avoidance/2dplane/GridStateSpace.cpp:83-122 | A sloped move is refused although every point of it is free, if and only if it meets blocked squares of the span and meets them at their right or lower edges only |
| `GridSpace.CornerRefused` | lib/rrt_avoidance/2dplane/GridStateSpace.cpp:83-122 | Such a move: past the corner of the only blocked square |
| `GridSpace.VerticalExact` | lib/rrt_avoidance/2dplane/GridStateSpace.cpp:123-143 | For vertical moves between free points the test is exact: allowed if and only if every point is free |
| `GridSpace.TransitionSymmetric` | lib/rrt_avoidance/2dplane/GridStateSpace.cpp:51-149 | Between free points a move is allowed exactly when its reverse is |
| `GridSpace.SidesTestDecidesLineMeetsBox` | lib/rrt_avoidance/2dplane/GridStateSpace.cpp:104-122 | The test of the four sides decides whether the whole line meets the closed box |
| `Obstacles.ObstacleGrid.constructor` | lib/rrt_avoidance/2dplane/ObstacleGrid.cpp:11-22 | A new grid has every square free |
| `Obstacles.ObstacleGrid.GridSquareForLocation` | lib/rrt_avoidance/2dplane/ObstacleGrid.cpp:26-29 | For an in-bounds point the square exists and contains the point |
| `Obstacles.ObstacleGrid.ObstacleAt` | lib/rrt_avoidance/2dplane/ObstacleGrid.cpp:78-80 | Reads the cell of the square |
| `Obstacles.ObstacleGrid.SetObstacleAt` | lib/rrt_avoidance/2dplane/ObstacleGrid.cpp:74-76 | Writes the cell of one square and changes no other square |
| `Obstacles.ObstacleGrid.Clear` | lib/rrt_avoidance/2dplane/ObstacleGrid.cpp:66-72 | Frees every square |
| `Obstacles.SquareForLocation` | lib/rrt_avoidance/2dplane/ObstacleGrid.cpp:26-29 | Truncating division puts every in-bounds point in an existing square that contains it |
| `Obstacles.IndexInjective` | lib/rrt_avoidance/2dplane/ObstacleGrid.cpp:74-80 | Two squares never share an array cell |
| `Trees.Node.Depth` | lib/rrt_avoidance/Tree.hpp:50-57 | The number of ancestors: one less than the length of the way from the root |
| `Trees.Tree.Reset` | lib/rrt_avoidance/Tree.hpp:249-270 | Keeps a fresh root with the old state, or nothing |
| `Trees.Tree.SetStartState` | lib/rrt_avoidance/Tree.hpp:465-479 | Exactly one node, without parent, at the start |
| `Trees.Tree.Extend` | lib/rrt_avoidance/Tree.hpp:339-372 | A node is appended exactly when the step from its parent is an allowed move; every node still descends from the root by allowed moves |
| `Trees.Tree.Grow` | lib/rrt_avoidance/Tree.hpp:276-290 | The same whatever the target and whichever node is nearest |
| `Trees.Tree.GetPath` | lib/rrt_avoidance/Tree.hpp:385-420 | Appends the states from the root to the node, or reversed; without a node, those of the last one added |
| `Trees.AppendUpwards` | lib/rrt_avoidance/Tree.hpp:388-392 | Walking the parent links yields the way from the root, reversed |
| `BiRrt.BiRRT.Reset` | lib/rrt_avoidance/birrt/birrt.cc:16-25 | Only the roots are left and no solution |
| `BiRrt.BiRRT.SetStartState` | lib/rrt_avoidance/birrt/birrt.h:81-84 | The start tree is its root alone, and the other tree aims at it |
| `BiRrt.BiRRT.SetGoalState` | lib/rrt_avoidance/birrt/birrt.h:86-89 | The goal tree is its root alone, and the other tree aims at it |
| `BiRrt.BiRRT.FindBestPath` | lib/rrt_avoidance/birrt/birrt.cc:77-97 | The shallowest node closer than the limit, with its depth; INT_MAX and null when there is none |
| `BiRrt.BestIsShallowest` | lib/rrt_avoidance/birrt/birrt.cc:84-91 | No close node is shallower than the one found; none found means no close node of depth below INT_MAX |
| `BiRrt.BestIsFirst` | lib/rrt_avoidance/birrt/birrt.cc:84-91 | Of equally shallow close nodes the first listed is found |
| `BiRrt.BiRRT.Grow` | lib/rrt_avoidance/birrt/birrt.cc:35-64 | Each tree gains at most one node. In each half exactly what can be gained by joining the new node is gained: there is no candidate (close, of the close ones the shallowest and first, and with an allowed move) over which the solution would be shorter, and a new solution is strictly shorter and goes over one. The invariant (both halves are allowed moves from the roots, their join is allowed in travel order, the length is the sum of the depths and at most twice the iteration count) is kept |
| `BiRrt.BiRRT.FindPartner` | lib/rrt_avoidance/birrt/birrt.cc:40-44 | If some candidate makes a shorter solution it is the node found; one found has the length stated |
| `BiRrt.JoinIsBest` | lib/rrt_avoidance/birrt/birrt.cc:39-61 | The same as a fact about one half of Grow |
| `BiRrt.BiRRT.Run` | lib/rrt_avoidance/birrt/birrt.cc:66-75 | A non-negative result comes with a solution, at or after the least number of iterations; −1 means the iterations were used up, and then none was found |
| `BiRrt.BiRRT.GetPath` | lib/rrt_avoidance/birrt/birrt.cc:27-33 | With a solution, its path; without one, from the start to the last node and back to the start |
| `BiRrt.SolutionPathValid` | lib/rrt_avoidance/birrt/birrt.cc:27-64 | With a free goal the path has solution length + 2 points, runs from exactly the start to exactly the goal, and every consecutive pair is an allowed move in travel order |
| `BiRrt.LegsReversed` | lib/rrt_avoidance/birrt/birrt.cc:27-33 | The goal tree's half is walked backwards by allowed moves |
| `BiRrt.LegsFree` | lib/rrt_avoidance/birrt/birrt.cc:27-33 | With a free start every point of every segment is free |
| `Paths.SmoothPath` | lib/rrt_avoidance/planning/Path.hpp:38-54 | Erases in place; the path gets shorter exactly if a direct move between two of its points not next to each other is allowed, and is left alone otherwise |
| `Paths.SmoothShortens` | lib/rrt_avoidance/planning/Path.hpp:38-54 | The same as a fact about the growing-span passes, however far apart the two points are |
| `Paths.SmoothThins` | lib/rrt_avoidance/planning/Path.hpp:38-54 | What is left is a subsequence with both ends, points are left out only where the direct move is allowed, and a chain of allowed moves stays one |
| `Paths.SmoothUnobstructed` | lib/rrt_avoidance/planning/Path.hpp:38-54 | With no obstacle in the way exactly the two ends are left |
| `Paths.EraseRun` | lib/rrt_avoidance/planning/Path.hpp:44-46 | Erasing at one position again and again cuts out a run |
| `Paths.DownSampleVector` | lib/rrt_avoidance/planning/Path.hpp:16-28 | The moving erase index never leaves the vector, and the result is the original without exactly the removal set, of length maxSize |
| `Paths.RemovalSetMembers` | lib/rrt_avoidance/planning/Path.hpp:19-26 | The removal set is round-half-up(k·n/d) for 0 ≤ k < d |
| `Paths.RemovalIndicesIncrease` | lib/rrt_avoidance/planning/Path.hpp:19-26 | Those indices are strictly increasing and inside the vector |
| `Paths.EraseNext` | lib/rrt_avoidance/planning/Path.hpp:22-26 | Removing the next index erases the position it has moved to |
| `Missions.MissionManager.PopCommand` | lib/mission_manager/mission_manager.cc:39-77 | The remaining leaves become their tail; the mission is cleared after the last |
| `Missions.MissionManager.PopFrom` | lib/mission_manager/mission_manager.cc:51-77 | The recursive pop with its copy and write-back |
| `Missions.MissionManager.GetCurrentCommand` | lib/mission_manager/mission_manager.cc:81-114 | The head of the remaining leaves, or "nothing" |
| `Missions.PoppedIsTail` | lib/mission_manager/mission_manager.cc:51-77 | A pop drops the head of the remaining leaves and gives up exactly on the last |
| `Missions.CurrentIsHead` | lib/mission_manager/mission_manager.cc:91-114 | The current command is the head of the remaining leaves |
| `Missions.PopsVisitRemaining` | lib/mission_manager/mission_manager.cc:39-114 | Repeated pops visit every remaining leaf once and in order; then the mission is cleared and the answer is "nothing" for ever |
| `Missions.MissionManager.UnrollMission` | lib/mission_manager/mission_manager.cc:116-232 | Expands in place; terminates on every tree |
| `Missions.UnrollSettles` | lib/mission_manager/mission_manager.cc:116-232 | No waypoint, bomb-drop or goto leaf is left anywhere |
| `Missions.UnrollIdempotent` | lib/mission_manager/mission_manager.cc:116-232 | Unrolling twice is unrolling once |
| `Missions.UnrollWellFormed` | lib/mission_manager/mission_manager.cc:116-232 | Every cursor still points at a command |
| `Missions.UnrollRemaining` | lib/mission_manager/mission_manager.cc:116-232 | Unrolling commutes with the cursor: what remains is what remained, each leaf replaced by its own expansion, nothing skipped or repeated |
| `Missions.UnrolledCommands` | lib/mission_manager/mission_manager.cc:116-232 | What each kind of command becomes on its own: a waypoint is a stop and a sleep of 2 s, a bomb drop a stop at 50 m, sleep, alarm, sleep of 5 s, drop and sleep of 5 s, a goto its raw form; every other kind stays as it is |
| `Missions.SeededLighter` | lib/mission_manager/mission_manager.cc:124-226 | The measure that ends the recursion: an expansion weighs less than the command expanded |
| `Missions.MissionManager.Preprocess` | lib/mission_manager/mission_manager.cc:234-248 | With no writer between its two critical sections, the mission is unrolled and nothing else changes |
| `Missions.InterveningPopIsLost` | lib/mission_manager/mission_manager.cc:234-248 | A pop between the two critical sections is lost: the command popped is expanded again in front of all that should have remained |
| `Missions.MissionManager.CheckNewCommand` | lib/mission_manager/mission_manager.cc:30-37 | Reports a new command once |
| `MissionStates.MissionStateMachine.Handle` | src/controls/flight_loop/mission_state_machine.cc:31-75 | One iteration as a function of machine and sensors: new state and whole output |
| `MissionStates.MissionStateMachine.StateTransition` | src/controls/flight_loop/mission_state_machine.cc:77-140 | The next command is loaded exactly when the current one is finished |
| `MissionStates.MissionStateMachine.HandleTranslate` | src/controls/flight_loop/mission_state_machine.cc:178-206 | The output of a translate |
| `MissionStates.MissionStateMachine.HandleDrop` | src/controls/flight_loop/mission_state_machine.cc:218-234 | The output of a drop |
| `MissionStates.MissionStateMachine.HandleSleep` | src/controls/flight_loop/mission_state_machine.cc:251-272 | The output of a sleep and its clock |
| `MissionStates.LoadedIsPrefix` | src/controls/flight_loop/mission_state_machine.cc:31-157 | Between loads the commands taken up are exactly a prefix of the program, in order and each once, and the machine is executing the last of them |
| `MissionStates.AdvanceIffFinished` | src/controls/flight_loop/mission_state_machine.cc:77-140 | An iteration takes up a command if and only if it finishes the current one and there is another |
| `MissionStates.CommandEndsIff` | src/controls/flight_loop/mission_state_machine.cc:178-276 | When each kind of command with another after it gives way: a translate within 4 m of its goal, a drop once dropping is done, a sleep strictly beyond its period, a landing never |
| `MissionStates.NothingFollowsLand` | src/controls/flight_loop/mission_state_machine.cc:236-244 | Nothing is taken up after a land command until the next load |
| `MissionStates.SleepLasts` | src/controls/flight_loop/mission_state_machine.cc:251-276 | A sleep entered from another state holds through every iteration within its period and is over at the first one strictly beyond it |
| `MissionStates.SecondSleepSharesStart` | src/controls/flight_loop/mission_state_machine.cc:126-139 | A sleep right after a sleep keeps the first one's start: it is over at once exactly if its period has run out since then |
| `MissionStates.SecondSleepCanBeSkipped` | src/controls/flight_loop/mission_state_machine.cc:126-139 | A run from a fresh machine in which two sleeps of ten seconds take 10.2 s together |
| `MissionSleeps.SleepHeldBeyondPeriod` | src/controls/flight_loop/mission_state_machine.cc:251-276 | Over every run: a sleep command that does not follow another sleep lasts strictly longer than its own period |
| `MissionSleeps.CutShortIffAdjacent` | src/controls/flight_loop/mission_state_machine.cc:77-140 | Some run, on a clock that never goes back, ends a sleep of a program within its own period if and only if the program has two sleeps in a row with no landing before them, the second not of negative length |
| `MissionSleeps.OnlySecondCutShort` | src/controls/flight_loop/mission_state_machine.cc:126-139 | In any run, whatever the clock does, the sleep ended early is the second of two in a row, with no landing before them |
| `MissionSleeps.CanReach` | src/controls/flight_loop/mission_state_machine.cc:77-140 | Every command with no landing before it is reached in some run, on a clock that never goes back |
| `MissionStates.DropDeploysUntilDone` | src/controls/flight_loop/mission_state_machine.cc:218-234 | A drop being executed has the winch deploy at every iteration until dropping is done and is then over; nothing else has |
| `MissionStates.AlwaysVisited` | src/controls/flight_loop/mission_state_machine.cc:178-206 | In every run a translate is left only after an iteration with the drone within 4 m of its goal |
| `MissionStates.SetpointFollowsTranslate` | src/controls/flight_loop/mission_state_machine.cc:31-75 | The setpoint sent is the goal of the last translate taken up, or the first position seen, and the yaw the first heading |
| `FlightStates.FlightStateMachine.Handle` | src/controls/flight_loop/flight_state_machine.cc:33-50 | One iteration of the supervisor as a function of its state and the sensors: new state and whole output |
| `FlightStates.FlightStateMachine.LoadMission` | src/controls/flight_loop/flight_state_machine.cc:52-59 | A load restarts the program and forgets a commanded landing |
| `FlightStates.FlightStateMachine.StateTransition` | src/controls/flight_loop/flight_state_machine.cc:61-85 | Entering a state restarts its clock; a commanded landing is remembered |
| `FlightStates.FlightStateMachine.HandleMission` | src/controls/flight_loop/flight_state_machine.cc:304-331 | The interpreter runs exactly when the mission is requested, and its landing ends the mission |
| `FlightStates.LandingIsFinal` | src/controls/flight_loop/flight_state_machine.cc:33-85 | After a landing commanded by the mission and until the next load: LANDING or STANDBY, and no arming, takeoff, offboard, setpoint, hold or drop output, whatever the sensors say |
| `FlightStates.OutputLaws` | src/controls/flight_loop/flight_state_machine.cc:121-382 | Every trigger of every iteration of every run, two ways: land exactly in LANDING while armed; takeoff exactly in TAKING_OFF while requested and armed until loitering above 2 m; hold and (pulsed) arm exactly in ARMING while requested and disarmed; offboard (pulsed) exactly in a requested MISSION while not offboard; setpoints exactly in a requested MISSION; the drop exactly while one is being executed and not done |
| `FlightStates.StatesFollowSensors` | src/controls/flight_loop/flight_state_machine.cc:121-382 | The next state of every iteration of every run, two ways: each state is entered or kept exactly under the stated request, arming, altitude, autopilot mode and clock |
| `FlightStates.LandsUntilDisarmed` | src/controls/flight_loop/flight_state_machine.cc:371-382 | From a landing commanded by the mission until disarming or the next load, every iteration tells the drone to land |
| `FlightStates.ArmingClock` | src/controls/flight_loop/flight_state_machine.cc:147-184 | A running arming clock started at the first iteration to see it reset, since when the flight has been in ARMING |
| `FlightStates.OffboardClock` | src/controls/flight_loop/flight_state_machine.cc:304-336 | The same for the offboard clock and MISSION |
| `FlightStates.PulseShape` | src/controls/flight_loop/flight_state_machine.cc:166-178 | A trigger is off for the first half of every three seconds of its clock and on for the second |
| `FlightStates.NormalTakeoff` | src/controls/flight_loop/flight_state_machine.cc:121-299 | A normal takeoff, state by state, from the ground to the mission |
| `FlightStates.OverrideAndResume` | src/controls/flight_loop/flight_state_machine.cc:304-364 | The pilot takes over and gives back, or stands by once disarmed |
| `FlightStates.CommandedLandingGrounds` | src/controls/flight_loop/flight_state_machine.cc:61-85 | In every run a remembered landing means LANDING or STANDBY |
| `FlightStates.MissionAfterWait` | src/controls/flight_loop/flight_state_machine.cc:261-299 | Every step from TAKEN_OFF to MISSION ends an unbroken window of more than 5 s of armed, requested, altitude ≥ 2 iterations |
| `FlightStates.TakenOffClock` | src/controls/flight_loop/flight_state_machine.cc:261-299 | A running TAKEN_OFF clock started at an iteration since which the window is unbroken |
| `FlightStates.MissionEntry` | src/controls/flight_loop/flight_state_machine.cc:261-364 | Every entry to MISSION has altitude ≥ 2, is requested, and comes from TAKEN_OFF or the pilot |
| `FlightStates.OverrideFreezesMission` | src/controls/flight_loop/flight_state_machine.cc:304-364 | While the pilot has control nothing about the interpreter changes |
| `FlightStates.FlightRunsMission` | src/controls/flight_loop/flight_state_machine.cc:304-343 | In every flight the interpreter's state is that of its own run on the events it was handed |
| `FlightStates.FlightExecutesPrefix` | src/controls/flight_loop/flight_state_machine.cc:52-343 | So over every flight, overrides included, a prefix of the program is executed in order, each command once |
| `Deployments.Deployment.RunIteration` | lib/deployment/deployment.cc:11-112 | One iteration as a function of controller and input |
| `Deployments.Interlock` | lib/deployment/deployment.cc:11-112 | Motor and hot wire are never on together, and only with the latch open |
| `Deployments.EnergisedOnlyWhenReleased` | lib/deployment/deployment.cc:11-118 | Either is on only if, since the controller was last latched, direction > 0 held unbroken in UNLATCHING for more than 3·frequency iterations |
| `Deployments.OutputsFollowInput` | lib/deployment/deployment.cc:11-98 | Over every run, two ways: the motor lets out or reels in exactly in motor-assisted deployment with no cut asked for and as the direction says, always at 0.6; hot wire, latch and end of drop follow the state |
| `Deployments.StatesFollowInput` | lib/deployment/deployment.cc:11-112 | The next state of every iteration of every run, two ways, from the input, the state and its timer |
| `Deployments.ReleaseReachesMotor` | lib/deployment/deployment.cc:11-66 | A release gets to the motor after exactly 3·frequency + 4 iterations |
| `Deployments.HotwireBounded` | lib/deployment/deployment.cc:69-100 | The hot wire is on for at most 10·frequency + 1 iterations in a row |
| `Deployments.HotwireReachesBound` | lib/deployment/deployment.cc:69-100 | An uninterrupted cut keeps it on exactly that long: the bound is met |
| `MavConnUdp.MAVConnUDP.Enqueue` | lib/mavconn_udp/udp.cc:146-192 | Refuses on a full queue, appends otherwise |
| `MavConnUdp.MAVConnUDP.DoSendTo` | lib/mavconn_udp/udp.cc:219-231 | Sends the unsent rest of the first message |
| `MavConnUdp.MAVConnUDP.OnSent` | lib/mavconn_udp/udp.cc:232-263 | Accounts for the bytes sent, drops a finished message, goes on or goes idle |
| `MavConnUdp.AcknowledgedBytes` | lib/mavconn_udp/msgbuffer.h:9-44 | The cursor of a partial send splits the unsent bytes without loss |
| `MavConnUdp.StepSafe` | lib/mavconn_udp/udp.cc:146-264 | Every step of a sender, the i/o thread or the socket keeps the protocol's invariant |
| `MavConnUdp.AlwaysSafe` | lib/mavconn_udp/udp.cc:146-264 | Over all interleavings: at most one send outstanding, a bounded queue, acknowledged plus unsent bytes equal the accepted ones in order, and a wake-up under way whenever something waits with nothing in flight |
| `MavConnUdp.SendAccepts` | lib/mavconn_udp/udp.cc:146-192 | A message is accepted exactly if fewer than 1000 are queued, and then waits behind all others |
| `MavConnUdp.TransmitSendsFirst` | lib/mavconn_udp/udp.cc:219-231 | A transmission sends the unsent rest of the first message |
| `MavConnUdp.Drains` | lib/mavconn_udp/udp.cc:219-264 | From every reachable state there is a continuation without senders that gets every accepted byte out |
| `MavConnUdp.EveryScheduleDrains` | lib/mavconn_udp/udp.cc:219-264 | Whichever of its threads runs first: every schedule of steps other than sends, with completions acknowledging all bytes, is at most 3·posting + 2·posted + 1 + queue length steps long, and when none is left every accepted byte is out |
| `Auctions.ServerWorker.HandleAuction` | src/vision/workers/server_worker.py:161-179 | Lists the auction and queues its timer |
| `Auctions.ServerWorker.HandleTimeout` | src/vision/workers/server_worker.py:130-158 | Too early: queued again unchanged; no bids: timer restarted; else one award to the first bid of least workload, and the auction moves to taken |
| `Auctions.AlwaysSafe` | src/vision/workers/server_worker.py:60-179 | Over all interleavings of bids, worker steps and time: each listed auction is in exactly one of active and taken, each active one has exactly one timeout task, no auction is awarded twice, and every award came at least 0.3 s after the last timer start to the first least bid of those looked at |
| `Auctions.StepSafe` | src/vision/workers/server_worker.py:60-179 | Every single step keeps that invariant |
| `Auctions.WorkerNeverFails` | src/vision/workers/server_worker.py:130-179 | No step of the worker looks up an auction that is not active |
| `Auctions.KeepsScan` | src/vision/server.py:115-117 | A bid appended in the middle of the scan does not disturb the minimum found so far |
| `Auctions.AwardsLeastIffNoneLate` | src/vision/workers/server_worker.py:136-158 | In every reachable world an award went to the first least bid of the whole list if and only if no cheaper bid came after the worker had looked at the list |
| `Auctions.LateBidLoses` | src/vision/workers/server_worker.py:136-158 | A trace from the start in which a cheaper bid arrives after the scan and does not get the award |
| `Auctions.UninterruptedTimeout` | src/vision/workers/server_worker.py:130-158 | The worker's small steps on a due timeout with bids, run without interruption, do what the handler does |
| `Auctions.UninterruptedEarlyTimeout` | src/vision/workers/server_worker.py:156-158 | On a timeout taken too early: it is queued again unchanged |
| `Auctions.UninterruptedBidlessTimeout` | src/vision/workers/server_worker.py:136-142 | On a due timeout without bids: its timer starts again now |
| `Auctions.UninterruptedAuction` | src/vision/workers/server_worker.py:161-179 | On an auction task: the auction is listed without bids and its timer starts |
| `Auctions.TimerRestartsOnlyWhenDue` | src/vision/workers/server_worker.py:130-158 | Over every reachable world, the timer of a listed auction is changed only by a timeout that was due and found no bids |
| `Ground2Drone.Ground2DroneVisitor.Process` | src/controls/ground_controls/timeline/ground2drone_visitor/ground2drone_visitor.cc:13-40 | The compiled program and the position believed in, for the routes the planner actually returned, one for each command, found or not, each with the planner's guarantee |
| `Ground2Drone.CompiledLegSafe` | src/controls/ground_controls/timeline/ground2drone_visitor/ground2drone_visitor.cc:194-237 | The compiled program flies each leg safely: if the leg's search succeeded from free ends, then between the places of any two consecutive translates of it every point is on a free square and clear of the obstacles, on the grid it was planned on |
| `Ground2Drone.LegCode` | src/controls/ground_controls/timeline/ground2drone_visitor/ground2drone_visitor.cc:216-230 | The k-th command of a leg's code is a translate to the k-th point of its route at the goal's altitude in metres, and there are no other translates |
| `Ground2Drone.Ground2DroneVisitor.VisitCommand` | src/controls/ground_controls/timeline/ground2drone_visitor/ground2drone_visitor.cc:42-192 | The code of each kind of command, with the planner's route for it |
| `Ground2Drone.Ground2DroneVisitor.VisitGoto` | src/controls/ground_controls/timeline/ground2drone_visitor/ground2drone_visitor.cc:194-237 | Translates through the planner's points at the goal's altitude |
| `Ground2Drone.CompilePreservesMeaning` | src/controls/ground_controls/timeline/ground2drone_visitor/ground2drone_visitor.cc:28-237 | If the program's own legs arrive, its commands pause, drop and land as the ground program says and at the places it names, and end where it ends |
| `Ground2Drone.StopsReachedIffLegsArrive` | src/controls/ground_controls/timeline/ground2drone_visitor/ground2drone_visitor.cc:194-237 | A program makes every one of its stops if and only if every one of its own legs arrives |
| `Ground2Drone.LegsArriveIffFound` | src/controls/ground_controls/timeline/ground2drone_visitor/ground2drone_visitor.cc:205-211 | With the planner's routes, that is so if and only if every search the program needed succeeded |
| `Ground2Drone.StopsInOrder` | src/controls/ground_controls/timeline/ground2drone_visitor/ground2drone_visitor.cc:28-40 | The stops are made in the ground program's order |
| `Ground2Drone.CompileAltitude` | src/controls/ground_controls/timeline/ground2drone_visitor/ground2drone_visitor.cc:69-237 | Every translate stems from a ground command and carries its altitude divided by 3.28084 |
| `Ground2Drone.LastAltitudeIsCommanded` | src/controls/ground_controls/timeline/ground2drone_visitor/ground2drone_visitor.cc:205-230 | The last altitude of a compiled program is that of the last ground command that flew on to another place |
| `Ground2Drone.AltitudeCommandedIff` | src/controls/ground_controls/timeline/ground2drone_visitor/ground2drone_visitor.cc:205-230 | For every stop of every program: its altitude is the last one commanded if and only if the stop is the first, lies elsewhere than the one before, or has the altitude of the last ground command that flew on |
| `Ground2Drone.RoutedFit` | src/controls/ground_controls/timeline/ground2drone_visitor/ground2drone_visitor.cc:205-211 | The planner's routes are empty exactly where there is no way to go |
| `Ground2Drone.VerticalMoveIsLost` | src/controls/ground_controls/timeline/ground2drone_visitor/ground2drone_visitor.cc:205-212 | A goal straight above or below the previous one adds nothing to the program |
| `CompiledRuns.CompiledProgramFlown` | src/controls/flight_loop/mission_state_machine.cc:31-157 | Compiled programs on the interpreter, over every run: the commands taken up are the first ones in order, what they have the drone do is a beginning of what the ground program says (all of it in the end), and whatever is being done is the last of it, at the place whose setpoint is held and within 4 m of which the drone has been while heading there |
| `CompiledRuns.AdjacentSleepsIffMerged` | src/controls/ground_controls/timeline/ground2drone_visitor/ground2drone_visitor.cc:88-192 | By the ground program alone: its code has two sleeps in a row if and only if a wait, or a waypoint or landing at the place where the drone is, follows a wait or a waypoint with nothing emitted in between |
| `CompiledRuns.CompiledCutShortIff` | src/controls/ground_controls/timeline/ground2drone_visitor/ground2drone_visitor.cc:88-192 | By the ground program alone: some run of its code, on a clock that never goes back, ends a sleep within its own period if and only if it has such a command with no landing before it (and no wait of negative length) |
| `CompiledRuns.CompiledSleepsHeld` | src/controls/flight_loop/mission_state_machine.cc:251-276 | Without such neighbours no run, whatever the clock does, ends a sleep of a compiled program within its own period |
| `CompiledRuns.WaitIsLost` | src/controls/flight_loop/mission_state_machine.cc:126-139 | A compiled program, a waypoint and a wait of five seconds, whose wait is over 0.1 s after it is taken up |
| `Base64Tools.Encode` | lib/base64_tools/base64_tools.cc:61-104 | The text defined by 24-bit groups (RFC 4648, section 4) |
| `Base64Tools.Decode` | lib/base64_tools/base64_tools.cc:12-57 | The bytes defined by 24-bit groups, up to the first character outside the alphabet |
| `Base64Tools.DecodeEncode` | lib/base64_tools/base64_tools.cc:12-104 | Decoding undoes encoding on every byte string |
| `Base64Tools.RoundTrips` | lib/base64_tools/base64_tools.cc:12-104 | And encoding undoes decoding exactly on canonical padded text |
| `Base64Tools.AlphabetInOrder` | lib/base64_tools/base64_tools.h:10-13 | The characters stand in the order of the standard's table |
| `Base64Tools.EncodedBits` | lib/base64_tools/base64_tools.cc:74-99 | One, two and three bytes, bit by bit from the first to the last, with the padding of short groups |
| `Base64Tools.EncodeLength` | lib/base64_tools/base64_tools.cc:61-68 | The text has 4·⌈n/3⌉ characters |
| `Base64Tools.EncodeAlphabet` | lib/base64_tools/base64_tools.cc:61-104 | Only alphabet characters and padding: no line feed or carriage return |
| `Base64Tools.EncodeCanonical` | lib/base64_tools/base64_tools.cc:61-104 | Encoded text is canonical |
| `Base64Tools.BytesOfSextets` | lib/base64_tools/base64_tools.cc:39-54 | The lookups of missing characters never reach the bytes that are kept |
| `SerialDevices.SerialDevice.ReadPort` | lib/serial_device/serial_device.h:134-164 | One read feeds its bytes to the line reader one by one |
| `SerialDevices.SerialDevice.RetrieveDecodedMessage` | lib/serial_device/serial_device.h:246-277 | A parsed message replaces the one waiting; any other line changes nothing |
| `SerialDevices.SerialDevice.GetLatestProto` | lib/serial_device/serial_device.h:199-217 | Hands out the latest message once |
| `SerialDevices.SerialDevice.WritePort` | lib/serial_device/serial_device.h:166-244 | Preamble, eight digits, text, carriage return |
| `SerialDevices.FindPattern` | lib/serial_device/serial_device.h:248-252 | The first occurrence, if there is one |
| `SerialDevices.ChunkingIrrelevant` | lib/serial_device/serial_device.h:134-164 | How the stream is split into reads makes no difference |
| `SerialDevices.LineCarries` | lib/serial_device/serial_device.h:227-277 | The line of a written message has no newline in it and carries the payload back |
| `SerialDevices.FramingRoundTrip` | lib/serial_device/serial_device.h:134-277 | After any garbage ending in a newline and for any split into reads, exactly the sent messages are delivered, in order |
| `SerialDevices.CarriesIff` | lib/serial_device/serial_device.h:246-258 | A line carries something if and only if it has a preamble with room for a checksum behind it |
| `SerialDevices.ExactlySentDelivered` | lib/serial_device/serial_device.h:134-277 | After garbage without a preamble, ending its line, the sent messages are delivered and nothing else |
| `SerialDevices.SurvivesIffClean` | lib/serial_device/serial_device.h:246-268 | Messages survive garbage in front of them on their line if and only if there is none |
| `SerialDevices.GarbageLosesPayload` | lib/serial_device/serial_device.h:246-268 | Every garbage in front loses some payload, whatever the checksum |
| `SerialDevices.StrayByteShiftsData` | lib/serial_device/serial_device.h:246-268 | With one stray byte in front the preamble is found but the data start with the checksum's last digit |
| `MotionProfiles.MotionProfile.Calculate` | lib/motion_profile/motion_profile.cc:13-52 | The new velocity is the limited accelerated one and within the speed limit; from a velocity within it, the reported acceleration is within its limit, even when the speed limit cuts in |
| `MotionProfiles.AccelerationBound` | lib/motion_profile/motion_profile.cc:13-49 | The same as a fact about vectors |
| `MotionProfiles.Approaches` | lib/motion_profile/motion_profile.cc:13-43 | The velocity moves towards a target within the speed limit: with a time step of at most two it is never farther from it than before, and with a step of one and the target within reach it gets there |
| `MotionProfiles.AlwaysLimited` | lib/motion_profile/motion_profile.cc:13-52 | Over every sequence of targets both limits hold at every call |
| `MotionProfiles.LimitedLength` | lib/motion_profile/motion_profile.cc:32-43 | Cutting gives at most the limit and leaves shorter vectors alone |
| `MotionProfiles.LimitedNonExpansive` | lib/motion_profile/motion_profile.cc:32-43 | Cutting to the ball moves no point away from any point of the ball |
| `MotionProfiles.CauchySchwarz` | lib/motion_profile/motion_profile.cc:32-49 | The inequality of Cauchy and Schwarz, on which that rests |
| `AntennaTrackers.AntennaTracker.Track` | src/ground/antenna_tracker/antenna_tracker.py:92-104 | The four loops compute the unwound position; the pulses sent add up to the change recorded; nothing moves while the motor is busy or the place is not configured |
| `AntennaTrackers.UnwoundKeeps` | src/ground/antenna_tracker/antenna_tracker.py:92-100 | Within two revolutions either way and pointing as asked: the short way if the limit allows it, otherwise back by less than a revolution |
| `AntennaTrackers.UnwoundIsNearest` | src/ground/antenna_tracker/antenna_tracker.py:92-100 | No other position within the limit and with that heading is nearer |
| `AntennaTrackers.NeverTangles` | src/ground/antenna_tracker/antenna_tracker.py:86-104 | Over any sequence of targets: never beyond the limit, every move less than a revolution, right heading, and a wave of exactly that many steps |
| `Steppers.StepperUtils.MoveStepper` | src/ground/antenna_tracker/stepper_utils.py:28-59 | The wave turns the motor by exactly the steps asked for, in the right direction |
| `Steppers.StepperUtils.MakeChain` | src/ground/antenna_tracker/stepper_utils.py:36-58 | The blocks emitted, and the program's own closing assertion |
| `Steppers.StepperUtils.RampUp` | src/ground/antenna_tracker/stepper_utils.py:40-46 | The first loop: it stops at the first speed not below the greatest |
| `Steppers.StepperUtils.RampDown` | src/ground/antenna_tracker/stepper_utils.py:52-55 | The second loop |
| `Steppers.StepperUtils.RepeatStepPulse` | src/ground/antenna_tracker/stepper_utils.py:19-26 | The two bytes of the loop count make up the number of pulses |
| `Steppers.ChainTotal` | src/ground/antenna_tracker/stepper_utils.py:36-58 | No step is lost or added |
| `Steppers.ChainIsSmooth` | src/ground/antenna_tracker/stepper_utils.py:36-58 | Every speed is between the least and the greatest, and neighbours differ by at most one increment, also at the top and at the leftover steps |
| `Steppers.DownMirrorsUp` | src/ground/antenna_tracker/stepper_utils.py:40-55 | Deceleration mirrors acceleration, block by block |
| `Steppers.LoopCountsAreBytes` | src/ground/antenna_tracker/stepper_utils.py:22-26 | Both loop-count bytes are bytes for moves below 65536 steps |
| `Steppers.QuarterRevolution` | src/ground/antenna_tracker/stepper_utils.py:12-17 | For a revolution of a multiple of 16 steps, full speed is reached in exactly a quarter revolution |

## Left out

- Floating-point rounding: all arithmetic on `double` is exact; square roots are a function or number whose square is right.
- Pure-number corner cases that yield infinity or not-a-number: a planner goal at the pushed-out start (`longest_dim` 0), a start exactly at the centre of an obstacle that pushes it, a non-positive `deltaTime`.
- The k-d tree and hash map behind `nearest`, waypoints, and the adaptive step size with `nearestObstacleDist`: they only choose which node is extended and how far.
- Int overflow of depths and solution lengths: `BiRrt.BiRRT` shows the length is at most twice the iteration count, far below INT_MAX for the planner's 10000 iterations.
- The great-circle distance: in the planner a positive number of metres per degree, in the interpreter an arbitrary function.
- Missions.MissionManager.Preprocess: states its effect with no writer between its two critical sections; what a pop in between does is `Missions.InterveningPopIsLost`. The semaphore itself is not modelled.
- Obstacles and the string dump of the mission manager.
- Protobuf encoding: a serialiser and a parser that undoes it.
- The serial checksum's value (any eight hex digits; it is not checked on receipt), terminal set-up, and the reader and writer threads.
- Base64 lengths near the end of `size_t`.
- UDP: close, address resolution, an unknown remote, and socket errors other than an unreachable network; that error re-posts after zero bytes, as `Complete` with nothing sent.
- The mutex of the UDP link is modelled by making each locked section one step.
- Uniqueness of random auction ids is assumed; a bid for an auction that is not active raises KeyError and changes nothing.
- Vision tasks other than auctions and timeouts, the image database, priorities between them (the worker may take any queued task).
- Flight-loop logging, alarms and the conversion between protobuf messages and the structs of `ControlMessages`.
- The state objects of the two state machines are fields of the machine; unknown states are unreachable and not modelled.
- Timers of the winch count iterations; jitter of the loop is not modelled.
- Stepper: `SPR` below 16 divides by zero and is excluded; wave ids, pulse widths and the GPIO library are not modelled.
- The antenna's bearing and pitch computation: any requested step is allowed; the dry run without GPIO is not modelled.
- ROS, cameras, user interfaces, neural networks, `Alarm`, `PID`, `Battery`, `Trigger` and `PhasedLoop`.
- MotionProfiles.MotionProfile.Calculate: the two square roots are given with their defining property.
- GridSpace.SegmentSound: one direction, because the code refuses some free moves; `GridSpace.SlopedExact` and `GridSpace.RefusedThoughFree` say exactly which.
