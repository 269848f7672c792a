# Search: a verified model of a state-space search framework

This project models the core of **CalmAmity/Search** in Dafny. The original is a small Java framework for
state-space search and local optimisation. Its parts are:

- A shared contract. A *state* has *actions*; each action has a resulting state and a cost. A *heuristic*
  estimates a state's distance to the goal and caches the estimate on the state. Float comparisons use a
  fixed tolerance of 10⁻⁶.
- Uninformed search:
  - breadth-first *tree* search, with no duplicate detection;
  - "depth-first" *graph* search, with an explored set.
- Informed search: tree-based A* over a priority queue.
- Local search:
  - the hill-climbing core, with its plateau and downhill policy;
  - two successor-selection strategies for it: stochastic (weighted) selection and simulated annealing;
  - steepest ascent, a separate class with its own plateau policy;
  - random-restart steepest ascent.
- The example domains:
  - the N-queens board with its clash-count heuristic;
  - the sliding-tile puzzle, with its moves and the Manhattan-distance heuristic;
  - the route-finding problem's locations, connections and states;
  - n-dimensional points and the tolerant float comparison they rely on.

## How the model is built

**Search engines.** Each engine is a Dafny `class` with the engine's fields: the frontier, the explored set,
the current state, the plateau counter and the temperature. The engines are generic over a state type
`S`. The domain contract is passed in as functions: successors, goal test, quality or distance, and the
optimality test.

**Loops.** A loop in the source is a `method` with a loop (`while` or `for`, as the source has it). Its postcondition is stated against a
specification function, for example:
- `Scan` for the steepest-ascent pass;
- `Expansions` for the breadth-first frontier;
- `Weights`/`PrefixSum` for stochastic selection.

The search loops that the source runs until they succeed take a `fuel: nat` bound. Running out of fuel is
an outcome of its own (`OutOfFuel`/`Unfinished`).

**Errors and nondeterminism.**
- Java `null` is `Option.None`.
- A thrown exception is `Result.Failure`: `IllegalArgument`, `NoSuchElement` or `NegativeArraySize`.
- Random choices (`Random`, `Math.random`, `Collections.shuffle`) are nondeterministic choices (`:|`). Every
  contract holds for every outcome of a choice.

**Domain states.**
- Queens boards are values: `seq<int>`, one row index per column.
- Sliding-puzzle states are objects whose tile grid `switchTiles` rewrites in place.
- Route locations, connections and states are objects, because `link` and `hashCode` depend on identity.

### Where the model follows the code rather than the usual reading of the algorithm

- Breadth-first and depth-first search expand the popped state *before* testing it for the goal. Both read
  as do-while loops, and a goal start state is expanded too (`BreadthFirstTree.GoalStartIsExpanded`).
- `DepthFirstGraph` pushes its start state but then appends successors at the tail with `add` and pops from
  the head. Its frontier is therefore FIFO, not a stack (`DepthFirstGraph.PopsInInsertionOrder`).
- A state skipped because it is already explored still reaches the loop condition through `continue`. It is
  tested for the goal there.
- A* gives a successor the *action's* cost, not its parent's cost plus the action's cost. Its key is
  `cost − quality`.
- Stochastic selection throws on an empty list of non-downhill successors (`NoSuchElement`). It does not
  signal termination.
- The shared hill-climbing step falls through to the downhill test when the plateau budget is spent. With
  downhill moves allowed, an equal-quality move is therefore accepted as a downhill move.
- Steepest ascent rewrites its current state *during* the scan, replacing it on `<=`, so ties go to the
  later successor. When it then returns `null` because of a plateau, it has still moved to an
  equal-distance successor.
- Steepest ascent stops on `equalValue(distance, bestPossibleScore)`, not on `score + margin + ε ≥ optimum`.
- The three-argument sliding-puzzle constructor discards each result of `randomMove`, so the state it
  builds is the solved one.
- A sliding-puzzle board with no columns or no rows is built without error, with no tiles. On such a board
  and on the 1×1 board no move is possible, so `randomMove` asks `nextInt(0)` for an index and throws
  `IllegalArgument`. The scrambling constructor fails the same way once it makes a step.
- Random restart returns the end state of the *last* run, not the best one. It tests for the cap being
  *exceeded*, so it can make one run more than the cap (see Findings).

## Model

| member | source | states |
|---|---|---|
| Util.EqualValueWithinMeaning | src/main/java/util/Util.java:28-30 | two values are equal within a margin iff their difference lies within ±\|margin\| |
| Util.EqualValueWithinSymmetric | src/main/java/util/Util.java:28-30 | the tolerant comparison is symmetric in its values and ignores the margin's sign |
| Util.EqualValueDefaultMargin | src/main/java/util/Util.java:6-19 | the two-argument comparison uses the margin 0.000001 |
| Util.EqualValueZeroMarginIsEquality | src/main/java/util/Util.java:28-30 | with margin 0 the comparison is exact equality |
| Util.EqualValueExamples | src/test/java/util/UtilTest.java:10-22 | the tolerant comparisons the tests expect, true and false |
| Points.NewPoint | src/main/java/util/Point.java:12-18 | a point is built iff at least one coordinate is given, and then keeps them all in order; otherwise IllegalArgument |
| Points.AbsoluteDifference | src/main/java/util/Point.java:115-117 | non-negative and equal to one of the two differences |
| Points.ManhattanDistanceTo | src/main/java/util/Point.java:21-33 | IllegalArgument when the dimensions differ, otherwise the sum of the coordinate distances |
| Points.ManhattanIsADistance | src/main/java/util/Point.java:21-33 | the Manhattan distance is non-negative and symmetric, zero from a point to itself, and zero only between equal points |
| Points.Equals | src/main/java/util/Point.java:71-97 | equal iff the dimensions and every coordinate agree, which is value equality |
| Points.PointExamples | src/test/java/util/PointTest.java:12-50 | the distance, sum, difference and empty-point results the tests expect |
| Core.ResultingStates | src/main/java/local/hillclimbing/SteepestAscent.java:51 | the resulting states of the actions, one per action, same order |
| Core.AppendResultingStates | src/main/java/core/BreadthFirstTree.java:28-31 | the iterator loop appends every action's resulting state to the queue, in order |
| Heuristic.Heuristic.DetermineEstimatedDistanceToGoal | src/main/java/core/Heuristic.java:13-19 | on an empty cache, estimate once and store; otherwise return the cached value without estimating; the cache then holds the result |
| Heuristic.Heuristic.DetermineTwice | src/main/java/core/Heuristic.java:13-19 | asking twice gives the same answer and consults the estimator at most once |
| BreadthFirstTree.BreadthFirstTree.constructor | src/main/java/core/BreadthFirstTree.java:14-17 | the frontier holds only the start state |
| BreadthFirstTree.BreadthFirstTree.Poll | src/main/java/core/BreadthFirstTree.java:26-31 | removes the head and appends all of its resulting states; the frontier stays the FIFO order of all expansions |
| BreadthFirstTree.BreadthFirstTree.Run | src/main/java/core/BreadthFirstTree.java:23-35 | the polled states extend the old ones; no state before the last is a goal; Found returns the last polled state, which is a goal; an empty frontier or spent fuel is reported |
| BreadthFirstTree.GoalStartIsExpanded | src/main/java/core/BreadthFirstTree.java:23-35 | a goal start is returned, but only after its successors are queued |
| BreadthFirstTree.DuplicatesAreKept | src/main/java/core/BreadthFirstTree.java:26-31 | tree search queues a state once per action that reaches it |
| DepthFirstGraph.DepthFirstGraph.constructor | src/main/java/core/DepthFirstGraph.java:18-22 | the frontier holds the start state and nothing is explored |
| DepthFirstGraph.DepthFirstGraph.Step | src/main/java/core/DepthFirstGraph.java:30-41 | pops the head; an explored state changes nothing else; an unexplored one is added to the explored set and its resulting states are appended |
| DepthFirstGraph.DepthFirstGraph.SkipHead | src/main/java/core/DepthFirstGraph.java:32-35 | an already explored head is dropped without expansion |
| DepthFirstGraph.DepthFirstGraph.ExpandHead | src/main/java/core/DepthFirstGraph.java:36-40 | an unexplored head is explored and its resulting states are appended at the tail |
| DepthFirstGraph.DepthFirstGraph.Run | src/main/java/core/DepthFirstGraph.java:28-44 | the explored set only grows, by exactly one per expansion; expansions are distinct; no popped state before the last is a goal; Found returns the last popped state, which is a goal |
| DepthFirstGraph.ExploredWerePopped | src/main/java/core/DepthFirstGraph.java:31-35 | every explored state has been popped |
| DepthFirstGraph.PopsInInsertionOrder | src/main/java/core/DepthFirstGraph.java:31-40 | the second pop is the first successor queued, not the last |
| DepthFirstGraph.ExploredStatesAreSkipped | src/main/java/core/DepthFirstGraph.java:32-35 | a state reached again is not expanded a second time |
| AStarTree.Compare | src/main/java/path/AStarTree.java:21-36 | −1, 0 or 1 exactly when the first key is smaller than, equal to or greater than the second |
| AStarTree.CompareIsTotalPreorder | src/main/java/path/AStarTree.java:21-36 | the comparator is antisymmetric, transitive and total |
| AStarTree.MinimalExists | src/main/java/path/AStarTree.java:50 | a non-empty queue always has a node of minimal key for `poll` to return |
| AStarTree.SuccessorNode | src/main/java/path/AStarTree.java:61-65 | a successor is queued with the action's cost and the heuristic's score |
| AStarTree.SuccessorNodes | src/main/java/path/AStarTree.java:59-67 | one queued node per action, in order |
| AStarTree.AddSuccessorNodes | src/main/java/path/AStarTree.java:59-67 | the loop adds exactly the successor nodes to the queue |
| AStarTree.AStarTree.constructor | src/main/java/path/AStarTree.java:17-42 | the queue holds only the scored start state |
| AStarTree.AStarTree.PerformStep | src/main/java/path/AStarTree.java:48-70 | polls a node of minimal key; a goal gives false and leaves the rest queued; otherwise true, and its successor nodes are added; an empty queue is a separate outcome |
| AStarTree.CheaperNodeFirst | src/main/java/path/AStarTree.java:48-70 | a step expands the node of the lower key first |
| AStarTree.ExpandStart | src/main/java/path/AStarTree.java:48-70 | a first step leaves the start's successors queued, each at its action's cost |
| Stochastic.NonDownhillMovesMembers | src/main/java/local/hillclimbing/Stochastic.java:23-25 | the filtered list holds exactly the successors of quality at least the current quality minus ε |
| Stochastic.NonDownhillMovesKeepsOrder | src/main/java/local/hillclimbing/Stochastic.java:23-25 | a list with no downhill successor passes the filter unchanged |
| Stochastic.MinimalScore | src/main/java/local/hillclimbing/Stochastic.java:54 | the minimum is at most every score and is one of them |
| Stochastic.WeightsAreMonotonic | src/main/java/local/hillclimbing/Stochastic.java:52-63 | weights are non-negative, one is zero, and a better quality never gets a smaller weight |
| Stochastic.DetermineWeights | src/main/java/local/hillclimbing/Stochastic.java:52-63 | an empty list throws NoSuchElement; otherwise each weight is the quality minus the list's minimum |
| Stochastic.CumulativeScores | src/main/java/local/hillclimbing/Stochastic.java:31-36 | the i-th cumulative score is the sum of the first i+1 weights |
| Stochastic.PrefixSumsAreMonotonic | src/main/java/local/hillclimbing/Stochastic.java:31-36 | with non-negative weights the cumulative scores are non-negative and non-decreasing |
| HillClimbing.ClassifyMeaning | src/main/java/local/hillclimbing/AbstractHillClimbing.java:57-72 | plateau iff tolerantly equal with budget left; uphill only if strictly better; downhill only if allowed; rejected iff neither plateau nor better nor allowed downhill; without downhill moves nothing accepted is more than ε worse |
| HillClimbing.PlateauMovesStayBounded | src/main/java/local/hillclimbing/AbstractHillClimbing.java:57-65 | the plateau counter stays between 0 and the maximum |
| HillClimbing.CoolingIsLinear | src/main/java/local/hillclimbing/SimulatedAnnealing.java:36 | after n draws the temperature has fallen by n times the cooling rate |
| HillClimbing.HillClimbing.Stochastic | src/main/java/local/hillclimbing/Stochastic.java:16-18 | a stochastic climber at the start state, no plateau moves made, downhill moves not allowed |
| HillClimbing.HillClimbing.SimulatedAnnealing | src/main/java/local/hillclimbing/SimulatedAnnealing.java:19-24 | plateau maximum 0, temperature 1, downhill moves allowed |
| HillClimbing.HillClimbing.SelectStochastically | src/main/java/local/hillclimbing/Stochastic.java:21-45 | fails with NoSuchElement iff no successor passes the filter; otherwise returns one that does, never one strictly worse than current minus ε |
| HillClimbing.HillClimbing.SelectByAnnealing | src/main/java/local/hillclimbing/SimulatedAnnealing.java:27-46 | each draw lowers the temperature by the cooling rate; null only after every successor was drawn and none was better; an accepted successor is better or drawn while the temperature was positive |
| HillClimbing.HillClimbing.PerformStep | src/main/java/local/hillclimbing/AbstractHillClimbing.java:41-73 | an optimal state gives null with nothing changed; otherwise the strategy's pick is a successor (a non-downhill one when stochastic; under annealing a better one or one drawn while the temperature was positive, and null only when no successor is better), and the step gives null iff the strategy gave null or the verdict rejects the pick, and the pick itself otherwise; the plateau counter follows the verdict of an accepted pick; it fails with NoSuchElement iff the state is not optimal, the strategy is stochastic and no successor passes the filter; the stochastic strategy leaves the temperature alone, and annealing lowers it by the cooling rate once per candidate drawn, at most once per successor and for every successor when it picks nothing |
| HillClimbing.HillClimbing.Run | src/main/java/local/hillclimbing/AbstractHillClimbing.java:88-105 | the visited states form a walk along actions from the start to the final state, at most fuel+1 of them; Found returns the final state, and only when it is optimal or the last step's pick was null or rejected; spent fuel means fuel steps were taken; a failure comes from a stuck stochastic step; without downhill moves no step loses more than ε of quality |
| SteepestAscent.ScanIsClosest | src/main/java/local/hillclimbing/SteepestAscent.java:54-59 | the scan ends at the start or a successor, no farther than the start and no farther than any successor |
| SteepestAscent.ScanPicksLastClosest | src/main/java/local/hillclimbing/SteepestAscent.java:54-59 | the scan keeps the start only if every successor is strictly farther; otherwise it ends at a successor that every later one is strictly farther than |
| SteepestAscent.ScanDistanceIgnoresOrder | src/main/java/local/hillclimbing/SteepestAscent.java:51-59 | the shuffle changes which state is picked but not its distance |
| SteepestAscent.ResultingStatesOfPermutation | src/main/java/local/hillclimbing/SteepestAscent.java:51-53 | shuffling keeps exactly the same successors |
| SteepestAscent.JudgeAfterScan | src/main/java/local/hillclimbing/SteepestAscent.java:61-74 | after a scan: stop iff the distance is unchanged and the plateau budget is spent; a plateau move iff unchanged with budget left |
| SteepestAscent.SteepestAscent.constructor | src/main/java/local/hillclimbing/SteepestAscent.java:28-31 | at the start state, with no plateau moves allowed |
| SteepestAscent.SteepestAscent.WithPlateauMoves | src/main/java/local/hillclimbing/SteepestAscent.java:33-36 | at the start state, with the given plateau budget |
| SteepestAscent.SteepestAscent.ScanSuccessors | src/main/java/local/hillclimbing/SteepestAscent.java:54-59 | the loop leaves the current state where the scan specification puts it |
| SteepestAscent.SteepestAscent.PerformStep | src/main/java/local/hillclimbing/SteepestAscent.java:42-75 | an optimal state returns null and changes nothing; otherwise the scan runs over a permutation of the successors, and the verdict decides the return value and the plateau counter |
| SteepestAscent.SteepestAscent.Step | src/main/java/local/hillclimbing/SteepestAscent.java:42-75 | a step stays or moves to a successor, never farther from the goal; when it returns null the climb has stopped |
| SteepestAscent.SteepestAscent.Run | src/main/java/local/hillclimbing/SteepestAscent.java:81-94 | the accepted states descend step by step; the final state is no farther than the start; an optimal start is returned unchanged; a run ends only at a stopped state |
| RandomRestart.RandomRestart.constructor | src/main/java/local/hillclimbing/RandomRestart.java:26-30 | keeps the heuristic data, the cap and the margin |
| RandomRestart.RandomRestart.Climb | src/main/java/local/hillclimbing/RandomRestart.java:48-49 | one steepest-ascent run from the supplied start ends no farther than that start and keeps an optimal start |
| RandomRestart.RandomRestart.Run | src/main/java/local/hillclimbing/RandomRestart.java:37-54 | every run but the last ended outside the margin; the state returned is the last run's end and within the margin unless the cap stopped the loop; a negative cap returns null; at most cap+1 runs |
| RandomRestart.RandomRestart.RunWithinCap | src/main/java/local/hillclimbing/RandomRestart.java:37-54 | the same loop with the cap test corrected: never more runs than the cap, and a cap of 0 or less returns null |
| RandomRestart.CapReachedBoundsRuns | src/main/java/local/hillclimbing/RandomRestart.java:41-44 | with the corrected test, a run starts only while fewer runs than the cap have been made |
| RandomRestart.CapAllowsOneRunTooMany | src/main/java/local/hillclimbing/RandomRestart.java:41-44 | with a cap of 0 the loop as written makes one run and the corrected loop none |
| Queens.QueensAreClashingMeaning | src/main/java/local/queens/State.java:61-71 | two queens clash iff they share a row or a diagonal; the test is symmetric |
| Queens.ClashExamples | src/test/java/local/queens/StateTest.java:30-41 | the clashing and non-clashing pairs the tests expect |
| Queens.IsGoalState | src/main/java/local/queens/State.java:39-53 | a board is a goal iff no two queens clash |
| Queens.MoveQueen | src/main/java/local/queens/State.java:81-82 | the cloned board differs only in the moved column |
| Queens.DetermineAvailableActions | src/main/java/local/queens/State.java:74-89 | the nested loops build the successor list column by column, row by row |
| Queens.MovesInColumnMembership | src/main/java/local/queens/State.java:78-85 | an action is in a column's list iff it moves that column's queen to another row, at cost 0 |
| Queens.SuccessorsUpToMembership | src/main/java/local/queens/State.java:77-86 | an action is in the list for the first columns iff it moves one of them to another row |
| Queens.SuccessorsMembership | src/main/java/local/queens/State.java:74-89 | the successors are exactly the boards with one queen moved to another row in its column, at cost 0 |
| Queens.SuccessorsDifferInOneColumn | src/main/java/local/queens/State.java:79-84 | every successor costs 0 and differs from the board in exactly one column |
| Queens.MovesInColumnCount | src/main/java/local/queens/State.java:78-85 | a column contributes one action per row other than its queen's |
| Queens.SuccessorsCount | src/main/java/local/queens/State.java:74-89 | a valid n-board has n·(n−1) successors |
| Queens.SuccessorsExamples | src/test/java/local/queens/StateTest.java:43-55 | the reachable and unreachable boards the tests expect |
| Queens.RandomBoard | src/main/java/local/queens/State.java:21-28 | NegativeArraySize iff the size is negative; otherwise a board of the requested size with every queen on the board |
| Queens.Equals | src/main/java/local/queens/State.java:92-117 | boards are equal iff they have the same dimensions and every column agrees |
| QueensHeuristic.EstimateDistanceToGoal | src/main/java/local/queens/NumberOfClashesHeuristic.java:8-22 | the nested loops count the clashing pairs |
| QueensHeuristic.GetBestPossibleScore | src/main/java/local/queens/NumberOfClashesHeuristic.java:25-28 | 0 is a lower bound on every board's clash count |
| QueensHeuristic.ClashesUpToZeroIff | src/main/java/local/queens/NumberOfClashesHeuristic.java:11-19 | the partial count is zero iff no pair examined so far clashes |
| QueensHeuristic.NoClashesIffGoal | src/main/java/local/queens/NumberOfClashesHeuristic.java:8-22 | the heuristic is 0 exactly on goal boards |
| QueensHeuristic.NumberOfClashesBound | src/main/java/local/queens/NumberOfClashesHeuristic.java:8-22 | at most n·(n−1)/2 pairs clash |
| QueensHeuristic.ClashesOfTestBoard | src/test/java/local/queens/NumberOfClashesHeuristicTest.java:25-26 | [1,2,5,4,0,6,4,4] has 11 clashing pairs |
| QueensHeuristic.SolutionHasNoClashes | src/test/java/local/queens/NumberOfClashesHeuristicTest.java:29-30 | [4,2,0,6,1,7,5,3] has no clashes and is a goal |
| SlidingMove.Ordinal | src/path/sliding/Move.java:8-11 | every move has its position in the declaration order |
| SlidingMove.AllMovesComplete | src/path/sliding/Move.java:8-11 | `values()` lists the four moves, each once |
| SlidingMove.MovesAreUnitSteps | src/path/sliding/Move.java:8-21 | every move shifts the blank by one cell along exactly one axis |
| SlidingMove.OppositeMoves | src/path/sliding/Move.java:8-11 | up and down, and left and right, are opposite shifts |
| SlidingGrid.SwapTilesCells | src/main/java/path/sliding/State.java:112-116 | switching exchanges the two cells and leaves every other cell alone |
| SlidingGrid.SolvedGridIsPermutation | src/main/java/path/sliding/State.java:22-39 | the solved grid holds each tile 0 … w·h−1 exactly once |
| SlidingGrid.SwapPreservesPermutation | src/main/java/path/sliding/State.java:112-116 | switching two cells keeps the grid a permutation of the tiles |
| SlidingGrid.LocateInRowFindsFirst | src/main/java/path/sliding/State.java:95-99 | the column scan finds the first cell holding the tile, or reports there is none |
| SlidingGrid.LocateFromFindsFirst | src/main/java/path/sliding/State.java:93-103 | the row-major scan finds the first cell holding the tile, or reports there is none |
| SlidingGrid.LocateInPermutationGrid | src/main/java/path/sliding/State.java:93-103 | in a permutation grid the scan finds the tile's only cell |
| SlidingGrid.LocateFindsEveryTile | src/main/java/path/sliding/State.java:93-103 | on a valid grid the position is never null for a tile in range |
| SlidingGrid.LocateInSolvedGrid | src/main/java/path/sliding/State.java:93-103 | in the solved grid, tile t is at (t mod w, t div w) |
| SlidingGrid.SolvedGridIsValid | src/main/java/path/sliding/State.java:22-39 | the solved grid with the blank at (0, 0) is a valid state |
| SlidingGrid.SwapWithBlankIsValid | src/main/java/path/sliding/State.java:131-139 | swapping the blank with an in-bounds tile and moving the blank there keeps the state valid |
| SlidingState.MovesWithinMembership | src/main/java/path/sliding/State.java:141-150 | a move is possible iff the slid tile is inside the grid |
| SlidingState.MovesWithinOrdered | src/main/java/path/sliding/State.java:141-150 | the possible moves come in declaration order |
| SlidingState.State.Solved | src/main/java/path/sliding/State.java:22-39 | the solved grid of the given dimensions with the blank at (0, 0), cost 0; a valid state whenever both dimensions are at least 1 |
| SlidingState.State.Copy | src/main/java/path/sliding/State.java:41-54 | same dimensions, grid and blank, for every well-shaped grid; cost and predecessor are not copied |
| SlidingState.State.Scrambled | src/main/java/path/sliding/State.java:62-67 | IllegalArgument iff some step is asked for on a board with no possible move (no cells, or 1×1); otherwise the random moves' results are discarded, so the state is the solved one |
| SlidingState.State.FindTileAt | src/main/java/path/sliding/State.java:89-91 | on a valid state every cell holds a tile in range, and the blank 0 exactly at the blank's position |
| SlidingState.State.FindTilePosition | src/main/java/path/sliding/State.java:93-103 | returns the first cell holding the tile in row-major order, or null |
| SlidingState.State.OverwriteTileAt | src/main/java/path/sliding/State.java:105-107 | exactly one cell changes |
| SlidingState.State.SwitchTiles | src/main/java/path/sliding/State.java:112-116 | the grid becomes the one with the two cells swapped |
| SlidingState.State.PerformMove | src/main/java/path/sliding/State.java:131-139 | a fresh valid successor: blank swapped with the slid tile, predecessor set, cost one more; this state unchanged |
| SlidingState.State.DeterminePossibleMoves | src/main/java/path/sliding/State.java:141-150 | exactly the possible moves, in declaration order |
| SlidingState.State.DetermineAvailableActions | src/main/java/path/sliding/State.java:81-87 | one action per possible move, in order, each of cost 1 leading to that move's result |
| SlidingState.State.RandomMove | src/main/java/path/sliding/State.java:73-78 | IllegalArgument iff no move is possible, which is exactly the board with no cells or the 1×1 board; otherwise the fresh, valid result of some possible move |
| SlidingState.State.Equals | src/main/java/path/sliding/State.java:159-172 | equal iff the grids are equal |
| SlidingState.State.IsGoalState | src/main/java/path/sliding/State.java:153-156 | a goal iff the grid is the solved grid |
| SlidingState.State.SetCost | src/main/java/path/sliding/State.java:231-233 | the stored cost is the value truncated to an int |
| SlidingState.TruncateTowardZero | src/main/java/path/sliding/State.java:232 | the `(int)` cast drops less than 1 in magnitude toward zero and keeps the sign |
| SlidingState.ResultIsValid | src/main/java/path/sliding/State.java:131-139 | a move's result is a valid state |
| SlidingState.MoveChangesTiles | src/main/java/path/sliding/State.java:131-139 | every move changes the grid |
| SlidingState.CopyScenario | src/test/java/path/sliding/StateTest.java:16-23 | a copy equals the original, and moving the copy gives a different state |
| ManhattanDistance.EstimateDistanceToGoal | src/path/sliding/ManhattanDistance.java:9-22 | the loop sums every tile's Manhattan distance from its goal cell |
| ManhattanDistance.EstimateNonNegative | src/path/sliding/ManhattanDistance.java:9-22 | the estimate is never negative |
| ManhattanDistance.TotalDistanceOfSolved | src/path/sliding/ManhattanDistance.java:9-22 | the solved grid's estimate is 0 |
| ManhattanDistance.EstimateZeroIffSolved | src/path/sliding/ManhattanDistance.java:9-22 | on a valid state the estimate is 0 iff the state is solved |
| ManhattanDistance.SolvedThreeByThree | src/test/java/path/sliding/SlidingTest.java:59-62 | the 3×3 solved grid the test starts from (its estimate is 0 by TotalDistanceOfSolved) |
| ManhattanDistance.EstimateThreeByThree | src/path/sliding/ManhattanDistance.java:9-22 | a 3×3 estimate is the sum of its nine tiles' distances |
| ManhattanDistance.TileDistanceAtCell | src/path/sliding/ManhattanDistance.java:13-18 | in a permutation grid, a tile's distance is the column and row distance from its cell to its goal cell |
| ManhattanDistance.GridAfterUp | src/test/java/path/sliding/SlidingTest.java:63 | sliding up from the solved 3×3 grid gives [[3,1,2],[0,4,5],[6,7,8]] |
| ManhattanDistance.EstimateAfterUp | src/test/java/path/sliding/SlidingTest.java:63-64 | that grid's estimate is 2 |
| ManhattanDistance.GridAfterLeft | src/test/java/path/sliding/SlidingTest.java:65 | sliding left next gives [[3,1,2],[4,0,5],[6,7,8]] |
| ManhattanDistance.EstimateAfterLeft | src/test/java/path/sliding/SlidingTest.java:65-66 | that grid's estimate is 4 |
| ManhattanDistance.GridAfterDown | src/test/java/path/sliding/SlidingTest.java:67 | sliding down next gives [[3,0,2],[4,1,5],[6,7,8]] |
| ManhattanDistance.EstimateAfterDown | src/test/java/path/sliding/SlidingTest.java:67-68 | that grid's estimate is 4 |
| ManhattanDistance.GridAfterRight | src/test/java/path/sliding/SlidingTest.java:69 | sliding right next gives [[0,3,2],[4,1,5],[6,7,8]] |
| ManhattanDistance.EstimateAfterRight | src/test/java/path/sliding/SlidingTest.java:69-70 | that grid's estimate is 4 |
| ManhattanDistance.GridAfterSecondUp | src/test/java/path/sliding/SlidingTest.java:71 | sliding up next gives [[4,3,2],[0,1,5],[6,7,8]] |
| ManhattanDistance.EstimateAfterSecondUp | src/test/java/path/sliding/SlidingTest.java:71-72 | that grid's estimate is 6 |
| ManhattanDistance.GridAfterThirdUp | src/test/java/path/sliding/SlidingTest.java:73 | sliding up once more gives [[4,3,2],[6,1,5],[0,7,8]] |
| ManhattanDistance.EstimateAfterThirdUp | src/test/java/path/sliding/SlidingTest.java:73-74 | that grid's estimate is 8 |
| ManhattanDistance.ThreeByThreeWalk | src/test/java/path/sliding/SlidingTest.java:59-74 | the grids reached from the solved 3×3 grid by UP, LEFT, DOWN, RIGHT, UP, UP swaps have the estimates 0, 2, 4, 4, 4, 6, 8 |
| ManhattanDistance.SlideAndEstimate | src/test/java/path/sliding/SlidingTest.java:63-64 | one `performMove` followed by the heuristic: a valid successor with the blank moved by the move's shift, and its estimate |
| ManhattanDistance.ManhattanFirstHalf | src/test/java/path/sliding/SlidingTest.java:63-68 | from the solved 3×3 state, UP, LEFT, DOWN give the estimates 2, 4, 4 |
| ManhattanDistance.ManhattanSecondHalf | src/test/java/path/sliding/SlidingTest.java:69-74 | from there, RIGHT, UP, UP give 4, 6, 8 |
| ManhattanDistance.ManhattanScenario | src/test/java/path/sliding/SlidingTest.java:58-75 | the test's run on objects: the estimates are exactly 0, 2, 4, 4, 4, 6, 8 |
| ManhattanDistance.EstimateOneMoveAway | src/path/sliding/ManhattanDistance.java:9-22 | on a 2×2 grid, one move from solved gives 2 |
| ManhattanDistance.EstimateTwoMovesAway | src/path/sliding/ManhattanDistance.java:9-22 | on a 2×2 grid, two moves from solved give 4 |
| RouteLocation.Vertex.constructor | src/util/Vertex.java:12-16 | a connection with the given ends and cost |
| RouteLocation.Location.constructor | src/path/route/Location.java:19-23 | a location at the point, with no connections, not a goal |
| RouteLocation.Location.Link | src/path/route/Location.java:30-41 | each side gains one fresh connection, one in each direction at the same cost; linking to itself adds two; the duplicate guard never fires |
| RouteLocation.EqualsIsEquivalence | src/path/route/Location.java:44-58 | location equality is an equivalence that depends on the points alone |
| RouteState.State.constructor | src/main/java/path/route/State.java:21-24 | a state at the location with cost 0, no score and no predecessor |
| RouteState.State.CreateAvailableActionsIterator | src/main/java/path/route/State.java:32-36 | a fresh iterator at the first connection |
| RouteState.State.RandomlySelectAvailableAction | src/main/java/path/route/State.java:56-62 | IllegalArgument iff there are no connections; otherwise a random connection's fresh destination state, at its cost |
| RouteState.State.SetCost | src/main/java/path/route/State.java:111-118 | `getCost` returns the value set |
| RouteState.State.SetQualityScore | src/main/java/path/route/State.java:87-94 | `getQualityScore` returns the value set |
| RouteState.State.SetPredecessor | src/main/java/path/route/State.java:106-108 | the predecessor is the value set |
| RouteState.ActionsIterator.constructor | src/main/java/path/route/State.java:33-35 | the index starts at 0 |
| RouteState.ActionsIterator.Next | src/main/java/path/route/State.java:43-51 | past the end NoSuchElement, index unchanged; otherwise the action along the indexed connection, and the index moves on |
| RouteState.AvailableActions | src/main/java/path/route/State.java:32-53 | draining the iterator gives one action per connection, in connection order |
| RouteState.LinkThenList | src/main/java/path/route/State.java:32-53 | after one link, the state's only action leads to the other location at the link's cost |
| RouteState.EqualStatesWithDifferentHashes | src/main/java/path/route/State.java:82-84 | two equal states can have different hash codes |
| RouteState.EqualStatesShareHashByPoint | src/main/java/path/route/State.java:65-84 | with a hash taken from the point, equal states share a hash code |

## Left out

- I/O and logging are left out: `log` calls, `System.out`, `PathSearchUtil.printPathToState`, every
  `toString`, and A*'s `totalEstimatedCosts` (a string of the queue's keys).
- `Util.measureMemoryUse` and `Util.logMemoryUsage` are called by the hill-climbing code but are not in
  `Util.java`. They only measure, so they are left out.
- `Util.binarySearch` is not part of this model: `Util.java` does not define it.
- HillClimbing.HillClimbing.SelectStochastically: the index the binary search would pick is any index of
  the filtered list, so the contract does not state the weighting of the random draw.
- The hill-climbing code calls `heuristic.determineQualityScore`, `heuristic.determineIsOptimalScore` and
  `State.getQualityScore`, which `Heuristic.java` does not define. The model takes them as the `quality`
  function and the `isOptimal` predicate.
- The abstract `determineSuccessorState()` takes no arguments, while both strategies take the successor
  list. The model passes each strategy the resulting states of the current state's actions.
- The two-argument `Stochastic(startState, heuristic)` constructor calls a two-argument superclass
  constructor that `AbstractHillClimbing` does not have. Only the three-argument constructor is modelled.
- `Collections.shuffle`, `Random.nextInt`, `nextDouble` and `Math.random` are left out as distributions.
  Each is an arbitrary choice, so no contract speaks of probabilities.
- HillClimbing.HillClimbing.SelectByAnnealing: the acceptance test `rng.nextDouble() < temperature` is
  stated only as "the temperature was positive".
- Loops that the source runs until they succeed take a `fuel` bound. What happens after the fuel runs out
  is not modelled:
  - breadth-first and depth-first `run`;
  - the hill-climbing, steepest-ascent and random-restart `run`s.
- Doubles are modelled as Dafny reals: rounding, NaN and the infinities are left out.
  - `Points`: `euclideanDistanceTo` (a floating-point `Math.pow` root) and `createRandom2D` are left out.
- Java `int` overflow is left out:
  - clash counts, Manhattan sums, sliding-puzzle costs and coordinates are unbounded integers;
- SlidingState.TruncateTowardZero: does not model values outside the int range, nor NaN.
- `hashCode` values are abstract. They are listed per item:
  - `Location`'s identity hash is a constructor parameter;
  - `Arrays.hashCode`, `List.hashCode` and `Point.hashCode` are left out because no modelled code reads
    them except through `HashSet`, which the model replaces by value equality.
- The lazily scored caches on queens and sliding-puzzle states (`get/setHeuristicDistanceFromGoal`) are
  modelled once, by `Heuristic.ScoredState`.
- SlidingState.State.Solved: the dimensions are `nat`. A negative width makes `new ArrayList<>(width)`
  throw IllegalArgumentException, and a negative height builds no rows; neither case is modelled.
- The queens constructor `State(int[] board)` keeps the caller's array, so the state and the caller share it.
  Boards are values here, so that aliasing is not modelled: a later write through the caller's array is not
  seen by the state.
- Plain getters are folded into field reads: `getWidth`, `getConnections`, `getPoint` and the like.
- The sliding puzzle's `getPredecessor`/`setPredecessor` are folded into `PerformMove`'s contract.
- The older copies of the classes directly under `src/` (outside `src/main/java`) are left out. Exceptions
  are `Location.java`, `Vertex.java`, `Move.java` and `ManhattanDistance.java`, which exist only there.
- A* does not state optimality of the returned path. The code gives successors the action's cost rather
  than the path cost, so queued costs are not path costs.
- The breadth-first claim "minimum number of actions" is likewise not proved. `Run` states FIFO
  expansion order instead.

## Findings

| source | as written | input that shows it | evidently intended | confidence | as-written member | corrected member |
|---|---|---|---|---|---|---|
| src/main/java/local/hillclimbing/RandomRestart.java:41 | the loop stops only once the number of runs *exceeds* the cap (`>`), so a cap of n allows n+1 runs | `maximumNrIterations = 0`: one steepest-ascent run is still made | never more runs than the cap, as the field's name and `HillClimbingTest.java:22` (runs ≤ cap) expect | not executed | RandomRestart.CapAllowsOneRunTooMany | RandomRestart.RandomRestart.RunWithinCap |
| src/main/java/path/route/State.java:82-84 | `hashCode` is the location's hash, and `Location` overrides `equals` (by point) but not `hashCode`, so it is Object's identity hash | two `Location`s at the point (0, 0), with a state at each: the states are equal, but their hashes are the two identity hashes | equal states have equal hash codes, for example a hash taken from the point | not executed | RouteState.EqualStatesWithDifferentHashes | RouteState.EqualStatesShareHashByPoint |
