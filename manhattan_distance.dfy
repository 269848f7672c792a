/**
 * The Manhattan-distance heuristic of the sliding puzzle: the sum over all tiles, the blank
 * included, of how far each tile is from where it sits in the solved grid.
 */
module ManhattanDistance {
  import opened Wrappers
  import opened Points
  import opened SlidingGrid
  import opened SlidingState
  import opened SlidingMove

  /**
   * The distance of `tile` between its goal cell (tile mod width, tile div width), where the
   * solved grid has it, and the first cell of `tiles` holding it. A tile missing from `tiles`
   * counts 0; in a valid grid every tile is present.
   */
  function TileDistance(tiles: Grid, width: nat, tile: nat): int
    requires width > 0
  {
    match Locate(tiles, tile)
    case Some((x, y)) => Manhattan(Point([tile % width, tile / width]), Point([x as int, y as int]))
    case None => 0
  }

  /** The distances of tiles 0 .. nrTiles−1, added up. */
  function TotalDistance(tiles: Grid, width: nat, height: nat, nrTiles: nat): int
    requires width > 0
  {
    if nrTiles == 0 then 0
    else TotalDistance(tiles, width, height, nrTiles - 1) + TileDistance(tiles, width, nrTiles - 1)
  }

  /** The estimate for a grid: the distances of all width·height tiles. */
  function Estimate(tiles: Grid, width: nat, height: nat): int
    requires width > 0
  {
    TotalDistance(tiles, width, height, width * height)
  }

  /**
   * `estimateDistanceToGoal`. It looks at the tiles only: the cost and the predecessor of the
   * state do not enter the result.
   */
  method EstimateDistanceToGoal(state: State) returns (distance: real)
    requires state.Valid()
    ensures distance == Estimate(state.tiles, state.width, state.height) as real
  {
    var nrTiles := state.width * state.height;
    var goalState := new State.Solved(state.width, state.height);
    var totalDistance := 0;
    for currentTile := 0 to nrTiles
      invariant goalState.tiles == SolvedGrid(state.width, state.height)
      invariant totalDistance == TotalDistance(state.tiles, state.width, state.height, currentTile)
    {
      LocateInSolvedGrid(state.width, state.height, currentTile);
      LocateFindsEveryTile(state.tiles, state.width, state.height, currentTile);
      var positionInGoalState := goalState.FindTilePosition(currentTile);
      var position := state.FindTilePosition(currentTile);
      var tileDistance := ManhattanDistanceTo(positionInGoalState.value, position.value);
      totalDistance := totalDistance + tileDistance.value;
    }
    distance := totalDistance as real;
  }

  lemma {:induction false} TotalDistanceNonNegative(tiles: Grid, width: nat, height: nat, nrTiles: nat)
    requires width > 0
    ensures TotalDistance(tiles, width, height, nrTiles) >= 0
  {
    if nrTiles > 0 {
      TotalDistanceNonNegative(tiles, width, height, nrTiles - 1);
      var tile := nrTiles - 1;
      if Locate(tiles, tile).Some? {
        var (x, y) := Locate(tiles, tile).value;
        ManhattanIsADistance(Point([tile % width, tile / width]), Point([x as int, y as int]));
      }
    }
  }

  /** The estimate is never negative. */
  lemma EstimateNonNegative(tiles: Grid, width: nat, height: nat)
    requires width > 0
    ensures Estimate(tiles, width, height) >= 0
  {
    TotalDistanceNonNegative(tiles, width, height, width * height);
  }

  lemma {:induction false} TotalDistanceOfSolved(width: nat, height: nat, nrTiles: nat)
    requires width > 0 && nrTiles <= width * height
    ensures TotalDistance(SolvedGrid(width, height), width, height, nrTiles) == 0
  {
    if nrTiles > 0 {
      TotalDistanceOfSolved(width, height, nrTiles - 1);
      var tile := nrTiles - 1;
      LocateInSolvedGrid(width, height, tile);
      ManhattanIsADistance(Point([tile % width, tile / width]), Point([tile % width, tile / width]));
    }
  }

  /** A tile at distance 0 sits in its goal cell. */
  lemma TileDistanceZero(tiles: Grid, width: nat, height: nat, tile: nat)
    requires width > 0 && WellShaped(tiles, width, height) && IsPermutationGrid(tiles, width, height)
    requires tile < width * height && TileDistance(tiles, width, tile) == 0
    ensures tiles[tile / width][tile % width] == tile
  {
    LocateFindsEveryTile(tiles, width, height, tile);
    var (x, y) := Locate(tiles, tile).value;
    var goal := Point([tile % width, tile / width]);
    var here := Point([x as int, y as int]);
    ManhattanIsADistance(goal, here);
    assert goal.position[0] == here.position[0] && goal.position[1] == here.position[1];
  }

  /** A total of 0 means that every tile counted is at distance 0. */
  lemma {:induction false} TotalDistanceZero(tiles: Grid, width: nat, height: nat, nrTiles: nat)
    requires width > 0 && WellShaped(tiles, width, height) && IsPermutationGrid(tiles, width, height)
    requires nrTiles <= width * height && TotalDistance(tiles, width, height, nrTiles) == 0
    ensures forall tile :: 0 <= tile < nrTiles ==> TileDistance(tiles, width, tile) == 0
  {
    if nrTiles > 0 {
      var tile := nrTiles - 1;
      TotalDistanceNonNegative(tiles, width, height, tile);
      LocateFindsEveryTile(tiles, width, height, tile);
      var (x, y) := Locate(tiles, tile).value;
      ManhattanIsADistance(Point([tile % width, tile / width]), Point([x as int, y as int]));
      TotalDistanceZero(tiles, width, height, tile);
    }
  }

  /** On a valid grid the estimate is 0 exactly when the grid is the solved one. */
  lemma EstimateZeroIffSolved(tiles: Grid, width: nat, height: nat, xBlank: int, yBlank: int)
    requires ValidGrid(tiles, width, height, xBlank, yBlank)
    ensures Estimate(tiles, width, height) == 0 <==> tiles == SolvedGrid(width, height)
  {
    if tiles == SolvedGrid(width, height) {
      TotalDistanceOfSolved(width, height, width * height);
    }
    if Estimate(tiles, width, height) == 0 {
      TotalDistanceZero(tiles, width, height, width * height);
      var solved := SolvedGrid(width, height);
      forall y | 0 <= y < height
        ensures tiles[y] == solved[y]
      {
        forall x | 0 <= x < width
          ensures tiles[y][x] == solved[y][x]
        {
          var tile := y * width + x;
          RowMajorBounds(x, y, width, height);
          RowMajorOf(tile, width, height);
          RowMajorInjective(x, y, tile % width, tile / width, width);
          TileDistanceZero(tiles, width, height, tile);
        }
      }
    }
  }

  /** The solved 3×3 grid, written out. */
  lemma SolvedThreeByThree()
    ensures SolvedGrid(3, 3) == [[0, 1, 2], [3, 4, 5], [6, 7, 8]]
  {
    var g := SolvedGrid(3, 3);
    assert g[0] == [0, 1, 2] && g[1] == [3, 4, 5] && g[2] == [6, 7, 8];
  }

  /** On a 3×3 board the estimate is the sum of nine per-tile distances. */
  lemma EstimateThreeByThree(g: Grid)
    ensures Estimate(g, 3, 3)
         == TileDistance(g, 3, 0) + TileDistance(g, 3, 1) + TileDistance(g, 3, 2)
          + TileDistance(g, 3, 3) + TileDistance(g, 3, 4) + TileDistance(g, 3, 5)
          + TileDistance(g, 3, 6) + TileDistance(g, 3, 7) + TileDistance(g, 3, 8)
  {
    assert Estimate(g, 3, 3) == TotalDistance(g, 3, 3, 9);
    assert TotalDistance(g, 3, 3, 9) == TotalDistance(g, 3, 3, 8) + TileDistance(g, 3, 8);
    assert TotalDistance(g, 3, 3, 8) == TotalDistance(g, 3, 3, 7) + TileDistance(g, 3, 7);
    assert TotalDistance(g, 3, 3, 7) == TotalDistance(g, 3, 3, 6) + TileDistance(g, 3, 6);
    assert TotalDistance(g, 3, 3, 6) == TotalDistance(g, 3, 3, 5) + TileDistance(g, 3, 5);
    assert TotalDistance(g, 3, 3, 5) == TotalDistance(g, 3, 3, 4) + TileDistance(g, 3, 4);
    assert TotalDistance(g, 3, 3, 4) == TotalDistance(g, 3, 3, 3) + TileDistance(g, 3, 3);
    assert TotalDistance(g, 3, 3, 3) == TotalDistance(g, 3, 3, 2) + TileDistance(g, 3, 2);
    assert TotalDistance(g, 3, 3, 2) == TotalDistance(g, 3, 3, 1) + TileDistance(g, 3, 1);
    assert TotalDistance(g, 3, 3, 1) == TotalDistance(g, 3, 3, 0) + TileDistance(g, 3, 0);
  }

  /** In a permutation grid a tile's distance is read off the cell that holds it. */
  lemma TileDistanceAtCell(tiles: Grid, width: nat, height: nat, tile: int, x: nat, y: nat)
    requires width > 0 && WellShaped(tiles, width, height) && IsPermutationGrid(tiles, width, height)
    requires InBounds(x, y, width, height) && TileAt(tiles, x, y) == tile && tile >= 0
    ensures TileDistance(tiles, width, tile)
         == AbsoluteDifference(tile % width, x) + AbsoluteDifference(tile / width, y)
  {
    LocateInPermutationGrid(tiles, width, height, tile, x, y);
    var goal, here := [tile % width, tile / width], [x as int, y as int];
    assert ManhattanPrefix(goal, here, 1) == AbsoluteDifference(tile % width, x);
  }

  /** Sliding UP swaps the blank at (0, 0) with the tile at (0, 1). */
  lemma GridAfterUp(before: Grid, after: Grid)
    requires before == [[0, 1, 2], [3, 4, 5], [6, 7, 8]]
    requires after == SwapTiles(before, 0, 0, 0, 1)
    ensures after == [[3, 1, 2], [0, 4, 5], [6, 7, 8]]
  {
    assert after[0] == [3, 1, 2] && after[1] == [0, 4, 5] && after[2] == [6, 7, 8];
  }

  /** The estimate of the grid after UP. */
  lemma EstimateAfterUp(g: Grid)
    requires g == [[3, 1, 2], [0, 4, 5], [6, 7, 8]] && IsPermutationGrid(g, 3, 3)
    ensures Estimate(g, 3, 3) == 2
  {
    EstimateThreeByThree(g);
    TileDistanceAtCell(g, 3, 3, 0, 0, 1);
    TileDistanceAtCell(g, 3, 3, 1, 1, 0);
    TileDistanceAtCell(g, 3, 3, 2, 2, 0);
    TileDistanceAtCell(g, 3, 3, 3, 0, 0);
    TileDistanceAtCell(g, 3, 3, 4, 1, 1);
    TileDistanceAtCell(g, 3, 3, 5, 2, 1);
    TileDistanceAtCell(g, 3, 3, 6, 0, 2);
    TileDistanceAtCell(g, 3, 3, 7, 1, 2);
    TileDistanceAtCell(g, 3, 3, 8, 2, 2);
  }

  /** Sliding LEFT swaps the blank at (0, 1) with the tile at (1, 1). */
  lemma GridAfterLeft(before: Grid, after: Grid)
    requires before == [[3, 1, 2], [0, 4, 5], [6, 7, 8]]
    requires after == SwapTiles(before, 0, 1, 1, 1)
    ensures after == [[3, 1, 2], [4, 0, 5], [6, 7, 8]]
  {
    assert after[0] == [3, 1, 2] && after[1] == [4, 0, 5] && after[2] == [6, 7, 8];
  }

  /** The estimate of the grid after LEFT. */
  lemma EstimateAfterLeft(g: Grid)
    requires g == [[3, 1, 2], [4, 0, 5], [6, 7, 8]] && IsPermutationGrid(g, 3, 3)
    ensures Estimate(g, 3, 3) == 4
  {
    EstimateThreeByThree(g);
    TileDistanceAtCell(g, 3, 3, 0, 1, 1);
    TileDistanceAtCell(g, 3, 3, 1, 1, 0);
    TileDistanceAtCell(g, 3, 3, 2, 2, 0);
    TileDistanceAtCell(g, 3, 3, 3, 0, 0);
    TileDistanceAtCell(g, 3, 3, 4, 0, 1);
    TileDistanceAtCell(g, 3, 3, 5, 2, 1);
    TileDistanceAtCell(g, 3, 3, 6, 0, 2);
    TileDistanceAtCell(g, 3, 3, 7, 1, 2);
    TileDistanceAtCell(g, 3, 3, 8, 2, 2);
  }

  /** Sliding DOWN swaps the blank at (1, 1) with the tile at (1, 0). */
  lemma GridAfterDown(before: Grid, after: Grid)
    requires before == [[3, 1, 2], [4, 0, 5], [6, 7, 8]]
    requires after == SwapTiles(before, 1, 1, 1, 0)
    ensures after == [[3, 0, 2], [4, 1, 5], [6, 7, 8]]
  {
    assert after[0] == [3, 0, 2] && after[1] == [4, 1, 5] && after[2] == [6, 7, 8];
  }

  /** The estimate of the grid after DOWN. */
  lemma EstimateAfterDown(g: Grid)
    requires g == [[3, 0, 2], [4, 1, 5], [6, 7, 8]] && IsPermutationGrid(g, 3, 3)
    ensures Estimate(g, 3, 3) == 4
  {
    EstimateThreeByThree(g);
    TileDistanceAtCell(g, 3, 3, 0, 1, 0);
    TileDistanceAtCell(g, 3, 3, 1, 1, 1);
    TileDistanceAtCell(g, 3, 3, 2, 2, 0);
    TileDistanceAtCell(g, 3, 3, 3, 0, 0);
    TileDistanceAtCell(g, 3, 3, 4, 0, 1);
    TileDistanceAtCell(g, 3, 3, 5, 2, 1);
    TileDistanceAtCell(g, 3, 3, 6, 0, 2);
    TileDistanceAtCell(g, 3, 3, 7, 1, 2);
    TileDistanceAtCell(g, 3, 3, 8, 2, 2);
  }

  /** Sliding RIGHT swaps the blank at (1, 0) with the tile at (0, 0). */
  lemma GridAfterRight(before: Grid, after: Grid)
    requires before == [[3, 0, 2], [4, 1, 5], [6, 7, 8]]
    requires after == SwapTiles(before, 1, 0, 0, 0)
    ensures after == [[0, 3, 2], [4, 1, 5], [6, 7, 8]]
  {
    assert after[0] == [0, 3, 2] && after[1] == [4, 1, 5] && after[2] == [6, 7, 8];
  }

  /** The estimate of the grid after RIGHT. */
  lemma EstimateAfterRight(g: Grid)
    requires g == [[0, 3, 2], [4, 1, 5], [6, 7, 8]] && IsPermutationGrid(g, 3, 3)
    ensures Estimate(g, 3, 3) == 4
  {
    EstimateThreeByThree(g);
    TileDistanceAtCell(g, 3, 3, 0, 0, 0);
    TileDistanceAtCell(g, 3, 3, 1, 1, 1);
    TileDistanceAtCell(g, 3, 3, 2, 2, 0);
    TileDistanceAtCell(g, 3, 3, 3, 1, 0);
    TileDistanceAtCell(g, 3, 3, 4, 0, 1);
    TileDistanceAtCell(g, 3, 3, 5, 2, 1);
    TileDistanceAtCell(g, 3, 3, 6, 0, 2);
    TileDistanceAtCell(g, 3, 3, 7, 1, 2);
    TileDistanceAtCell(g, 3, 3, 8, 2, 2);
  }

  /** Sliding the second UP swaps the blank at (0, 0) with the tile at (0, 1). */
  lemma GridAfterSecondUp(before: Grid, after: Grid)
    requires before == [[0, 3, 2], [4, 1, 5], [6, 7, 8]]
    requires after == SwapTiles(before, 0, 0, 0, 1)
    ensures after == [[4, 3, 2], [0, 1, 5], [6, 7, 8]]
  {
    assert after[0] == [4, 3, 2] && after[1] == [0, 1, 5] && after[2] == [6, 7, 8];
  }

  /** The estimate of the grid after the second UP. */
  lemma EstimateAfterSecondUp(g: Grid)
    requires g == [[4, 3, 2], [0, 1, 5], [6, 7, 8]] && IsPermutationGrid(g, 3, 3)
    ensures Estimate(g, 3, 3) == 6
  {
    EstimateThreeByThree(g);
    TileDistanceAtCell(g, 3, 3, 0, 0, 1);
    TileDistanceAtCell(g, 3, 3, 1, 1, 1);
    TileDistanceAtCell(g, 3, 3, 2, 2, 0);
    TileDistanceAtCell(g, 3, 3, 3, 1, 0);
    TileDistanceAtCell(g, 3, 3, 4, 0, 0);
    TileDistanceAtCell(g, 3, 3, 5, 2, 1);
    TileDistanceAtCell(g, 3, 3, 6, 0, 2);
    TileDistanceAtCell(g, 3, 3, 7, 1, 2);
    TileDistanceAtCell(g, 3, 3, 8, 2, 2);
  }

  /** Sliding the third UP swaps the blank at (0, 1) with the tile at (0, 2). */
  lemma GridAfterThirdUp(before: Grid, after: Grid)
    requires before == [[4, 3, 2], [0, 1, 5], [6, 7, 8]]
    requires after == SwapTiles(before, 0, 1, 0, 2)
    ensures after == [[4, 3, 2], [6, 1, 5], [0, 7, 8]]
  {
    assert after[0] == [4, 3, 2] && after[1] == [6, 1, 5] && after[2] == [0, 7, 8];
  }

  /** The estimate of the grid after the third UP. */
  lemma EstimateAfterThirdUp(g: Grid)
    requires g == [[4, 3, 2], [6, 1, 5], [0, 7, 8]] && IsPermutationGrid(g, 3, 3)
    ensures Estimate(g, 3, 3) == 8
  {
    EstimateThreeByThree(g);
    TileDistanceAtCell(g, 3, 3, 0, 0, 2);
    TileDistanceAtCell(g, 3, 3, 1, 1, 1);
    TileDistanceAtCell(g, 3, 3, 2, 2, 0);
    TileDistanceAtCell(g, 3, 3, 3, 1, 0);
    TileDistanceAtCell(g, 3, 3, 4, 0, 0);
    TileDistanceAtCell(g, 3, 3, 5, 2, 1);
    TileDistanceAtCell(g, 3, 3, 6, 0, 1);
    TileDistanceAtCell(g, 3, 3, 7, 1, 2);
    TileDistanceAtCell(g, 3, 3, 8, 2, 2);
  }

  /**
   * The 3×3 test walk: from the solved grid the blank slides UP, LEFT, DOWN, RIGHT, UP and UP,
   * each grid being the previous one with the blank swapped with the slid tile; the estimates
   * along the walk are 0, 2, 4, 4, 4, 6 and 8.
   */
  lemma ThreeByThreeWalk(solved: Grid, afterUp: Grid, afterLeft: Grid, afterDown: Grid, afterRight: Grid,
                         afterSecondUp: Grid, afterThirdUp: Grid)
    requires solved == SolvedGrid(3, 3)
    requires afterUp == SwapTiles(solved, 0, 0, 0, 1)
    requires afterLeft == SwapTiles(afterUp, 0, 1, 1, 1)
    requires afterDown == SwapTiles(afterLeft, 1, 1, 1, 0)
    requires afterRight == SwapTiles(afterDown, 1, 0, 0, 0)
    requires afterSecondUp == SwapTiles(afterRight, 0, 0, 0, 1)
    requires afterThirdUp == SwapTiles(afterSecondUp, 0, 1, 0, 2)
    ensures Estimate(solved, 3, 3) == 0 && Estimate(afterUp, 3, 3) == 2
    ensures Estimate(afterLeft, 3, 3) == 4 && Estimate(afterDown, 3, 3) == 4
    ensures Estimate(afterRight, 3, 3) == 4 && Estimate(afterSecondUp, 3, 3) == 6
    ensures Estimate(afterThirdUp, 3, 3) == 8
  {
    SolvedThreeByThree();
    SolvedGridIsPermutation(3, 3);
    TotalDistanceOfSolved(3, 3, 9);
    GridAfterUp(solved, afterUp);
    SwapPreservesPermutation(solved, 3, 3, 0, 0, 0, 1);
    EstimateAfterUp(afterUp);
    GridAfterLeft(afterUp, afterLeft);
    SwapPreservesPermutation(afterUp, 3, 3, 0, 1, 1, 1);
    EstimateAfterLeft(afterLeft);
    GridAfterDown(afterLeft, afterDown);
    SwapPreservesPermutation(afterLeft, 3, 3, 1, 1, 1, 0);
    EstimateAfterDown(afterDown);
    GridAfterRight(afterDown, afterRight);
    SwapPreservesPermutation(afterDown, 3, 3, 1, 0, 0, 0);
    EstimateAfterRight(afterRight);
    GridAfterSecondUp(afterRight, afterSecondUp);
    SwapPreservesPermutation(afterRight, 3, 3, 0, 0, 0, 1);
    EstimateAfterSecondUp(afterSecondUp);
    GridAfterThirdUp(afterSecondUp, afterThirdUp);
    SwapPreservesPermutation(afterSecondUp, 3, 3, 0, 1, 0, 2);
    EstimateAfterThirdUp(afterThirdUp);
  }

  /** One move of a state and the estimate of the state it leads to. */
  method SlideAndEstimate(state: State, move: Move) returns (next: State, estimate: real)
    requires state.Valid() && state.IsMovePossible(move)
    ensures next.Valid() && next.width == state.width && next.height == state.height
    ensures next.xBlank == state.xBlank + RelPosX(move) && next.yBlank == state.yBlank + RelPosY(move)
    ensures next.tiles == SwapTiles(state.tiles, state.xBlank, state.yBlank, next.xBlank, next.yBlank)
    ensures estimate == Estimate(next.tiles, next.width, next.height) as real
  {
    next := state.PerformMove(move);
    estimate := EstimateDistanceToGoal(next);
  }

  /** The first half of the 3×3 test walk: UP, LEFT and DOWN from the solved grid. */
  method ManhattanFirstHalf(solved: State) returns (state: State, estimates: seq<real>)
    requires solved.Valid() && solved.width == 3 && solved.height == 3
    requires solved.tiles == [[0, 1, 2], [3, 4, 5], [6, 7, 8]] && solved.xBlank == 0 && solved.yBlank == 0
    ensures state.Valid() && state.width == 3 && state.height == 3
    ensures state.tiles == [[3, 0, 2], [4, 1, 5], [6, 7, 8]] && state.xBlank == 1 && state.yBlank == 0
    ensures estimates == [2.0, 4.0, 4.0]
  {
    state := solved;
    var estimate;
    estimates := [];
    ghost var before := state.tiles;
    state, estimate := SlideAndEstimate(state, SlideUp);
    GridAfterUp(before, state.tiles);
    EstimateAfterUp(state.tiles);
    estimates := estimates + [estimate];
    before := state.tiles;
    state, estimate := SlideAndEstimate(state, SlideLeft);
    GridAfterLeft(before, state.tiles);
    EstimateAfterLeft(state.tiles);
    estimates := estimates + [estimate];
    before := state.tiles;
    state, estimate := SlideAndEstimate(state, SlideDown);
    GridAfterDown(before, state.tiles);
    EstimateAfterDown(state.tiles);
    estimates := estimates + [estimate];
  }

  /** The second half of the 3×3 test walk: RIGHT, UP and UP. */
  method ManhattanSecondHalf(start: State) returns (state: State, estimates: seq<real>)
    requires start.Valid() && start.width == 3 && start.height == 3
    requires start.tiles == [[3, 0, 2], [4, 1, 5], [6, 7, 8]] && start.xBlank == 1 && start.yBlank == 0
    ensures estimates == [4.0, 6.0, 8.0]
  {
    state := start;
    var estimate;
    estimates := [];
    ghost var before := state.tiles;
    state, estimate := SlideAndEstimate(state, SlideRight);
    GridAfterRight(before, state.tiles);
    EstimateAfterRight(state.tiles);
    estimates := estimates + [estimate];
    before := state.tiles;
    state, estimate := SlideAndEstimate(state, SlideUp);
    GridAfterSecondUp(before, state.tiles);
    EstimateAfterSecondUp(state.tiles);
    estimates := estimates + [estimate];
    before := state.tiles;
    state, estimate := SlideAndEstimate(state, SlideUp);
    GridAfterThirdUp(before, state.tiles);
    EstimateAfterThirdUp(state.tiles);
    estimates := estimates + [estimate];
  }

  /**
   * The manhattan test: estimate the solved 3×3 state, then each state reached by sliding UP,
   * LEFT, DOWN, RIGHT, UP and UP.
   */
  method ManhattanScenario() returns (estimates: seq<real>)
    ensures estimates == [0.0, 2.0, 4.0, 4.0, 4.0, 6.0, 8.0]
  {
    var solved := new State.Solved(3, 3);
    SolvedThreeByThree();
    TotalDistanceOfSolved(3, 3, 9);
    var estimate := EstimateDistanceToGoal(solved);
    var halfway, first := ManhattanFirstHalf(solved);
    var end, second := ManhattanSecondHalf(halfway);
    estimates := [estimate] + first + second;
  }

  /** On a 2x2 board the estimate is the sum of four per-tile distances. */
  lemma EstimateTwoByTwo(g: Grid)
    ensures Estimate(g, 2, 2)
         == TileDistance(g, 2, 0) + TileDistance(g, 2, 1) + TileDistance(g, 2, 2) + TileDistance(g, 2, 3)
  {
    assert Estimate(g, 2, 2) == TotalDistance(g, 2, 2, 4);
    assert TotalDistance(g, 2, 2, 4) == TotalDistance(g, 2, 2, 3) + TileDistance(g, 2, 3);
    assert TotalDistance(g, 2, 2, 3) == TotalDistance(g, 2, 2, 2) + TileDistance(g, 2, 2);
    assert TotalDistance(g, 2, 2, 2) == TotalDistance(g, 2, 2, 1) + TileDistance(g, 2, 1);
    assert TotalDistance(g, 2, 2, 1) == TotalDistance(g, 2, 2, 0) + TileDistance(g, 2, 0);
  }

  /** One blank move away from the goal costs 2 (the blank and the moved tile each travel one cell). */
  lemma EstimateOneMoveAway()
    ensures Estimate([[1, 0], [2, 3]], 2, 2) == 2
  {
    var g := [[1, 0], [2, 3]];
    EstimateTwoByTwo(g);
    assert TileDistance(g, 2, 0) == 1;
    assert TileDistance(g, 2, 1) == 1;
    assert TileDistance(g, 2, 2) == 0;
    assert TileDistance(g, 2, 3) == 0;
  }

  /** Two moves away (blank right, then down): 4. */
  lemma EstimateTwoMovesAway()
    ensures Estimate([[1, 3], [2, 0]], 2, 2) == 4
  {
    var g := [[1, 3], [2, 0]];
    EstimateTwoByTwo(g);
    assert TileDistance(g, 2, 0) == 2;
    assert TileDistance(g, 2, 1) == 1;
    assert TileDistance(g, 2, 2) == 0;
    assert TileDistance(g, 2, 3) == 1;
  }
}
