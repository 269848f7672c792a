/**
 * A state of the sliding puzzle. The grid is a field that `switchTiles` rewrites in place;
 * moves build a fresh successor state that remembers its predecessor.
 */
module SlidingState {
  import opened Wrappers
  import opened Core
  import opened Points
  import opened SlidingMove
  import opened SlidingGrid
  import Util

  /** The moves of `candidates`, in order, that keep the blank at (xBlank, yBlank) inside the grid. */
  function MovesWithin(candidates: seq<Move>, xBlank: int, yBlank: int, width: nat, height: nat): (moves: seq<Move>)
    ensures |moves| <= |candidates|
  {
    if candidates == [] then []
    else
      var last := candidates[|candidates| - 1];
      var rest := MovesWithin(candidates[..|candidates| - 1], xBlank, yBlank, width, height);
      if InBounds(xBlank + RelPosX(last), yBlank + RelPosY(last), width, height)
      then rest + [last]
      else rest
  }

  /** A move survives the filter iff it is a candidate and keeps the blank inside the grid. */
  lemma {:induction false} MovesWithinMembership(candidates: seq<Move>, xBlank: int, yBlank: int, width: nat, height: nat)
    ensures forall move :: move in MovesWithin(candidates, xBlank, yBlank, width, height) <==>
      move in candidates && InBounds(xBlank + RelPosX(move), yBlank + RelPosY(move), width, height)
  {
    if candidates != [] {
      var prefix := candidates[..|candidates| - 1];
      MovesWithinMembership(prefix, xBlank, yBlank, width, height);
      assert candidates == prefix + [candidates[|candidates| - 1]];
    }
  }

  /** The moves come in strictly increasing declaration order. */
  ghost predicate InDeclarationOrder(moves: seq<Move>)
  {
    forall i, j :: 0 <= i < j < |moves| ==> Ordinal(moves[i]) < Ordinal(moves[j])
  }

  /** Filtering keeps the order of the candidates. */
  lemma {:induction false} MovesWithinOrdered(candidates: seq<Move>, xBlank: int, yBlank: int, width: nat, height: nat)
    requires InDeclarationOrder(candidates)
    ensures InDeclarationOrder(MovesWithin(candidates, xBlank, yBlank, width, height))
  {
    if candidates != [] {
      var last := candidates[|candidates| - 1];
      var prefix := candidates[..|candidates| - 1];
      var rest := MovesWithin(prefix, xBlank, yBlank, width, height);
      assert InDeclarationOrder(prefix);
      MovesWithinOrdered(prefix, xBlank, yBlank, width, height);
      if InBounds(xBlank + RelPosX(last), yBlank + RelPosY(last), width, height) {
        var moves := rest + [last];
        MovesWithinMembership(prefix, xBlank, yBlank, width, height);
        forall i, j | 0 <= i < j < |moves|
          ensures Ordinal(moves[i]) < Ordinal(moves[j])
        {
          if j == |rest| {
            assert moves[i] in prefix;
            var k :| 0 <= k < |prefix| && prefix[k] == moves[i];
            assert candidates[k] == moves[i];
          } else {
            assert moves[i] == rest[i] && moves[j] == rest[j];
          }
        }
      }
    }
  }

  class State {
    const width: nat
    const height: nat
    var tiles: Grid
    var xBlank: int
    var yBlank: int
    var cost: int
    var predecessor: State?

    /** The tiles form a permutation of 0 .. width·height−1 and the blank's cell holds tile 0. */
    ghost predicate Valid()
      reads this
    {
      ValidGrid(tiles, width, height, xBlank, yBlank)
    }

    /** The tile grid of the solved puzzle, built row by row. */
    static method BuildSolvedTiles(width: nat, height: nat) returns (grid: Grid)
      ensures grid == SolvedGrid(width, height)
    {
      grid := [];
      var currentTile := 0;
      for row := 0 to height
        invariant |grid| == row && currentTile == row * width
        invariant forall y :: 0 <= y < row ==> grid[y] == SolvedGrid(width, height)[y]
      {
        var currentRow := [];
        for column := 0 to width
          invariant |currentRow| == column && currentTile == row * width + column
          invariant forall x :: 0 <= x < column ==> currentRow[x] == row * width + x
        {
          currentRow := currentRow + [currentTile];
          currentTile := currentTile + 1;
        }
        assert (row + 1) * width == row * width + width;
        grid := grid + [currentRow];
      }
    }

    /**
     * The solved state: tile y·width + x at (x, y) and the blank at (0, 0). A board with no
     * columns or no rows is built as well, with no tiles; its blank then lies outside the grid.
     */
    constructor Solved(width: nat, height: nat)
      ensures width >= 1 && height >= 1 ==> Valid()
      ensures this.width == width && this.height == height
      ensures tiles == SolvedGrid(width, height) && xBlank == 0 && yBlank == 0
      ensures cost == 0 && predecessor == null
    {
      this.width := width;
      this.height := height;
      xBlank := 0;
      yBlank := 0;
      var grid := BuildSolvedTiles(width, height);
      tiles := grid;
      cost := 0;
      predecessor := null;
      if width >= 1 && height >= 1 {
        SolvedGridIsValid(width, height);
      }
    }

    /** A copy with the same grid and blank; cost and predecessor keep their defaults. */
    constructor Copy(stateToCopy: State)
      requires WellShaped(stateToCopy.tiles, stateToCopy.width, stateToCopy.height)
      ensures width == stateToCopy.width && height == stateToCopy.height
      ensures tiles == stateToCopy.tiles
      ensures xBlank == stateToCopy.xBlank && yBlank == stateToCopy.yBlank
      ensures cost == 0 && predecessor == null
    {
      width := stateToCopy.width;
      height := stateToCopy.height;
      xBlank := stateToCopy.xBlank;
      yBlank := stateToCopy.yBlank;
      var grid: Grid := [];
      for row := 0 to stateToCopy.height
        invariant |grid| == row
        invariant forall y :: 0 <= y < row ==> grid[y] == stateToCopy.tiles[y]
      {
        var currentRow := [];
        for column := 0 to stateToCopy.width
          invariant |currentRow| == column
          invariant forall x :: 0 <= x < column ==> currentRow[x] == stateToCopy.tiles[row][x]
        {
          currentRow := currentRow + [stateToCopy.FindTileAt(column, row)];
        }
        grid := grid + [currentRow];
      }
      assert grid == stateToCopy.tiles;
      tiles := grid;
      cost := 0;
      predecessor := null;
    }

    /**
     * The `nrSteps` constructor: it makes nrSteps random moves from the solved state but
     * discards each resulting state, so the new state is the solved one. On a board with no
     * possible move the first random move throws, so the constructor does too.
     */
    static method Scrambled(width: nat, height: nat, nrSteps: nat) returns (r: Result<State>)
      ensures r.Failure? <==> nrSteps > 0 && NoMoves(width, height)
      ensures r.Failure? ==> r.error == IllegalArgument
      ensures r.Success? ==>
        && fresh(r.value) && r.value.width == width && r.value.height == height
        && r.value.tiles == SolvedGrid(width, height) && r.value.xBlank == 0 && r.value.yBlank == 0
        && r.value.cost == 0 && r.value.predecessor == null
        && (width >= 1 && height >= 1 ==> r.value.Valid())
    {
      var state := new State.Solved(width, height);
      for step := 0 to nrSteps
        invariant state.tiles == SolvedGrid(width, height) && state.xBlank == 0 && state.yBlank == 0
        invariant state.cost == 0 && state.predecessor == null
        invariant step > 0 ==> !NoMoves(width, height)
      {
        var discarded := state.RandomMove();
        if discarded.Failure? {
          return Failure(discarded.error);
        }
      }
      return Success(state);
    }

    /** The tile at (x, y); in a valid state a tile number, 0 exactly at the blank. */
    function FindTileAt(x: nat, y: nat): (tile: int)
      reads this
      requires WellShaped(tiles, width, height) && InBounds(x, y, width, height)
      ensures Valid() ==> 0 <= tile < width * height
      ensures Valid() ==> (tile == 0 <==> x == xBlank && y == yBlank)
    {
      TileAt(tiles, x, y)
    }

    /** The position of `tile`, scanning row by row; None when no cell holds it. */
    method FindTilePosition(tile: int) returns (position: Option<IntegerPoint>)
      requires WellShaped(tiles, width, height)
      ensures position == match Locate(tiles, tile)
        case Some((x, y)) => Some(Point([x as int, y as int]))
        case None => None
    {
      for row := 0 to height
        invariant Locate(tiles, tile) == LocateFrom(tiles, tile, row)
      {
        for column := 0 to width
          invariant LocateInRow(tiles[row], tile, 0) == LocateInRow(tiles[row], tile, column)
        {
          if tile == tiles[row][column] {
            return Some(Point([column, row]));
          }
        }
      }
      return None;
    }

    /** Overwrites the tile at (x, y). */
    method OverwriteTileAt(x: nat, y: nat, newTile: int)
      requires y < |tiles| && x < |tiles[y]|
      modifies this`tiles
      ensures tiles == old(tiles)[y := old(tiles)[y][x := newTile]]
    {
      tiles := tiles[y := tiles[y][x := newTile]];
    }

    /** Switches the tiles at the two positions, in place. */
    method SwitchTiles(firstX: nat, firstY: nat, secondX: nat, secondY: nat)
      requires firstY < |tiles| && firstX < |tiles[firstY]|
      requires secondY < |tiles| && secondX < |tiles[secondY]|
      modifies this`tiles
      ensures tiles == SwapTiles(old(tiles), firstX, firstY, secondX, secondY)
    {
      var tileAtFirstPosition := tiles[firstY][firstX];
      OverwriteTileAt(firstX, firstY, tiles[secondY][secondX]);
      OverwriteTileAt(secondX, secondY, tileAtFirstPosition);
    }

    /** The tile that the move slides lies inside the grid. */
    predicate IsMovePossible(move: Move)
      reads this
    {
      InBounds(xBlank + RelPosX(move), yBlank + RelPosY(move), width, height)
    }

    /** `successor` is what `move` makes of this state: blank swapped with the slid tile, one more step. */
    ghost predicate IsResultOf(successor: State, move: Move)
      reads this, successor
    {
      var xTile, yTile := xBlank + RelPosX(move), yBlank + RelPosY(move);
      0 <= yBlank < |tiles| && 0 <= xBlank < |tiles[yBlank]| &&
      0 <= yTile < |tiles| && 0 <= xTile < |tiles[yTile]| &&
      successor.width == width && successor.height == height &&
      successor.tiles == SwapTiles(tiles, xBlank, yBlank, xTile, yTile) &&
      successor.xBlank == xTile && successor.yBlank == yTile &&
      successor.predecessor == this && successor.cost == cost + 1
    }

    /** `action` is the action for `move`: its cost is 1 and its state is the move's result. */
    ghost predicate IsMoveAction(action: Action<State>, move: Move)
      reads this, action.resultingState
    {
      action.cost == 1.0 && IsMovePossible(move) && IsResultOf(action.resultingState, move)
    }

    /** A new state after `move`; this state itself is not changed. */
    method PerformMove(move: Move) returns (successor: State)
      requires Valid() && IsMovePossible(move)
      ensures fresh(successor) && successor.Valid() && IsResultOf(successor, move)
    {
      var xTile, yTile := xBlank + RelPosX(move), yBlank + RelPosY(move);
      successor := new State.Copy(this);
      successor.SwitchTiles(xBlank, yBlank, xTile, yTile);
      successor.xBlank := successor.xBlank + RelPosX(move);
      successor.yBlank := successor.yBlank + RelPosY(move);
      successor.predecessor := this;
      successor.cost := cost + 1;
      assert IsResultOf(successor, move);
      ResultIsValid(this, successor, move);
    }

    /** The possible moves, in the declaration order of the moves. */
    method DeterminePossibleMoves() returns (possibleMoves: seq<Move>)
      ensures possibleMoves == MovesWithin(AllMoves, xBlank, yBlank, width, height)
      ensures forall move :: move in possibleMoves <==> IsMovePossible(move)
      ensures InDeclarationOrder(possibleMoves)
    {
      possibleMoves := [];
      for i := 0 to |AllMoves|
        invariant possibleMoves == MovesWithin(AllMoves[..i], xBlank, yBlank, width, height)
      {
        assert AllMoves[..i + 1][..i] == AllMoves[..i];
        if IsMovePossible(AllMoves[i]) {
          possibleMoves := possibleMoves + [AllMoves[i]];
        }
      }
      assert AllMoves[..|AllMoves|] == AllMoves;
      MovesWithinMembership(AllMoves, xBlank, yBlank, width, height);
      forall move: Move
        ensures move in AllMoves
      {
        AllMovesComplete(move);
      }
      MovesWithinOrdered(AllMoves, xBlank, yBlank, width, height);
    }

    /** One action per possible move, in the same order, each costing 1. */
    method DetermineAvailableActions() returns (actions: seq<Action<State>>)
      requires Valid()
      ensures |actions| == |MovesWithin(AllMoves, xBlank, yBlank, width, height)|
      ensures forall i :: 0 <= i < |actions| ==> fresh(actions[i].resultingState)
      ensures forall i :: 0 <= i < |actions| ==>
        IsMoveAction(actions[i], MovesWithin(AllMoves, xBlank, yBlank, width, height)[i])
    {
      var possibleMoves := DeterminePossibleMoves();
      actions := [];
      for i := 0 to |possibleMoves|
        invariant |actions| == i
        invariant forall k :: 0 <= k < i ==> fresh(actions[k].resultingState)
        invariant forall k :: 0 <= k < i ==> IsMoveAction(actions[k], possibleMoves[k])
      {
        assert possibleMoves[i] in possibleMoves;
        var successor := PerformMove(possibleMoves[i]);
        actions := actions + [Action(successor, 1.0)];
      }
    }

    /**
     * A state one random possible move away. With no possible move, `nextInt(0)` throws
     * IllegalArgumentException: on a one-cell board, and on a board with no columns or no rows.
     */
    method RandomMove() returns (r: Result<State>)
      requires Valid() || width == 0 || height == 0
      ensures r.Failure? <==> forall move :: !IsMovePossible(move)
      ensures r.Failure? <==> NoMoves(width, height)
      ensures r.Failure? ==> r.error == IllegalArgument
      ensures r.Success? ==>
        && fresh(r.value) && r.value.Valid()
        && exists move :: IsMovePossible(move) && IsResultOf(r.value, move)
    {
      var possibleMoves := DeterminePossibleMoves();
      if width == 0 || height == 0 || (width == 1 && height == 1) {
        forall move: Move
          ensures !IsMovePossible(move)
        {
          MovesAreUnitSteps(move);
        }
      } else if width > 1 {
        assert IsMovePossible(if xBlank == 0 then SlideLeft else SlideRight);
      } else {
        assert IsMovePossible(if yBlank == 0 then SlideUp else SlideDown);
      }
      if |possibleMoves| == 0 {
        return Failure(IllegalArgument);
      }
      var i :| 0 <= i < |possibleMoves|;
      assert IsMovePossible(possibleMoves[i]) by {
        assert possibleMoves[i] in possibleMoves;
      }
      var successor := PerformMove(possibleMoves[i]);
      assert IsMovePossible(possibleMoves[i]) && IsResultOf(successor, possibleMoves[i]);
      return Success(successor);
    }

    /** Only the tiles matter for equality. */
    method Equals(other: State) returns (equal: bool)
      ensures equal <==> tiles == other.tiles
    {
      if this == other {
        return true;
      }
      return tiles == other.tiles;
    }

    /** The tiles equal those of a freshly built solved state of the same dimensions. */
    method IsGoalState() returns (goal: bool)
      ensures goal <==> tiles == SolvedGrid(width, height)
    {
      var goalState := new State.Solved(width, height);
      goal := Equals(goalState);
    }

    /** `getCost`: the integer cost, widened to a double. */
    function GetCost(): real
      reads this
    {
      cost as real
    }

    /** `setCost`: the cost is stored as an int, so the value set is truncated toward zero. */
    method SetCost(newCost: real)
      modifies this`cost
      ensures cost == TruncateTowardZero(newCost)
      ensures newCost >= 0.0 ==> GetCost() <= newCost < GetCost() + 1.0
    {
      cost := TruncateTowardZero(newCost);
    }
  }

  /**
   * Java's `(int)` cast of a double: the integer part, dropping the fraction toward zero
   * (NaN, the infinities and values outside the int range are left out).
   */
  function TruncateTowardZero(x: real): (r: int)
    ensures Util.Abs(r as real) <= Util.Abs(x) < Util.Abs(r as real) + 1.0
    ensures r == 0 || (r > 0 <==> x > 0.0)
  {
    if x >= 0.0 then x.Floor else -((-x).Floor)
  }

  /** A board of at most one cell, or one with no columns or no rows, allows no move. */
  predicate NoMoves(width: nat, height: nat)
  {
    width == 0 || height == 0 || (width == 1 && height == 1)
  }

  /** The result of a possible move on a valid state is valid. */
  lemma ResultIsValid(state: State, successor: State, move: Move)
    requires state.Valid() && state.IsMovePossible(move) && state.IsResultOf(successor, move)
    ensures successor.Valid()
  {
    SwapWithBlankIsValid(state.tiles, state.width, state.height, state.xBlank, state.yBlank,
                         successor.tiles, successor.xBlank, successor.yBlank);
  }

  /** A move always changes the grid: the blank's old cell now holds the slid tile. */
  lemma MoveChangesTiles(state: State, successor: State, move: Move)
    requires state.Valid() && state.IsMovePossible(move) && state.IsResultOf(successor, move)
    ensures successor.tiles != state.tiles
  {
    MovesAreUnitSteps(move);
    var x := state.xBlank + RelPosX(move);
    var y := state.yBlank + RelPosY(move);
    SwapTilesCells(state.tiles, state.xBlank, state.yBlank, x, y);
    assert successor.tiles[state.yBlank][state.xBlank] == state.tiles[y][x];
    assert TileAt(state.tiles, x, y) != 0;
  }

  /**
   * A copy is an equal, separate state: moving the copy leaves the original and the copy
   * as they were.
   */
  method CopyScenario() returns (original: State, copy: State, moved: State)
    ensures original.tiles == copy.tiles && original.tiles == SolvedGrid(5, 5)
    ensures moved.tiles != copy.tiles
    ensures original != copy && copy != moved && original != moved
  {
    original := new State.Solved(5, 5);
    copy := new State.Copy(original);
    var movedCopy := copy.RandomMove();
    moved := movedCopy.value;
    ghost var move :| copy.IsMovePossible(move) && copy.IsResultOf(moved, move);
    MoveChangesTiles(copy, moved, move);
  }
}
