/**
 * The tile grid of the sliding puzzle as a value: `tiles[y][x]` is the tile at column x of
 * row y, and tile 0 is the empty space. The sliding state class keeps its grid in this form.
 */
module SlidingGrid {
  import opened Wrappers

  type Grid = seq<seq<int>>

  predicate InBounds(x: int, y: int, width: nat, height: nat)
  {
    0 <= x < width && 0 <= y < height
  }

  /** `height` rows of `width` tiles each. */
  ghost predicate WellShaped(tiles: Grid, width: nat, height: nat)
  {
    |tiles| == height && forall y :: 0 <= y < height ==> |tiles[y]| == width
  }

  /** The tile at column x of row y. */
  function TileAt(tiles: Grid, x: int, y: int): int
    requires 0 <= y < |tiles| && 0 <= x < |tiles[y]|
  {
    tiles[y][x]
  }

  /** Some cell of the grid holds `tile`. */
  ghost predicate HoldsTile(tiles: Grid, width: nat, height: nat, tile: int)
    requires WellShaped(tiles, width, height)
  {
    exists x, y {:trigger TileAt(tiles, x, y)} :: InBounds(x, y, width, height) && TileAt(tiles, x, y) == tile
  }

  /** Every cell holds a number in 0 .. nrTiles−1. */
  ghost predicate TilesBelow(tiles: Grid, width: nat, height: nat, nrTiles: nat)
    requires WellShaped(tiles, width, height)
  {
    forall x, y {:trigger TileAt(tiles, x, y)} :: InBounds(x, y, width, height) ==> 0 <= TileAt(tiles, x, y) < nrTiles
  }

  /** No two cells hold the same number. */
  ghost predicate TilesDistinct(tiles: Grid, width: nat, height: nat)
    requires WellShaped(tiles, width, height)
  {
    forall x1, y1, x2, y2 {:trigger TileAt(tiles, x1, y1), TileAt(tiles, x2, y2)} ::
      (InBounds(x1, y1, width, height) && InBounds(x2, y2, width, height) &&
       TileAt(tiles, x1, y1) == TileAt(tiles, x2, y2)) ==> x1 == x2 && y1 == y2
  }

  /**
   * The tiles are a permutation of 0 .. width·height−1: every cell holds one of these
   * numbers, no number is held by two cells, and every number is held by some cell.
   */
  ghost predicate IsPermutationGrid(tiles: Grid, width: nat, height: nat)
    requires WellShaped(tiles, width, height)
  {
    TilesBelow(tiles, width, height, width * height) &&
    TilesDistinct(tiles, width, height) &&
    forall tile {:trigger HoldsTile(tiles, width, height, tile)} ::
      0 <= tile < width * height ==> HoldsTile(tiles, width, height, tile)
  }

  /**
   * The invariant of a sliding-puzzle state: the tiles form a permutation of
   * 0 .. width·height−1 and the blank's cell at (xBlank, yBlank) holds tile 0.
   */
  ghost predicate ValidGrid(tiles: Grid, width: nat, height: nat, xBlank: int, yBlank: int)
  {
    width >= 1 && height >= 1 &&
    WellShaped(tiles, width, height) && IsPermutationGrid(tiles, width, height) &&
    InBounds(xBlank, yBlank, width, height) && TileAt(tiles, xBlank, yBlank) == 0
  }

  /** The solved grid of the two-argument constructor: tile y·width + x at (x, y). */
  function SolvedGrid(width: nat, height: nat): (tiles: Grid)
    ensures WellShaped(tiles, width, height)
  {
    seq(height, y => seq(width, x => y * width + x))
  }

  /** `switchTiles` on a grid value: the tiles at the two positions change places. */
  function SwapTiles(tiles: Grid, firstX: nat, firstY: nat, secondX: nat, secondY: nat): (swapped: Grid)
    requires firstY < |tiles| && firstX < |tiles[firstY]|
    requires secondY < |tiles| && secondX < |tiles[secondY]|
    ensures |swapped| == |tiles|
    ensures forall y :: 0 <= y < |tiles| ==> |swapped[y]| == |tiles[y]|
  {
    var tileAtFirstPosition := tiles[firstY][firstX];
    var overwritten := tiles[firstY := tiles[firstY][firstX := tiles[secondY][secondX]]];
    overwritten[secondY := overwritten[secondY][secondX := tileAtFirstPosition]]
  }

  /** After a swap each of the two cells holds the other's tile and every other cell is unchanged. */
  lemma SwapTilesCells(tiles: Grid, firstX: nat, firstY: nat, secondX: nat, secondY: nat)
    requires firstY < |tiles| && firstX < |tiles[firstY]|
    requires secondY < |tiles| && secondX < |tiles[secondY]|
    ensures var swapped := SwapTiles(tiles, firstX, firstY, secondX, secondY);
      forall x, y :: 0 <= y < |tiles| && 0 <= x < |tiles[y]| ==>
        swapped[y][x] ==
          if x == secondX && y == secondY then tiles[firstY][firstX]
          else if x == firstX && y == firstY then tiles[secondY][secondX]
          else tiles[y][x]
  {
  }

  lemma MulMonotone(a: nat, b: nat, w: nat)
    requires a <= b
    ensures a * w <= b * w
  {
  }

  lemma RowMajorBounds(x: nat, y: nat, width: nat, height: nat)
    requires InBounds(x, y, width, height)
    ensures y * width + x < width * height
  {
    MulMonotone(y + 1, height, width);
    assert (y + 1) * width == y * width + width;
  }

  lemma RowMajorInjective(x1: nat, y1: nat, x2: nat, y2: nat, width: nat)
    requires x1 < width && x2 < width && y1 * width + x1 == y2 * width + x2
    ensures x1 == x2 && y1 == y2
  {
    if y1 < y2 {
      MulMonotone(y1 + 1, y2, width);
    } else if y2 < y1 {
      MulMonotone(y2 + 1, y1, width);
    }
  }

  lemma RowMajorOf(tile: nat, width: nat, height: nat)
    requires tile < width * height
    ensures width > 0 && InBounds(tile % width, tile / width, width, height)
    ensures (tile / width) * width + tile % width == tile
  {
    if tile / width >= height {
      MulMonotone(height, tile / width, width);
    }
  }

  /** The solved grid is a permutation grid. */
  lemma SolvedGridIsPermutation(width: nat, height: nat)
    ensures IsPermutationGrid(SolvedGrid(width, height), width, height)
  {
    var tiles := SolvedGrid(width, height);
    forall x, y | InBounds(x, y, width, height)
      ensures 0 <= TileAt(tiles, x, y) < width * height
    {
      RowMajorBounds(x, y, width, height);
    }
    forall x1, y1, x2, y2 |
      InBounds(x1, y1, width, height) && InBounds(x2, y2, width, height) &&
      TileAt(tiles, x1, y1) == TileAt(tiles, x2, y2)
      ensures x1 == x2 && y1 == y2
    {
      RowMajorInjective(x1, y1, x2, y2, width);
    }
    forall tile | 0 <= tile < width * height
      ensures HoldsTile(tiles, width, height, tile)
    {
      RowMajorOf(tile, width, height);
      assert TileAt(tiles, tile % width, tile / width) == tile;
    }
  }

  /** Swapping two cells of a permutation grid leaves a permutation grid. */
  lemma SwapPreservesPermutation(tiles: Grid, width: nat, height: nat,
                                 firstX: nat, firstY: nat, secondX: nat, secondY: nat)
    requires WellShaped(tiles, width, height) && IsPermutationGrid(tiles, width, height)
    requires InBounds(firstX, firstY, width, height) && InBounds(secondX, secondY, width, height)
    ensures WellShaped(SwapTiles(tiles, firstX, firstY, secondX, secondY), width, height)
    ensures IsPermutationGrid(SwapTiles(tiles, firstX, firstY, secondX, secondY), width, height)
  {
    var swapped := SwapTiles(tiles, firstX, firstY, secondX, secondY);
    SwapTilesCells(tiles, firstX, firstY, secondX, secondY);
    assert WellShaped(swapped, width, height);
    // Where the tile now at (x, y) was before the swap.
    var source := (x: int, y: int) =>
      if x == secondX && y == secondY then (firstX, firstY)
      else if x == firstX && y == firstY then (secondX, secondY)
      else (x, y);
    forall x, y | InBounds(x, y, width, height)
      ensures TileAt(swapped, x, y) == TileAt(tiles, source(x, y).0, source(x, y).1)
    {
    }
    forall x, y | InBounds(x, y, width, height)
      ensures 0 <= TileAt(swapped, x, y) < width * height
    {
      assert TileAt(swapped, x, y) == TileAt(tiles, source(x, y).0, source(x, y).1);
    }
    forall x1, y1, x2, y2 |
      InBounds(x1, y1, width, height) && InBounds(x2, y2, width, height) &&
      TileAt(swapped, x1, y1) == TileAt(swapped, x2, y2)
      ensures x1 == x2 && y1 == y2
    {
      assert TileAt(swapped, x1, y1) == TileAt(tiles, source(x1, y1).0, source(x1, y1).1);
      assert TileAt(swapped, x2, y2) == TileAt(tiles, source(x2, y2).0, source(x2, y2).1);
    }
    forall tile | 0 <= tile < width * height
      ensures HoldsTile(swapped, width, height, tile)
    {
      assert HoldsTile(tiles, width, height, tile);
      var x, y :| InBounds(x, y, width, height) && TileAt(tiles, x, y) == tile;
      if x == firstX && y == firstY {
        assert TileAt(swapped, secondX, secondY) == tile;
      } else if x == secondX && y == secondY {
        assert TileAt(swapped, firstX, firstY) == tile;
      } else {
        assert TileAt(swapped, x, y) == tile;
      }
    }
  }

  /** The first column at or after `column` of `row` that holds `tile`. */
  function LocateInRow(row: seq<int>, tile: int, column: nat): Option<nat>
    decreases |row| - column
  {
    if column >= |row| then None
    else if row[column] == tile then Some(column)
    else LocateInRow(row, tile, column + 1)
  }

  /** The first position, in row-major order from row `row` on, that holds `tile`. */
  function LocateFrom(tiles: Grid, tile: int, row: nat): Option<(nat, nat)>
    decreases |tiles| - row
  {
    if row >= |tiles| then None
    else match LocateInRow(tiles[row], tile, 0)
      case Some(x) => Some((x, row))
      case None => LocateFrom(tiles, tile, row + 1)
  }

  /** The row search finds the first column holding the tile, and fails only when none does. */
  lemma {:induction false} LocateInRowFindsFirst(row: seq<int>, tile: int, column: nat)
    ensures var found := LocateInRow(row, tile, column);
      (found.Some? ==>
         column <= found.value < |row| && row[found.value] == tile &&
         forall x :: column <= x < found.value ==> row[x] != tile) &&
      (found.None? ==> forall x :: column <= x < |row| ==> row[x] != tile)
    decreases |row| - column
  {
    if column < |row| && row[column] != tile {
      LocateInRowFindsFirst(row, tile, column + 1);
    }
  }

  /** The grid search finds the first cell, row by row, holding the tile, and fails only when none does. */
  lemma {:induction false} LocateFromFindsFirst(tiles: Grid, tile: int, row: nat)
    ensures var found := LocateFrom(tiles, tile, row);
      (found.Some? ==>
         row <= found.value.1 < |tiles| && found.value.0 < |tiles[found.value.1]| &&
         tiles[found.value.1][found.value.0] == tile &&
         (forall x :: 0 <= x < found.value.0 ==> tiles[found.value.1][x] != tile) &&
         (forall y, x :: row <= y < found.value.1 && 0 <= x < |tiles[y]| ==> tiles[y][x] != tile)) &&
      (found.None? ==>
         forall y, x :: row <= y < |tiles| && 0 <= x < |tiles[y]| ==> tiles[y][x] != tile)
    decreases |tiles| - row
  {
    if row < |tiles| {
      LocateInRowFindsFirst(tiles[row], tile, 0);
      if LocateInRow(tiles[row], tile, 0).None? {
        LocateFromFindsFirst(tiles, tile, row + 1);
      }
    }
  }

  /** The position `findTilePosition` reports: the first cell, row by row, holding `tile`. */
  function Locate(tiles: Grid, tile: int): Option<(nat, nat)>
  {
    LocateFrom(tiles, tile, 0)
  }

  /** In a permutation grid every tile number is found, at the one cell that holds it. */
  lemma LocateInPermutationGrid(tiles: Grid, width: nat, height: nat, tile: int, x: nat, y: nat)
    requires WellShaped(tiles, width, height) && IsPermutationGrid(tiles, width, height)
    requires InBounds(x, y, width, height) && TileAt(tiles, x, y) == tile
    ensures Locate(tiles, tile) == Some((x, y))
  {
    LocateFromFindsFirst(tiles, tile, 0);
    var found := Locate(tiles, tile);
    assert found.Some?;
    var (x', y') := found.value;
    assert InBounds(x', y', width, height) && TileAt(tiles, x', y') == tile;
  }

  /** In a permutation grid every tile number below width·height is found. */
  lemma LocateFindsEveryTile(tiles: Grid, width: nat, height: nat, tile: int)
    requires WellShaped(tiles, width, height) && IsPermutationGrid(tiles, width, height)
    requires 0 <= tile < width * height
    ensures Locate(tiles, tile).Some?
    ensures var (x, y) := Locate(tiles, tile).value; InBounds(x, y, width, height) && TileAt(tiles, x, y) == tile
  {
    assert HoldsTile(tiles, width, height, tile);
    var x, y :| InBounds(x, y, width, height) && TileAt(tiles, x, y) == tile;
    LocateInPermutationGrid(tiles, width, height, tile, x, y);
  }

  /** In the solved grid tile t sits at (t mod width, t div width). */
  lemma LocateInSolvedGrid(width: nat, height: nat, tile: nat)
    requires tile < width * height
    ensures Locate(SolvedGrid(width, height), tile) == Some((tile % width, tile / width))
  {
    SolvedGridIsPermutation(width, height);
    RowMajorOf(tile, width, height);
    assert TileAt(SolvedGrid(width, height), tile % width, tile / width) == tile;
    LocateInPermutationGrid(SolvedGrid(width, height), width, height, tile, tile % width, tile / width);
  }

  /** The solved grid with the blank at (0, 0) satisfies the state invariant. */
  lemma SolvedGridIsValid(width: nat, height: nat)
    requires width >= 1 && height >= 1
    ensures ValidGrid(SolvedGrid(width, height), width, height, 0, 0)
  {
    SolvedGridIsPermutation(width, height);
  }

  /**
   * Swapping the blank with a neighbouring cell inside the grid keeps the invariant, with
   * the blank now at that cell.
   */
  lemma SwapWithBlankIsValid(tiles: Grid, width: nat, height: nat, xBlank: int, yBlank: int,
                              swapped: Grid, xTile: int, yTile: int)
    requires ValidGrid(tiles, width, height, xBlank, yBlank) && InBounds(xTile, yTile, width, height)
    requires swapped == SwapTiles(tiles, xBlank, yBlank, xTile, yTile)
    ensures ValidGrid(swapped, width, height, xTile, yTile)
  {
    SwapPreservesPermutation(tiles, width, height, xBlank, yBlank, xTile, yTile);
    SwapTilesCells(tiles, xBlank, yBlank, xTile, yTile);
    assert TileAt(swapped, xTile, yTile) == TileAt(tiles, xBlank, yBlank);
  }
}
