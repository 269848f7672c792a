/** The clash-count heuristic for N-Queens (local/queens/NumberOfClashesHeuristic.java). */
module QueensHeuristic {
  import opened Queens

  /** The number of columns in [from, to) whose queen clashes with the queen of `column`. */
  function ClashesBetween(board: Board, column: nat, from: nat, to: nat): nat
    requires column < |board| && from <= to <= |board|
  {
    if to == from then 0
    else ClashesBetween(board, column, from, to - 1)
         + (if QueensAreClashing(board, column, to - 1) then 1 else 0)
  }

  /** The number of clashing pairs c1 < c2 whose left column c1 is below `columns`. */
  function ClashesUpTo(board: Board, columns: nat): nat
    requires columns <= |board|
  {
    if columns == 0 then 0
    else ClashesUpTo(board, columns - 1) + ClashesBetween(board, columns - 1, columns, |board|)
  }

  /** The number of pairs of columns c1 < c2 whose queens clash. */
  function NumberOfClashes(board: Board): nat
  {
    ClashesUpTo(board, |board|)
  }

  /** `estimateDistanceToGoal`: the nested pair loop counting clashes. */
  method EstimateDistanceToGoal(board: Board) returns (numberOfClashes: real)
    ensures numberOfClashes == NumberOfClashes(board) as real
  {
    var count: nat := 0;
    for columnBeingChecked := 0 to |board|
      invariant count == ClashesUpTo(board, columnBeingChecked)
    {
      for columnToCheckAgainst := columnBeingChecked + 1 to |board|
        invariant count == ClashesUpTo(board, columnBeingChecked)
          + ClashesBetween(board, columnBeingChecked, columnBeingChecked + 1, columnToCheckAgainst)
      {
        if QueensAreClashing(board, columnBeingChecked, columnToCheckAgainst) {
          count := count + 1;
        }
      }
    }
    numberOfClashes := count as real;
  }

  /** `getBestPossibleScore`: zero clashes. */
  function GetBestPossibleScore(): (best: real)
    ensures forall board: Board :: best <= NumberOfClashes(board) as real
  {
    0.0
  }

  lemma {:induction false} ClashesBetweenZeroIff(board: Board, column: nat, from: nat, to: nat)
    requires column < |board| && from <= to <= |board|
    ensures ClashesBetween(board, column, from, to) == 0 <==>
      (forall c :: from <= c < to ==> !QueensAreClashing(board, column, c))
  {
    if to > from {
      ClashesBetweenZeroIff(board, column, from, to - 1);
    }
  }

  lemma {:induction false} ClashesUpToZeroIff(board: Board, columns: nat)
    requires columns <= |board|
    ensures ClashesUpTo(board, columns) == 0 <==>
      forall c1, c2 :: 0 <= c1 < columns && c1 < c2 < |board| ==> !QueensAreClashing(board, c1, c2)
  {
    if columns > 0 {
      ClashesUpToZeroIff(board, columns - 1);
      ClashesBetweenZeroIff(board, columns - 1, columns, |board|);
    }
  }

  /** The estimate is zero exactly on the boards `isGoalState` accepts. */
  lemma NoClashesIffGoal(board: Board)
    ensures NumberOfClashes(board) == 0 <==> NoClashes(board)
  {
    ClashesUpToZeroIff(board, |board|);
  }

  lemma {:induction false} ClashesBetweenBound(board: Board, column: nat, from: nat, to: nat)
    requires column < |board| && from <= to <= |board|
    ensures ClashesBetween(board, column, from, to) <= to - from
  {
    if to > from {
      ClashesBetweenBound(board, column, from, to - 1);
    }
  }

  lemma {:induction false} ClashesUpToBound(board: Board, columns: nat)
    requires columns <= |board|
    ensures 2 * ClashesUpTo(board, columns) <= columns * (2 * |board| - columns - 1)
  {
    if columns > 0 {
      var n, k := |board|, columns - 1;
      ClashesUpToBound(board, k);
      ClashesBetweenBound(board, k, columns, n);
      assert (k + 1) * (2 * n - (k + 1) - 1) == k * (2 * n - k - 1) + 2 * (n - 1 - k);
    }
  }

  /** At most every one of the n·(n−1)/2 pairs clashes. */
  lemma NumberOfClashesBound(board: Board)
    ensures 2 * NumberOfClashes(board) <= |board| * (|board| - 1)
  {
    ClashesUpToBound(board, |board|);
  }

  /** The board of the manual test has 11 clashing pairs. */
  lemma ClashesOfTestBoard()
    ensures NumberOfClashes([1, 2, 5, 4, 0, 6, 4, 4]) == 11
  {
    var b := [1, 2, 5, 4, 0, 6, 4, 4];
    assert ClashesBetween(b, 0, 1, 8) == 3;
    assert ClashesBetween(b, 1, 2, 8) == 2;
    assert ClashesBetween(b, 2, 3, 8) == 1;
    assert ClashesBetween(b, 3, 4, 8) == 3;
    assert ClashesBetween(b, 4, 5, 8) == 0;
    assert ClashesBetween(b, 5, 6, 8) == 1;
    assert ClashesBetween(b, 6, 7, 8) == 1;
    assert ClashesBetween(b, 7, 8, 8) == 0;
  }

  /** A solution of the eight-queens puzzle has no clashes, and is a goal. */
  lemma SolutionHasNoClashes()
    ensures NumberOfClashes([4, 2, 0, 6, 1, 7, 5, 3]) == 0
    ensures NoClashes([4, 2, 0, 6, 1, 7, 5, 3])
  {
    NoClashesIffGoal([4, 2, 0, 6, 1, 7, 5, 3]);
  }
}
