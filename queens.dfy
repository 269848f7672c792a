/**
 * The N-Queens state (local/queens/State.java). Entry `board[c]` is the row of the queen in
 * column c. A board never changes once a state holds it (successors are built from clones),
 * so it is a value here.
 */
module Queens {
  import opened Wrappers
  import opened Core

  type Board = seq<int>

  function IntAbs(x: int): nat
  {
    if x < 0 then -x else x
  }

  /** Every queen stands on a row of the board, as the random constructor guarantees. */
  ghost predicate ValidBoard(board: Board)
  {
    forall c :: 0 <= c < |board| ==> 0 <= board[c] < |board|
  }

  /** `queensAreClashing`: same row, or as far apart vertically as horizontally. */
  predicate QueensAreClashing(board: Board, column1: nat, column2: nat)
    requires column1 < |board| && column2 < |board|
  {
    var horizontalDistance := IntAbs(column1 - column2);
    var verticalDistance := IntAbs(board[column1] - board[column2]);
    verticalDistance == 0 || horizontalDistance == verticalDistance
  }

  /** Two queens clash exactly when they share a row or a diagonal, whichever is named first. */
  lemma QueensAreClashingMeaning(board: Board, column1: nat, column2: nat)
    requires column1 < |board| && column2 < |board|
    ensures QueensAreClashing(board, column1, column2) <==>
      board[column1] == board[column2] ||
      board[column1] - board[column2] == column1 - column2 ||
      board[column1] - board[column2] == column2 - column1
    ensures QueensAreClashing(board, column1, column2) == QueensAreClashing(board, column2, column1)
  {
  }

  /** The clash cases of the unit test on the board [0, 1, 2, 0, 1, 2]. */
  lemma ClashExamples()
    ensures var b := [0, 1, 2, 0, 1, 2];
      QueensAreClashing(b, 0, 1) && QueensAreClashing(b, 2, 1) &&
      QueensAreClashing(b, 1, 4) && QueensAreClashing(b, 3, 5) &&
      !QueensAreClashing(b, 0, 4) && !QueensAreClashing(b, 5, 1) &&
      !QueensAreClashing(b, 2, 4) && !QueensAreClashing(b, 1, 3)
  {
  }

  /** No pair of columns c1 < c2 holds clashing queens. */
  ghost predicate NoClashes(board: Board)
  {
    forall c1, c2 :: 0 <= c1 < c2 < |board| ==> !QueensAreClashing(board, c1, c2)
  }

  /** `isGoalState`: the pair loop, stopping at the first clash. */
  method IsGoalState(board: Board) returns (goal: bool)
    ensures goal <==> NoClashes(board)
  {
    for columnBeingChecked := 0 to |board|
      invariant forall c1, c2 :: 0 <= c1 < columnBeingChecked && c1 < c2 < |board| ==>
        !QueensAreClashing(board, c1, c2)
    {
      for columnToCheckAgainst := columnBeingChecked + 1 to |board|
        invariant forall c2 :: columnBeingChecked < c2 < columnToCheckAgainst ==>
          !QueensAreClashing(board, columnBeingChecked, c2)
      {
        if QueensAreClashing(board, columnBeingChecked, columnToCheckAgainst) {
          return false;
        }
      }
    }
    return true;
  }

  /** The board with the queen of `column` moved to `row` (the clone the Java code edits). */
  function MoveQueen(board: Board, column: nat, row: int): (moved: Board)
    requires column < |board|
    ensures |moved| == |board| && moved[column] == row
    ensures forall c :: 0 <= c < |board| && c != column ==> moved[c] == board[c]
  {
    board[column := row]
  }

  /** The actions that move the queen of `column` to one of the rows below `rows`, row by row. */
  function MovesInColumn(board: Board, column: nat, rows: nat): seq<Action<Board>>
    requires column < |board|
  {
    if rows == 0 then []
    else MovesInColumn(board, column, rows - 1)
         + (if board[column] != rows - 1 then [Action(MoveQueen(board, column, rows - 1), 0.0)] else [])
  }

  /** The actions of the columns below `columns`, column by column, each over all rows. */
  function SuccessorsUpTo(board: Board, columns: nat): seq<Action<Board>>
    requires columns <= |board|
  {
    if columns == 0 then []
    else SuccessorsUpTo(board, columns - 1) + MovesInColumn(board, columns - 1, |board|)
  }

  /** The action list `determineAvailableActions` builds. */
  function Successors(board: Board): seq<Action<Board>>
  {
    SuccessorsUpTo(board, |board|)
  }

  /** `determineAvailableActions`: the nested column/row loop that appends one action per move. */
  method DetermineAvailableActions(board: Board) returns (actions: seq<Action<Board>>)
    ensures actions == Successors(board)
  {
    actions := [];
    for column := 0 to |board|
      invariant actions == SuccessorsUpTo(board, column)
    {
      for row := 0 to |board|
        invariant actions == SuccessorsUpTo(board, column) + MovesInColumn(board, column, row)
      {
        if board[column] != row {
          var successorBoard := MoveQueen(board, column, row);
          actions := actions + [Action(successorBoard, 0.0)];
        }
      }
    }
  }

  /** `a` moves the queen of `column` to `row`, another row of that column, at cost 0. */
  ghost predicate IsQueenMove(board: Board, a: Action<Board>, column: int, row: int)
  {
    0 <= column < |board| && 0 <= row < |board| && row != board[column]
    && a == Action(MoveQueen(board, column, row), 0.0)
  }

  lemma {:induction false} MovesInColumnMembership(board: Board, column: nat, rows: nat, a: Action<Board>)
    requires column < |board| && rows <= |board|
    ensures a in MovesInColumn(board, column, rows) <==> exists row :: 0 <= row < rows && IsQueenMove(board, a, column, row)
  {
    if rows > 0 {
      MovesInColumnMembership(board, column, rows - 1, a);
      if IsQueenMove(board, a, column, rows - 1) {
        assert a in MovesInColumn(board, column, rows);
      }
    }
  }

  lemma {:induction false} SuccessorsUpToMembership(board: Board, columns: nat, a: Action<Board>)
    requires columns <= |board|
    ensures a in SuccessorsUpTo(board, columns) <==>
      exists column, row :: 0 <= column < columns && IsQueenMove(board, a, column, row)
  {
    if columns > 0 {
      var earlier := SuccessorsUpTo(board, columns - 1);
      var last := MovesInColumn(board, columns - 1, |board|);
      SuccessorsUpToMembership(board, columns - 1, a);
      MovesInColumnMembership(board, columns - 1, |board|, a);
      assert SuccessorsUpTo(board, columns) == earlier + last;
      if a in last {
        var row :| 0 <= row < |board| && IsQueenMove(board, a, columns - 1, row);
        assert 0 <= columns - 1 < columns && IsQueenMove(board, a, columns - 1, row);
      }
      if exists column, row :: 0 <= column < columns && IsQueenMove(board, a, column, row) {
        var column, row :| 0 <= column < columns && IsQueenMove(board, a, column, row);
        if column == columns - 1 {
          assert a in last;
        } else {
          assert a in earlier;
        }
      }
    }
  }

  /**
   * The successors are exactly the boards that move one queen to another row of its column,
   * each reached by an action of cost 0.
   */
  lemma SuccessorsMembership(board: Board, a: Action<Board>)
    ensures a in Successors(board) <==>
      exists column, row :: 0 <= column < |board| && 0 <= row < |board| && row != board[column]
        && a == Action(MoveQueen(board, column, row), 0.0)
  {
    SuccessorsUpToMembership(board, |board|, a);
    if a in Successors(board) {
      var column, row :| 0 <= column < |board| && IsQueenMove(board, a, column, row);
      assert 0 <= row < |board| && row != board[column] && a == Action(MoveQueen(board, column, row), 0.0);
    }
    if exists column, row :: 0 <= column < |board| && 0 <= row < |board| && row != board[column]
                              && a == Action(MoveQueen(board, column, row), 0.0) {
      var column, row :| 0 <= column < |board| && 0 <= row < |board| && row != board[column]
                         && a == Action(MoveQueen(board, column, row), 0.0);
      assert IsQueenMove(board, a, column, row);
    }
  }

  /** `other` has the size of `board` and differs from it in column `column` and nowhere else. */
  ghost predicate DiffersOnlyAt(board: Board, other: Board, column: int)
  {
    |other| == |board| && 0 <= column < |board| && other[column] != board[column] &&
    forall c :: 0 <= c < |board| && c != column ==> other[c] == board[c]
  }

  /** Every successor keeps the size of the board, costs 0 and differs from it in exactly one column. */
  lemma SuccessorsDifferInOneColumn(board: Board, a: Action<Board>)
    requires a in Successors(board)
    ensures a.cost == 0.0
    ensures exists column :: DiffersOnlyAt(board, a.resultingState, column)
  {
    SuccessorsMembership(board, a);
    var column, row :| 0 <= column < |board| && 0 <= row < |board| && row != board[column]
      && a == Action(MoveQueen(board, column, row), 0.0);
    assert DiffersOnlyAt(board, a.resultingState, column);
  }

  lemma {:induction false} MovesInColumnCount(board: Board, column: nat, rows: nat)
    requires column < |board|
    ensures |MovesInColumn(board, column, rows)| == if 0 <= board[column] < rows then rows - 1 else rows
  {
    if rows > 0 {
      MovesInColumnCount(board, column, rows - 1);
    }
  }

  lemma {:induction false} SuccessorsUpToCount(board: Board, columns: nat)
    requires columns <= |board| && ValidBoard(board)
    ensures |SuccessorsUpTo(board, columns)| == columns * (|board| - 1)
  {
    if columns > 0 {
      SuccessorsUpToCount(board, columns - 1);
      MovesInColumnCount(board, columns - 1, |board|);
      assert columns * (|board| - 1) == (columns - 1) * (|board| - 1) + (|board| - 1);
    }
  }

  /** On a board whose queens all stand on its rows there are n·(n−1) successors (56 for n = 8). */
  lemma SuccessorsCount(board: Board)
    requires ValidBoard(board)
    ensures |Successors(board)| == |board| * (|board| - 1)
  {
    SuccessorsUpToCount(board, |board|);
  }

  /** Successors of the unit test's board [0, 1, 2]: present and absent ones. */
  lemma SuccessorsExamples()
    ensures Action([2, 1, 2], 0.0) in Successors([0, 1, 2])
    ensures Action([0, 2, 2], 0.0) in Successors([0, 1, 2])
    ensures Action([0, 1, 1], 0.0) in Successors([0, 1, 2])
    ensures Action([0, 1, 2], 0.0) !in Successors([0, 1, 2])
    ensures Action([1, 2, 2], 0.0) !in Successors([0, 1, 2])
    ensures Action([2, 1, 0], 0.0) !in Successors([0, 1, 2])
  {
    var b := [0, 1, 2];
    assert MoveQueen(b, 0, 2) == [2, 1, 2] && MoveQueen(b, 1, 2) == [0, 2, 2] && MoveQueen(b, 2, 1) == [0, 1, 1];
    forall column, row | 0 <= column < 3 && 0 <= row < 3 && row != b[column]
      ensures MoveQueen(b, column, row) != [0, 1, 2]
      ensures MoveQueen(b, column, row) != [1, 2, 2]
      ensures MoveQueen(b, column, row) != [2, 1, 0]
    {
      if column == 0 {
        assert MoveQueen(b, column, row)[1] == 1;
      } else {
        assert MoveQueen(b, column, row)[0] == 0;
      }
    }
    SuccessorsMembership(b, Action([0, 1, 2], 0.0));
    SuccessorsMembership(b, Action([1, 2, 2], 0.0));
    SuccessorsMembership(b, Action([2, 1, 0], 0.0));
    SuccessorsMembership(b, Action([2, 1, 2], 0.0));
    SuccessorsMembership(b, Action([0, 2, 2], 0.0));
    SuccessorsMembership(b, Action([0, 1, 1], 0.0));
  }

  /**
   * The random constructor: every column gets an arbitrary row of the board. A negative size
   * makes `new int[dimensions]` throw NegativeArraySizeException.
   */
  method RandomBoard(dimensions: int) returns (r: Result<Board>)
    ensures r.Failure? <==> dimensions < 0
    ensures r.Failure? ==> r.error == NegativeArraySize
    ensures r.Success? ==> |r.value| == dimensions && ValidBoard(r.value)
  {
    if dimensions < 0 {
      return Failure(NegativeArraySize);
    }
    var cells := new int[dimensions];
    for column := 0 to dimensions
      invariant forall c :: 0 <= c < column ==> 0 <= cells[c] < dimensions
    {
      var row :| 0 <= row < dimensions;
      cells[column] := row;
    }
    return Success(cells[..]);
  }

  /** `equals`: the same dimensions and, column by column, the same row. */
  method Equals(board: Board, other: Board) returns (eq: bool)
    ensures eq <==> board == other
  {
    if |board| != |other| {
      return false;
    }
    for column := 0 to |board|
      invariant forall c :: 0 <= c < column ==> board[c] == other[c]
    {
      if board[column] != other[column] {
        return false;
      }
    }
    assert board == other;
    return true;
  }
}
