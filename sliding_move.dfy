/** The four moves of the sliding puzzle (path/sliding/Move.java). */
module SlidingMove {

  /** The enum constants, in declaration order. */
  datatype Move = SlideUp | SlideDown | SlideLeft | SlideRight

  /** `Move.values()`: the constants in declaration order. */
  const AllMoves: seq<Move> := [SlideUp, SlideDown, SlideLeft, SlideRight]

  /** `relPosX`: where the empty space goes along the X axis. */
  function RelPosX(move: Move): int
  {
    match move
    case SlideUp => 0
    case SlideDown => 0
    case SlideLeft => 1
    case SlideRight => -1
  }

  /** `relPosY`: where the empty space goes along the Y axis. */
  function RelPosY(move: Move): int
  {
    match move
    case SlideUp => 1
    case SlideDown => -1
    case SlideLeft => 0
    case SlideRight => 0
  }

  /** The position of a move among the enum constants (its `ordinal()`). */
  function Ordinal(move: Move): (i: nat)
    ensures i < |AllMoves| && AllMoves[i] == move
  {
    match move
    case SlideUp => 0
    case SlideDown => 1
    case SlideLeft => 2
    case SlideRight => 3
  }

  /** There are exactly four distinct moves, and every move is one of them. */
  lemma AllMovesComplete(move: Move)
    ensures move in AllMoves
    ensures |AllMoves| == 4
    ensures forall i, j :: 0 <= i < j < |AllMoves| ==> AllMoves[i] != AllMoves[j]
  {
  }

  /** Every move shifts the empty space by one unit step along exactly one axis. */
  lemma MovesAreUnitSteps(move: Move)
    ensures (RelPosX(move) == 0) != (RelPosY(move) == 0)
    ensures -1 <= RelPosX(move) <= 1 && -1 <= RelPosY(move) <= 1
  {
  }

  /** UP undoes DOWN and LEFT undoes RIGHT. */
  lemma OppositeMoves()
    ensures RelPosX(SlideUp) == -RelPosX(SlideDown) && RelPosY(SlideUp) == -RelPosY(SlideDown)
    ensures RelPosX(SlideLeft) == -RelPosX(SlideRight) && RelPosY(SlideLeft) == -RelPosY(SlideRight)
  {
  }
}
