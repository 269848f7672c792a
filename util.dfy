/** Tolerant comparison of floating-point values (util/Util.java), over the reals. */
module Util {

  /** The margin used when no margin is given. */
  const ErrorMarginForFloatComparison: real := 0.000001

  /** The larger of two integers. */
  function Max(a: int, b: int): (r: int)
    ensures r >= a && r >= b && (r == a || r == b)
  {
    if a >= b then a else b
  }

  function Abs(x: real): (r: real)
    ensures r >= 0.0 && (r == x || r == -x)
  {
    if x < 0.0 then -x else x
  }

  /** `equalValue(value1, value2, margin)`: the difference is at most the magnitude of the margin. */
  predicate EqualValueWithin(value1: real, value2: real, margin: real)
  {
    Abs(value1 - value2) <= Abs(margin)
  }

  /** `equalValue(value1, value2)`: the three-argument form with the default margin. */
  predicate EqualValue(value1: real, value2: real)
  {
    EqualValueWithin(value1, value2, ErrorMarginForFloatComparison)
  }

  /** The comparison holds exactly when the difference lies between the margin and its negation. */
  lemma EqualValueWithinMeaning(value1: real, value2: real, margin: real)
    ensures EqualValueWithin(value1, value2, margin) <==>
      (value1 - value2 <= margin && value2 - value1 <= margin) ||
      (value1 - value2 <= -margin && value2 - value1 <= -margin)
  {
  }

  /** Swapping the compared values or negating the margin does not change the answer. */
  lemma EqualValueWithinSymmetric(value1: real, value2: real, margin: real)
    ensures EqualValueWithin(value1, value2, margin) == EqualValueWithin(value2, value1, margin)
    ensures EqualValueWithin(value1, value2, margin) == EqualValueWithin(value1, value2, -margin)
  {
  }

  /** The default-margin form holds exactly when the values are at most 0.000001 apart. */
  lemma EqualValueDefaultMargin(value1: real, value2: real)
    ensures EqualValue(value1, value2) <==> -0.000001 <= value1 - value2 <= 0.000001
  {
  }

  /** With a margin of zero only identical values compare equal. */
  lemma EqualValueZeroMarginIsEquality(value1: real, value2: real)
    ensures EqualValueWithin(value1, value2, 0.0) <==> value1 == value2
  {
  }

  /** The cases of the unit test for equalValue. */
  lemma EqualValueExamples()
    ensures !EqualValue(3.0, 4.0)
    ensures EqualValueWithin(3.0, 4.0, 2.0)
    ensures EqualValueWithin(0.1, 0.2, 0.5)
    ensures !EqualValueWithin(0.0, -0.1, 0.01)
    ensures EqualValue(0.001, 0.001000000001)
    ensures EqualValue(-0.0000002, -0.0000005)
  {
  }
}
