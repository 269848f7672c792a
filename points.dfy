/** Points in n-dimensional space (util/Point.java): integer points with Manhattan distance. */
module Points {
  import opened Wrappers

  /** A point is the list of its coordinates; no coordinate changes after construction. */
  datatype Point<T> = Point(position: seq<T>)

  type IntegerPoint = Point<int>
  type DoublePoint = Point<real>

  /** The constructor: a point needs at least one coordinate. */
  function NewPoint<T>(coordinates: seq<T>): (r: Result<Point<T>>)
    ensures r.Success? <==> coordinates != []
    ensures r.Success? ==>
      (NrDimensions(r.value) == |coordinates| &&
       forall i :: 0 <= i < |coordinates| ==> Coordinate(r.value, i) == coordinates[i])
    ensures r.Failure? ==> r.error == IllegalArgument
  {
    if |coordinates| == 0 then Failure(IllegalArgument) else Success(Point(coordinates))
  }

  function NrDimensions<T>(p: Point<T>): nat
  {
    |p.position|
  }

  function Coordinate<T>(p: Point<T>, dimension: nat): T
    requires dimension < NrDimensions(p)
  {
    p.position[dimension]
  }

  /** `IntegerPoint.sum`. */
  function Sum(number1: int, number2: int): int
  {
    number1 + number2
  }

  /** `IntegerPoint.absoluteDifference`. */
  function AbsoluteDifference(number1: int, number2: int): (r: int)
    ensures r >= 0 && (r == number1 - number2 || r == number2 - number1)
  {
    if number1 < number2 then number2 - number1 else number1 - number2
  }

  /** `IntegerPoint.zero`. */
  function Zero(): int
  {
    0
  }

  /** The Manhattan sum over the first k axes, accumulated from `Zero()` as the loop does. */
  function ManhattanPrefix(a: seq<int>, b: seq<int>, k: nat): int
    requires k <= |a| && k <= |b|
  {
    if k == 0 then Zero()
    else Sum(ManhattanPrefix(a, b, k - 1), AbsoluteDifference(a[k - 1], b[k - 1]))
  }

  /** The Manhattan distance between two points of the same dimension. */
  function Manhattan(p: IntegerPoint, q: IntegerPoint): int
    requires NrDimensions(p) == NrDimensions(q)
  {
    ManhattanPrefix(p.position, q.position, NrDimensions(p))
  }

  /** `manhattanDistanceTo`: fails when the dimensions differ, otherwise sums axis by axis. */
  method ManhattanDistanceTo(p: IntegerPoint, q: IntegerPoint) returns (r: Result<int>)
    ensures NrDimensions(p) != NrDimensions(q) ==> r == Failure(IllegalArgument)
    ensures NrDimensions(p) == NrDimensions(q) ==> r == Success(Manhattan(p, q))
  {
    if NrDimensions(p) != NrDimensions(q) {
      return Failure(IllegalArgument);
    }
    var result := Zero();
    var coordinate := 0;
    while coordinate < NrDimensions(p)
      invariant 0 <= coordinate <= NrDimensions(p)
      invariant result == ManhattanPrefix(p.position, q.position, coordinate)
    {
      result := Sum(result, AbsoluteDifference(Coordinate(p, coordinate), Coordinate(q, coordinate)));
      coordinate := coordinate + 1;
    }
    return Success(result);
  }

  lemma {:induction false} ManhattanPrefixNonNegative(a: seq<int>, b: seq<int>, k: nat)
    requires k <= |a| && k <= |b|
    ensures ManhattanPrefix(a, b, k) >= 0
  {
    if k > 0 {
      ManhattanPrefixNonNegative(a, b, k - 1);
    }
  }

  lemma {:induction false} ManhattanPrefixSymmetric(a: seq<int>, b: seq<int>, k: nat)
    requires k <= |a| && k <= |b|
    ensures ManhattanPrefix(a, b, k) == ManhattanPrefix(b, a, k)
  {
    if k > 0 {
      ManhattanPrefixSymmetric(a, b, k - 1);
    }
  }

  lemma {:induction false} ManhattanPrefixToSelf(a: seq<int>, k: nat)
    requires k <= |a|
    ensures ManhattanPrefix(a, a, k) == 0
  {
    if k > 0 {
      ManhattanPrefixToSelf(a, k - 1);
    }
  }

  /** The distance is zero when some pair of coordinates differ only if it is positive. */
  lemma {:induction false} ManhattanPrefixZeroIff(a: seq<int>, b: seq<int>, k: nat)
    requires k <= |a| && k <= |b|
    ensures ManhattanPrefix(a, b, k) == 0 <==> forall i :: 0 <= i < k ==> a[i] == b[i]
  {
    if k > 0 {
      ManhattanPrefixZeroIff(a, b, k - 1);
      ManhattanPrefixNonNegative(a, b, k - 1);
    }
  }

  /** The Manhattan distance is a non-negative, symmetric measure that is zero exactly between equal points. */
  lemma ManhattanIsADistance(p: IntegerPoint, q: IntegerPoint)
    requires NrDimensions(p) == NrDimensions(q)
    ensures Manhattan(p, q) >= 0
    ensures Manhattan(p, q) == Manhattan(q, p)
    ensures Manhattan(p, p) == 0
    ensures Manhattan(p, q) == 0 <==> p == q
  {
    ManhattanPrefixNonNegative(p.position, q.position, NrDimensions(p));
    ManhattanPrefixSymmetric(p.position, q.position, NrDimensions(p));
    ManhattanPrefixToSelf(p.position, NrDimensions(p));
    ManhattanPrefixZeroIff(p.position, q.position, NrDimensions(p));
  }

  /** The concrete values of the unit tests. */
  lemma PointExamples()
    ensures Manhattan(Point([1, 7, 3]), Point([5, 3, -9])) == 20
    ensures Sum(-5, 2) == -3
    ensures AbsoluteDifference(-5, 2) == 7
    ensures NewPoint<int>([]) == Failure(IllegalArgument)
  {
  }

  /** `equals`: the same number of dimensions and, axis by axis, the same coordinate. */
  method Equals<T(==)>(p: Point<T>, q: Point<T>) returns (eq: bool)
    ensures eq <==>
      (NrDimensions(p) == NrDimensions(q) &&
       forall i :: 0 <= i < NrDimensions(p) ==> Coordinate(p, i) == Coordinate(q, i))
    ensures eq <==> p == q
  {
    if NrDimensions(p) != NrDimensions(q) {
      return false;
    }
    var dimension := 0;
    while dimension < |p.position|
      invariant 0 <= dimension <= |p.position|
      invariant forall i :: 0 <= i < dimension ==> p.position[i] == q.position[i]
    {
      if Coordinate(p, dimension) != Coordinate(q, dimension) {
        return false;
      }
      dimension := dimension + 1;
    }
    assert p.position == q.position;
    return true;
  }
}
