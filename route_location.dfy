/**
 * Locations of the route-finding problem (path/route/Location.java) and the directed connections
 * between them (util/Vertex.java). A connection is an object: two connections with the same
 * ends and cost are still different connections, because Vertex does not define equality.
 */
module RouteLocation {
  import opened Points

  /** A directed, weighted connection. */
  class Vertex {
    const origin: Location
    const destination: Location
    const cost: real

    constructor (origin: Location, destination: Location, cost: real)
      ensures this.origin == origin && this.destination == destination && this.cost == cost
    {
      this.origin := origin;
      this.destination := destination;
      this.cost := cost;
    }
  }

  class Location {
    const point: DoublePoint
    /** The outgoing connections, in the order they were created. */
    var connections: seq<Vertex>
    /** The goal flag; no code of the problem sets it, so it stays false. */
    var isGoal: bool
    /**
     * The hash code Location inherits from Object: chosen by the runtime for each object, and
     * unrelated to the point.
     */
    const identityHash: int

    /** A location at `point` with no connections. `identityHash` stands for the runtime's choice. */
    constructor (point: DoublePoint, identityHash: int)
      ensures this.point == point && connections == [] && !isGoal
      ensures this.identityHash == identityHash
    {
      this.point := point;
      connections := [];
      isGoal := false;
      this.identityHash := identityHash;
    }

    /** Every connection in the list starts at this location. */
    ghost predicate Valid()
      reads this
    {
      forall i :: 0 <= i < |connections| ==> connections[i].origin == this
    }

    /**
     * `link`: a connection in each direction, with the same cost. The duplicate test compares
     * the new, fresh connection object with the existing ones by identity, so it never finds
     * one and every call appends both connections. Linking a location to itself appends both
     * to its own list.
     */
    method Link(other: Location, cost: real)
      requires Valid() && other.Valid()
      modifies this, other
      ensures Valid() && other.Valid()
      ensures other != this ==>
        && |connections| == |old(connections)| + 1 && connections[..|old(connections)|] == old(connections)
        && |other.connections| == |old(other.connections)| + 1
        && other.connections[..|old(other.connections)|] == old(other.connections)
        && Connects(connections[|connections| - 1], this, other, cost)
        && Connects(other.connections[|other.connections| - 1], other, this, cost)
      ensures other == this ==>
        && |connections| == |old(connections)| + 2 && connections[..|old(connections)|] == old(connections)
        && Connects(connections[|connections| - 2], this, this, cost)
        && Connects(connections[|connections| - 1], this, this, cost)
        && connections[|connections| - 2] != connections[|connections| - 1]
      ensures fresh(connections[|connections| - 1]) && fresh(other.connections[|other.connections| - 1])
      ensures isGoal == old(isGoal) && other.isGoal == old(other.isGoal)
    {
      var newConnection := new Vertex(this, other, cost);
      if newConnection in connections {
        return;
      }
      connections := connections + [newConnection];
      var reverse := new Vertex(other, this, cost);
      other.connections := other.connections + [reverse];
    }

    /** `equals`: the same object, or a location at an equal point. */
    predicate Equals(other: Location)
    {
      this == other || point == other.point
    }

    /** `hashCode`, inherited from Object. */
    function HashCode(): int
    {
      identityHash
    }
  }

  /** `v` leads from `origin` to `destination` at `cost`. */
  predicate Connects(v: Vertex, origin: Location, destination: Location, cost: real)
  {
    v.origin == origin && v.destination == destination && v.cost == cost
  }

  /** Location equality is an equivalence and depends on the points alone. */
  lemma EqualsIsEquivalence(a: Location, b: Location, c: Location)
    ensures a.Equals(a)
    ensures a.Equals(b) <==> a.point == b.point
    ensures a.Equals(b) ==> b.Equals(a)
    ensures a.Equals(b) && b.Equals(c) ==> a.Equals(c)
  {
  }
}
