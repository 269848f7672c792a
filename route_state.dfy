/**
 * States of the route-finding problem (path/route/State.java): a state stands at a location and
 * carries the cost of reaching it, a cached quality score and its predecessor. Its actions follow
 * the location's connections.
 */
module RouteState {
  import opened Wrappers
  import opened Core
  import opened Points
  import opened RouteLocation

  class State {
    const currentLocation: Location
    var cost: real
    /** `None` is the Java `null` of a score not yet computed. */
    var qualityScore: Option<real>
    var predecessor: Option<State>

    constructor (location: Location)
      ensures currentLocation == location && cost == 0.0 && qualityScore == None && predecessor == None
    {
      currentLocation := location;
      cost := 0.0;
      qualityScore := None;
      predecessor := None;
    }

    /** `isGoalState`: the location's goal flag. */
    predicate IsGoalState()
      reads currentLocation
    {
      currentLocation.isGoal
    }

    /** `createAvailableActionsIterator`: an iterator at the first connection. */
    method CreateAvailableActionsIterator() returns (it: ActionsIterator)
      ensures fresh(it) && it.state == this && it.nextConnectionIndex == 0 && it.Valid()
    {
      it := new ActionsIterator(this);
    }

    /**
     * `randomlySelectAvailableAction`: an action along a random connection. With no connections
     * `nextInt(0)` throws IllegalArgumentException. `index` is the connection drawn.
     */
    method RandomlySelectAvailableAction() returns (r: Result<Action<State>>, ghost index: nat)
      ensures r.Failure? <==> currentLocation.connections == []
      ensures r.Failure? ==> r.error == IllegalArgument
      ensures r.Success? ==>
        && index < |currentLocation.connections|
        && FollowsConnection(r.value, currentLocation.connections[index])
        && fresh(r.value.resultingState)
    {
      index := 0;
      if |currentLocation.connections| == 0 {
        return Failure(IllegalArgument), index;
      }
      var drawn :| 0 <= drawn < |currentLocation.connections|;
      index := drawn;
      var outgoingConnection := currentLocation.connections[drawn];
      var next := new State(outgoingConnection.destination);
      return Success(Action(next, outgoingConnection.cost)), index;
    }

    /** `equals`: the same object, or states at equal locations. */
    predicate Equals(other: State)
    {
      this == other || currentLocation.Equals(other.currentLocation)
    }

    /** `hashCode`: the location's hash code, which Location inherits from Object. */
    function HashCode(): int
    {
      currentLocation.HashCode()
    }

    /** The hash code equal states should share: one computed from the location's point. */
    function HashCodeByPoint(pointHash: DoublePoint -> int): int
    {
      pointHash(currentLocation.point)
    }

    function GetCost(): real
      reads this
    {
      cost
    }

    /** `setCost`: `getCost` returns the value set, and nothing else changes. */
    method SetCost(cost: real)
      modifies this`cost
      ensures GetCost() == cost
    {
      this.cost := cost;
    }

    function GetQualityScore(): Option<real>
      reads this
    {
      qualityScore
    }

    /** `setQualityScore`: `getQualityScore` returns the value set, and nothing else changes. */
    method SetQualityScore(qualityScore: Option<real>)
      modifies this`qualityScore
      ensures GetQualityScore() == qualityScore
    {
      this.qualityScore := qualityScore;
    }

    /** `setPredecessor`. */
    method SetPredecessor(predecessor: Option<State>)
      modifies this`predecessor
      ensures this.predecessor == predecessor
    {
      this.predecessor := predecessor;
    }
  }

  /** The action a connection gives: a new state at its destination, at its cost. */
  predicate FollowsConnection(action: Action<State>, connection: Vertex)
  {
    action.resultingState.currentLocation == connection.destination && action.cost == connection.cost
  }

  /** The anonymous iterator over a state's actions. */
  class ActionsIterator {
    const state: State
    var nextConnectionIndex: int

    constructor (state: State)
      ensures this.state == state && nextConnectionIndex == 0
    {
      this.state := state;
      nextConnectionIndex := 0;
    }

    ghost predicate Valid()
      reads this
    {
      nextConnectionIndex >= 0
    }

    /** `hasNext`: connections remain from the current index on. */
    predicate HasNext()
      reads this, state.currentLocation
    {
      nextConnectionIndex < |state.currentLocation.connections|
    }

    /**
     * `next`: the action for the connection at the index, after which the index moves on; once
     * the connections are used up, NoSuchElementException.
     */
    method Next() returns (r: Result<Action<State>>)
      requires Valid()
      modifies this`nextConnectionIndex
      ensures Valid()
      ensures !old(HasNext()) ==> r == Failure(NoSuchElement) && nextConnectionIndex == old(nextConnectionIndex)
      ensures old(HasNext()) ==>
        && r.Success?
        && FollowsConnection(r.value, state.currentLocation.connections[old(nextConnectionIndex)])
        && fresh(r.value.resultingState)
        && nextConnectionIndex == old(nextConnectionIndex) + 1
    {
      if !HasNext() {
        return Failure(NoSuchElement);
      }
      var outgoingConnection := state.currentLocation.connections[nextConnectionIndex];
      nextConnectionIndex := nextConnectionIndex + 1;
      var next := new State(outgoingConnection.destination);
      return Success(Action(next, outgoingConnection.cost));
    }
  }

  /** Draining a fresh iterator gives one action per connection, in the order of the connections. */
  method AvailableActions(state: State) returns (actions: seq<Action<State>>)
    ensures |actions| == |state.currentLocation.connections|
    ensures forall i :: 0 <= i < |actions| ==> FollowsConnection(actions[i], state.currentLocation.connections[i])
  {
    var it := state.CreateAvailableActionsIterator();
    actions := [];
    while it.HasNext()
      invariant it.Valid() && it.state == state
      invariant 0 <= it.nextConnectionIndex <= |state.currentLocation.connections|
      invariant |actions| == it.nextConnectionIndex
      invariant forall i :: 0 <= i < |actions| ==> FollowsConnection(actions[i], state.currentLocation.connections[i])
      decreases |state.currentLocation.connections| - it.nextConnectionIndex
    {
      var next := it.Next();
      actions := actions + [next.value];
    }
  }

  /** Equal states need not share a hash code: two locations at one point, with their own hashes. */
  method EqualStatesWithDifferentHashes() returns (equal: bool, hash1: int, hash2: int)
    ensures equal && hash1 == 1 && hash2 == 2
  {
    var location1 := new Location(Point([0.0, 0.0]), 1);
    var location2 := new Location(Point([0.0, 0.0]), 2);
    var state1 := new State(location1);
    var state2 := new State(location2);
    equal := state1.Equals(state2);
    hash1 := state1.HashCode();
    hash2 := state2.HashCode();
  }

  /** With the hash computed from the point, equal states always share it. */
  lemma EqualStatesShareHashByPoint(s1: State, s2: State, pointHash: DoublePoint -> int)
    ensures s1.Equals(s2) ==> s1.HashCodeByPoint(pointHash) == s2.HashCodeByPoint(pointHash)
  {
    EqualsIsEquivalence(s1.currentLocation, s2.currentLocation, s2.currentLocation);
  }

  /** Linking two locations and listing the actions of a state at the first gives the one link. */
  method LinkThenList() returns (actions: seq<Action<State>>, destination: Location, origin: Location)
    ensures |actions| == 1 && actions[0].cost == 2.5 && actions[0].resultingState.currentLocation == destination
    ensures destination != origin
  {
    origin := new Location(Point([0.0, 0.0]), 1);
    destination := new Location(Point([3.0, 4.0]), 2);
    origin.Link(destination, 2.5);
    var start := new State(origin);
    actions := AvailableActions(start);
  }
}
