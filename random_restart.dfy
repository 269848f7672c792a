/**
 * Random-restart hill climbing (local/hillclimbing/RandomRestart.java): repeated steepest-ascent
 * runs from fresh start states until an end state is close enough to the best possible score or
 * the iteration cap is reached. The supplier of random start states is a function from the
 * number of the iteration to the state it supplies.
 */
module RandomRestart {
  import opened Wrappers
  import opened Util
  import opened Core
  import opened SteepestAscent

  /** How `run` ends: the state it returns (`None` is the Java `null`), or the model's budget ran out. */
  datatype RestartOutcome<S> =
    | Returned(endState: Option<S>)
    | Unfinished

  /** The cap test at the top of each iteration of the code: the cap is exceeded, not reached. */
  predicate CapExceeded(maximumNrIterations: Option<int>, nrIterationsPerformed: nat)
  {
    maximumNrIterations.Some? && nrIterationsPerformed > maximumNrIterations.value
  }

  /** The cap test the field's documentation describes: stop once the cap is reached. */
  predicate CapReached(maximumNrIterations: Option<int>, nrIterationsPerformed: nat)
  {
    maximumNrIterations.Some? && nrIterationsPerformed >= maximumNrIterations.value
  }

  /** With the corrected test, the loop can start a run only while fewer than the cap have been made. */
  lemma CapReachedBoundsRuns(maximumNrIterations: int, nrIterationsPerformed: nat)
    requires !CapReached(Some(maximumNrIterations), nrIterationsPerformed)
    ensures nrIterationsPerformed + 1 <= maximumNrIterations
  {
  }

  /**
   * What one iteration's steepest ascent from `start` can return: a state no farther from the goal
   * than the start, never an empty frontier, and an optimal start state unchanged.
   */
  ghost predicate MayClimbTo<S>(start: S, fuel: nat, outcome: SearchOutcome<S>, distance: S -> real,
                              bestPossibleScore: real)
  {
    && !outcome.FrontierEmpty?
    && (outcome.Found? ==> distance(outcome.state) <= distance(start))
    && (EqualValue(distance(start), bestPossibleScore) && fuel > 0 ==> outcome == Found(start))
  }

  class RandomRestart<S(==)> {
    const successors: S -> seq<Action<S>>
    const distance: S -> real
    const bestPossibleScore: real
    /** `None` is the Java `null`: no cap. */
    const maximumNrIterations: Option<int>
    const distanceMargin: int

    constructor (successors: S -> seq<Action<S>>, distance: S -> real, bestPossibleScore: real,
                 maximumNrIterations: Option<int>, distanceMargin: int)
      ensures this.successors == successors && this.distance == distance
      ensures this.bestPossibleScore == bestPossibleScore
      ensures this.maximumNrIterations == maximumNrIterations && this.distanceMargin == distanceMargin
    {
      this.successors := successors;
      this.distance := distance;
      this.bestPossibleScore := bestPossibleScore;
      this.maximumNrIterations := maximumNrIterations;
      this.distanceMargin := distanceMargin;
    }

    /** The loop condition fails: the end state lies within the margin of the best possible score. */
    predicate Acceptable(endState: S)
    {
      distance(endState) <= bestPossibleScore + distanceMargin as real
    }

    /** One iteration: a two-argument steepest ascent from `start`, run to completion. */
    method Climb(start: S, fuel: nat) returns (outcome: SearchOutcome<S>)
      ensures MayClimbTo(start, fuel, outcome, distance, bestPossibleScore)
    {
      var search := new SteepestAscent(start, successors, distance, bestPossibleScore);
      ghost var trace;
      outcome, trace := search.Run(fuel);
    }

    /**
     * `run` as written. It returns the end state of the LAST run, which is acceptable unless the
     * cap stopped the loop, not the best end state of all runs; a negative cap returns null
     * before any run; a cap allows up to one run more than the cap. `ends` holds each run's
     * outcome. At most `fuel` iterations, each climbing for at most `fuel` steps.
     */
    method Run(supply: nat -> S, fuel: nat)
      returns (outcome: RestartOutcome<S>, nrIterationsPerformed: nat, ghost ends: seq<SearchOutcome<S>>)
      ensures |ends| == nrIterationsPerformed <= fuel
      ensures maximumNrIterations.Some? ==> nrIterationsPerformed <= Max(maximumNrIterations.value + 1, 0)
      ensures forall k :: 0 <= k < |ends| ==> MayClimbTo(supply(k), fuel, ends[k], distance, bestPossibleScore)
      ensures forall k :: 0 <= k < |ends| - 1 ==> ends[k].Found? && !Acceptable(ends[k].state)
      ensures outcome == Returned(None) <==> maximumNrIterations.Some? && maximumNrIterations.value < 0
      ensures outcome == Returned(None) ==> nrIterationsPerformed == 0
      ensures outcome.Returned? && outcome.endState.Some? ==>
        && nrIterationsPerformed >= 1
        && ends[|ends| - 1] == Found(outcome.endState.value)
        && (Acceptable(outcome.endState.value) || (maximumNrIterations.Some? && nrIterationsPerformed == maximumNrIterations.value + 1))
      ensures outcome.Returned? && maximumNrIterations.None? ==>
        outcome.endState.Some? && Acceptable(outcome.endState.value)
      ensures outcome.Unfinished? ==>
        || (nrIterationsPerformed == fuel && (ends == [] || (ends[|ends| - 1].Found? && !Acceptable(ends[|ends| - 1].state))))
        || (ends != [] && ends[|ends| - 1].OutOfFuel?)
    {
      var currentEndState: Option<S> := None;
      nrIterationsPerformed := 0;
      ends := [];
      while true
        invariant |ends| == nrIterationsPerformed <= fuel
        invariant maximumNrIterations.Some? ==> nrIterationsPerformed <= Max(maximumNrIterations.value + 1, 0)
        invariant forall k :: 0 <= k < |ends| ==> MayClimbTo(supply(k), fuel, ends[k], distance, bestPossibleScore)
        invariant forall k :: 0 <= k < |ends| ==> ends[k].Found? && !Acceptable(ends[k].state)
        invariant currentEndState.None? <==> ends == []
        invariant currentEndState.Some? ==> ends[|ends| - 1] == Found(currentEndState.value)
        decreases fuel - nrIterationsPerformed
      {
        if CapExceeded(maximumNrIterations, nrIterationsPerformed) {
          return Returned(currentEndState), nrIterationsPerformed, ends;
        }
        if nrIterationsPerformed == fuel {
          return Unfinished, nrIterationsPerformed, ends;
        }
        var climbed := Climb(supply(nrIterationsPerformed), fuel);
        nrIterationsPerformed := nrIterationsPerformed + 1;
        ends := ends + [climbed];
        if climbed.OutOfFuel? {
          return Unfinished, nrIterationsPerformed, ends;
        }
        currentEndState := Some(climbed.state);
        if Acceptable(climbed.state) {
          return Returned(currentEndState), nrIterationsPerformed, ends;
        }
      }
    }

    /**
     * `run` with the cap test the field's documentation describes: never more runs than the cap,
     * and a cap of 0 or less returns null before any run.
     */
    method RunWithinCap(supply: nat -> S, fuel: nat)
      returns (outcome: RestartOutcome<S>, nrIterationsPerformed: nat, ghost ends: seq<SearchOutcome<S>>)
      ensures |ends| == nrIterationsPerformed <= fuel
      ensures maximumNrIterations.Some? ==> nrIterationsPerformed <= Max(maximumNrIterations.value, 0)
      ensures forall k :: 0 <= k < |ends| ==> MayClimbTo(supply(k), fuel, ends[k], distance, bestPossibleScore)
      ensures forall k :: 0 <= k < |ends| - 1 ==> ends[k].Found? && !Acceptable(ends[k].state)
      ensures outcome == Returned(None) <==> maximumNrIterations.Some? && maximumNrIterations.value <= 0
      ensures outcome == Returned(None) ==> nrIterationsPerformed == 0
      ensures outcome.Returned? && outcome.endState.Some? ==>
        && nrIterationsPerformed >= 1
        && ends[|ends| - 1] == Found(outcome.endState.value)
        && (Acceptable(outcome.endState.value) || (maximumNrIterations.Some? && nrIterationsPerformed == maximumNrIterations.value))
      ensures outcome.Returned? && maximumNrIterations.None? ==>
        outcome.endState.Some? && Acceptable(outcome.endState.value)
      ensures outcome.Unfinished? ==>
        || (nrIterationsPerformed == fuel && (ends == [] || (ends[|ends| - 1].Found? && !Acceptable(ends[|ends| - 1].state))))
        || (ends != [] && ends[|ends| - 1].OutOfFuel?)
    {
      var currentEndState: Option<S> := None;
      nrIterationsPerformed := 0;
      ends := [];
      while true
        invariant |ends| == nrIterationsPerformed <= fuel
        invariant maximumNrIterations.Some? ==> nrIterationsPerformed <= Max(maximumNrIterations.value, 0)
        invariant forall k :: 0 <= k < |ends| ==> MayClimbTo(supply(k), fuel, ends[k], distance, bestPossibleScore)
        invariant forall k :: 0 <= k < |ends| ==> ends[k].Found? && !Acceptable(ends[k].state)
        invariant currentEndState.None? <==> ends == []
        invariant currentEndState.Some? ==> ends[|ends| - 1] == Found(currentEndState.value)
        decreases fuel - nrIterationsPerformed
      {
        if CapReached(maximumNrIterations, nrIterationsPerformed) {
          return Returned(currentEndState), nrIterationsPerformed, ends;
        }
        if nrIterationsPerformed == fuel {
          return Unfinished, nrIterationsPerformed, ends;
        }
        var climbed := Climb(supply(nrIterationsPerformed), fuel);
        nrIterationsPerformed := nrIterationsPerformed + 1;
        ends := ends + [climbed];
        if climbed.OutOfFuel? {
          return Unfinished, nrIterationsPerformed, ends;
        }
        currentEndState := Some(climbed.state);
        if Acceptable(climbed.state) {
          return Returned(currentEndState), nrIterationsPerformed, ends;
        }
      }
    }
  }

  /**
   * The cap as written lets one run too many happen: with a cap of 0 the code still makes a run
   * (here from an optimal start state, which it returns), and the corrected loop makes none.
   */
  method CapAllowsOneRunTooMany() returns (asWritten: nat, withinCap: nat)
    ensures asWritten == 1 && withinCap == 0
  {
    var search := new RandomRestart((s: int) => [], (s: int) => 0.0, 0.0, Some(0), 0);
    var outcome, corrected;
    ghost var ends;
    outcome, asWritten, ends := search.Run((k: nat) => 7, 1);
    corrected, withinCap, ends := search.RunWithinCap((k: nat) => 7, 1);
  }
}
