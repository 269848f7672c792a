/**
 * The memoised heuristic (core/Heuristic.java). A state carries a cache slot for its distance
 * to the goal; the heuristic fills the slot the first time it is asked and afterwards only
 * reads it.
 */
module Heuristic {
  import opened Wrappers

  /** A state together with its cached heuristic distance (`null` in Java is `None`). */
  class ScoredState<S> {
    const value: S
    var heuristicDistanceFromGoal: Option<real>

    constructor (value: S)
      ensures this.value == value && heuristicDistanceFromGoal == None
    {
      this.value := value;
      heuristicDistanceFromGoal := None;
    }
  }

  class Heuristic<S> {
    /** `estimateDistanceToGoal`, the domain's estimator. */
    const estimate: S -> real
    /** `getBestPossibleScore`. */
    const bestPossibleScore: real
    /** How often the estimator has been consulted; it lets contracts say "at most once". */
    ghost var nrEstimates: nat

    constructor (estimate: S -> real, bestPossibleScore: real)
      ensures this.estimate == estimate && this.bestPossibleScore == bestPossibleScore
      ensures nrEstimates == 0
    {
      this.estimate := estimate;
      this.bestPossibleScore := bestPossibleScore;
      nrEstimates := 0;
    }

    /** A cache slot is consistent when it is empty or holds this heuristic's estimate. */
    ghost predicate Consistent(state: ScoredState<S>)
      reads state
    {
      state.heuristicDistanceFromGoal.Some? ==>
        state.heuristicDistanceFromGoal.value == estimate(state.value)
    }

    /** `determineEstimatedDistanceToGoal`: compute once, store on the state, return the stored value. */
    method DetermineEstimatedDistanceToGoal(state: ScoredState<S>) returns (distance: real)
      modifies this`nrEstimates, state
      ensures old(state.heuristicDistanceFromGoal).None? ==>
        distance == estimate(state.value) && nrEstimates == old(nrEstimates) + 1
      ensures old(state.heuristicDistanceFromGoal).Some? ==>
        distance == old(state.heuristicDistanceFromGoal).value && nrEstimates == old(nrEstimates)
      ensures state.heuristicDistanceFromGoal == Some(distance)
      ensures old(Consistent(state)) ==> distance == estimate(state.value) && Consistent(state)
    {
      if state.heuristicDistanceFromGoal == None {
        nrEstimates := nrEstimates + 1;
        state.heuristicDistanceFromGoal := Some(estimate(state.value));
      }
      distance := state.heuristicDistanceFromGoal.value;
    }

    /** Asking twice gives the same answer and consults the estimator at most once. */
    method DetermineTwice(state: ScoredState<S>) returns (first: real, second: real)
      modifies this`nrEstimates, state
      ensures first == second
      ensures state.heuristicDistanceFromGoal == Some(first)
      ensures nrEstimates <= old(nrEstimates) + 1
    {
      first := DetermineEstimatedDistanceToGoal(state);
      second := DetermineEstimatedDistanceToGoal(state);
    }
  }
}
