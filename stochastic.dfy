/**
 * The successor selection of stochastic hill climbing (local/hillclimbing/Stochastic.java):
 * keep the successors that are not downhill, weight each by how far its quality lies above the
 * lowest quality kept, and draw one with probability proportional to its weight.
 */
module Stochastic {
  import opened Wrappers
  import opened Util

  /** A successor is not downhill when its quality is at least the current one minus the margin. */
  predicate NotDownhill(quality: real, currentQuality: real)
  {
    quality >= currentQuality - ErrorMarginForFloatComparison
  }

  /** The stream filter: the successors that are not downhill, in their original order. */
  function NonDownhillMoves<S>(states: seq<S>, quality: S -> real, currentQuality: real): (kept: seq<S>)
    ensures |kept| <= |states|
  {
    if states == [] then []
    else NonDownhillMoves(states[..|states| - 1], quality, currentQuality)
         + (if NotDownhill(quality(states[|states| - 1]), currentQuality) then [states[|states| - 1]] else [])
  }

  /** The filtered list holds exactly the successors that are not downhill. */
  lemma {:induction false} NonDownhillMovesMembers<S>(states: seq<S>, quality: S -> real, currentQuality: real)
    ensures forall i :: 0 <= i < |NonDownhillMoves(states, quality, currentQuality)| ==>
      var s := NonDownhillMoves(states, quality, currentQuality)[i];
      s in states && NotDownhill(quality(s), currentQuality)
    ensures forall i :: 0 <= i < |states| && NotDownhill(quality(states[i]), currentQuality) ==>
      states[i] in NonDownhillMoves(states, quality, currentQuality)
  {
    if states != [] {
      var init := states[..|states| - 1];
      NonDownhillMovesMembers(init, quality, currentQuality);
      assert states == init + [states[|states| - 1]];
      assert forall i :: 0 <= i < |init| ==> states[i] == init[i];
    }
  }

  /** When every successor is not downhill, the filter keeps the list as it is. */
  lemma {:induction false} NonDownhillMovesKeepsOrder<S>(states: seq<S>, quality: S -> real, currentQuality: real)
    requires forall i :: 0 <= i < |states| ==> NotDownhill(quality(states[i]), currentQuality)
    ensures NonDownhillMoves(states, quality, currentQuality) == states
  {
    if states != [] {
      var init := states[..|states| - 1];
      NonDownhillMovesKeepsOrder(init, quality, currentQuality);
      assert states == init + [states[|states| - 1]];
    }
  }

  /** The minimum of the qualities, `getAsDouble` of the stream's `min`. */
  function MinimalScore<S>(states: seq<S>, quality: S -> real): (m: real)
    requires states != []
    ensures forall i :: 0 <= i < |states| ==> m <= quality(states[i])
    ensures exists i :: 0 <= i < |states| && m == quality(states[i])
  {
    if |states| == 1 then quality(states[0])
    else
      var rest := MinimalScore(states[1..], quality);
      assert forall i :: 1 <= i < |states| ==> states[i] == states[1..][i - 1];
      if quality(states[0]) <= rest then quality(states[0]) else rest
  }

  /** The weight of each state: its quality minus the minimal quality of the list. */
  function Weights<S>(states: seq<S>, quality: S -> real): (weights: seq<real>)
    requires states != []
    ensures |weights| == |states|
  {
    seq(|states|, i requires 0 <= i < |states| => quality(states[i]) - MinimalScore(states, quality))
  }

  /**
   * The weights are what the class comment promises: non-negative, zero for a lowest-quality
   * state, and monotonic in quality.
   */
  lemma WeightsAreMonotonic<S>(states: seq<S>, quality: S -> real)
    requires states != []
    ensures forall i :: 0 <= i < |states| ==> Weights(states, quality)[i] >= 0.0
    ensures exists i :: 0 <= i < |states| && Weights(states, quality)[i] == 0.0
    ensures forall i, j :: 0 <= i < |states| && 0 <= j < |states| && quality(states[i]) <= quality(states[j]) ==>
      Weights(states, quality)[i] <= Weights(states, quality)[j]
  {
    var i :| 0 <= i < |states| && MinimalScore(states, quality) == quality(states[i]);
    assert Weights(states, quality)[i] == 0.0;
  }

  /**
   * `determineWeights`: one weight per state, in order. An empty list has no minimum, and
   * `getAsDouble` throws NoSuchElementException.
   */
  method DetermineWeights<S>(states: seq<S>, quality: S -> real) returns (r: Result<seq<real>>)
    ensures states == [] <==> r.Failure?
    ensures r.Failure? ==> r.error == NoSuchElement
    ensures r.Success? ==> states != [] && r.value == Weights(states, quality)
  {
    if states == [] {
      return Failure(NoSuchElement);
    }
    var minimalScore := MinimalScore(states, quality);
    var weights := [];
    var i := 0;
    while i < |states|
      invariant 0 <= i <= |states|
      invariant weights == Weights(states, quality)[..i]
    {
      weights := weights + [quality(states[i]) - minimalScore];
      i := i + 1;
    }
    return Success(weights);
  }

  /** The sum of the first `n` weights. */
  function PrefixSum(weights: seq<real>, n: nat): real
    requires n <= |weights|
  {
    if n == 0 then 0.0 else PrefixSum(weights, n - 1) + weights[n - 1]
  }

  /** The loop over the weights: entry `i` of the result is the sum of weights 0..i. */
  method CumulativeScores(weights: seq<real>) returns (cumulative: seq<real>)
    ensures |cumulative| == |weights|
    ensures forall i :: 0 <= i < |weights| ==> cumulative[i] == PrefixSum(weights, i + 1)
  {
    cumulative := [];
    var currentCumulativeScore := 0.0;
    var i := 0;
    while i < |weights|
      invariant 0 <= i <= |weights|
      invariant currentCumulativeScore == PrefixSum(weights, i)
      invariant |cumulative| == i
      invariant forall k :: 0 <= k < i ==> cumulative[k] == PrefixSum(weights, k + 1)
    {
      currentCumulativeScore := currentCumulativeScore + weights[i];
      cumulative := cumulative + [currentCumulativeScore];
      i := i + 1;
    }
  }

  /**
   * With non-negative weights the cumulative list is non-decreasing, starts at or above 0 and
   * never exceeds its last entry, the total weight.
   */
  lemma {:induction false} PrefixSumsAreMonotonic(weights: seq<real>, m: nat, n: nat)
    requires forall i :: 0 <= i < |weights| ==> weights[i] >= 0.0
    requires m <= n <= |weights|
    ensures 0.0 <= PrefixSum(weights, m) <= PrefixSum(weights, n)
    decreases n
  {
    if n == 0 {
    } else if m == n {
      PrefixSumsAreMonotonic(weights, m - 1, n - 1);
    } else {
      PrefixSumsAreMonotonic(weights, m, n - 1);
    }
  }
}
