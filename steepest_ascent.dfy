/**
 * Steepest-ascent hill climbing (local/hillclimbing/SteepestAscent.java). Scores are distances
 * to the goal, so lower is better. The shuffle of the successor list is any permutation of it.
 */
module SteepestAscent {
  import opened Wrappers
  import opened Util
  import opened Core

  /**
   * The scan over the shuffled successors: starting from `start`, every successor whose distance
   * is at most the running state's becomes the running state. Ties therefore go to the later
   * successor.
   */
  function Scan<S>(start: S, order: seq<S>, distance: S -> real): S
  {
    if order == [] then start
    else
      var running := Scan(start, order[..|order| - 1], distance);
      if distance(order[|order| - 1]) <= distance(running) then order[|order| - 1] else running
  }

  /**
   * The scan ends in the start state or one of the successors, no farther from the goal than the
   * start state or any successor.
   */
  lemma {:induction false} ScanIsClosest<S>(start: S, order: seq<S>, distance: S -> real)
    ensures var r := Scan(start, order, distance);
      && (r == start || r in order)
      && distance(r) <= distance(start)
      && forall i :: 0 <= i < |order| ==> distance(r) <= distance(order[i])
  {
    if order != [] {
      var init := order[..|order| - 1];
      ScanIsClosest(start, init, distance);
      assert forall i :: 0 <= i < |init| ==> order[i] == init[i];
    }
  }

  /**
   * Which state the scan picks: the start state when every successor is strictly farther, and
   * otherwise a successor at most as far as the start after which every successor is strictly
   * farther, which is the last of the closest successors.
   */
  lemma {:induction false} ScanPicksLastClosest<S>(start: S, order: seq<S>, distance: S -> real)
    ensures var r := Scan(start, order, distance);
      || (r == start && forall j :: 0 <= j < |order| ==> distance(order[j]) > distance(start))
      || exists i :: 0 <= i < |order| && r == order[i] && distance(order[i]) <= distance(start)
                     && forall j :: i < j < |order| ==> distance(order[j]) > distance(order[i])
  {
    if order != [] {
      var init := order[..|order| - 1];
      var last := order[|order| - 1];
      ScanPicksLastClosest(start, init, distance);
      ScanIsClosest(start, init, distance);
      var running := Scan(start, init, distance);
      assert forall j :: 0 <= j < |init| ==> order[j] == init[j];
      if distance(last) <= distance(running) {
        assert Scan(start, order, distance) == order[|order| - 1];
      } else if running == start && forall j :: 0 <= j < |init| ==> distance(init[j]) > distance(start) {
      } else {
        var i :| 0 <= i < |init| && running == init[i] && distance(init[i]) <= distance(start)
                 && forall j :: i < j < |init| ==> distance(init[j]) > distance(init[i]);
        assert forall j :: i < j < |order| ==> distance(order[j]) > distance(order[i]);
      }
    }
  }

  /** The order of the shuffle does not change how close the scan gets. */
  lemma ScanDistanceIgnoresOrder<S>(start: S, order1: seq<S>, order2: seq<S>, distance: S -> real)
    requires multiset(order1) == multiset(order2)
    ensures distance(Scan(start, order1, distance)) == distance(Scan(start, order2, distance))
  {
    ScanIsClosest(start, order1, distance);
    ScanIsClosest(start, order2, distance);
    var r1 := Scan(start, order1, distance);
    var r2 := Scan(start, order2, distance);
    if r1 != start {
      assert r1 in multiset(order2);
    }
    if r2 != start {
      assert r2 in multiset(order1);
    }
  }

  /** How a step ends, in the order of the branches after the scan. */
  datatype StepVerdict = Closer | Plateau | Stop

  function Judge(startDistance: real, newDistance: real, plateauMoves: int, maximumPlateauMoves: int): StepVerdict
  {
    if startDistance > newDistance then Closer
    else if EqualValue(startDistance, newDistance) && plateauMoves < maximumPlateauMoves then Plateau
    else Stop
  }

  /**
   * After a scan the new distance is never larger, so a step stops only when the scan found no
   * strictly closer state: either the plateau budget is spent or the margin test fails, which
   * after a scan cannot happen.
   */
  lemma JudgeAfterScan(startDistance: real, newDistance: real, plateauMoves: int, maximumPlateauMoves: int)
    requires newDistance <= startDistance
    ensures Judge(startDistance, newDistance, plateauMoves, maximumPlateauMoves) == Stop <==>
      newDistance == startDistance && plateauMoves >= maximumPlateauMoves
    ensures Judge(startDistance, newDistance, plateauMoves, maximumPlateauMoves) == Plateau <==>
      newDistance == startDistance && plateauMoves < maximumPlateauMoves
  {
    EqualValueDefaultMargin(startDistance, newDistance);
    EqualValueWithinMeaning(startDistance, newDistance, ErrorMarginForFloatComparison);
  }

  /** The state the current state may become in one step: itself or one of its successors. */
  ghost predicate StepsTo<S>(from: S, to: S, successors: S -> seq<Action<S>>)
  {
    to == from || to in ResultingStates(successors(from))
  }

  class SteepestAscent<S(==)> {
    const successors: S -> seq<Action<S>>
    /** `determineEstimatedDistanceToGoal`, with the cached value always equal to it. */
    const distance: S -> real
    /** `getBestPossibleScore`. */
    const bestPossibleScore: real
    const maximumNrPlateauMoves: int
    var currentState: S
    var currentNrPlateauMoves: int

    /** The two-argument constructor; the plateau budget keeps Java's default of 0. */
    constructor (startState: S, successors: S -> seq<Action<S>>, distance: S -> real, bestPossibleScore: real)
      ensures currentState == startState && currentNrPlateauMoves == 0 && maximumNrPlateauMoves == 0
      ensures this.successors == successors && this.distance == distance
      ensures this.bestPossibleScore == bestPossibleScore
    {
      this.successors := successors;
      this.distance := distance;
      this.bestPossibleScore := bestPossibleScore;
      maximumNrPlateauMoves := 0;
      currentState := startState;
      currentNrPlateauMoves := 0;
    }

    /** The three-argument constructor. */
    constructor WithPlateauMoves(startState: S, successors: S -> seq<Action<S>>, distance: S -> real,
                                 bestPossibleScore: real, maximumNrPlateauMoves: int)
      ensures currentState == startState && currentNrPlateauMoves == 0
      ensures this.maximumNrPlateauMoves == maximumNrPlateauMoves
      ensures this.successors == successors && this.distance == distance
      ensures this.bestPossibleScore == bestPossibleScore
    {
      this.successors := successors;
      this.distance := distance;
      this.bestPossibleScore := bestPossibleScore;
      this.maximumNrPlateauMoves := maximumNrPlateauMoves;
      currentState := startState;
      currentNrPlateauMoves := 0;
    }

    /** Whether the current state's distance equals the best possible score within the margin. */
    predicate IsOptimal(state: S)
    {
      EqualValue(distance(state), bestPossibleScore)
    }

    /** The loop over the shuffled successors, which reassigns the current state as it goes. */
    method ScanSuccessors(order: seq<S>)
      modifies this`currentState
      ensures currentState == Scan(old(currentState), order, distance)
    {
      var i := 0;
      while i < |order|
        invariant 0 <= i <= |order|
        invariant currentState == Scan(old(currentState), order[..i], distance)
      {
        assert order[..i + 1][..i] == order[..i];
        if distance(order[i]) <= distance(currentState) {
          currentState := order[i];
        }
        i := i + 1;
      }
      assert order[..i] == order;
    }

    /**
     * `performStep`. `Some` is the returned state, `None` the Java `null`. As in the Java code the
     * scan assigns the current state itself, so a step that returns null may still have moved
     * the current state to an equally close successor. `order` is the shuffled successor list.
     */
    method PerformStep() returns (next: Option<S>, ghost order: seq<S>)
      modifies this`currentState, this`currentNrPlateauMoves
      ensures IsOptimal(old(currentState)) ==>
        next == None && currentState == old(currentState) && currentNrPlateauMoves == old(currentNrPlateauMoves)
      ensures !IsOptimal(old(currentState)) ==>
        && multiset(order) == multiset(ResultingStates(successors(old(currentState))))
        && currentState == Scan(old(currentState), order, distance)
        && var verdict := Judge(distance(old(currentState)), distance(currentState),
                                old(currentNrPlateauMoves), maximumNrPlateauMoves);
           && (verdict == Closer ==> next == Some(currentState) && currentNrPlateauMoves == 0)
           && (verdict == Plateau ==> next == Some(currentState) && currentNrPlateauMoves == old(currentNrPlateauMoves) + 1)
           && (verdict == Stop ==> next == None && currentNrPlateauMoves == old(currentNrPlateauMoves))
    {
      order := [];
      if IsOptimal(currentState) {
        return None, order;
      }
      var currentDistance := distance(currentState);
      var successorStates := ResultingStates(successors(currentState));
      var shuffled :| multiset(shuffled) == multiset(successorStates);
      order := shuffled;
      ScanSuccessors(shuffled);
      if currentDistance > distance(currentState) {
        currentNrPlateauMoves := 0;
        return Some(currentState), order;
      } else if EqualValue(currentDistance, distance(currentState)) && currentNrPlateauMoves < maximumNrPlateauMoves {
        currentNrPlateauMoves := currentNrPlateauMoves + 1;
        return Some(currentState), order;
      } else {
        return None, order;
      }
    }

    /**
     * How a step that returns null leaves the current state `to`, from the state `from` the step
     * started at: optimal and untouched, or exactly as far as `from`, no farther than any of its
     * successors, with the plateau budget spent.
     */
    ghost predicate Stopped(from: S, to: S, plateauMoves: int)
    {
      || (IsOptimal(to) && to == from)
      || (&& distance(to) == distance(from)
          && plateauMoves >= maximumNrPlateauMoves
          && forall s :: s in ResultingStates(successors(from)) ==> distance(to) <= distance(s))
    }

    /** Every state of `trace` is the previous one or a successor of it, and no farther from the goal. */
    ghost predicate IsDescent(trace: seq<S>)
    {
      forall i :: 0 <= i < |trace| - 1 ==>
        StepsTo(trace[i], trace[i + 1], successors) && distance(trace[i + 1]) <= distance(trace[i])
    }

    /** A step, with what the scan lemmas say about it. */
    method Step() returns (next: Option<S>)
      modifies this`currentState, this`currentNrPlateauMoves
      ensures StepsTo(old(currentState), currentState, successors)
      ensures distance(currentState) <= distance(old(currentState))
      ensures next.Some? ==> next.value == currentState
      ensures next.None? ==> Stopped(old(currentState), currentState, currentNrPlateauMoves)
      ensures IsOptimal(old(currentState)) ==> next.None? && currentState == old(currentState)
    {
      ghost var stepStart := currentState;
      ghost var plateauBefore := currentNrPlateauMoves;
      ghost var order;
      next, order := PerformStep();
      if !IsOptimal(stepStart) {
        ScanIsClosest(stepStart, order, distance);
        JudgeAfterScan(distance(stepStart), distance(currentState), plateauBefore, maximumNrPlateauMoves);
        ResultingStatesOfPermutation(order, ResultingStates(successors(stepStart)));
      }
    }

    /**
     * `run`: step until a step returns null; at most `fuel` steps. `trace` holds the current
     * state at the start of every step; the final current state is that of the last step or one
     * it stepped to. No step moves farther from the goal, and a run that stops ends optimal, or
     * at a state no farther than any successor of the last step's start and exactly as far.
     */
    method Run(fuel: nat) returns (outcome: SearchOutcome<S>, ghost trace: seq<S>)
      modifies this`currentState, this`currentNrPlateauMoves
      ensures 1 <= |trace| <= fuel + 1 && trace[0] == old(currentState)
      ensures IsDescent(trace)
      ensures StepsTo(trace[|trace| - 1], currentState, successors)
      ensures distance(currentState) <= distance(old(currentState))
      ensures outcome.OutOfFuel? ==> currentState == trace[|trace| - 1] && |trace| == fuel + 1
      ensures IsOptimal(old(currentState)) && fuel > 0 ==> outcome == Found(old(currentState))
      ensures !outcome.FrontierEmpty?
      ensures outcome.Found? ==>
        outcome.state == currentState && Stopped(trace[|trace| - 1], currentState, currentNrPlateauMoves)
    {
      trace := [currentState];
      var steps := 0;
      while true
        invariant 0 <= steps <= fuel && |trace| == steps + 1
        invariant trace[0] == old(currentState) && trace[|trace| - 1] == currentState
        invariant IsDescent(trace)
        invariant distance(currentState) <= distance(old(currentState))
        invariant IsOptimal(old(currentState)) ==> steps == 0
        decreases fuel - steps
      {
        if steps == fuel {
          return OutOfFuel, trace;
        }
        ghost var stepStart := currentState;
        var nextState := Step();
        if nextState.None? {
          return Found(currentState), trace;
        }
        DescentSnoc(trace, currentState);
        trace := trace + [currentState];
        steps := steps + 1;
      }
    }

    /** A descent extended by a step from its last state is a descent. */
    lemma DescentSnoc(trace: seq<S>, next: S)
      requires IsDescent(trace) && trace != []
      requires StepsTo(trace[|trace| - 1], next, successors) && distance(next) <= distance(trace[|trace| - 1])
      ensures IsDescent(trace + [next])
    {
      var t := trace + [next];
      forall i | 0 <= i < |t| - 1
        ensures StepsTo(t[i], t[i + 1], successors) && distance(t[i + 1]) <= distance(t[i])
      {
        if i < |trace| - 1 {
          assert t[i] == trace[i] && t[i + 1] == trace[i + 1];
        }
      }
    }
  }

  /** Two lists with the same elements have the same members. */
  lemma ResultingStatesOfPermutation<S>(order: seq<S>, states: seq<S>)
    requires multiset(order) == multiset(states)
    ensures forall s :: s in order <==> s in states
  {
    forall s
      ensures s in order <==> s in states
    {
      assert s in order <==> s in multiset(order);
      assert s in states <==> s in multiset(states);
    }
  }
}
