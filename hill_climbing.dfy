/**
 * Single-state hill climbing (local/hillclimbing/AbstractHillClimbing.java) with its two
 * successor-selection strategies, stochastic (Stochastic.java) and simulated annealing
 * (SimulatedAnnealing.java), as a tag in one class.
 */
module HillClimbing {
  import opened Wrappers
  import opened Util
  import opened Core
  import opened Stochastic

  /** The successor-selection strategy of the subclass. */
  datatype Strategy =
    | StochasticSelection
    | SimulatedAnnealing(coolingRate: real)

  /** How `performStep` judges a selected successor against the current state. */
  datatype Verdict =
    | PlateauMove    // equal quality within the margin, and plateau moves remain
    | UphillMove     // strictly better quality
    | DownhillMove   // worse, and downhill moves are allowed
    | Rejected       // worse, and downhill moves are not allowed

  /** The classification in `performStep`, in the order of its branches. */
  function Classify(selected: real, current: real, plateauMoves: int, maximumPlateauMoves: int,
                    allowDownhillMoves: bool): Verdict
  {
    if EqualValue(selected, current) && plateauMoves < maximumPlateauMoves then PlateauMove
    else if selected > current then UphillMove
    else if allowDownhillMoves then DownhillMove
    else Rejected
  }

  /** The plateau counter after a verdict: incremented on a plateau move, reset uphill. */
  function NextPlateauMoves(verdict: Verdict, plateauMoves: int): int
  {
    match verdict
    case PlateauMove => plateauMoves + 1
    case UphillMove => 0
    case _ => plateauMoves
  }

  /**
   * What each verdict means. A plateau (or uphill) verdict is given only to an equal (or better)
   * successor; all downhill or rejected successors are worse; with downhill moves disabled every
   * accepted successor has quality at least the current one minus the margin.
   */
  lemma ClassifyMeaning(selected: real, current: real, plateauMoves: int, maximumPlateauMoves: int,
                        allowDownhillMoves: bool)
    ensures var v := Classify(selected, current, plateauMoves, maximumPlateauMoves, allowDownhillMoves);
      && (v == PlateauMove <==> Abs(selected - current) <= ErrorMarginForFloatComparison && plateauMoves < maximumPlateauMoves)
      && (v == UphillMove ==> selected > current)
      && (v == DownhillMove || v == Rejected ==> selected <= current)
      && (v == DownhillMove ==> allowDownhillMoves)
      && (v == Rejected <==> !allowDownhillMoves && selected <= current
                              && !(Abs(selected - current) <= ErrorMarginForFloatComparison && plateauMoves < maximumPlateauMoves))
      && (!allowDownhillMoves && v != Rejected ==> selected >= current - ErrorMarginForFloatComparison)
  {
    EqualValueDefaultMargin(selected, current);
    EqualValueWithinMeaning(selected, current, ErrorMarginForFloatComparison);
  }

  /** A counter that starts in [0, max(maximum, 0)] stays there, whatever the verdict. */
  lemma PlateauMovesStayBounded(selected: real, current: real, plateauMoves: int, maximumPlateauMoves: int,
                                allowDownhillMoves: bool)
    requires 0 <= plateauMoves <= Max(maximumPlateauMoves, 0)
    ensures var v := Classify(selected, current, plateauMoves, maximumPlateauMoves, allowDownhillMoves);
      0 <= NextPlateauMoves(v, plateauMoves) <= Max(maximumPlateauMoves, 0)
  {
  }

  /** Removing the element at `index` leaves the others: the multiset loses exactly that element. */
  lemma RemoveAt<S>(s: seq<S>, index: nat)
    requires index < |s|
    ensures multiset(s) == multiset(s[..index] + s[index + 1..]) + multiset{s[index]}
  {
    assert s == s[..index] + [s[index]] + s[index + 1..];
  }

  /** When every candidate has been drawn and rejected, none of them is better than the current state. */
  lemma RejectedAll<S>(possible: seq<S>, rejected: seq<S>, quality: S -> real, currentQuality: real)
    requires multiset(rejected) == multiset(possible)
    requires forall i :: 0 <= i < |rejected| ==> !(quality(rejected[i]) > currentQuality)
    ensures forall s :: s in possible ==> !(quality(s) > currentQuality)
  {
    forall s | s in possible
      ensures !(quality(s) > currentQuality)
    {
      assert s in multiset(rejected);
      var i :| 0 <= i < |rejected| && rejected[i] == s;
    }
  }

  /** No state of the walk is more than the margin worse than the one before it. */
  ghost predicate NeverMuchWorse<S>(trace: seq<S>, quality: S -> real)
  {
    forall i :: 0 <= i < |trace| - 1 ==> quality(trace[i + 1]) >= quality(trace[i]) - ErrorMarginForFloatComparison
  }

  /** A step that loses at most the margin extends such a walk. */
  lemma NeverMuchWorseSnoc<S>(trace: seq<S>, next: S, quality: S -> real)
    requires NeverMuchWorse(trace, quality) && trace != []
    requires quality(next) >= quality(trace[|trace| - 1]) - ErrorMarginForFloatComparison
    ensures NeverMuchWorse(trace + [next], quality)
  {
    var t := trace + [next];
    forall i | 0 <= i < |t| - 1
      ensures quality(t[i + 1]) >= quality(t[i]) - ErrorMarginForFloatComparison
    {
      if i < |trace| - 1 {
        assert t[i] == trace[i] && t[i + 1] == trace[i + 1];
      }
    }
  }

  /** The total fall in temperature after `draws` candidates have each lowered it by `coolingRate`. */
  function Cooling(draws: nat, coolingRate: real): real
  {
    if draws == 0 then 0.0 else Cooling(draws - 1, coolingRate) + coolingRate
  }

  /** The fall is linear in the number of draws. */
  lemma {:induction false} CoolingIsLinear(draws: nat, coolingRate: real)
    ensures Cooling(draws, coolingRate) == draws as real * coolingRate
  {
    if draws > 0 {
      CoolingIsLinear(draws - 1, coolingRate);
    }
  }

  class HillClimbing<S> {
    const successors: S -> seq<Action<S>>
    /** The heuristic's quality score; higher is better. */
    const quality: S -> real
    /** The heuristic's test for the best score it can give. */
    const isOptimal: real -> bool
    const strategy: Strategy
    const maximumNrPlateauMoves: int
    var currentState: S
    var currentNrPlateauMoves: int
    var allowDownhillMoves: bool
    /** The annealing temperature; unused by the stochastic strategy. */
    var temperature: real

    ghost predicate Valid()
      reads this
    {
      && 0 <= currentNrPlateauMoves <= Max(maximumNrPlateauMoves, 0)
      && (strategy.SimulatedAnnealing? ==> maximumNrPlateauMoves == 0 && allowDownhillMoves)
    }

    /** Stochastic hill climbing, which never takes downhill moves. */
    constructor Stochastic(startState: S, successors: S -> seq<Action<S>>, quality: S -> real,
                           isOptimal: real -> bool, maximumNrPlateauMoves: int)
      ensures Valid()
      ensures currentState == startState && currentNrPlateauMoves == 0 && !allowDownhillMoves
      ensures strategy == StochasticSelection && this.maximumNrPlateauMoves == maximumNrPlateauMoves
      ensures this.successors == successors && this.quality == quality && this.isOptimal == isOptimal
    {
      this.successors := successors;
      this.quality := quality;
      this.isOptimal := isOptimal;
      strategy := StochasticSelection;
      this.maximumNrPlateauMoves := maximumNrPlateauMoves;
      currentState := startState;
      currentNrPlateauMoves := 0;
      allowDownhillMoves := false;
      temperature := 0.0;
    }

    /** Simulated annealing: no plateau moves, temperature 1, downhill moves allowed. */
    constructor SimulatedAnnealing(startState: S, successors: S -> seq<Action<S>>, quality: S -> real,
                                   isOptimal: real -> bool, coolingRate: real)
      ensures Valid()
      ensures currentState == startState && currentNrPlateauMoves == 0
      ensures strategy == Strategy.SimulatedAnnealing(coolingRate) && maximumNrPlateauMoves == 0
      ensures temperature == 1.0 && allowDownhillMoves
      ensures this.successors == successors && this.quality == quality && this.isOptimal == isOptimal
    {
      this.successors := successors;
      this.quality := quality;
      this.isOptimal := isOptimal;
      strategy := Strategy.SimulatedAnnealing(coolingRate);
      maximumNrPlateauMoves := 0;
      currentState := startState;
      currentNrPlateauMoves := 0;
      allowDownhillMoves := true;
      temperature := 1.0;
    }

    /**
     * The stochastic `determineSuccessorState`: filter, weigh, accumulate, and draw an index. The
     * index the random draw and the binary search produce is modelled as any valid index into
     * the filtered list.
     */
    method SelectStochastically(possibleSuccessors: seq<S>) returns (r: Result<S>)
      ensures r.Failure? <==> NonDownhillMoves(possibleSuccessors, quality, quality(currentState)) == []
      ensures r.Failure? ==> r.error == NoSuchElement
      ensures r.Success? ==> r.value in NonDownhillMoves(possibleSuccessors, quality, quality(currentState))
      ensures r.Success? ==> r.value in possibleSuccessors && NotDownhill(quality(r.value), quality(currentState))
    {
      var nonDownhillMoves := NonDownhillMoves(possibleSuccessors, quality, quality(currentState));
      NonDownhillMovesMembers(possibleSuccessors, quality, quality(currentState));
      var weights := DetermineWeights(nonDownhillMoves, quality);
      if weights.Failure? {
        return Failure(weights.error);
      }
      var cumulativeScores := CumulativeScores(weights.value);
      var selectedStateIndex :| 0 <= selectedStateIndex < |nonDownhillMoves|;
      return Success(nonDownhillMoves[selectedStateIndex]);
    }

    /**
     * The annealing `determineSuccessorState`: until the list is empty, lower the temperature,
     * remove a random candidate, and accept it if it is better or a uniform draw in [0, 1) falls
     * below the temperature. `draws` counts the candidates removed.
     */
    method SelectByAnnealing(possibleSuccessors: seq<S>) returns (selected: Option<S>, ghost draws: nat)
      requires strategy.SimulatedAnnealing?
      modifies this`temperature
      ensures 0 <= draws <= |possibleSuccessors|
      ensures temperature == old(temperature) - Cooling(draws, strategy.coolingRate)
      ensures selected.None? ==>
        && draws == |possibleSuccessors|
        && forall s :: s in possibleSuccessors ==> !(quality(s) > quality(currentState))
      ensures selected.Some? ==>
        && draws >= 1
        && selected.value in possibleSuccessors
        && (quality(selected.value) > quality(currentState) || temperature > 0.0)
    {
      var remaining := possibleSuccessors;
      ghost var rejected: seq<S> := [];
      draws := 0;
      while true
        invariant draws == |rejected| && |remaining| + |rejected| == |possibleSuccessors|
        invariant multiset(remaining) + multiset(rejected) == multiset(possibleSuccessors)
        invariant temperature == old(temperature) - Cooling(draws, strategy.coolingRate)
        invariant forall i :: 0 <= i < |rejected| ==> !(quality(rejected[i]) > quality(currentState))
        decreases |remaining|
      {
        if remaining == [] {
          RejectedAll(possibleSuccessors, rejected, quality, quality(currentState));
          return None, draws;
        }
        temperature := temperature - strategy.coolingRate;
        var index :| 0 <= index < |remaining|;
        var candidate := remaining[index];
        RemoveAt(remaining, index);
        remaining := remaining[..index] + remaining[index + 1..];
        draws := draws + 1;
        var uniform: real :| 0.0 <= uniform < 1.0;
        if quality(candidate) > quality(currentState) || uniform < temperature {
          assert candidate in multiset(possibleSuccessors);
          return Some(candidate), draws;
        }
        rejected := rejected + [candidate];
      }
    }

    /**
     * What the strategy may have picked from the current state's successors: any successor (the
     * stochastic one only among those that are not downhill, annealing only one that is better or
     * drawn while the temperature was positive), or nothing, which only annealing returns, after
     * every successor was drawn and none was better.
     */
    ghost predicate IsSelection(selected: Option<S>)
      reads this
    {
      var possible := ResultingStates(successors(currentState));
      match selected
      case Some(s) =>
        && s in possible
        && (strategy.StochasticSelection? ==> s in NonDownhillMoves(possible, quality, quality(currentState)))
        && (strategy.SimulatedAnnealing? ==> quality(s) > quality(currentState) || temperature > 0.0)
      case None =>
        strategy.SimulatedAnnealing? && forall s :: s in possible ==> !(quality(s) > quality(currentState))
    }

    /** A selection ends the search when there is none, or when it is rejected at this counter. */
    ghost predicate EndsSearch(selected: Option<S>, plateauMoves: int)
      reads this
    {
      selected.None? ||
      Classify(quality(selected.value), quality(currentState), plateauMoves, maximumNrPlateauMoves,
               allowDownhillMoves) == Rejected
    }

    /** The stochastic strategy is asked to choose from the current state and finds no candidate. */
    ghost predicate Stuck()
      reads this
    {
      && !isOptimal(quality(currentState))
      && strategy.StochasticSelection?
      && NonDownhillMoves(ResultingStates(successors(currentState)), quality, quality(currentState)) == []
    }

    /**
     * `performStep`. `Success(None)` is the Java `null`: the current state is optimal, the
     * strategy found nothing, or the successor is worse and downhill moves are disallowed.
     * `Failure` is the exception the stochastic strategy throws on an empty filtered list.
     * `selected` is what the strategy picked (None when it was not asked or threw), and `draws`
     * how many candidates annealing drew, each lowering the temperature.
     */
    method PerformStep() returns (r: Result<Option<S>>, ghost selected: Option<S>, ghost draws: nat)
      requires Valid()
      modifies this`currentNrPlateauMoves, this`temperature
      ensures Valid()
      ensures isOptimal(quality(currentState)) ==>
        r == Success(None) && selected.None? && currentNrPlateauMoves == old(currentNrPlateauMoves)
        && temperature == old(temperature)
      ensures strategy.StochasticSelection? ==> temperature == old(temperature)
      ensures strategy.SimulatedAnnealing? ==>
        && temperature == old(temperature) - Cooling(draws, strategy.coolingRate)
        && draws <= |ResultingStates(successors(currentState))|
        && (isOptimal(quality(currentState)) ==> draws == 0)
        && (selected.None? && !isOptimal(quality(currentState)) ==> draws == |ResultingStates(successors(currentState))|)
      ensures r.Failure? <==> Stuck()
      ensures r.Failure? ==> r.error == NoSuchElement && selected.None?
      ensures r.Success? && !isOptimal(quality(currentState)) ==> IsSelection(selected)
      ensures r.Success? ==>
        r.value == if isOptimal(quality(currentState)) || EndsSearch(selected, old(currentNrPlateauMoves))
                   then None else Some(selected.value)
      ensures currentNrPlateauMoves ==
        if r.Success? && r.value.Some?
        then NextPlateauMoves(Classify(quality(selected.value), quality(currentState), old(currentNrPlateauMoves),
                                       maximumNrPlateauMoves, allowDownhillMoves), old(currentNrPlateauMoves))
        else old(currentNrPlateauMoves)
    {
      selected := None;
      draws := 0;
      if isOptimal(quality(currentState)) {
        return Success(None), selected, draws;
      }
      var possibleSuccessors := ResultingStates(successors(currentState));
      var selectedSuccessor: S;
      if strategy.StochasticSelection? {
        var selection := SelectStochastically(possibleSuccessors);
        if selection.Failure? {
          return Failure(selection.error), selected, draws;
        }
        selectedSuccessor := selection.value;
      } else {
        var selection;
        selection, draws := SelectByAnnealing(possibleSuccessors);
        if selection.None? {
          return Success(None), selected, draws;
        }
        selectedSuccessor := selection.value;
      }
      selected := Some(selectedSuccessor);
      var verdict := Classify(quality(selectedSuccessor), quality(currentState), currentNrPlateauMoves,
                              maximumNrPlateauMoves, allowDownhillMoves);
      PlateauMovesStayBounded(quality(selectedSuccessor), quality(currentState), currentNrPlateauMoves,
                              maximumNrPlateauMoves, allowDownhillMoves);
      if verdict == Rejected {
        return Success(None), selected, draws;
      }
      currentNrPlateauMoves := NextPlateauMoves(verdict, currentNrPlateauMoves);
      return Success(Some(selectedSuccessor)), selected, draws;
    }

    /**
     * `run`: replace the current state with each step's result until a step yields null, then
     * return the current state. At most `fuel` steps are taken. `trace` is the walk from the
     * start state to the final state; `lastSelected` is what the strategy picked in the step
     * that yielded null.
     */
    method Run(fuel: nat) returns (r: Result<SearchOutcome<S>>, ghost trace: seq<S>, ghost lastSelected: Option<S>)
      requires Valid()
      modifies this`currentState, this`currentNrPlateauMoves, this`temperature
      ensures Valid()
      ensures |trace| >= 1 && trace[0] == old(currentState) && trace[|trace| - 1] == currentState
      ensures IsWalk(trace, successors)
      ensures |trace| <= fuel + 1
      ensures r.Success? && r.value.Found? ==>
        && r.value.state == currentState
        && (isOptimal(quality(currentState)) ||
            (IsSelection(lastSelected) && EndsSearch(lastSelected, currentNrPlateauMoves)))
      ensures r.Success? && r.value.OutOfFuel? ==> |trace| == fuel + 1
      ensures r.Success? ==> r.value.Found? || r.value.OutOfFuel?
      ensures r.Failure? ==> Stuck()
      ensures r.Failure? ==> r.error == NoSuchElement
      ensures !allowDownhillMoves ==>
        NeverMuchWorse(trace, quality)
    {
      trace := [currentState];
      lastSelected := None;
      var steps := 0;
      while true
        invariant Valid()
        invariant 0 <= steps <= fuel && |trace| == steps + 1
        invariant trace[0] == old(currentState) && trace[|trace| - 1] == currentState
        invariant IsWalk(trace, successors)
        invariant allowDownhillMoves == old(allowDownhillMoves)
        invariant !allowDownhillMoves ==>
          NeverMuchWorse(trace, quality)
        decreases fuel - steps
      {
        if steps == fuel {
          return Success(OutOfFuel), trace, lastSelected;
        }
        ghost var plateauBefore := currentNrPlateauMoves;
        var nextState;
        ghost var draws;
        nextState, lastSelected, draws := PerformStep();
        if nextState.Failure? {
          return Failure(nextState.error), trace, lastSelected;
        }
        if nextState.value.None? {
          return Success(Found(currentState)), trace, lastSelected;
        }
        ClassifyMeaning(quality(nextState.value.value), quality(currentState), plateauBefore,
                        maximumNrPlateauMoves, allowDownhillMoves);
        if !allowDownhillMoves {
          NeverMuchWorseSnoc(trace, nextState.value.value, quality);
        }
        WalkSnoc(trace, nextState.value.value, successors);
        trace := trace + [nextState.value.value];
        currentState := nextState.value.value;
        steps := steps + 1;
      }
    }
  }
}
