/**
 * Tree-based breadth-first search (core/BreadthFirstTree.java): a FIFO frontier that is polled
 * at the head and extended at the tail, with no duplicate detection.
 */
module BreadthFirstTree {
  import opened Core

  class BreadthFirstTree<S> {
    /** The domain: the actions available in a state, and the goal test. */
    const successors: S -> seq<Action<S>>
    const isGoal: S -> bool
    /** The state the search started from. */
    ghost const start: S
    /** The states that have not yet been expanded, in queue order. */
    var frontier: seq<S>
    /** Every state polled so far, in polling order. */
    ghost var expanded: seq<S>

    /**
     * The queue discipline: what has been polled followed by what is still queued is exactly
     * the start state followed by the successors of the polled states, in expansion order.
     */
    ghost predicate Valid()
      reads this
    {
      expanded + frontier == [start] + Expansions(expanded, successors)
    }

    constructor (startState: S, successors: S -> seq<Action<S>>, isGoal: S -> bool)
      ensures Valid()
      ensures frontier == [startState] && expanded == []
      ensures this.start == startState && this.successors == successors && this.isGoal == isGoal
    {
      this.successors := successors;
      this.isGoal := isGoal;
      start := startState;
      frontier := [startState];
      expanded := [];
    }

    /** One poll: remove the head and append the resulting states of all its actions. */
    method Poll() returns (current: S)
      requires Valid() && frontier != []
      modifies this`frontier, this`expanded
      ensures Valid()
      ensures current == old(frontier[0]) && expanded == old(expanded) + [current]
      ensures frontier == old(frontier[1..]) + ResultingStates(successors(current))
    {
      current := frontier[0];
      PollAndExpand(start, expanded, expanded, frontier, successors);
      frontier := AppendResultingStates(frontier[1..], successors(current));
      expanded := expanded + [current];
    }

    /**
     * Runs at most `fuel` iterations of the do-while loop. Each iteration polls the head, appends
     * the resulting states of all its actions in order, and only then tests the polled state.
     */
    method Run(fuel: nat) returns (outcome: SearchOutcome<S>)
      requires Valid()
      modifies this`frontier, this`expanded
      ensures Valid()
      ensures |old(expanded)| <= |expanded| <= |old(expanded)| + fuel
      ensures expanded[..|old(expanded)|] == old(expanded)
      // no state polled before the last one in this run is a goal
      ensures forall i :: |old(expanded)| <= i < |expanded| - 1 ==> !isGoal(expanded[i])
      ensures outcome.Found? ==>
        |expanded| > |old(expanded)| && outcome.state == expanded[|expanded| - 1] && isGoal(outcome.state)
      ensures outcome.FrontierEmpty? ==>
        frontier == [] && (|expanded| > |old(expanded)| ==> !isGoal(expanded[|expanded| - 1]))
      ensures outcome.OutOfFuel? ==>
        |expanded| == |old(expanded)| + fuel && (fuel > 0 ==> !isGoal(expanded[|expanded| - 1]))
    {
      var polls := 0;
      while true
        invariant Valid()
        invariant 0 <= polls <= fuel
        invariant |expanded| == |old(expanded)| + polls
        invariant expanded[..|old(expanded)|] == old(expanded)
        invariant forall i :: |old(expanded)| <= i < |expanded| ==> !isGoal(expanded[i])
        decreases fuel - polls
      {
        if polls == fuel {
          return OutOfFuel;
        }
        if frontier == [] {
          return FrontierEmpty;
        }
        ghost var before := expanded;
        var current := Poll();
        assert expanded[..|before|] == before;
        polls := polls + 1;
        if isGoal(current) {
          return Found(current);
        }
      }
    }
  }

  /**
   * A goal start state is still expanded before it is tested: after the one iteration that
   * returns it, its successor is already queued.
   */
  method GoalStartIsExpanded() returns (outcome: SearchOutcome<int>, frontier: seq<int>)
    ensures outcome == Found(0)
    ensures frontier == [1]
  {
    var search := new BreadthFirstTree(0, (s: int) => [Action(s + 1, 1.0)], (s: int) => s == 0);
    outcome := search.Run(1);
    assert (search.expanded + search.frontier)[0] == 0;
    assert search.expanded == [0];
    assert search.successors(0) == [Action(1, 1.0)];
    assert ResultingStates([Action(1, 1.0)]) == [1];
    assert Expansions([0], search.successors) == [1];
    assert search.expanded + search.frontier == [0] + [1];
    assert search.frontier == (search.expanded + search.frontier)[1..];
    frontier := search.frontier;
  }

  /**
   * Without duplicate detection, value-equal states coexist in the frontier: a state whose two
   * actions both lead back to it is queued twice.
   */
  method DuplicatesAreKept() returns (frontier: seq<int>)
    ensures frontier == [7, 7]
  {
    var search := new BreadthFirstTree(7, (s: int) => [Action(s, 1.0), Action(s, 2.0)], (s: int) => false);
    var outcome := search.Run(1);
    assert (search.expanded + search.frontier)[0] == 7;
    assert search.expanded == [7];
    assert search.successors(7) == [Action(7, 1.0), Action(7, 2.0)];
    assert ResultingStates([Action(7, 1.0), Action(7, 2.0)]) == [7, 7];
    assert Expansions([7], search.successors) == [7, 7];
    assert search.expanded + search.frontier == [7] + [7, 7];
    assert search.frontier == (search.expanded + search.frontier)[1..];
    frontier := search.frontier;
  }
}
