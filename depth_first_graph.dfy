/**
 * Graph-based "depth-first" search (core/DepthFirstGraph.java). The start state is pushed on an
 * ArrayDeque, states are popped from its head and successors are appended at its tail with
 * `add`, so the frontier is in fact a FIFO queue. A popped state that is already in the explored
 * set is not expanded again; states are compared by value, as the HashSet does.
 */
module DepthFirstGraph {
  import opened Core

  class DepthFirstGraph<S(==)> {
    const successors: S -> seq<Action<S>>
    const isGoal: S -> bool
    ghost const start: S
    /** The states that have been encountered but not yet popped, head first. */
    var frontier: seq<S>
    /** The states that have been expanded. */
    var explored: set<S>
    /** Every state popped so far, expanded or skipped, in popping order. */
    ghost var popped: seq<S>
    /** The states expanded so far, in expansion order. */
    ghost var expanded: seq<S>
    /** For each pop, whether it expanded the popped state (false: it was already explored). */
    ghost var expandedOnPop: seq<bool>

    ghost predicate Valid()
      reads this
    {
      Invariant(start, successors, frontier, explored, popped, expanded, expandedOnPop)
    }

    constructor (startState: S, successors: S -> seq<Action<S>>, isGoal: S -> bool)
      ensures Valid()
      ensures frontier == [startState] && explored == {}
      ensures popped == [] && expanded == [] && expandedOnPop == []
      ensures this.start == startState && this.successors == successors && this.isGoal == isGoal
    {
      this.successors := successors;
      this.isGoal := isGoal;
      start := startState;
      frontier := [startState];
      explored := {};
      popped := [];
      expanded := [];
      expandedOnPop := [];
    }

    /**
     * One pass through the body of the do-while loop: pop the head; expand it unless it is
     * already explored; report whether it is a goal (the loop condition, which `continue` also
     * reaches).
     */
    method Step() returns (current: S)
      requires Valid() && frontier != []
      modifies this`frontier, this`explored, this`popped, this`expanded, this`expandedOnPop
      ensures Valid()
      ensures current == old(frontier[0]) && popped == old(popped) + [current]
      ensures expandedOnPop == old(expandedOnPop) + [current !in old(explored)]
      ensures current in old(explored) ==>
        frontier == old(frontier[1..]) && explored == old(explored) && expanded == old(expanded)
      ensures current !in old(explored) ==>
        && frontier == old(frontier[1..]) + ResultingStates(successors(current))
        && explored == old(explored) + {current}
        && expanded == old(expanded) + [current]
    {
      current := frontier[0];
      if current in explored {
        SkipHead();
      } else {
        ExpandHead();
      }
    }

    /** Pops an already explored head: `explored.add` fails and the expansion is skipped. */
    method SkipHead()
      requires Valid() && frontier != [] && frontier[0] in explored
      modifies this`frontier, this`popped, this`expandedOnPop
      ensures Valid()
      ensures popped == old(popped) + [old(frontier[0])] && frontier == old(frontier[1..])
      ensures expandedOnPop == old(expandedOnPop) + [false]
    {
      SkipKeepsInvariant(start, successors, frontier, explored, popped, expanded, expandedOnPop);
      popped := popped + [frontier[0]];
      frontier := frontier[1..];
      expandedOnPop := expandedOnPop + [false];
    }

    /** Pops a head not yet explored, records it as explored and queues its successors. */
    method ExpandHead()
      requires Valid() && frontier != [] && frontier[0] !in explored
      modifies this`frontier, this`explored, this`popped, this`expanded, this`expandedOnPop
      ensures Valid()
      ensures popped == old(popped) + [old(frontier[0])] && expanded == old(expanded) + [old(frontier[0])]
      ensures explored == old(explored) + {old(frontier[0])}
      ensures frontier == old(frontier[1..]) + ResultingStates(successors(old(frontier[0])))
      ensures expandedOnPop == old(expandedOnPop) + [true]
    {
      var current := frontier[0];
      ExpandKeepsInvariant(start, successors, frontier, explored, popped, expanded, expandedOnPop);
      popped := popped + [current];
      explored := explored + {current};
      frontier := AppendResultingStates(frontier[1..], successors(current));
      expanded := expanded + [current];
      expandedOnPop := expandedOnPop + [true];
    }

    /** Runs at most `fuel` iterations of the do-while loop. */
    method Run(fuel: nat) returns (outcome: SearchOutcome<S>)
      requires Valid()
      modifies this`frontier, this`explored, this`popped, this`expanded, this`expandedOnPop
      ensures Valid()
      ensures |old(popped)| <= |popped| <= |old(popped)| + fuel
      ensures popped[..|old(popped)|] == old(popped)
      ensures old(explored) <= explored
      // the explored set grows by one for exactly the pops that expand
      ensures |explored| - |old(explored)| == |expanded| - |old(expanded)| <= |popped| - |old(popped)|
      ensures forall i :: |old(popped)| <= i < |popped| - 1 ==> !isGoal(popped[i])
      ensures outcome.Found? ==>
        |popped| > |old(popped)| && outcome.state == popped[|popped| - 1] && isGoal(outcome.state)
      ensures outcome.FrontierEmpty? ==> frontier == []
      ensures outcome.OutOfFuel? ==> |popped| == |old(popped)| + fuel
    {
      var polls := 0;
      while true
        invariant Valid()
        invariant 0 <= polls <= fuel
        invariant |popped| == |old(popped)| + polls
        invariant popped[..|old(popped)|] == old(popped)
        invariant old(explored) <= explored
        invariant |explored| - |old(explored)| == |expanded| - |old(expanded)| <= polls
        invariant forall i :: |old(popped)| <= i < |popped| ==> !isGoal(popped[i])
        decreases fuel - polls
      {
        if polls == fuel {
          return OutOfFuel;
        }
        if frontier == [] {
          return FrontierEmpty;
        }
        ghost var before := popped;
        var current := Step();
        assert popped[..|before|] == before;
        polls := polls + 1;
        if isGoal(current) {
          return Found(current);
        }
      }
    }
  }

  /**
   * The state of a run: the FIFO discipline over the expanded states, the explored set matching
   * the expansions, and the expansions being the popped states whose pop expanded them.
   */
  ghost predicate Invariant<S>(start: S, successors: S -> seq<Action<S>>, frontier: seq<S>, explored: set<S>,
                               popped: seq<S>, expanded: seq<S>, expandedOnPop: seq<bool>)
  {
    && popped + frontier == [start] + Expansions(expanded, successors)
    && ExploredMatches(explored, expanded)
    && |expandedOnPop| == |popped|
    && expanded == Kept(popped, expandedOnPop)
  }

  lemma SkipKeepsInvariant<S>(start: S, successors: S -> seq<Action<S>>, frontier: seq<S>, explored: set<S>,
                              popped: seq<S>, expanded: seq<S>, expandedOnPop: seq<bool>)
    requires Invariant(start, successors, frontier, explored, popped, expanded, expandedOnPop)
    requires frontier != [] && frontier[0] in explored
    ensures Invariant(start, successors, frontier[1..], explored, popped + [frontier[0]], expanded,
                      expandedOnPop + [false])
  {
    PollOnly(start, popped, expanded, frontier, successors);
    KeptSnoc(popped, expandedOnPop, frontier[0], false);
  }

  lemma ExpandKeepsInvariant<S>(start: S, successors: S -> seq<Action<S>>, frontier: seq<S>, explored: set<S>,
                                popped: seq<S>, expanded: seq<S>, expandedOnPop: seq<bool>)
    requires Invariant(start, successors, frontier, explored, popped, expanded, expandedOnPop)
    requires frontier != [] && frontier[0] !in explored
    ensures Invariant(start, successors, frontier[1..] + ResultingStates(successors(frontier[0])),
                      explored + {frontier[0]}, popped + [frontier[0]], expanded + [frontier[0]],
                      expandedOnPop + [true])
  {
    PollAndExpand(start, popped, expanded, frontier, successors);
    ExploringKeepsMatch(explored, expanded, frontier[0]);
    KeptSnoc(popped, expandedOnPop, frontier[0], true);
  }

  lemma KeptSnoc<S>(popped: seq<S>, flags: seq<bool>, s: S, flag: bool)
    requires |flags| == |popped|
    ensures Kept(popped + [s], flags + [flag]) == Kept(popped, flags) + (if flag then [s] else [])
  {
    assert (popped + [s])[..|popped|] == popped;
    assert (flags + [flag])[..|flags|] == flags;
  }

  /**
   * The explored set is exactly the set of expanded states, each state is expanded at most
   * once, and the set's size is the number of expansions.
   */
  ghost predicate ExploredMatches<S>(explored: set<S>, expanded: seq<S>)
  {
    && (forall i :: 0 <= i < |expanded| ==> expanded[i] in explored)
    && (forall i, j :: 0 <= i < j < |expanded| ==> expanded[i] != expanded[j])
    && |explored| == |expanded|
  }

  lemma ExploringKeepsMatch<S>(explored: set<S>, expanded: seq<S>, current: S)
    requires ExploredMatches(explored, expanded)
    requires current !in explored
    ensures ExploredMatches(explored + {current}, expanded + [current])
  {
    var e := expanded + [current];
    assert forall i :: 0 <= i < |expanded| ==> e[i] == expanded[i];
  }

  /** The popped states whose flag is set, in popping order. */
  function Kept<S>(popped: seq<S>, flags: seq<bool>): (kept: seq<S>)
    requires |flags| == |popped|
    ensures |kept| <= |popped|
  {
    if popped == [] then []
    else Kept(popped[..|popped| - 1], flags[..|flags| - 1])
         + (if flags[|flags| - 1] then [popped[|popped| - 1]] else [])
  }

  /** Every kept state is one of the popped states. */
  lemma {:induction false} KeptWerePopped<S>(popped: seq<S>, flags: seq<bool>)
    requires |flags| == |popped|
    ensures forall s :: s in Kept(popped, flags) ==> s in popped
  {
    if popped != [] {
      var p, f := popped[..|popped| - 1], flags[..|flags| - 1];
      KeptWerePopped(p, f);
      assert popped == p + [popped[|popped| - 1]];
    }
  }

  /** The distinct elements of a sequence. */
  function Elements<S>(s: seq<S>): (r: set<S>)
    ensures forall i :: 0 <= i < |s| ==> s[i] in r
    ensures forall x :: x in r ==> x in s
  {
    if s == [] then {} else Elements(s[..|s| - 1]) + {s[|s| - 1]}
  }

  /** A sequence without repetitions has as many distinct elements as it has entries. */
  lemma {:induction false} ElementsOfDistinct<S>(s: seq<S>)
    requires forall i, j :: 0 <= i < j < |s| ==> s[i] != s[j]
    ensures |Elements(s)| == |s|
  {
    if s != [] {
      var init := s[..|s| - 1];
      ElementsOfDistinct(init);
      assert s[|s| - 1] !in Elements(init);
    }
  }

  /** The explored set holds nothing but expanded states. */
  lemma ExploredWereExpanded<S>(explored: set<S>, expanded: seq<S>)
    requires ExploredMatches(explored, expanded)
    ensures forall s :: s in explored ==> s in expanded
  {
    ElementsOfDistinct(expanded);
    assert Elements(expanded) <= explored;
    assert explored - Elements(expanded) == {} by {
      assert |explored - Elements(expanded)| == |explored| - |Elements(expanded)|;
    }
  }

  /** The explored set is always a subset of the states popped so far. */
  lemma ExploredWerePopped<S>(search: DepthFirstGraph<S>)
    requires search.Valid()
    ensures forall s :: s in search.explored ==> s in search.popped
  {
    ExploredWereExpanded(search.explored, search.expanded);
    KeptWerePopped(search.popped, search.expandedOnPop);
  }

  /**
   * The frontier is FIFO: from 0, whose actions lead to 1 and then 2, the second pop is 1 (the
   * oldest entry), not 2 as a stack would give.
   */
  method PopsInInsertionOrder() returns (first: int, second: int)
    ensures first == 0 && second == 1
  {
    var search := new DepthFirstGraph(0, (s: int) => if s == 0 then [Action(1, 1.0), Action(2, 1.0)] else [],
                                      (s: int) => s != 0);
    first := search.Step();
    assert search.successors(0) == [Action(1, 1.0), Action(2, 1.0)];
    assert ResultingStates([Action(1, 1.0), Action(2, 1.0)]) == [1, 2];
    second := search.Step();
  }

  /**
   * A state reached again is not expanded a second time: on a self-loop, the second pop finds 5
   * explored, so the explored set stays {5} and nothing is queued.
   */
  method ExploredStatesAreSkipped() returns (explored: set<int>, frontier: seq<int>)
    ensures explored == {5}
    ensures frontier == []
  {
    var search := new DepthFirstGraph(5, (s: int) => [Action(s, 1.0)], (s: int) => false);
    var first := search.Step();
    assert search.successors(5) == [Action(5, 1.0)];
    assert ResultingStates([Action(5, 1.0)]) == [5];
    var second := search.Step();
    explored := search.explored;
    frontier := search.frontier;
  }
}
