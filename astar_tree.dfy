/**
 * Tree-based A* (path/AStarTree.java). The PriorityQueue is a multiset of scored nodes, and
 * `poll` takes any node whose key is minimal; ties are broken arbitrarily, as the queue does.
 */
module AStarTree {
  import opened Wrappers
  import opened Core

  /** A queued state with the cost and quality score written onto it. */
  datatype Node<S> = Node(state: S, cost: real, qualityScore: real)

  /** The heuristic cost that orders the frontier: cost plus the negated quality score. */
  function Key<S>(n: Node<S>): real
  {
    n.cost + -n.qualityScore
  }

  /** The comparator of the priority queue: the sign of the difference of the two keys. */
  function Compare<S>(n1: Node<S>, n2: Node<S>): (r: int)
    ensures r == -1 <==> Key(n1) < Key(n2)
    ensures r == 0 <==> Key(n1) == Key(n2)
    ensures r == 1 <==> Key(n1) > Key(n2)
  {
    var difference := Key(n1) - Key(n2);
    if difference < 0.0 then -1
    else if difference > 0.0 then 1
    else 0
  }

  /** The comparator is antisymmetric, transitive and total, so it orders the queue consistently. */
  lemma CompareIsTotalPreorder<S>(a: Node<S>, b: Node<S>, c: Node<S>)
    ensures Compare(a, b) == -Compare(b, a)
    ensures Compare(a, b) <= 0 && Compare(b, c) <= 0 ==> Compare(a, c) <= 0
    ensures Compare(a, b) <= 0 || Compare(b, a) <= 0
  {
  }

  /** `n` may be returned by `poll`: it is queued and no queued node has a smaller key. */
  predicate IsMinimal<S(==)>(n: Node<S>, frontier: multiset<Node<S>>)
  {
    n in frontier && forall m :: m in frontier ==> Key(n) <= Key(m)
  }

  /** A non-empty queue always has a node that `poll` can return. */
  lemma {:induction false} MinimalExists<S>(frontier: multiset<Node<S>>)
    requires frontier != multiset{}
    ensures exists n :: IsMinimal(n, frontier)
    decreases |frontier|
  {
    var x :| x in frontier;
    var rest := frontier - multiset{x};
    if rest == multiset{} {
      assert frontier == multiset{x};
      assert IsMinimal(x, frontier);
    } else {
      MinimalExists(rest);
      var y :| IsMinimal(y, rest);
      assert frontier == rest + multiset{x};
      if Key(x) <= Key(y) {
        assert IsMinimal(x, frontier);
      } else {
        assert IsMinimal(y, frontier);
      }
    }
  }

  /**
   * The node queued for the state an action leads to. Its cost is the ACTION's cost, not the
   * parent's cost plus the action's cost, and its quality score is the heuristic's.
   */
  function SuccessorNode<S>(action: Action<S>, quality: S -> real): (n: Node<S>)
    ensures n.state == action.resultingState && n.cost == action.cost
    ensures n.qualityScore == quality(action.resultingState)
  {
    Node(action.resultingState, action.cost, quality(action.resultingState))
  }

  /** The successor nodes of a list of actions, in iterator order. */
  function SuccessorNodes<S>(actions: seq<Action<S>>, quality: S -> real): (nodes: seq<Node<S>>)
    ensures |nodes| == |actions|
    ensures forall i :: 0 <= i < |actions| ==> nodes[i] == SuccessorNode(actions[i], quality)
  {
    if actions == [] then []
    else SuccessorNodes(actions[..|actions| - 1], quality) + [SuccessorNode(actions[|actions| - 1], quality)]
  }

  /** One more action adds its successor node to the multiset of successor nodes. */
  lemma SuccessorNodesSnoc<S>(actions: seq<Action<S>>, i: nat, quality: S -> real)
    requires i < |actions|
    ensures multiset(SuccessorNodes(actions[..i + 1], quality))
         == multiset(SuccessorNodes(actions[..i], quality)) + multiset{SuccessorNode(actions[i], quality)}
  {
    assert actions[..i + 1][..i] == actions[..i];
  }

  /** The loop over the action iterator: score each resulting state and add it to the queue. */
  method AddSuccessorNodes<S(==)>(frontier: multiset<Node<S>>, actions: seq<Action<S>>, quality: S -> real)
    returns (r: multiset<Node<S>>)
    ensures r == frontier + multiset(SuccessorNodes(actions, quality))
  {
    r := frontier;
    for i := 0 to |actions|
      invariant r == frontier + multiset(SuccessorNodes(actions[..i], quality))
    {
      SuccessorNodesSnoc(actions, i, quality);
      r := r + multiset{SuccessorNode(actions[i], quality)};
    }
    assert actions[..|actions|] == actions;
  }

  class AStarTree<S(==)> {
    const successors: S -> seq<Action<S>>
    const isGoal: S -> bool
    /** The heuristic's quality score, which is written onto every state before it is queued. */
    const quality: S -> real
    var frontier: multiset<Node<S>>

    /**
     * Scores the start state and queues it; `startCost` is the cost the start state already
     * carries.
     */
    constructor (startState: S, startCost: real, successors: S -> seq<Action<S>>, isGoal: S -> bool,
                 quality: S -> real)
      ensures frontier == multiset{Node(startState, startCost, quality(startState))}
      ensures this.successors == successors && this.isGoal == isGoal && this.quality == quality
    {
      this.successors := successors;
      this.isGoal := isGoal;
      this.quality := quality;
      frontier := multiset{Node(startState, startCost, quality(startState))};
    }

    /**
     * One step. The result is `Some(false)` when the polled state is a goal, `Some(true)` after
     * an expansion, and `None` when the frontier is empty, where the Java `poll` returns null and
     * the next line dereferences it.
     */
    method PerformStep() returns (r: Option<bool>, ghost polled: Option<Node<S>>)
      modifies this`frontier
      ensures old(frontier) == multiset{} <==> polled == None
      ensures polled == None ==> r == None && frontier == old(frontier)
      ensures polled.Some? ==> IsMinimal(polled.value, old(frontier))
      ensures polled.Some? && isGoal(polled.value.state) ==>
        r == Some(false) && frontier == old(frontier) - multiset{polled.value}
      ensures polled.Some? && !isGoal(polled.value.state) ==>
        && r == Some(true)
        && frontier == old(frontier) - multiset{polled.value}
                       + multiset(SuccessorNodes(successors(polled.value.state), quality))
    {
      if frontier == multiset{} {
        return None, None;
      }
      MinimalExists(frontier);
      var current :| IsMinimal(current, frontier);
      polled := Some(current);
      frontier := frontier - multiset{current};
      if isGoal(current.state) {
        return Some(false), polled;
      }
      frontier := AddSuccessorNodes(frontier, successors(current.state), quality);
      return Some(true), polled;
    }
  }

  /**
   * A cheaper node is polled first: the start state 0 leads to 1 at cost 3 and to 2 at cost 1;
   * the second step expands 2, and its successor 3 is queued at the action's cost 5 rather than
   * at 1 + 5.
   */
  method CheaperNodeFirst() returns (r: Option<bool>, frontier: multiset<Node<int>>)
    ensures r == Some(true)
    ensures frontier == multiset{Node(1, 3.0, 0.0), Node(3, 5.0, 0.0)}
  {
    var search := ExpandStart();
    var queued := search.frontier;
    ghost var polled;
    r, polled := search.PerformStep();
    frontier := search.frontier;
    assert polled == Some(Node(2, 1.0, 0.0)) by {
      assert Key(polled.value) <= Key(Node(2, 1.0, 0.0));
    }
    assert SuccessorNodes([Action(3, 5.0)], search.quality) == [Node(3, 5.0, 0.0)];
    assert frontier == queued - multiset{Node(2, 1.0, 0.0)} + multiset{Node(3, 5.0, 0.0)};
  }

  /** The first step of that run: the start state is expanded and both successors are queued. */
  method ExpandStart() returns (search: AStarTree<int>)
    ensures fresh(search)
    ensures search.frontier == multiset{Node(1, 3.0, 0.0), Node(2, 1.0, 0.0)}
    ensures search.successors(2) == [Action(3, 5.0)] && !search.isGoal(2)
    ensures forall s :: search.quality(s) == 0.0
  {
    var actions := (s: int) => if s == 0 then [Action(1, 3.0), Action(2, 1.0)]
                               else if s == 2 then [Action(3, 5.0)] else [];
    var noQuality := (s: int) => 0.0;
    search := new AStarTree(0, 0.0, actions, (s: int) => false, noQuality);
    ghost var start;
    var first;
    first, start := search.PerformStep();
    assert SuccessorNodes([Action(1, 3.0), Action(2, 1.0)], noQuality) == [Node(1, 3.0, 0.0), Node(2, 1.0, 0.0)];
  }
}
