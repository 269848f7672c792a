/**
 * The contract shared by every engine (core/State.java, core/Action.java, path/State.java).
 * A state is a value of a type parameter S; the domain supplies its actions, its goal test
 * and its score as functions, which the engines take as parameters.
 */
module Core {

  /** A transition: the state it leads to and the cost of taking it. */
  datatype Action<S> = Action(resultingState: S, cost: real)

  /** How a bounded run of a search ends. */
  datatype SearchOutcome<S> =
    | Found(state: S)   // the state the Java `run` returns
    | FrontierEmpty     // the frontier ran dry: breadth-first and A* then dereference the null that
                        // `poll` returns, depth-first `pop` throws NoSuchElementException
    | OutOfFuel         // the step budget of the model ran out; the Java loop would go on

  /** The states the actions lead to, in the order of the actions. */
  function ResultingStates<S>(actions: seq<Action<S>>): (r: seq<S>)
    ensures |r| == |actions|
    ensures forall i :: 0 <= i < |actions| ==> r[i] == actions[i].resultingState
  {
    if actions == [] then []
    else ResultingStates(actions[..|actions| - 1]) + [actions[|actions| - 1].resultingState]
  }

  /** Everything a FIFO search appends when it expands the states of `expanded`, in order. */
  function Expansions<S>(expanded: seq<S>, successors: S -> seq<Action<S>>): seq<S>
  {
    if expanded == [] then []
    else Expansions(expanded[..|expanded| - 1], successors)
         + ResultingStates(successors(expanded[|expanded| - 1]))
  }

  lemma ExpansionsSnoc<S>(expanded: seq<S>, s: S, successors: S -> seq<Action<S>>)
    ensures Expansions(expanded + [s], successors)
         == Expansions(expanded, successors) + ResultingStates(successors(s))
  {
    assert (expanded + [s])[..|expanded|] == expanded;
  }

  /**
   * The loop both uninformed searches run over an action iterator: append the resulting state
   * of every action at the tail of the queue, in iterator order.
   */
  method AppendResultingStates<S>(queue: seq<S>, actions: seq<Action<S>>) returns (r: seq<S>)
    ensures r == queue + ResultingStates(actions)
  {
    r := queue;
    var i := 0;
    while i < |actions|
      invariant 0 <= i <= |actions|
      invariant r == queue + ResultingStates(actions[..i])
    {
      assert actions[..i + 1][..i] == actions[..i];
      r := r + [actions[i].resultingState];
      i := i + 1;
    }
    assert actions[..i] == actions;
  }

  /** Moving the head of a queue to the end of the polled prefix keeps the concatenation. */
  lemma MoveHead<S>(polled: seq<S>, queue: seq<S>, appended: seq<S>)
    requires queue != []
    ensures (polled + [queue[0]]) + (queue[1..] + appended) == (polled + queue) + appended
  {
    assert [queue[0]] + queue[1..] == queue;
  }

  /**
   * The FIFO discipline of a search whose polled states, followed by its queue, are the start
   * state followed by the successors of the states it expanded: polling the head and expanding
   * it keeps the discipline.
   */
  lemma PollAndExpand<S>(start: S, polled: seq<S>, expanded: seq<S>, queue: seq<S>, successors: S -> seq<Action<S>>)
    requires polled + queue == [start] + Expansions(expanded, successors)
    requires queue != []
    ensures (polled + [queue[0]]) + (queue[1..] + ResultingStates(successors(queue[0])))
         == [start] + Expansions(expanded + [queue[0]], successors)
  {
    ExpansionsSnoc(expanded, queue[0], successors);
    MoveHead(polled, queue, ResultingStates(successors(queue[0])));
  }

  /** Polling the head without expanding it also keeps the discipline. */
  lemma PollOnly<S>(start: S, polled: seq<S>, expanded: seq<S>, queue: seq<S>, successors: S -> seq<Action<S>>)
    requires polled + queue == [start] + Expansions(expanded, successors)
    requires queue != []
    ensures (polled + [queue[0]]) + queue[1..] == [start] + Expansions(expanded, successors)
  {
    MoveHead(polled, queue, []);
    assert queue[1..] + [] == queue[1..];
    assert (polled + queue) + [] == polled + queue;
  }

  /** `trace` is a walk through the state space: each state is reached by an action of the previous one. */
  ghost predicate IsWalk<S>(trace: seq<S>, successors: S -> seq<Action<S>>)
  {
    forall i :: 0 <= i < |trace| - 1 ==> trace[i + 1] in ResultingStates(successors(trace[i]))
  }

  /** Extending a walk by a successor of its last state gives a walk. */
  lemma WalkSnoc<S>(trace: seq<S>, next: S, successors: S -> seq<Action<S>>)
    requires IsWalk(trace, successors) && trace != []
    requires next in ResultingStates(successors(trace[|trace| - 1]))
    ensures IsWalk(trace + [next], successors)
  {
    var t := trace + [next];
    forall i | 0 <= i < |t| - 1
      ensures t[i + 1] in ResultingStates(successors(t[i]))
    {
      if i < |trace| - 1 {
        assert t[i] == trace[i] && t[i + 1] == trace[i + 1];
      }
    }
  }
}
