/**
 The execution of a bound output (include/ioa/action_executor.hpp, operator() of output executors): lock, check the
 precondition, apply the effect once, hand the value to every bound input, unlock.
 */
module OutputExecution {
  import opened Bindings
  import opened OutputCore
  import opened AscendingSets

  /** What the actions do; the states and the value are those of the user's automata. */
  datatype Actions<!S, !V> = Actions(precondition: S -> bool, effect: S -> (S, V), input: (Action, S, V) -> S)

  datatype Event<V> = Lock(aid: Aid) | Effect(aid: Aid) | Deliver(input: Action, value: V) | Unlock(aid: Aid)

  type States<S> = map<Aid, S>

  ghost predicate Runnable<S>(e: Executor, states: States<S>) {
    && ExecutorOk(e) && e.action.aid !in e.records
    && e.action.aid in states && forall x | x in e.records :: x in states
  }

  /** One input receives the value. */
  function Delivered<S, V>(e: Executor, a: Actions<S, V>, states: States<S>, x: Aid, v: V): States<S>
    requires x in e.records && x in states
  {
    states[x := a.input(e.records[x].input, states[x], v)]
  }

  /** The inputs of order receive the value, one after the other. */
  function DeliveredAll<S, V>(e: Executor, a: Actions<S, V>, states: States<S>, order: seq<Aid>, v: V): States<S>
    requires forall x | x in order :: x in e.records && x in states
  {
    if order == [] then states else DeliveredAll(e, a, Delivered(e, a, states, order[0], v), order[1..], v)
  }

  /** The states after the execution, automaton by automaton. */
  function Executed<S, V>(e: Executor, a: Actions<S, V>, states: States<S>): States<S>
    requires Runnable(e, states)
  {
    var own := states[e.action.aid];
    if !a.precondition(own) then states
    else
      map x | x in states ::
        if x == e.action.aid then a.effect(own).0
        else if x in e.records then a.input(e.records[x].input, states[x], a.effect(own).1)
        else states[x]
  }

  predicate Once(order: seq<Aid>) {
    forall i, j | 0 <= i < j < |order| :: order[i] != order[j]
  }

  /** Handing the value to each input once gives the same states in whatever order it is done. */
  lemma {:induction false} DeliveryOrder<S, V>(e: Executor, a: Actions<S, V>, states: States<S>, order: seq<Aid>, v: V)
    requires forall x | x in order :: x in e.records && x in states
    requires Once(order)
    ensures DeliveredAll(e, a, states, order, v)
            == map x | x in states :: if x in order then a.input(e.records[x].input, states[x], v) else states[x]
  {
    if order != [] {
      DeliveryOrder(e, a, Delivered(e, a, states, order[0], v), order[1..], v);
    }
  }

  /** The execution is the effect followed by the deliveries in any order that visits each input once. */
  lemma AnyOrder<S, V>(e: Executor, a: Actions<S, V>, states: States<S>, order: seq<Aid>)
    requires Runnable(e, states) && a.precondition(states[e.action.aid])
    requires Once(order) && Members(order) == e.records.Keys
    ensures var (own, v) := a.effect(states[e.action.aid]);
            && (forall x | x in order :: x in e.records && x in states)
            && DeliveredAll(e, a, states[e.action.aid := own], order, v) == Executed(e, a, states)
  {
    var (own, v) := a.effect(states[e.action.aid]);
    forall x | x in order
      ensures x in e.records && x in states
    {
      assert x in Members(order);
    }
    DeliveryOrder(e, a, states[e.action.aid := own], order, v);
    forall x
      ensures x in order <==> x in e.records
    {
      assert x in Members(order) <==> x in order;
    }
  }

  function Locks<V>(order: seq<Aid>): (r: seq<Event<V>>)
    ensures |r| == |order| && forall i | 0 <= i < |order| :: r[i] == Lock(order[i])
  {
    seq(|order|, i requires 0 <= i < |order| => Lock(order[i]))
  }

  function Unlocks<V>(order: seq<Aid>): (r: seq<Event<V>>)
    ensures |r| == |order| && forall i | 0 <= i < |order| :: r[i] == Unlock(order[i])
  {
    seq(|order|, i requires 0 <= i < |order| => Unlock(order[i]))
  }

  function Deliveries<V>(e: Executor, order: seq<Aid>, v: V): (r: seq<Event<V>>)
    requires forall x | x in order :: x in e.records
    ensures |r| == |order| && forall i | 0 <= i < |order| :: r[i] == Deliver(e.records[order[i]].input, v)
  {
    seq(|order|, i requires 0 <= i < |order| => Deliver(e.records[order[i]].input, v))
  }

  class World<!S, !V(==)> {
    const actions: Actions<S, V>
    var states: States<S>
    /** What happened, in order. */
    var trace: seq<Event<V>>

    constructor (actions: Actions<S, V>, states: States<S>)
      ensures this.actions == actions && this.states == states && trace == []
    {
      this.actions, this.states, this.trace := actions, states, [];
    }

    /** The second walk over the records releases exactly the locks that the first one took, in the same order;
        between, the effect is applied once and each bound input gets its value once, if the precondition holds. */
    method Execute(core: OutputCore) returns (ghost locked: seq<Aid>, ghost order: seq<Aid>)
      requires Runnable(core.View(), states)
      modifies this
      ensures states == Executed(core.View(), actions, old(states))
      ensures !actions.precondition(old(states)[core.action.aid]) ==> states == old(states)
      ensures actions.precondition(old(states)[core.action.aid]) ==>
                var (own, v) := actions.effect(old(states)[core.action.aid]);
                && states.Keys == old(states).Keys && states[core.action.aid] == own
                && (forall x | x in core.records ::
                      states[x] == actions.input(core.records[x].input, old(states)[x], v))
                && (forall x | x in states && x != core.action.aid && x !in core.records :: states[x] == old(states)[x])
      ensures Ascending(locked) && Members(locked) == Locked(core.action.aid, core.records.Keys)
      ensures Ascending(order) && Members(order) == core.records.Keys
      ensures forall x | x in order :: x in core.records
      ensures trace == old(trace) + Locks(locked) + Performed(core.View(), actions, old(states)[core.action.aid], order)
                       + Unlocks(locked)
    {
      var locks := core.LockInOrder();
      locked := locks;
      order := AscendingKeys(core.records.Keys);
      Visited(core.records.Keys, order);
      ghost var start := trace;
      trace := trace + Locks(locks);
      Perform(core, order);
      var unlocks := core.UnlockInOrder();
      AscendingUnique(unlocks, locked);
      trace := trace + Unlocks(unlocks);
      assert trace == start + Locks(locked) + Performed(core.View(), actions, old(states)[core.action.aid], order) + Unlocks(locked);
    }

    /** The part of an execution for which the locks are taken. */
    method Perform(core: OutputCore, ghost order: seq<Aid>)
      requires Runnable(core.View(), states)
      requires Ascending(order) && Members(order) == core.records.Keys && Once(order)
      requires forall x | x in order :: x in core.records
      modifies this
      ensures states == Executed(core.View(), actions, old(states))
      ensures !actions.precondition(old(states)[core.action.aid]) ==> states == old(states)
      ensures actions.precondition(old(states)[core.action.aid]) ==>
                var (own, v) := actions.effect(old(states)[core.action.aid]);
                && states.Keys == old(states).Keys && states[core.action.aid] == own
                && (forall x | x in core.records ::
                      states[x] == actions.input(core.records[x].input, old(states)[x], v))
                && (forall x | x in states && x != core.action.aid && x !in core.records :: states[x] == old(states)[x])
      ensures trace == old(trace) + Performed(core.View(), actions, old(states)[core.action.aid], order)
    {
      var own := states[core.action.aid];
      if actions.precondition(own) {
        AnyOrder(core.View(), actions, states, order);
        var (next, v) := actions.effect(own);
        states := states[core.action.aid := next];
        trace := trace + [Effect(core.action.aid)];
        DeliverAll(core, v, order);
      }
    }

    method DeliverOne(core: OutputCore, pos: Aid, v: V)
      requires pos in core.records && pos in states
      modifies this
      ensures states == Delivered(core.View(), actions, old(states), pos, v)
      ensures trace == old(trace) + [Deliver(core.records[pos].input, v)]
    {
      states := states[pos := actions.input(core.records[pos].input, states[pos], v)];
      trace := trace + [Deliver(core.records[pos].input, v)];
    }

    method DeliverAll(core: OutputCore, v: V, ghost order: seq<Aid>)
      requires ExecutorOk(core.View()) && forall x | x in core.records :: x in states
      requires Ascending(order) && Members(order) == core.records.Keys
      requires forall x | x in order :: x in core.records
      modifies this
      ensures states == DeliveredAll(core.View(), actions, old(states), order, v)
      ensures trace == old(trace) + Deliveries(core.View(), order, v)
    {
      var rest := core.records.Keys;
      ghost var e, start, said, done: seq<Aid>, left := core.View(), states, trace, [], order;
      assert Deliveries(e, done, v) == [];
      while rest != {}
        invariant Halfway(e, actions, start, states, order, done, left, v) && rest == Members(left)
        invariant trace == said + Deliveries(e, done, v)
        decreases rest
      {
        var pos := Smallest(rest);
        OneMore(e, actions, start, states, order, done, left, pos, v);
        DeliverOne(core, pos, v);
        rest, done, left := rest - {pos}, done + [pos], left[1..];
      }
      NoMembers(left);
      assert done == order;
    }
  }

  /** The inputs of done have received the value, those of left have not. */
  ghost predicate Halfway<S, V>(e: Executor, a: Actions<S, V>, start: States<S>, now: States<S>,
                                order: seq<Aid>, done: seq<Aid>, left: seq<Aid>, v: V) {
    && order == done + left && Ascending(left)
    && (forall x | x in order :: x in e.records && x in start && x in now)
    && DeliveredAll(e, a, now, left, v) == DeliveredAll(e, a, start, order, v)
  }

  lemma OneMore<S, V>(e: Executor, a: Actions<S, V>, start: States<S>, now: States<S>,
                      order: seq<Aid>, done: seq<Aid>, left: seq<Aid>, pos: Aid, v: V)
    requires Halfway(e, a, start, now, order, done, left, v)
    requires pos in Members(left) && forall y | y in Members(left) :: pos <= y
    ensures pos in e.records && pos in now
    ensures Halfway(e, a, start, Delivered(e, a, now, pos, v), order, done + [pos], left[1..], v)
    ensures Members(left[1..]) == Members(left) - {pos}
    ensures (forall x | x in done :: x in e.records) && (forall x | x in done + [pos] :: x in e.records)
    ensures Deliveries(e, done + [pos], v) == Deliveries(e, done, v) + [Deliver(e.records[pos].input, v)]
  {
    SmallestFirst(left, pos);
    assert done + left == done + [pos] + left[1..];
    assert forall x | x in left :: x in order;
    assert forall x | x in done :: x in order;
    DeliveriesPush(e, done, pos, v);
  }

  /** What an execution does between locking and unlocking. */
  function Performed<S, V>(e: Executor, a: Actions<S, V>, own: S, order: seq<Aid>): seq<Event<V>>
    requires forall x | x in order :: x in e.records
  {
    if a.precondition(own) then [Effect(e.action.aid)] + Deliveries(e, order, a.effect(own).1) else []
  }

  /** If the precondition fails nothing happens; otherwise the effect comes first, and then each bound input gets the
      value of the effect exactly once. */
  lemma PerformedExactly<S, V>(e: Executor, a: Actions<S, V>, own: S, order: seq<Aid>)
    requires Ascending(order) && Members(order) == e.records.Keys && ExecutorOk(e)
    requires forall x | x in order :: x in e.records
    ensures var r := Performed(e, a, own, order);
            if !a.precondition(own) then r == []
            else && |r| == 1 + |e.records| && r[0] == Effect(e.action.aid)
                 && (forall x | x in e.records ::
                       exists k :: 0 < k < |r| && r[k] == Deliver(e.records[x].input, a.effect(own).1))
                 && forall k, l | 0 < k < l < |r| :: r[k] != r[l]
  {
    AscendingSize(order);
    forall x | x in e.records
      ensures exists k :: 0 <= k < |order| && order[k] == x
    {
      assert x in Members(order);
    }
    forall x | x in e.records && a.precondition(own)
      ensures exists k :: 0 < k < |Performed(e, a, own, order)|
                          && Performed(e, a, own, order)[k] == Deliver(e.records[x].input, a.effect(own).1)
    {
      var k :| 0 <= k < |order| && order[k] == x;
      assert Performed(e, a, own, order)[k + 1] == Deliver(e.records[x].input, a.effect(own).1);
    }
    forall k, l | 0 <= k < l < |order|
      ensures e.records[order[k]].input != e.records[order[l]].input
    {
      assert e.records[order[k]].input.aid == order[k] && e.records[order[l]].input.aid == order[l];
    }
  }

  lemma DeliveriesPush<V>(e: Executor, order: seq<Aid>, x: Aid, v: V)
    requires x in e.records && forall y | y in order :: y in e.records
    ensures Deliveries(e, order + [x], v) == Deliveries(e, order, v) + [Deliver(e.records[x].input, v)]
  {}

  lemma Visited(s: set<nat>, order: seq<nat>)
    requires Ascending(order) && Members(order) == s
    ensures Once(order) && forall x :: x in order <==> x in s
  {
    assert forall x :: x in order <==> x in Members(order);
  }
}
