/**
 The output executor (include/ioa/action_executor.hpp, output_core): the map of bound inputs of one output
 action, updated in place, and the order in which it locks the automata of one execution.
 */
module OutputCore {
  import opened Bindings
  import opened AscendingSets
  import opened Forest

  /** The first record of an executor with a binder and a key, in the order of its map. */
  method FirstMatch(e: Executor, binder: Aid, key: Key) returns (x: Aid)
    requires InvolvesAidKey(e, binder, key)
    ensures IsFirst(e, binder, key, x)
  {
    var matching := set y | y in e.records && e.records[y].binder == binder && e.records[y].key == key;
    var some :| some in e.records && e.records[some].binder == binder && e.records[some].key == key;
    assert some in matching;
    x := Smallest(matching);
    forall y | y in e.records && e.records[y].binder == binder && e.records[y].key == key
      ensures x <= y
    {
      assert y in matching;
    }
  }

  /** The automata one execution locks: the inputs', and the output's own when some input's is larger. */
  function Locked(own: Aid, inputs: set<Aid>): set<Aid> {
    if HasLarger(own, inputs) then inputs + {own} else inputs
  }

  predicate HasLarger(own: Aid, xs: set<Aid>) {
    exists x :: x in xs && own < x
  }

  class OutputCore {
    const action: Action
    var records: map<Aid, Record>

    ghost function View(): Executor
      reads this
    {
      Executor(action, records)
    }

    constructor (action: Action)
      ensures View() == Executor(action, map[])
    {
      this.action := action;
      records := map[];
    }

    method InvolvesAidKeyScan(binder: Aid, key: Key) returns (b: bool)
      ensures b <==> InvolvesAidKey(View(), binder, key)
    {
      var rest := records.Keys;
      while rest != {}
        invariant rest <= records.Keys
        invariant forall x | x in records && x !in rest :: !(records[x].binder == binder && records[x].key == key)
        decreases rest
      {
        var x :| x in rest;
        if records[x].binder == binder && records[x].key == key {
          return true;
        }
        rest := rest - {x};
      }
      return false;
    }

    /** map::insert of a new record, whose constructor tells the binder. */
    method Bind(r: Record) returns (told: seq<Notice>)
      modifies this
      ensures View() == BindRecord(old(View()), r) && told == [BoundNotice(r.binder, Bound, r.key)]
      ensures records == if r.input.aid in old(records) then old(records) else old(records)[r.input.aid := r]
    {
      told := [BoundNotice(r.binder, Bound, r.key)];
      if r.input.aid !in records {
        records := records[r.input.aid := r];
      }
    }

    /** Walks the map in ascending order and drops the first record with the key; its destructor tells the binder. */
    method Unbind(binder: Aid, key: Key) returns (told: seq<Notice>)
      modifies this
      ensures UnboundKey(old(View()), binder, key, View())
      ensures forall x | x in records :: x in old(records) && records[x] == old(records)[x]
      ensures forall x | x in old(records) :: x !in records <==>
                && old(records)[x].binder == binder && old(records)[x].key == key
                && forall y | y in old(records) && y < x :: !(old(records)[y].binder == binder && old(records)[y].key == key)
      ensures told == if InvolvesAidKey(old(View()), binder, key) then [UnboundNotice(binder, key)] else []
    {
      told := [];
      var rest := records.Keys;
      while rest != {}
        invariant rest <= records.Keys && records == old(records)
        invariant forall x, y | x in records && x !in rest && y in rest :: x < y
        invariant forall x | x in records && x !in rest :: !(records[x].binder == binder && records[x].key == key)
        decreases rest
      {
        var x := Smallest(rest);
        if records[x].binder == binder && records[x].key == key {
          assert IsFirst(View(), binder, key, x);
          told := [UnboundNotice(records[x].binder, records[x].key)];
          records := records - {x};
          return;
        }
        rest := rest - {x};
      }
    }

    /** Drops every record that involves the automaton, in the order of the map; each destructor tells its binder. */
    method UnbindAutomaton(aid: Aid) returns (released: seq<Aid>, told: seq<Notice>)
      modifies this
      ensures View() == Keep(old(View()), {aid})
      ensures forall x | x in records :: x in old(records) && records[x] == old(records)[x]
      ensures forall x | x in old(records) :: x in records <==>
                aid != action.aid && x != aid && old(records)[x].binder != aid
      ensures Ascending(released) && Members(released) == old(records).Keys - records.Keys
      ensures (forall x | x in released :: x in old(records)) && told == Losses(old(View()), released)
    {
      released, told := [], [];
      var rest := records.Keys;
      ghost var e := View();
      while rest != {}
        invariant Walked(e, aid, records, rest, released) && told == Losses(e, released)
        decreases rest
      {
        var x := Smallest(rest);
        WalkOn(e, aid, records, rest, released, x);
        if aid == action.aid || x == aid || records[x].binder == aid {
          told := told + [UnboundNotice(records[x].binder, records[x].key)];
          released := released + [x];
          records := records - {x};
        }
        rest := rest - {x};
      }
      assert records == KeptRecords(e, {aid});
    }

    /** The locks taken for one execution, in the order in which they are taken. */
    method LockInOrder() returns (order: seq<Aid>)
      requires action.aid !in records
      ensures Ascending(order) && Members(order) == Locked(action.aid, records.Keys)
    {
      order := [];
      var outputProcessed := false;
      var rest := records.Keys;
      while rest != {}
        invariant InOrder(action.aid, records.Keys, rest, outputProcessed, order)
        decreases rest
      {
        var pos := Smallest(rest);
        NextInOrder(action.aid, records.Keys, rest, outputProcessed, order, pos);
        if !outputProcessed && action.aid < pos {
          order := order + [action.aid];
          outputProcessed := true;
        }
        order := order + [pos];
        rest := rest - {pos};
      }
      AllInOrder(action.aid, records.Keys, outputProcessed, order);
    }

    /** The locks released afterwards: the records are walked once more. */
    method UnlockInOrder() returns (order: seq<Aid>)
      requires action.aid !in records
      ensures Ascending(order) && Members(order) == Locked(action.aid, records.Keys)
    {
      order := [];
      var outputProcessed := false;
      var rest := records.Keys;
      while rest != {}
        invariant InOrder(action.aid, records.Keys, rest, outputProcessed, order)
        decreases rest
      {
        var pos := Smallest(rest);
        NextInOrder(action.aid, records.Keys, rest, outputProcessed, order, pos);
        if !outputProcessed && action.aid < pos {
          order := order + [action.aid];
          outputProcessed := true;
        }
        order := order + [pos];
        rest := rest - {pos};
      }
      AllInOrder(action.aid, records.Keys, outputProcessed, order);
    }
  }

  // ---------------------------------------------------------------- walking the records

  /** What the binders are told of records that go. */
  function Losses(e: Executor, xs: seq<Aid>): (ns: seq<Notice>)
    requires forall x | x in xs :: x in e.records
    ensures |ns| == |xs|
    ensures forall i | 0 <= i < |xs| :: ns[i] == UnboundNotice(e.records[xs[i]].binder, e.records[xs[i]].key)
  {
    seq(|xs|, i requires 0 <= i < |xs| => UnboundNotice(e.records[xs[i]].binder, e.records[xs[i]].key))
  }

  /** The walk of unbind_automaton has come to rest; now holds what is left of the records. */
  ghost predicate Walked(e: Executor, aid: Aid, now: map<Aid, Record>, rest: set<Aid>, released: seq<Aid>) {
    && rest <= e.records.Keys && (forall x, y | x in e.records && x !in rest && y in rest :: x < y)
    && (forall x | x in e.records :: x in now <==> x in rest || x in KeptRecords(e, {aid}))
    && (forall x | x in now :: x in e.records && now[x] == e.records[x])
    && Ascending(released) && (forall x :: x in released <==> x in e.records && x !in now)
  }

  lemma WalkOn(e: Executor, aid: Aid, now: map<Aid, Record>, rest: set<Aid>, released: seq<Aid>, x: Aid)
    requires Walked(e, aid, now, rest, released) && x in rest && forall y | y in rest :: x <= y
    ensures Ascending(released + [x])
    ensures x in KeptRecords(e, {aid}) <==> aid != e.action.aid && x != aid && e.records[x].binder != aid
    ensures Losses(e, released + [x]) == Losses(e, released) + [UnboundNotice(e.records[x].binder, e.records[x].key)]
  {
    AscendingPush(released, x);
  }

  /** The walk of lock_in_order and unlock_in_order over the inputs has come to rest. */
  ghost predicate InOrder(own: Aid, inputs: set<Aid>, rest: set<Aid>, outputProcessed: bool, order: seq<Aid>) {
    && rest <= inputs && (forall x, y | x in inputs && x !in rest && y in rest :: x < y)
    && (outputProcessed ==> HasLarger(own, inputs))
    && (forall x | x in inputs && x !in rest && own < x :: outputProcessed)
    && (outputProcessed ==> forall y | y in rest :: own < y)
    && Ascending(order) && forall x :: x in order <==> (x in inputs && x !in rest) || (outputProcessed && x == own)
  }

  lemma NextInOrder(own: Aid, inputs: set<Aid>, rest: set<Aid>, outputProcessed: bool, order: seq<Aid>, pos: Aid)
    requires own !in inputs && InOrder(own, inputs, rest, outputProcessed, order)
    requires pos in rest && forall y | y in rest :: pos <= y
    ensures var order' := (if !outputProcessed && own < pos then order + [own] else order) + [pos];
            InOrder(own, inputs, rest - {pos}, outputProcessed || own < pos, order')
  {
    if !outputProcessed && own < pos {
      AscendingPush(order, own);
      AscendingPush(order + [own], pos);
    } else {
      AscendingPush(order, pos);
    }
  }

  lemma AllInOrder(own: Aid, inputs: set<Aid>, outputProcessed: bool, order: seq<Aid>)
    requires InOrder(own, inputs, {}, outputProcessed, order)
    ensures Ascending(order) && Members(order) == Locked(own, inputs)
  {}

  /** The output automaton's own lock is among the locks taken exactly when the last one is larger; then the effect
      runs under it, otherwise without it. */
  lemma OwnLockTaken(own: Aid, inputs: set<Aid>, order: seq<Aid>)
    requires own !in inputs && Ascending(order) && Members(order) == Locked(own, inputs)
    ensures own in order <==> order != [] && own < order[|order| - 1]
  {
    if own in Members(order) {
      var x :| x in inputs && own < x;
      assert x in Members(order) && x <= order[|order| - 1];
    } else if order != [] {
      assert order[|order| - 1] in Members(order);
    }
  }
}
