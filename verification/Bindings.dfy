/**
 The bindings of the model (include/ioa/action_executor.hpp, output_core): one output executor per bound
 output action, each with a map from input automaton to the record of that binding.  Their meaning
 is a flat set of (output, input, binder, key) tuples.
 */
module Bindings {

  type Aid = nat
  type Key = nat

  datatype Category = Input | Output

  /** An action of an automaton: member and pid stand for the member pointer and the parameter. */
  datatype Action = Action(aid: Aid, member: nat, pid: nat, category: Category)

  datatype Record = Record(input: Action, binder: Aid, key: Key)

  datatype Executor = Executor(action: Action, records: map<Aid, Record>)

  datatype Tuple = Tuple(output: Action, input: Action, binder: Aid, key: Key)

  function TupleOf(output: Action, r: Record): Tuple {
    Tuple(output, r.input, r.binder, r.key)
  }

  // ---------------------------------------------------------------- one output executor

  predicate ExecutorOk(e: Executor) {
    && e.action.category == Output
    && forall x | x in e.records ::
         e.records[x].input.aid == x && x != e.action.aid && e.records[x].input.category == Input
  }

  function TuplesOf(e: Executor): set<Tuple> {
    set x | x in e.records :: TupleOf(e.action, e.records[x])
  }

  predicate InvolvesInput(e: Executor, input: Action) {
    input.aid in e.records && e.records[input.aid].input == input
  }

  predicate InvolvesBinding(e: Executor, output: Action, input: Action, binder: Aid) {
    && input.aid in e.records
    && e.action == output && e.records[input.aid].input == input && e.records[input.aid].binder == binder
  }

  predicate InvolvesAidKey(e: Executor, binder: Aid, key: Key) {
    exists x :: x in e.records && e.records[x].binder == binder && e.records[x].key == key
  }

  /** std::map::insert keeps an existing entry. */
  function BindRecord(e: Executor, r: Record): Executor {
    if r.input.aid in e.records then e else e.(records := e.records[r.input.aid := r])
  }

  predicate IsFirst(e: Executor, binder: Aid, key: Key, x: Aid) {
    && x in e.records && e.records[x].binder == binder && e.records[x].key == key
    && forall y | y in e.records && e.records[y].binder == binder && e.records[y].key == key :: x <= y
  }

  /** The effect of unbinding a key: the first record with it goes. */
  ghost predicate UnboundKey(e: Executor, binder: Aid, key: Key, e': Executor) {
    if InvolvesAidKey(e, binder, key)
    then exists x :: IsFirst(e, binder, key, x) && e' == e.(records := e.records - {x})
    else e' == e
  }

  function KeptRecords(e: Executor, gone: set<Aid>): map<Aid, Record> {
    if e.action.aid in gone then map[]
    else map x | x in e.records && x !in gone && e.records[x].binder !in gone :: e.records[x]
  }

  /** What is left of an executor when some automata are gone. */
  function Keep(e: Executor, gone: set<Aid>): Executor {
    e.(records := KeptRecords(e, gone))
  }

  predicate Touches(t: Tuple, gone: set<Aid>) {
    t.output.aid in gone || t.input.aid in gone || t.binder in gone
  }

  lemma KeepTuples(e: Executor, gone: set<Aid>)
    requires ExecutorOk(e)
    ensures ExecutorOk(Keep(e, gone))
    ensures TuplesOf(Keep(e, gone)) == set t | t in TuplesOf(e) && !Touches(t, gone)
  {
    var kept := Keep(e, gone);
    forall t | t in TuplesOf(e) && !Touches(t, gone)
      ensures t in TuplesOf(kept)
    {
      var x :| x in e.records && t == TupleOf(e.action, e.records[x]);
      assert x in kept.records;
    }
  }

  lemma KeepTwice(e: Executor, a: set<Aid>, b: set<Aid>)
    ensures Keep(Keep(e, a), b) == Keep(e, a + b)
  {}

  lemma TuplesOfEmpty(e: Executor)
    ensures TuplesOf(e) == {} <==> e.records == map[]
  {
    if e.records != map[] {
      var x :| x in e.records;
      assert TupleOf(e.action, e.records[x]) in TuplesOf(e);
    }
  }

  lemma {:induction false} TuplesOfSize(e: Executor)
    requires ExecutorOk(e)
    ensures |TuplesOf(e)| == |e.records|
    decreases |e.records|
  {
    if e.records == map[] {
      TuplesOfEmpty(e);
    } else {
      var x :| x in e.records;
      var rest := e.(records := e.records - {x});
      assert e.records.Keys == rest.records.Keys + {x};
      TuplesOfSize(rest);
      var t := TupleOf(e.action, e.records[x]);
      assert TuplesOf(e) == TuplesOf(rest) + {t} by {
        forall u | u in TuplesOf(e)
          ensures u in TuplesOf(rest) + {t}
        {
          var y :| y in e.records && u == TupleOf(e.action, e.records[y]);
          assert y == x || y in rest.records;
        }
      }
      assert t !in TuplesOf(rest);
    }
  }

  lemma BindTuples(e: Executor, r: Record)
    requires ExecutorOk(e) && r.input.aid !in e.records && r.input.aid != e.action.aid && r.input.category == Input
    ensures ExecutorOk(BindRecord(e, r))
    ensures TuplesOf(BindRecord(e, r)) == TuplesOf(e) + {TupleOf(e.action, r)}
  {
    var e' := BindRecord(e, r);
    forall t | t in TuplesOf(e) + {TupleOf(e.action, r)}
      ensures t in TuplesOf(e')
    {
      if t != TupleOf(e.action, r) {
        var x :| x in e.records && t == TupleOf(e.action, e.records[x]);
        assert x in e'.records && e'.records[x] == e.records[x];
      } else {
        assert r.input.aid in e'.records;
      }
    }
  }

  lemma DropTuples(e: Executor, x: Aid)
    requires ExecutorOk(e) && x in e.records
    ensures ExecutorOk(e.(records := e.records - {x}))
    ensures TuplesOf(e.(records := e.records - {x})) == TuplesOf(e) - {TupleOf(e.action, e.records[x])}
  {
    var e', gone := e.(records := e.records - {x}), TupleOf(e.action, e.records[x]);
    forall t | t in TuplesOf(e) - {gone}
      ensures t in TuplesOf(e')
    {
      var y :| y in e.records && t == TupleOf(e.action, e.records[y]);
      assert y in e'.records;
    }
  }

  // ---------------------------------------------------------------- the list of executors

  function Tuples(es: seq<Executor>): set<Tuple> {
    if es == [] then {} else TuplesOf(es[0]) + Tuples(es[1..])
  }

  lemma {:induction false} TuplesConcat(a: seq<Executor>, b: seq<Executor>)
    ensures Tuples(a + b) == Tuples(a) + Tuples(b)
  {
    if a == [] {
      assert a + b == b;
    } else {
      assert (a + b)[1..] == a[1..] + b;
      TuplesConcat(a[1..], b);
    }
  }

  lemma {:induction false} TupleAt(es: seq<Executor>, i: nat)
    requires i < |es|
    ensures TuplesOf(es[i]) <= Tuples(es)
  {
    if i > 0 {
      TupleAt(es[1..], i - 1);
    }
  }

  lemma TuplesOfOne(e: Executor)
    ensures Tuples([e]) == TuplesOf(e)
  {
    assert [e][1..] == [];
  }

  lemma TuplesPush(es: seq<Executor>, e: Executor)
    ensures Tuples(es + [e]) == Tuples(es) + TuplesOf(e)
  {
    TuplesConcat(es, [e]);
    TuplesOfOne(e);
  }

  lemma SplitAt<T>(s: seq<T>, i: nat)
    requires i < |s|
    ensures s[..i] + [s[i]] == s[..i + 1]
    ensures s[..i + 1] + s[i + 1..] == s
  {}

  lemma TuplesSplit(es: seq<Executor>, i: nat)
    requires i < |es|
    ensures Tuples(es) == Tuples(es[..i]) + TuplesOf(es[i]) + Tuples(es[i + 1..])
  {
    SplitAt(es, i);
    TuplesConcat(es[..i + 1], es[i + 1..]);
    TuplesPush(es[..i], es[i]);
  }

  predicate EntryOk(e: Executor) {
    ExecutorOk(e) && e.records != map[]
  }

  predicate OtherAction(a: Executor, b: Executor) {
    a.action != b.action
  }

  /** Every executor is well formed and not empty, and no output action has two. */
  predicate TableOk(es: seq<Executor>) {
    && (forall i {:trigger EntryOk(es[i])} | 0 <= i < |es| :: EntryOk(es[i]))
    && (forall i, j {:trigger OtherAction(es[i], es[j])} | 0 <= i < j < |es| :: OtherAction(es[i], es[j]))
  }

  lemma TableSlice(es: seq<Executor>, lo: nat, hi: nat)
    requires TableOk(es) && lo <= hi <= |es|
    ensures TableOk(es[lo..hi])
  {
    forall i | 0 <= i < hi - lo
      ensures EntryOk(es[lo..hi][i])
    {
      assert EntryOk(es[lo + i]);
    }
    forall i, j | 0 <= i < j < hi - lo
      ensures OtherAction(es[lo..hi][i], es[lo..hi][j])
    {
      assert OtherAction(es[lo + i], es[lo + j]);
    }
  }

  lemma TableTail(es: seq<Executor>)
    requires TableOk(es) && es != []
    ensures TableOk(es[1..])
  {
    TableSlice(es, 1, |es|);
    assert es[1..|es|] == es[1..];
  }

  /** Where a tuple is: the executor of its output, under its input automaton. */
  lemma {:induction false} WhereIs(es: seq<Executor>, t: Tuple) returns (i: nat)
    requires t in Tuples(es) && TableOk(es)
    ensures i < |es| && t in TuplesOf(es[i]) && es[i].action == t.output
    ensures t.input.aid in es[i].records && es[i].records[t.input.aid] == Record(t.input, t.binder, t.key)
  {
    TableTail(es);
    assert EntryOk(es[0]);
    if t in TuplesOf(es[0]) {
      i := 0;
    } else {
      i := WhereIs(es[1..], t);
      i := i + 1;
    }
  }

  /** Tuples with the same output are in the same executor. */
  lemma OneExecutor(es: seq<Executor>, i: nat, t: Tuple)
    requires TableOk(es) && i < |es| && t in Tuples(es) && t.output == es[i].action
    ensures t in TuplesOf(es[i]) && t.input.aid in es[i].records
    ensures es[i].records[t.input.aid] == Record(t.input, t.binder, t.key)
  {
    var j := WhereIs(es, t);
    assert j < i ==> OtherAction(es[j], es[i]);
    assert i < j ==> OtherAction(es[i], es[j]);
  }

  /** The executors that remain, in order, when some automata are gone; emptied ones are erased. */
  function KeepAll(es: seq<Executor>, gone: set<Aid>): seq<Executor> {
    if es == [] then []
    else
      var e := Keep(es[0], gone);
      (if e.records == map[] then [] else [e]) + KeepAll(es[1..], gone)
  }

  lemma {:induction false} KeepAllActions(es: seq<Executor>, gone: set<Aid>, i: nat)
    requires i < |KeepAll(es, gone)|
    ensures exists j: nat :: j < |es| && KeepAll(es, gone)[i] == Keep(es[j], gone)
  {
    if Keep(es[0], gone).records == map[] {
      assert KeepAll(es, gone) == KeepAll(es[1..], gone);
      KeepAllActions(es[1..], gone, i);
      var j: nat :| j < |es[1..]| && KeepAll(es[1..], gone)[i] == Keep(es[1..][j], gone);
      assert es[1..][j] == es[j + 1];
    } else if i > 0 {
      KeepAllActions(es[1..], gone, i - 1);
      var j: nat :| j < |es[1..]| && KeepAll(es[1..], gone)[i - 1] == Keep(es[1..][j], gone);
      assert es[1..][j] == es[j + 1];
    } else {
      assert KeepAll(es, gone)[0] == Keep(es[0], gone);
    }
  }

  function Untouched(ts: set<Tuple>, gone: set<Aid>): set<Tuple> {
    set t | t in ts && !Touches(t, gone)
  }

  lemma {:induction false} KeepAllTuples(es: seq<Executor>, gone: set<Aid>)
    requires TableOk(es)
    ensures Tuples(KeepAll(es, gone)) == Untouched(Tuples(es), gone)
  {
    if es != [] {
      var e, rest := Keep(es[0], gone), KeepAll(es[1..], gone);
      TableTail(es);
      assert EntryOk(es[0]);
      KeepAllTuples(es[1..], gone);
      KeepTuples(es[0], gone);
      TuplesOfEmpty(e);
      TuplesConcat(if e.records == map[] then [] else [e], rest);
      TuplesOfOne(e);
    }
  }

  lemma {:induction false} KeepAllOk(es: seq<Executor>, gone: set<Aid>)
    requires TableOk(es)
    ensures TableOk(KeepAll(es, gone))
  {
    if es != [] {
      var e, rest := Keep(es[0], gone), KeepAll(es[1..], gone);
      TableTail(es);
      assert EntryOk(es[0]);
      KeepAllOk(es[1..], gone);
      KeepTuples(es[0], gone);
      forall i | 0 <= i < |rest|
        ensures OtherAction(e, rest[i])
      {
        KeepAllActions(es[1..], gone, i);
        var j: nat :| j < |es[1..]| && rest[i] == Keep(es[1..][j], gone);
        assert OtherAction(es[0], es[j + 1]);
      }
      if e.records != map[] {
        TablePush(e, rest);
      }
    }
  }

  lemma TablePush(e: Executor, rest: seq<Executor>)
    requires EntryOk(e) && TableOk(rest)
    requires forall i | 0 <= i < |rest| :: OtherAction(e, rest[i])
    ensures TableOk([e] + rest)
  {
    var es := [e] + rest;
    forall i | 0 <= i < |es|
      ensures EntryOk(es[i])
    {
      assert i > 0 ==> EntryOk(rest[i - 1]);
    }
    forall i, j | 0 <= i < j < |es|
      ensures OtherAction(es[i], es[j])
    {
      if i > 0 {
        assert OtherAction(rest[i - 1], rest[j - 1]);
      } else {
        assert OtherAction(e, rest[j - 1]);
      }
    }
  }

  lemma {:induction false} KeepAllTwice(es: seq<Executor>, a: set<Aid>, b: set<Aid>)
    ensures KeepAll(KeepAll(es, a), b) == KeepAll(es, a + b)
  {
    if es != [] {
      var e := Keep(es[0], a);
      KeepTwice(es[0], a, b);
      KeepAllTwice(es[1..], a, b);
      if e.records == map[] {
        assert KeepAll(es, a) == KeepAll(es[1..], a);
        assert Keep(e, b).records == map[];
      } else {
        assert KeepAll(es, a) == [e] + KeepAll(es[1..], a);
        assert ([e] + KeepAll(es[1..], a))[1..] == KeepAll(es[1..], a);
      }
    }
  }

  lemma {:induction false} KeepAllNothing(es: seq<Executor>)
    requires TableOk(es)
    ensures KeepAll(es, {}) == es
  {
    if es != [] {
      TableTail(es);
      assert EntryOk(es[0]);
      assert Keep(es[0], {}) == es[0];
      KeepAllNothing(es[1..]);
    }
  }

  // ---------------------------------------------------------------- the flat set of bindings

  predicate TupleOk(t: Tuple) {
    t.output.category == Output && t.input.category == Input && t.output.aid != t.input.aid
  }

  predicate Compatible(t: Tuple, u: Tuple) {
    || t == u
    || (t.input != u.input && !(t.output == u.output && t.input.aid == u.input.aid) && !(t.binder == u.binder && t.key == u.key))
  }

  /** The invariant of the set of tuples: an output does not bind its own automaton, an input has one output,
      an output does not bind the same input automaton twice, a binder uses a key once. */
  predicate TuplesOk(ts: set<Tuple>) {
    && (forall t {:trigger TupleOk(t)} | t in ts :: TupleOk(t))
    && (forall t, u {:trigger Compatible(t, u)} | t in ts && u in ts :: Compatible(t, u))
  }

  function BoundKeys(ts: set<Tuple>, binder: Aid): set<Key> {
    set t | t in ts && t.binder == binder :: t.key
  }

  datatype BindResult =
    BinderDoesNotExist | BindKeyExists | OutputAutomatonDne | InputAutomatonDne | BindingExists
  | InputActionUnavailable | OutputActionUnavailable | Bound

  /** What a bind request comes to, in terms of the set of tuples. */
  function BindOutcome(live: set<Aid>, ts: set<Tuple>, output: Action, input: Action, binder: Aid, key: Key): BindResult {
    if binder !in live then BinderDoesNotExist
    else if exists t :: t in ts && t.binder == binder && t.key == key then BindKeyExists
    else if output.aid !in live then OutputAutomatonDne
    else if input.aid !in live then InputAutomatonDne
    else if exists t :: t in ts && t.output == output && t.input == input && t.binder == binder then BindingExists
    else if exists t :: t in ts && t.input == input then InputActionUnavailable
    else if output.aid == input.aid || exists t :: t in ts && t.output == output && t.input.aid == input.aid
    then OutputActionUnavailable
    else Bound
  }

  lemma BoundKeepsTuplesOk(live: set<Aid>, ts: set<Tuple>, output: Action, input: Action, binder: Aid, key: Key)
    requires TuplesOk(ts) && output.category == Output && input.category == Input
    requires BindOutcome(live, ts, output, input, binder, key) == Bound
    ensures TuplesOk(ts + {Tuple(output, input, binder, key)})
  {
    var ts' := ts + {Tuple(output, input, binder, key)};
    forall t, u | t in ts' && u in ts'
      ensures Compatible(t, u)
    {
      assert t in ts && u in ts ==> Compatible(t, u);
    }
  }

  /** A request is granted exactly when the automata are alive and the set stays in order with the new tuple: no
      binding that is allowed is refused. */
  lemma GrantedExactly(live: set<Aid>, ts: set<Tuple>, output: Action, input: Action, binder: Aid, key: Key)
    requires TuplesOk(ts) && output.category == Output && input.category == Input
    ensures BindOutcome(live, ts, output, input, binder, key) == Bound
            <==> Grantable(live, ts, Tuple(output, input, binder, key))
  {
    var t := Tuple(output, input, binder, key);
    if BindOutcome(live, ts, output, input, binder, key) == Bound {
      BoundKeepsTuplesOk(live, ts, output, input, binder, key);
    }
    if Grantable(live, ts, t) {
      assert TupleOk(t);
      forall u | u in ts
        ensures Compatible(t, u) && t != u
      {
        assert u in ts + {t} && t in ts + {t};
      }
    }
  }

  predicate Grantable(live: set<Aid>, ts: set<Tuple>, t: Tuple) {
    t.binder in live && t.output.aid in live && t.input.aid in live && t !in ts && TuplesOk(ts + {t})
  }

  /** What a refusal says about the set of tuples. */
  predicate Applies(r: BindResult, live: set<Aid>, ts: set<Tuple>, output: Action, input: Action, binder: Aid, key: Key) {
    match r
    case BinderDoesNotExist => binder !in live
    case BindKeyExists => key in BoundKeys(ts, binder)
    case OutputAutomatonDne => output.aid !in live
    case InputAutomatonDne => input.aid !in live
    case BindingExists => exists t :: t in ts && t == Tuple(output, input, binder, t.key)
    case InputActionUnavailable => exists t :: t in ts && t.input == input
    case OutputActionUnavailable =>
      output.aid == input.aid || exists t :: t in ts && t.output == output && t.input.aid == input.aid
    case Bound => Grantable(live, ts, Tuple(output, input, binder, key))
  }

  /** The order of the checks. */
  function CheckOrder(r: BindResult): nat {
    match r
    case BinderDoesNotExist => 0
    case BindKeyExists => 1
    case OutputAutomatonDne => 2
    case InputAutomatonDne => 3
    case BindingExists => 4
    case InputActionUnavailable => 5
    case OutputActionUnavailable => 6
    case Bound => 7
  }

  /** The answer to a request is the first that applies. */
  lemma FirstThatApplies(live: set<Aid>, ts: set<Tuple>, output: Action, input: Action, binder: Aid, key: Key)
    requires TuplesOk(ts) && output.category == Output && input.category == Input
    ensures var r := BindOutcome(live, ts, output, input, binder, key);
            && Applies(r, live, ts, output, input, binder, key)
            && forall q: BindResult | CheckOrder(q) < CheckOrder(r) :: !Applies(q, live, ts, output, input, binder, key)
  {
    GrantedExactly(live, ts, output, input, binder, key);
  }

  /** A record of an executor of the list is a tuple ... */
  lemma RecordIsTuple(es: seq<Executor>, i: nat, x: Aid)
    requires i < |es| && x in es[i].records
    ensures TupleOf(es[i].action, es[i].records[x]) in Tuples(es)
  {
    TupleAt(es, i);
    assert TupleOf(es[i].action, es[i].records[x]) in TuplesOf(es[i]);
  }

  /** ... so what find_if finds in the list is what there is in the set. */
  lemma KeyInList(es: seq<Executor>, binder: Aid, key: Key)
    requires TableOk(es)
    ensures (exists i :: 0 <= i < |es| && InvolvesAidKey(es[i], binder, key))
            <==> (exists t :: t in Tuples(es) && t.binder == binder && t.key == key)
  {
    if i :| 0 <= i < |es| && InvolvesAidKey(es[i], binder, key) {
      var x :| x in es[i].records && es[i].records[x].binder == binder && es[i].records[x].key == key;
      RecordIsTuple(es, i, x);
    }
    if t :| t in Tuples(es) && t.binder == binder && t.key == key {
      var i := WhereIs(es, t);
      assert InvolvesAidKey(es[i], binder, key);
    }
  }

  lemma BindingInList(es: seq<Executor>, output: Action, input: Action, binder: Aid)
    requires TableOk(es)
    ensures (exists i :: 0 <= i < |es| && InvolvesBinding(es[i], output, input, binder))
            <==> (exists t :: t in Tuples(es) && t.output == output && t.input == input && t.binder == binder)
  {
    if i :| 0 <= i < |es| && InvolvesBinding(es[i], output, input, binder) {
      RecordIsTuple(es, i, input.aid);
    }
    if t :| t in Tuples(es) && t.output == output && t.input == input && t.binder == binder {
      var i := WhereIs(es, t);
      assert InvolvesBinding(es[i], output, input, binder);
    }
  }

  lemma InputInList(es: seq<Executor>, input: Action)
    requires TableOk(es)
    ensures (exists i :: 0 <= i < |es| && InvolvesInput(es[i], input)) <==> (exists t :: t in Tuples(es) && t.input == input)
  {
    if i :| 0 <= i < |es| && InvolvesInput(es[i], input) {
      RecordIsTuple(es, i, input.aid);
    }
    if t :| t in Tuples(es) && t.input == input {
      var i := WhereIs(es, t);
      assert InvolvesInput(es[i], input);
    }
  }

  lemma OutputInList(es: seq<Executor>, output: Action, aid: Aid)
    requires TableOk(es)
    ensures (exists i :: 0 <= i < |es| && es[i].action == output && aid in es[i].records)
            <==> (exists t :: t in Tuples(es) && t.output == output && t.input.aid == aid)
  {
    if i :| 0 <= i < |es| && es[i].action == output && aid in es[i].records {
      RecordIsTuple(es, i, aid);
      assert EntryOk(es[i]);
    }
    if t :| t in Tuples(es) && t.output == output && t.input.aid == aid {
      var i := WhereIs(es, t);
    }
  }

  /** The bindings an action takes part in. */
  function BindingsOf(ts: set<Tuple>, action: Action): set<Tuple> {
    set t | t in ts && (t.output == action || t.input == action)
  }

  lemma CountInput(es: seq<Executor>, i: nat, action: Action)
    requires TableOk(es) && TuplesOk(Tuples(es)) && i < |es| && InvolvesInput(es[i], action)
    ensures |BindingsOf(Tuples(es), action)| == 1
  {
    TupleAt(es, i);
    var t := TupleOf(es[i].action, es[i].records[action.aid]);
    assert t in TuplesOf(es[i]);
    forall u | u in BindingsOf(Tuples(es), action)
      ensures u == t
    {
      assert EntryOk(es[i]) && TupleOk(u) && Compatible(t, u);
    }
    assert BindingsOf(Tuples(es), action) == {t};
  }

  lemma CountOutput(es: seq<Executor>, i: nat)
    requires TableOk(es) && TuplesOk(Tuples(es)) && i < |es|
    ensures |BindingsOf(Tuples(es), es[i].action)| == |es[i].records|
  {
    var ts := BindingsOf(Tuples(es), es[i].action);
    assert EntryOk(es[i]);
    TuplesOfSize(es[i]);
    TupleAt(es, i);
    forall t | t in ts
      ensures t in TuplesOf(es[i])
    {
      assert TupleOk(t);
      assert t.output == es[i].action;
      OneExecutor(es, i, t);
    }
    assert ts == TuplesOf(es[i]);
  }

  lemma CountNone(es: seq<Executor>, action: Action)
    requires TableOk(es)
    requires forall i | 0 <= i < |es| :: es[i].action != action && !InvolvesInput(es[i], action)
    ensures BindingsOf(Tuples(es), action) == {}
  {
    forall t | t in Tuples(es)
      ensures t.output != action && t.input != action
    {
      var i := WhereIs(es, t);
    }
  }

  // ---------------------------------------------------------------- changes of the list

  /** Replacing one executor by another of the same action. */
  lemma ReplaceExecutor(es: seq<Executor>, i: nat, e: Executor)
    requires TableOk(es) && i < |es| && EntryOk(e) && e.action == es[i].action
    ensures TableOk(es[i := e])
    ensures Tuples(es[i := e]) == (Tuples(es) - TuplesOf(es[i])) + TuplesOf(e)
  {
    var es' := es[i := e];
    forall j | 0 <= j < |es'|
      ensures EntryOk(es'[j])
    {
      assert j != i ==> EntryOk(es[j]);
    }
    forall j, k | 0 <= j < k < |es'|
      ensures OtherAction(es'[j], es'[k])
    {
      assert OtherAction(es[j], es[k]);
    }
    ExecutorApart(es, i);
    TuplesSplit(es, i);
    TuplesSplit(es', i);
    assert es'[..i] == es[..i] && es'[i + 1..] == es[i + 1..];
  }

  lemma EraseExecutor(es: seq<Executor>, i: nat)
    requires TableOk(es) && i < |es|
    ensures TableOk(es[..i] + es[i + 1..])
    ensures Tuples(es[..i] + es[i + 1..]) == Tuples(es) - TuplesOf(es[i])
  {
    var es' := es[..i] + es[i + 1..];
    forall j | 0 <= j < |es'|
      ensures EntryOk(es'[j])
    {
      assert EntryOk(es[if j < i then j else j + 1]);
    }
    forall j, k | 0 <= j < k < |es'|
      ensures OtherAction(es'[j], es'[k])
    {
      assert OtherAction(es[if j < i then j else j + 1], es[if k < i then k else k + 1]);
    }
    ExecutorApart(es, i);
    TuplesSplit(es, i);
    TuplesConcat(es[..i], es[i + 1..]);
  }

  /** The other executors share no tuple with one of them. */
  lemma ExecutorApart(es: seq<Executor>, i: nat)
    requires TableOk(es) && i < |es|
    ensures TuplesOf(es[i]) !! Tuples(es[..i]) + Tuples(es[i + 1..])
  {
    TableSlice(es, 0, i);
    TableSlice(es, i + 1, |es|);
    assert es[0..i] == es[..i] && es[i + 1..|es|] == es[i + 1..];
    forall t | t in Tuples(es[..i])
      ensures t !in TuplesOf(es[i])
    {
      var j := WhereIs(es[..i], t);
      assert OtherAction(es[j], es[i]);
    }
    forall t | t in Tuples(es[i + 1..])
      ensures t !in TuplesOf(es[i])
    {
      var j := WhereIs(es[i + 1..], t);
      assert OtherAction(es[i], es[i + 1 + j]);
    }
  }
}
