/**
 The model of the runtime (lib/model.cpp): creation, binding and destruction of automata.  What the scheduler
 is told is appended to notices.
 */
module Model {
  import opened Common
  import opened Bindings
  import opened Forest
  import opened OutputCore
  import opened AscendingSets
  import opened SequentialSet

  /** An action as a bind request names it; an auto-parameterised one takes its parameter from the other side. */
  datatype Request = Request(action: Action, auto: bool)

  function Resolved(r: Request, other: Aid): (a: Action)
    ensures a.aid == r.action.aid && a.category == r.action.category
    ensures a.member == r.action.member && a.pid == if r.auto then other else r.action.pid
  {
    if r.auto then r.action.(pid := other) else r.action
  }

  /** The automata with the keys of some bindings taken out of their sets. */
  function DropKeys(f: Automata, ts: set<Tuple>): Automata {
    map x | x in f :: f[x].(bindKeys := f[x].bindKeys - BoundKeys(ts, x))
  }

  lemma DropKeysTwice(f: Automata, a: set<Tuple>, b: set<Tuple>)
    ensures DropKeys(DropKeys(f, a), b) == DropKeys(f, a + b)
  {
    forall x | x in f
      ensures f[x].bindKeys - BoundKeys(a, x) - BoundKeys(b, x) == f[x].bindKeys - BoundKeys(a + b, x)
    {
      assert BoundKeys(a + b, x) == BoundKeys(a, x) + BoundKeys(b, x);
    }
  }

  lemma DropKeysNothing(f: Automata)
    ensures DropKeys(f, {}) == f
  {
    assert forall x | x in f :: f[x].bindKeys - BoundKeys({}, x) == f[x].bindKeys;
  }

  lemma DropOneKey(f: Automata, t: Tuple)
    requires t.binder in f
    ensures DropKeys(f, {t}) == f[t.binder := f[t.binder].(bindKeys := f[t.binder].bindKeys - {t.key})]
  {
    forall x | x in f
      ensures BoundKeys({t}, x) == if x == t.binder then {t.key} else {}
    {
    }
    assert forall x | x in f && x != t.binder :: f[x].bindKeys - {} == f[x].bindKeys;
  }

  /** The tuples of the records of an executor under some of its inputs. */
  function TuplesAt(e: Executor, inputs: set<Aid>): set<Tuple> {
    set x | x in inputs && x in e.records :: TupleOf(e.action, e.records[x])
  }

  class Model {
    const aids: SequentialSet
    var instances: set<Instance>
    var records: Automata
    var bindings: seq<Executor>
    var notices: seq<Notice>
    ghost var birth: Births
    ghost var clock: nat

    ghost function View(): State
      reads this
    {
      State(records, bindings)
    }

    ghost predicate Valid()
      reads this, aids
    {
      && aids.Valid() && aids.used == records.Keys
      && instances == Instances(records)
      && StateOk(View(), birth)
      && forall x | x in birth :: birth[x] < clock
    }

    constructor ()
      ensures Valid() && fresh(aids) && records == map[] && bindings == [] && notices == []
      ensures aids.counter == 0 && birth == map[] && clock == 0
    {
      aids := new SequentialSet();
      instances, records, bindings, notices := {}, map[], [], [];
      birth, clock := map[], 0;
    }

    // -------------------------------------------------------------- release of bindings

    /** The destructor of binding records: the binder forgets the key and is told. */
    method Release(e: Executor, released: set<Aid>)
      requires released <= e.records.Keys && ExecutorOk(e)
      requires forall x | x in released :: e.records[x].binder in records
      requires TuplesOk(TuplesOf(e))
      modifies `records, `notices
      ensures records == DropKeys(old(records), TuplesAt(e, released))
      ensures old(notices) <= notices
      ensures Announces(notices[|old(notices)|..], UnboundNotices(TuplesAt(e, released)))
    {
      var rest := released;
      ghost var told: seq<Notice>, done: set<Aid>, before := [], {}, records;
      DropKeysNothing(records);
      assert TuplesAt(e, done) == {};
      while rest != {}
        invariant rest + done == released && rest !! done
        invariant records == DropKeys(before, TuplesAt(e, done))
        invariant notices == old(notices) + told && Announces(told, UnboundNotices(TuplesAt(e, done)))
        decreases rest
      {
        var x :| x in rest;
        var r := e.records[x];
        ReleaseOne(e, done, x, before, told);
        records := records[r.binder := records[r.binder].(bindKeys := records[r.binder].bindKeys - {r.key})];
        notices := notices + [UnboundNotice(r.binder, r.key)];
        told := told + [UnboundNotice(r.binder, r.key)];
        rest, done := rest - {x}, done + {x};
      }
      assert done == released;
    }

    /** One executor drops what involves the automaton, and is erased if nothing is left of it. */
    method UnbindAt(pos: nat, aid: Aid) returns (erased: bool)
      requires pos < |bindings| && ExecutorOk(bindings[pos]) && TuplesOk(TuplesOf(bindings[pos]))
      requires forall x | x in bindings[pos].records :: bindings[pos].records[x].binder in records
      modifies `records, `bindings, `notices
      ensures var e, left := old(bindings)[pos], Keep(old(bindings)[pos], {aid});
              && erased == (left.records == map[])
              && bindings == (if erased then old(bindings)[..pos] + old(bindings)[pos + 1..] else old(bindings)[pos := left])
              && records == DropKeys(old(records), Touched(TuplesOf(e), {aid}))
              && old(notices) <= notices
              && Announces(notices[|old(notices)|..], UnboundNotices(Touched(TuplesOf(e), {aid})))
    {
      var e := bindings[pos];
      var left := Keep(e, {aid});
      ReleasedTuples(e, aid);
      Release(e, e.records.Keys - left.records.Keys);
      erased := left.records == map[];
      if erased {
        bindings := bindings[..pos] + bindings[pos + 1..];
      } else {
        bindings := bindings[pos := left];
      }
    }

    /** One turn of the loop over the bindings; es and f are the bindings and records it started with. */
    method UnbindNext(pos: nat, aid: Aid, ghost es: seq<Executor>, ghost f: Automata, ghost k: nat,
                      ghost told: seq<Notice>)
      returns (next: nat, ghost told': seq<Notice>)
      requires HalfDone(es, f, aid, k, pos, bindings, records, told) && pos < |bindings|
      modifies `records, `bindings, `notices
      ensures HalfDone(es, f, aid, k + 1, next, bindings, records, told')
      ensures told <= told' && notices == old(notices) + told'[|told|..]
    {
      NextReady(es, f, aid, k, pos, bindings, records, told);
      OneDone(es, f, aid, k, pos, bindings, told);
      var erased := UnbindAt(pos, aid);
      OneTold(es, aid, k, told, notices[|old(notices)|..]);
      told' := told + notices[|old(notices)|..];
      next := if erased then pos else pos + 1;
    }

    /** The loop over the bindings in inner_destroy. */
    method UnbindAutomaton(aid: Aid)
      requires TableOk(bindings) && TuplesOk(Tuples(bindings)) && LiveTuples(records.Keys, Tuples(bindings))
      modifies `records, `bindings, `notices
      ensures bindings == KeepAll(old(bindings), {aid})
      ensures records == DropKeys(old(records), Touched(Tuples(old(bindings)), {aid}))
      ensures old(notices) <= notices
      ensures Announces(notices[|old(notices)|..], UnboundNotices(Touched(Tuples(old(bindings)), {aid})))
    {
      var pos: nat := 0;
      ghost var es, f, k: nat := bindings, records, 0;
      ghost var told: seq<Notice> := [];
      NoneDone(es, aid, f);
      while pos < |bindings|
        invariant HalfDone(es, f, aid, k, pos, bindings, records, told) && notices == old(notices) + told
        decreases |es| - k
      {
        pos, told := UnbindNext(pos, aid, es, f, k, told);
        k := k + 1;
      }
      AllDone(es, f, aid, k, pos, bindings, records, told);
      assert notices[|old(notices)|..] == told;
    }

    // -------------------------------------------------------------- destruction

    /** The end of inner_destroy: the parent is told, the identifier, the instance and the record are given back. */
    method Forget(aid: Aid)
      requires aids.Valid() && aid in records
      requires records[aid].parent.Some? ==> records[aid].parent.value in records
      modifies `instances, `records, `notices, aids`used
      ensures aids.Valid() && aids.used == old(aids.used) - {aid}
      ensures instances == old(instances) - {old(records)[aid].instance}
      ensures records == DropLeaf(old(records), aid)
      ensures notices == old(notices) + ToParent(old(records)[aid])
    {
      var record := records[aid];
      if record.parent.Some? {
        var p := record.parent.value;
        records := records[p := records[p].(children := records[p].children - {record.key})];
        notices := notices + [DestroyedNotice(p, record.key)];
      }
      aids.Replace(aid);
      instances := instances - {record.instance};
      records := records - {aid};
    }

    /** inner_destroy for an automaton without children: it goes, with its bindings. */
    method RemoveLeaf(aid: Aid)
      requires Valid() && aid in records && records[aid].children == map[]
      modifies this, aids`used
      ensures Valid() && birth == old(birth) && clock == old(clock)
      ensures View() == Remove(old(View()), {aid})
      ensures old(notices) <= notices && Announces(notices[|old(notices)|..], Announced(old(View()), {aid}))
    {
      ghost var s, start := View(), notices;
      UnbindAutomaton(aid);
      ghost var told := notices[|start|..];
      LeafDone(s, birth, aid, told);
      Forget(aid);
      assert notices[|start|..] == told + ToParent(s.automata[aid]);
    }

    /** Removes exactly the automaton and everything below it, and exactly the bindings whose output, input or
        binder is among them; each is announced once. */
    method InnerDestroy(aid: Aid)
      requires Valid() && aid in records
      modifies this, aids`used
      ensures Valid() && birth == old(birth) && clock == old(clock)
      ensures View() == Remove(old(View()), Subtree(old(records), old(birth), aid))
      ensures old(notices) <= notices
      ensures Announces(notices[|old(notices)|..], Announced(old(View()), Subtree(old(records), old(birth), aid)))
      decreases if aid in birth then clock - birth[aid] else 0, 2
    {
      ghost var s, start := View(), notices;
      ghost var gone, told := DestroyChildren(aid);
      ghost var now, before := View(), notices;
      RemoveLeaf(aid);
      LastGone(s, birth, aid, gone, now, told, notices[|before|..]);
      assert notices[|start|..] == told + notices[|before|..];
    }

    /** The first loop of inner_destroy. */
    method DestroyChildren(aid: Aid) returns (ghost gone: set<Aid>, ghost told: seq<Notice>)
      requires Valid() && aid in records
      modifies this, aids`used
      ensures Valid() && birth == old(birth) && clock == old(clock)
      ensures PartlyGone(old(View()), birth, aid, gone, View(), told) && aid in records && records[aid].children == map[]
      ensures notices == old(notices) + told
      decreases if aid in birth then clock - birth[aid] else 0, 1
    {
      ghost var s := View();
      gone, told := {}, [];
      NothingGone(s, birth, aid);
      while records[aid].children != map[]
        invariant Valid() && birth == old(birth) && clock == old(clock)
        invariant PartlyGone(s, birth, aid, gone, View(), told) && aid in records && notices == old(notices) + told
        decreases records.Keys
      {
        gone, told := DestroyFirstChild(aid, s, gone, told);
      }
    }

    /** One turn of the first loop of inner_destroy; s is the state it started with. */
    method DestroyFirstChild(aid: Aid, ghost s: State, ghost gone: set<Aid>, ghost told: seq<Notice>)
      returns (ghost gone': set<Aid>, ghost told': seq<Notice>)
      requires Valid() && aid in records && records[aid].children != map[]
      requires PartlyGone(s, birth, aid, gone, View(), told)
      modifies this, aids`used
      ensures Valid() && birth == old(birth) && clock == old(clock)
      ensures PartlyGone(s, birth, aid, gone', View(), told') && aid in records && records.Keys < old(records.Keys)
      ensures told <= told' && notices == old(notices) + told'[|told|..]
      decreases if aid in birth then clock - birth[aid] else 0, 0
    {
      var first := Smallest(records[aid].children.Keys);
      var child := records[aid].children[first];
      ghost var now, before := View(), notices;
      assert ChildOk(records, aid, first) && ParentOk(records, birth, child) && ParentOk(records, birth, aid);
      ghost var sub := Subtree(records, birth, child);
      InnerDestroy(child);
      ChildGone(s, birth, aid, gone, now, told, first, sub, notices[|before|..]);
      gone', told' := gone + sub, told + notices[|before|..];
      assert child in sub;
    }
  
    /** The first automaton without a parent, in the order of the identifiers. */
    method FindRoot() returns (root: Option<Aid>)
      ensures root.Some? ==> root.value in records && records[root.value].parent.None?
      ensures root.None? ==> forall x | x in records :: records[x].parent.Some?
    {
      var rest := records.Keys;
      while rest != {}
        invariant rest <= records.Keys && forall x | x in records && x !in rest :: records[x].parent.Some?
        decreases rest
      {
        var pos := Smallest(rest);
        if records[pos].parent.None? {
          return Some(pos);
        }
        rest := rest - {pos};
      }
      return None;
    }

    /** Always finds a root while there is an automaton, so it terminates, and leaves nothing behind. */
    method Clear()
      requires Valid()
      modifies this, aids`used
      ensures Valid() && aids.used == {} && instances == {} && records == map[] && bindings == []
    {
      while records != map[]
        invariant Valid()
        decreases records.Keys
      {
        ghost var some :| some in records;
        ghost var someRoot := RootExists(records, birth, some);
        var root := FindRoot();
        assert root.Some?;
        RootGoes(View(), birth, root.value);
        InnerDestroy(root.value);
      }
      NoBindings(View(), birth);
    }

    method Destroy(target: Aid) returns (ok: bool)
      requires Valid()
      modifies this, aids`used
      ensures Valid() && ok == (target in old(records))
      ensures View() == if ok then Remove(old(View()), Subtree(old(records), old(birth), target)) else old(View())
      ensures old(notices) <= notices && (!ok ==> notices == old(notices)) && birth == old(birth) && clock == old(clock)
      ensures ok ==> Announces(notices[|old(notices)|..],
                               Announced(old(View()), Subtree(old(records), old(birth), target)))
      ensures ok ==> OnlyLosses(old(View()), View()) && LossesTold(old(View()), View(), notices[|old(notices)|..])
      ensures ok ==> records.Keys == old(records).Keys - Subtree(old(records), old(birth), target)
    {
      if target !in aids.used {
        return false;
      }
      ghost var s, start := View(), notices;
      InnerDestroy(target);
      SubtreeLost(s, birth, target, notices[|start|..]);
      return true;
    }

    method DestroyChild(automaton: Aid, key: Key) returns (ok: bool)
      requires Valid()
      modifies this, aids`used
      ensures Valid() && ok == (automaton in old(records) && key in old(records)[automaton].children)
      ensures View() == if ok then Remove(old(View()), Subtree(old(records), old(birth), old(records)[automaton].children[key]))
                        else old(View())
      ensures !ok ==> notices == old(notices) + if automaton in old(records) then [CreateKeyDneNotice(automaton, key)] else []
      ensures old(notices) <= notices && birth == old(birth) && clock == old(clock)
      ensures ok ==> DestroyedNotice(automaton, key) in notices[|old(notices)|..]
      ensures ok ==> Announces(notices[|old(notices)|..],
                               Announced(old(View()), Subtree(old(records), old(birth),
                                                              old(records)[automaton].children[key])))
      ensures ok ==> OnlyLosses(old(View()), View()) && LossesTold(old(View()), View(), notices[|old(notices)|..])
      ensures ok ==> records.Keys == old(records).Keys
                                     - Subtree(old(records), old(birth), old(records)[automaton].children[key])
    {
      if automaton !in aids.used {
        return false;
      }
      if key !in records[automaton].children {
        notices := notices + [CreateKeyDneNotice(automaton, key)];
        return false;
      }
      var child := records[automaton].children[key];
      ghost var sub := Subtree(records, birth, child);
      assert ChildOk(records, automaton, key);
      assert child in sub && DestroyedNotice(automaton, key) in Announced(View(), sub);
      ghost var s, start := View(), notices;
      InnerDestroy(child);
      SubtreeLost(s, birth, child, notices[|start|..]);
      assert Told(notices[|old(notices)|..], DestroyedNotice(automaton, key));
      return true;
    }

    // -------------------------------------------------------------- creation

    /** A root automaton; the allocator returned this instance.  -1 is None. */
    method CreateRoot(instance: Instance) returns (aid: Option<Aid>)
      requires Valid() && exists x: nat :: x <= MAX_ID && x !in aids.used
      modifies this, aids
      ensures Valid()
      ensures aid.None? <==> instance in old(instances)
      ensures aid.None? ==> View() == old(View()) && birth == old(birth) && clock == old(clock)
      ensures aid.Some? ==>
                && IsNextFree(old(aids.used), old(aids.counter), aid.value)
                && records == WithRoot(old(records), aid.value, instance) && bindings == old(bindings)
                && aids.counter == aid.value && birth == old(birth)[aid.value := old(clock)] && clock == old(clock) + 1
      ensures notices == old(notices)
    {
      var id := aids.Take();
      if instance in instances {
        aids.Replace(id);
        return None;
      }
      RootCreated(View(), birth, id, instance, clock);
      instances := instances + {instance};
      records := records[id := AutomatonRecord(instance, None, 0, map[], {})];
      birth, clock := birth[id := clock], clock + 1;
      return Some(id);
    }

    /** An automaton created by another one under a key. */
    method Create(creator: Aid, instance: Instance, key: Key) returns (result: CreateResult, aid: Aid)
      requires Valid()
      requires creator in records && key !in records[creator].children ==> exists x: nat :: x <= MAX_ID && x !in aids.used
      modifies this, aids
      ensures Valid()
      ensures result == if creator !in old(records) then CreatorDoesNotExist
                        else if key in old(records)[creator].children then CreateKeyExists
                        else if instance in old(instances) then InstanceExists
                        else AutomatonCreated
      ensures if result == CreatorDoesNotExist || result == CreateKeyExists then aids.counter == old(aids.counter)
              else IsNextFree(old(aids.used), old(aids.counter), aids.counter)
      ensures result != AutomatonCreated ==> View() == old(View()) && birth == old(birth) && clock == old(clock)
      ensures result == AutomatonCreated ==>
                && aid == aids.counter && birth == old(birth)[aid := old(clock)] && clock == old(clock) + 1
                && records == WithAutomaton(old(records), aid, instance, creator, key) && bindings == old(bindings)
                && records.Keys == old(records).Keys + {aid} && aid !in old(records)
                && records[aid] == AutomatonRecord(instance, Some(creator), key, map[], {})
                && records[creator] == old(records)[creator].(children := old(records)[creator].children[key := aid])
                && forall x | x in old(records) && x != creator :: records[x] == old(records)[x]
      ensures notices == old(notices)
                         + if result == CreatorDoesNotExist then [] else [CreatedNotice(creator, result, key)]
    {
      aid := 0;
      if creator !in aids.used {
        return CreatorDoesNotExist, aid;
      }
      if key in records[creator].children {
        notices := notices + [CreatedNotice(creator, CreateKeyExists, key)];
        return CreateKeyExists, aid;
      }
      aid := aids.Take();
      if instance in instances {
        aids.Replace(aid);
        notices := notices + [CreatedNotice(creator, InstanceExists, key)];
        return InstanceExists, aid;
      }
      ChildCreated(View(), birth, aid, instance, creator, key, clock);
      Adopt(creator, instance, key, aid);
      notices := notices + [CreatedNotice(creator, AutomatonCreated, key)];
      return AutomatonCreated, aid;
    }

    /** The record of a new automaton, entered with its parent. */
    method Adopt(creator: Aid, instance: Instance, key: Key, aid: Aid)
      requires aid !in records && creator in records
      modifies `instances, `records, `birth, `clock
      ensures instances == old(instances) + {instance}
      ensures records == WithAutomaton(old(records), aid, instance, creator, key)
      ensures birth == old(birth)[aid := old(clock)] && clock == old(clock) + 1
    {
      instances := instances + {instance};
      records := records[aid := AutomatonRecord(instance, Some(creator), key, map[], {})];
      records := records[creator := records[creator].(children := records[creator].children[key := aid])];
      birth, clock := birth[aid := clock], clock + 1;
      assert records == WithAutomaton(old(records), aid, instance, creator, key);
    }

    // -------------------------------------------------------------- binding

    /** std::find_if over the bindings. */
    method FindIf(p: Executor -> bool) returns (pos: nat)
      ensures pos <= |bindings| && (pos < |bindings| ==> p(bindings[pos]))
      ensures forall i | 0 <= i < pos :: !p(bindings[i])
    {
      pos := 0;
      while pos < |bindings| && !p(bindings[pos])
        invariant pos <= |bindings| && forall i | 0 <= i < pos :: !p(bindings[i])
      {
        pos := pos + 1;
      }
    }

    /** Why a bind request between known actions fails, or Bound. */
    method CheckBind(output: Action, input: Action, binder: Aid, key: Key) returns (r: BindResult)
      requires Valid()
      ensures r == BindOutcome(records.Keys, Tuples(bindings), output, input, binder, key)
    {
      KeyInList(bindings, binder, key);
      BindingInList(bindings, output, input, binder);
      InputInList(bindings, input);
      OutputInList(bindings, output, input.aid);
      if binder !in aids.used {
        return BinderDoesNotExist;
      }
      if key in records[binder].bindKeys {
        return BindKeyExists;
      }
      if output.aid !in records {
        return OutputAutomatonDne;
      }
      if input.aid !in records {
        return InputAutomatonDne;
      }
      var pos := FindIf((e: Executor) => InvolvesBinding(e, output, input, binder));
      if pos != |bindings| {
        return BindingExists;
      }
      var inPos := FindIf((e: Executor) => InvolvesInput(e, input));
      if inPos != |bindings| {
        return InputActionUnavailable;
      }
      var outPos := FindIf((e: Executor) => e.action == output);
      assert forall i | outPos < i < |bindings| :: OtherAction(bindings[outPos], bindings[i]);
      if output.aid == input.aid || (outPos != |bindings| && input.aid in bindings[outPos].records) {
        return OutputActionUnavailable;
      }
      return Bound;
    }
  
    /** The record goes to the executor of the output action; a new executor goes to the front. */
    method Insert(output: Action, r: Record)
      modifies `bindings
      ensures IsInserted(old(bindings), output, r, bindings)
    {
      var outPos := FindIf((e: Executor) => e.action == output);
      if outPos != |bindings| {
        bindings := bindings[outPos := BindRecord(bindings[outPos], r)];
      } else {
        bindings := [BindRecord(Executor(output, map[]), r)] + bindings;
      }
    }

    /** The first record of an executor with the key goes; an executor left empty is erased. */
    method Erase(pos: nat, binder: Aid, key: Key) returns (ghost x: Aid)
      requires pos < |bindings| && InvolvesAidKey(bindings[pos], binder, key)
      modifies `bindings
      ensures IsFirst(old(bindings)[pos], binder, key, x) && bindings == Erased(old(bindings), pos, x)
    {
      var e := bindings[pos];
      var first := FirstMatch(e, binder, key);
      var left := e.(records := e.records - {first});
      x := first;
      if left.records == map[] {
        bindings := bindings[..pos] + bindings[pos + 1..];
      } else {
        bindings := bindings[pos := left];
      }
    }

    /** The binding is added exactly when the checks on the set of tuples allow it; the binder is told in any case. */
    method Bind(binder: Aid, o: Request, i: Request, key: Key) returns (r: BindResult)
      requires Valid() && o.action.category == Output && i.action.category == Input
      modifies this
      ensures Valid() && birth == old(birth) && clock == old(clock)
      ensures var output, input := Resolved(o, i.action.aid), Resolved(i, o.action.aid);
              && r == BindOutcome(old(records).Keys, Tuples(old(bindings)), output, input, binder, key)
              && Tuples(bindings) == Tuples(old(bindings)) + if r == Bound then {Tuple(output, input, binder, key)} else {}
      ensures var output, input := Resolved(o, i.action.aid), Resolved(i, o.action.aid);
              && (r == Bound <==>
                    Grantable(old(records).Keys, Tuples(old(bindings)), Tuple(output, input, binder, key)))
              && Applies(r, old(records).Keys, Tuples(old(bindings)), output, input, binder, key)
              && forall q: BindResult | CheckOrder(q) < CheckOrder(r) ::
                   !Applies(q, old(records).Keys, Tuples(old(bindings)), output, input, binder, key)
      ensures r != Bound ==> View() == old(View())
      ensures r == Bound ==> records == WithBindKey(old(records), binder, key)
      ensures notices == old(notices) + if r == BinderDoesNotExist then [] else [BoundNotice(binder, r, key)]
    {
      var output, input := Resolved(o, i.action.aid), Resolved(i, o.action.aid);
      r := CheckBind(output, input, binder, key);
      GrantedExactly(records.Keys, Tuples(bindings), output, input, binder, key);
      FirstThatApplies(records.Keys, Tuples(bindings), output, input, binder, key);
      if r == Bound {
        ghost var s := View();
        Insert(output, Record(input, binder, key));
        BindOk(s, birth, output, input, binder, key, bindings);
        records := records[binder := records[binder].(bindKeys := records[binder].bindKeys + {key})];
      }
      if r != BinderDoesNotExist {
        notices := notices + [BoundNotice(binder, r, key)];
      }
    }

    /** Removes exactly the binding with that binder and key. */
    method Unbind(binder: Aid, key: Key) returns (ok: bool)
      requires Valid()
      modifies this
      ensures Valid() && birth == old(birth) && clock == old(clock)
      ensures ok <==> binder in old(records) && key in BoundKeys(Tuples(old(bindings)), binder)
      ensures Tuples(bindings) == set t | t in Tuples(old(bindings)) && !(t.binder == binder && t.key == key)
      ensures records == if ok then WithoutBindKey(old(records), binder, key) else old(records)
      ensures !ok ==> bindings == old(bindings)
      ensures notices == old(notices) + if ok then [UnboundNotice(binder, key)]
                                        else if binder in old(records) then [BindKeyDneNotice(binder, key)] else []
    {
      KeyInList(bindings, binder, key);
      if binder !in aids.used {
        NotLive(View(), binder);
        return false;
      }
      var pos := FindIf((e: Executor) => InvolvesAidKey(e, binder, key));
      if pos == |bindings| {
        notices := notices + [BindKeyDneNotice(binder, key)];
        return false;
      }
      ghost var s := View();
      ghost var x := Erase(pos, binder, key);
      UnbindOk(s, birth, pos, x, binder, key);
      records := records[binder := records[binder].(bindKeys := records[binder].bindKeys - {key})];
      notices := notices + [UnboundNotice(binder, key)];
      return true;
    }

    /** The number of bindings the action takes part in. */
    method BindingCount(action: Action) returns (n: nat)
      requires Valid()
      ensures n == |BindingsOf(Tuples(bindings), action)|
    {
      var inPos := FindIf((e: Executor) => InvolvesInput(e, action));
      if inPos != |bindings| {
        CountInput(bindings, inPos, action);
        return 1;
      }
      var outPos := FindIf((e: Executor) => e.action == action);
      if outPos != |bindings| {
        CountOutput(bindings, outPos);
        return |bindings[outPos].records|;
      }
      CountNone(bindings, action);
      return 0;
    }
  }

  lemma NotLive(s: State, binder: Aid)
    requires LiveTuples(s.automata.Keys, Tuples(s.executors)) && binder !in s.automata
    ensures forall t | t in Tuples(s.executors) :: t.binder != binder
  {
    forall t | t in Tuples(s.executors)
      ensures t.binder != binder
    {
      assert IsLive(s.automata.Keys, t);
    }
  }

  ghost predicate IsInserted(es: seq<Executor>, output: Action, r: Record, es': seq<Executor>) {
    || (exists i :: 0 <= i < |es| && es[i].action == output && es' == es[i := BindRecord(es[i], r)])
    || ((forall i | 0 <= i < |es| :: es[i].action != output) && es' == [BindRecord(Executor(output, map[]), r)] + es)
  }

  function Erased(es: seq<Executor>, pos: nat, x: Aid): seq<Executor>
    requires pos < |es|
  {
    var left := es[pos].(records := es[pos].records - {x});
    if left.records == map[] then es[..pos] + es[pos + 1..] else es[pos := left]
  }

  lemma InsertedOk(es: seq<Executor>, output: Action, r: Record, es': seq<Executor>)
    requires TableOk(es) && output.category == Output && r.input.category == Input && r.input.aid != output.aid
    requires IsInserted(es, output, r, es')
    requires !exists t :: t in Tuples(es) && t.output == output && t.input.aid == r.input.aid
    ensures TableOk(es') && Tuples(es') == Tuples(es) + {TupleOf(output, r)}
  {
    OutputInList(es, output, r.input.aid);
    if forall i | 0 <= i < |es| :: es[i].action != output {
      FirstBinding(es, output, r);
    } else {
      var i :| 0 <= i < |es| && es[i].action == output && es' == es[i := BindRecord(es[i], r)];
      assert EntryOk(es[i]);
      BindTuples(es[i], r);
      TupleAt(es, i);
      ReplaceExecutor(es, i, BindRecord(es[i], r));
    }
  }

  lemma BindOk(s: State, birth: Births, output: Action, input: Action, binder: Aid, key: Key, es': seq<Executor>)
    requires StateOk(s, birth) && output.category == Output && input.category == Input
    requires BindOutcome(s.automata.Keys, Tuples(s.executors), output, input, binder, key) == Bound
    requires IsInserted(s.executors, output, Record(input, binder, key), es')
    ensures var f' := WithBindKey(s.automata, binder, key);
            && Tuples(es') == Tuples(s.executors) + {Tuple(output, input, binder, key)}
            && StateOk(State(f', es'), birth) && Instances(f') == Instances(s.automata)
  {
    var t := Tuple(output, input, binder, key);
    KeysForest(s.automata, birth, binder, s.automata[binder].bindKeys + {key});
    BoundKeepsTuplesOk(s.automata.Keys, Tuples(s.executors), output, input, binder, key);
    InsertedOk(s.executors, output, Record(input, binder, key), es');
    BoundTuplesLive(s, WithBindKey(s.automata, binder, key), Tuples(es'), t);
  }

  /** push_front of a new executor. */
  lemma FirstBinding(es: seq<Executor>, output: Action, r: Record)
    requires TableOk(es) && output.category == Output && r.input.category == Input && r.input.aid != output.aid
    requires forall i | 0 <= i < |es| :: es[i].action != output
    ensures var e := BindRecord(Executor(output, map[]), r);
            TableOk([e] + es) && Tuples([e] + es) == Tuples(es) + {TupleOf(output, r)}
  {
    var e := BindRecord(Executor(output, map[]), r);
    BindTuples(Executor(output, map[]), r);
    TuplesOfEmpty(Executor(output, map[]));
    assert r.input.aid in e.records;
    forall i | 0 <= i < |es|
      ensures OtherAction(e, es[i])
    {
    }
    TablePush(e, es);
    assert ([e] + es)[1..] == es;
  }

  lemma BoundTuplesLive(s: State, f': Automata, ts': set<Tuple>, t: Tuple)
    requires LiveTuples(s.automata.Keys, Tuples(s.executors)) && BindKeysOk(s.automata, Tuples(s.executors))
    requires t.binder in s.automata && IsLive(s.automata.Keys, t) && ts' == Tuples(s.executors) + {t}
    requires f' == WithBindKey(s.automata, t.binder, t.key)
    ensures LiveTuples(f'.Keys, ts') && BindKeysOk(f', ts')
  {
    var ts := Tuples(s.executors);
    assert f'.Keys == s.automata.Keys;
    forall u | u in ts'
      ensures IsLive(f'.Keys, u)
    {
      assert u == t || IsLive(s.automata.Keys, u);
    }
    forall x | x in f'
      ensures f'[x].bindKeys == BoundKeys(ts', x)
    {
      assert BoundKeys(ts', x) == BoundKeys(ts, x) + BoundKeys({t}, x);
      assert BoundKeys({t}, x) == if x == t.binder then {t.key} else {};
    }
  }

  lemma UnbindOk(s: State, birth: Births, pos: nat, x: Aid, binder: Aid, key: Key)
    requires StateOk(s, birth) && pos < |s.executors| && IsFirst(s.executors[pos], binder, key, x) && binder in s.automata
    ensures var f', es := WithoutBindKey(s.automata, binder, key), Erased(s.executors, pos, x);
            && Tuples(es) == (set t | t in Tuples(s.executors) && !(t.binder == binder && t.key == key))
            && key in BoundKeys(Tuples(s.executors), binder)
            && StateOk(State(f', es), birth) && Instances(f') == Instances(s.automata)
  {
    var e, ts := s.executors[pos], Tuples(s.executors);
    var left, t := e.(records := e.records - {x}), TupleOf(e.action, e.records[x]);
    RecordIsTuple(s.executors, pos, x);
    assert EntryOk(e);
    DropTuples(e, x);
    TupleAt(s.executors, pos);
    if left.records == map[] {
      TuplesOfEmpty(left);
      EraseExecutor(s.executors, pos);
    } else {
      ReplaceExecutor(s.executors, pos, left);
    }
    OnlyTuple(ts, t);
    KeysForest(s.automata, birth, binder, s.automata[binder].bindKeys - {key});
    UnboundTuplesLive(s, t);
  }

  lemma OnlyTuple(ts: set<Tuple>, t: Tuple)
    requires TuplesOk(ts) && t in ts
    ensures (set u | u in ts && !(u.binder == t.binder && u.key == t.key)) == ts - {t}
    ensures TuplesOk(ts - {t})
  {
    forall u | u in ts && u.binder == t.binder && u.key == t.key
      ensures u == t
    {
      assert Compatible(t, u);
    }
  }

  lemma UnboundTuplesLive(s: State, t: Tuple)
    requires TuplesOk(Tuples(s.executors)) && LiveTuples(s.automata.Keys, Tuples(s.executors))
    requires BindKeysOk(s.automata, Tuples(s.executors)) && t in Tuples(s.executors) && t.binder in s.automata
    ensures var f', ts' := WithoutBindKey(s.automata, t.binder, t.key), Tuples(s.executors) - {t};
            LiveTuples(f'.Keys, ts') && BindKeysOk(f', ts')
  {
    var f', ts, ts' := WithoutBindKey(s.automata, t.binder, t.key), Tuples(s.executors), Tuples(s.executors) - {t};
    assert f'.Keys == s.automata.Keys;
    forall x | x in f'
      ensures f'[x].bindKeys == BoundKeys(ts', x)
    {
      forall u | u in ts' && u.binder == t.binder
        ensures u.key != t.key
      {
        assert Compatible(t, u);
      }
      assert ts == ts' + {t};
      assert BoundKeys(ts, x) == BoundKeys(ts', x) + BoundKeys({t}, x);
      assert BoundKeys({t}, x) == if x == t.binder then {t.key} else {};
    }
  }

  lemma RootCreated(s: State, birth: Births, aid: Aid, instance: Instance, now: nat)
    requires StateOk(s, birth) && aid !in s.automata && instance !in Instances(s.automata)
    ensures StateOk(State(WithRoot(s.automata, aid, instance), s.executors), birth[aid := now])
    ensures Instances(WithRoot(s.automata, aid, instance)) == Instances(s.automata) + {instance}
  {
    var f' := WithRoot(s.automata, aid, instance);
    RootForest(s.automata, birth, aid, instance, now);
    NewAutomatonOk(s, birth, f', birth[aid := now], aid, instance);
    NewInstance(s.automata, f', aid);
  }

  lemma ChildCreated(s: State, birth: Births, aid: Aid, instance: Instance, parent: Aid, key: Key, now: nat)
    requires StateOk(s, birth) && aid !in s.automata && instance !in Instances(s.automata)
    requires parent in s.automata && key !in s.automata[parent].children && (parent in birth ==> birth[parent] < now)
    ensures StateOk(State(WithAutomaton(s.automata, aid, instance, parent, key), s.executors), birth[aid := now])
    ensures Instances(WithAutomaton(s.automata, aid, instance, parent, key)) == Instances(s.automata) + {instance}
  {
    var f' := WithAutomaton(s.automata, aid, instance, parent, key);
    ChildForest(s.automata, birth, aid, instance, parent, key, now);
    NewAutomatonOk(s, birth, f', birth[aid := now], aid, instance);
    NewInstance(s.automata, f', aid);
  }

  lemma RootGoes(s: State, birth: Births, a: Aid)
    requires StateOk(s, birth) && a in s.automata
    ensures Remove(s, Subtree(s.automata, birth, a)).automata.Keys < s.automata.Keys
  {
    assert a in Subtree(s.automata, birth, a);
  }

  lemma NewInstance(f: Automata, f': Automata, aid: Aid)
    requires f'.Keys == f.Keys + {aid} && aid !in f && forall x | x in f :: f'[x].instance == f[x].instance
    ensures Instances(f') == Instances(f) + {f'[aid].instance}
  {
    forall i | i in Instances(f) + {f'[aid].instance}
      ensures i in Instances(f')
    {
      if i in Instances(f) {
        var x :| x in f && f[x].instance == i;
        assert x in f' && f'[x].instance == i;
      } else {
        assert aid in f';
      }
    }
  }

  /** What the parent of an automaton that goes is told. */
  function ToParent(r: AutomatonRecord): seq<Notice> {
    if r.parent.Some? then [DestroyedNotice(r.parent.value, r.key)] else []
  }

  lemma LeafDone(s: State, birth: Births, aid: Aid, told: seq<Notice>)
    requires StateOk(s, birth) && aid in s.automata && s.automata[aid].children == map[]
    requires Announces(told, UnboundNotices(Touched(Tuples(s.executors), {aid})))
    ensures StateOk(Remove(s, {aid}), birth)
    ensures Remove(s, {aid}).automata.Keys == s.automata.Keys - {aid}
    ensures s.automata[aid].parent.Some? ==> s.automata[aid].parent.value in s.automata
    ensures Instances(Remove(s, {aid}).automata) == Instances(s.automata) - {s.automata[aid].instance}
    ensures DropLeaf(DropKeys(s.automata, Touched(Tuples(s.executors), {aid})), aid) == Remove(s, {aid}).automata
    ensures Announces(told + ToParent(s.automata[aid]), Announced(s, {aid}))
  {
    assert ParentOk(s.automata, birth, aid);
    LeafClosed(s, birth, aid);
    RemoveOk(s, birth, {aid});
    LeafRecords(s, birth, aid);
    InstancesLeft(s, aid);
    LeafAnnounced(s, aid, told);
  }

  lemma InstancesLeft(s: State, aid: Aid)
    requires InstancesOk(s.automata) && aid in s.automata
    ensures Instances(Remove(s, {aid}).automata) == Instances(s.automata) - {s.automata[aid].instance}
  {
    var f, f' := s.automata, Remove(s, {aid}).automata;
    forall i | i in Instances(f) - {f[aid].instance}
      ensures i in Instances(f')
    {
      var x :| x in f && f[x].instance == i;
      assert x in f';
    }
  }

  /** What the removal of a leaf does to the records, step by step. */
  function DropLeaf(f: Automata, aid: Aid): Automata
    requires aid in f
  {
    var r := f[aid];
    (if r.parent.Some? && r.parent.value in f
     then f[r.parent.value := f[r.parent.value].(children := f[r.parent.value].children - {r.key})]
     else f) - {aid}
  }

  lemma LeafRecord(f: Automata, birth: Births, ts: set<Tuple>, aid: Aid, x: Aid)
    requires ForestOk(f, birth) && TuplesOk(ts) && BindKeysOk(f, ts) && aid in f && x in f && x != aid
    ensures x in DropLeaf(DropKeys(f, Touched(ts, {aid})), aid)
    ensures DropLeaf(DropKeys(f, Touched(ts, {aid})), aid)[x] == Without(f, {aid}, Untouched(ts, {aid}))[x]
  {
    assert ParentOk(f, birth, aid);
    KeysLeft(ts, {aid}, x);
    ChildrenLeft(f, birth, aid, x);
  }

  lemma LeafRecords(s: State, birth: Births, aid: Aid)
    requires StateOk(s, birth) && aid in s.automata && s.automata[aid].children == map[]
    ensures DropLeaf(DropKeys(s.automata, Touched(Tuples(s.executors), {aid})), aid) == Remove(s, {aid}).automata
  {
    var left, kept := DropLeaf(DropKeys(s.automata, Touched(Tuples(s.executors), {aid})), aid), Remove(s, {aid}).automata;
    assert ParentOk(s.automata, birth, aid);
    KeepAllTuples(s.executors, {aid});
    assert left.Keys == kept.Keys;
    forall x | x in kept
      ensures left[x] == kept[x]
    {
      LeafRecord(s.automata, birth, Tuples(s.executors), aid, x);
    }
  }

  lemma KeysLeft(ts: set<Tuple>, gone: set<Aid>, x: Aid)
    requires TuplesOk(ts)
    ensures BoundKeys(ts, x) - BoundKeys(Touched(ts, gone), x) == BoundKeys(Untouched(ts, gone), x)
  {
    forall t, u | t in Touched(ts, gone) && u in Untouched(ts, gone)
      ensures !(t.binder == u.binder && t.key == u.key)
    {
      assert Compatible(t, u);
    }
  }

  lemma ChildrenLeft(f: Automata, birth: Births, aid: Aid, x: Aid)
    requires ForestOk(f, birth) && aid in f && x in f
    ensures (map k | k in f[x].children && f[x].children[k] !in {aid} :: f[x].children[k])
            == if f[aid].parent == Some(x) then f[x].children - {f[aid].key} else f[x].children
  {
    assert ParentOk(f, birth, aid);
    forall k | k in f[x].children
      ensures f[x].children[k] == aid <==> f[aid].parent == Some(x) && k == f[aid].key
    {
      assert ChildOk(f, x, k);
    }
  }

  lemma LeafAnnounced(s: State, aid: Aid, told: seq<Notice>)
    requires aid in s.automata && Announces(told, UnboundNotices(Touched(Tuples(s.executors), {aid})))
    ensures Announces(told + ToParent(s.automata[aid]), Announced(s, {aid}))
  {
    assert Announces(ToParent(s.automata[aid]), DestroyedNotices(s.automata, {aid}));
    AnnouncesConcat(told, ToParent(s.automata[aid]), UnboundNotices(Touched(Tuples(s.executors), {aid})),
                    DestroyedNotices(s.automata, {aid}));
  }

  lemma LeafClosed(s: State, birth: Births, aid: Aid)
    requires ForestOk(s.automata, birth) && aid in s.automata && s.automata[aid].children == map[]
    ensures DownClosed(s.automata, {aid})
  {
    forall c | c in s.automata
      ensures s.automata[c].parent != Some(aid)
    {
      assert ParentOk(s.automata, birth, c);
    }
  }

  /** The loop over the bindings after k of the executors es. */
  ghost predicate HalfDone(es: seq<Executor>, f: Automata, aid: Aid, k: nat, pos: nat,
                           bindings: seq<Executor>, records: Automata, told: seq<Notice>) {
    && k <= |es| && TableOk(es) && TuplesOk(Tuples(es)) && LiveTuples(f.Keys, Tuples(es))
    && pos == |KeepAll(es[..k], {aid})| && bindings == KeepAll(es[..k], {aid}) + es[k..]
    && records == DropKeys(f, Touched(Tuples(es[..k]), {aid}))
    && AllTold(es, aid, k, told)
  }

  ghost predicate AllTold(es: seq<Executor>, aid: Aid, k: nat, told: seq<Notice>) {
    k <= |es| && Announces(told, UnboundNotices(Touched(Tuples(es[..k]), {aid})))
  }

  lemma NoneDone(es: seq<Executor>, aid: Aid, f: Automata)
    requires TableOk(es) && TuplesOk(Tuples(es)) && LiveTuples(f.Keys, Tuples(es))
    ensures HalfDone(es, f, aid, 0, 0, es, f, [])
  {
    DropKeysNothing(f);
    assert es[..0] == [] && Touched(Tuples([]), {aid}) == {};
  }

  lemma NextReady(es: seq<Executor>, f: Automata, aid: Aid, k: nat, pos: nat,
                  bindings: seq<Executor>, records: Automata, told: seq<Notice>)
    requires HalfDone(es, f, aid, k, pos, bindings, records, told) && pos < |bindings|
    ensures k < |es| && bindings[pos] == es[k] && ExecutorOk(es[k]) && TuplesOk(TuplesOf(es[k]))
    ensures forall x | x in es[k].records :: es[k].records[x].binder in records
  {
    ExecutorTuples(es, k);
    DroppedBinders(es, k, f, Touched(Tuples(es[..k]), {aid}));
  }

  lemma OneDone(es: seq<Executor>, f: Automata, aid: Aid, k: nat, pos: nat, bindings: seq<Executor>,
                told: seq<Notice>)
    requires k < |es| && HalfDone(es, f, aid, k, pos, bindings, DropKeys(f, Touched(Tuples(es[..k]), {aid})), told)
    ensures var left := Keep(es[k], {aid});
            && (if left.records == map[]
                then KeepAll(es[..k + 1], {aid}) + es[k + 1..] == bindings[..pos] + bindings[pos + 1..]
                     && |KeepAll(es[..k + 1], {aid})| == pos
                else KeepAll(es[..k + 1], {aid}) + es[k + 1..] == bindings[pos := left]
                     && |KeepAll(es[..k + 1], {aid})| == pos + 1)
            && DropKeys(DropKeys(f, Touched(Tuples(es[..k]), {aid})), Touched(TuplesOf(es[k]), {aid}))
               == DropKeys(f, Touched(Tuples(es[..k + 1]), {aid}))
  {
    TuplesSoFar(es, k);
    assert Touched(Tuples(es[..k + 1]), {aid}) == Touched(Tuples(es[..k]), {aid}) + Touched(TuplesOf(es[k]), {aid});
    DropKeysTwice(f, Touched(Tuples(es[..k]), {aid}), Touched(TuplesOf(es[k]), {aid}));
    ErasedSoFar(es, k, aid);
  }

  lemma OneTold(es: seq<Executor>, aid: Aid, k: nat, told: seq<Notice>, now: seq<Notice>)
    requires TableOk(es) && TuplesOk(Tuples(es)) && k < |es| && AllTold(es, aid, k, told)
    requires Announces(now, UnboundNotices(Touched(TuplesOf(es[k]), {aid})))
    ensures AllTold(es, aid, k + 1, told + now)
  {
    var a, b := Touched(Tuples(es[..k]), {aid}), Touched(TuplesOf(es[k]), {aid});
    TuplesSoFar(es, k);
    ExecutorApart(es, k);
    assert Touched(Tuples(es[..k + 1]), {aid}) == a + b;
    UnboundInParts(Tuples(es), a, b);
    AnnouncesConcat(told, now, UnboundNotices(a), UnboundNotices(b));
  }

  lemma AllDone(es: seq<Executor>, f: Automata, aid: Aid, k: nat, pos: nat,
                bindings: seq<Executor>, records: Automata, told: seq<Notice>)
    requires HalfDone(es, f, aid, k, pos, bindings, records, told) && pos == |bindings|
    ensures bindings == KeepAll(es, {aid}) && records == DropKeys(f, Touched(Tuples(es), {aid}))
    ensures Announces(told, UnboundNotices(Touched(Tuples(es), {aid})))
  {
    assert es[..k] == es;
  }

  /** The tuples some automata take part in. */
  function Touched(ts: set<Tuple>, gone: set<Aid>): set<Tuple> {
    ts - Untouched(ts, gone)
  }

  /** The tuples of one executor among those of the list. */
  lemma ExecutorTuples(es: seq<Executor>, k: nat)
    requires TableOk(es) && TuplesOk(Tuples(es)) && k < |es|
    ensures TuplesOf(es[k]) <= Tuples(es) && TuplesOk(TuplesOf(es[k])) && ExecutorOk(es[k])
  {
    TupleAt(es, k);
    assert EntryOk(es[k]);
  }

  lemma DroppedBinders(es: seq<Executor>, k: nat, f: Automata, ts: set<Tuple>)
    requires k < |es| && LiveTuples(f.Keys, Tuples(es))
    ensures forall x | x in es[k].records :: es[k].records[x].binder in DropKeys(f, ts)
  {
    forall x | x in es[k].records
      ensures es[k].records[x].binder in f
    {
      RecordIsTuple(es, k, x);
      assert IsLive(f.Keys, TupleOf(es[k].action, es[k].records[x]));
    }
  }

  lemma TuplesSoFar(es: seq<Executor>, k: nat)
    requires TableOk(es) && k < |es|
    ensures Tuples(es[..k + 1]) == Tuples(es[..k]) + TuplesOf(es[k])
    ensures Tuples(es[..k + 1]) <= Tuples(es)
  {
    SplitAt(es, k);
    TuplesConcat(es[..k + 1], es[k + 1..]);
    TuplesPush(es[..k], es[k]);
  }

  lemma ReleasedTuples(e: Executor, aid: Aid)
    requires ExecutorOk(e)
    ensures TuplesAt(e, e.records.Keys - Keep(e, {aid}).records.Keys) == Touched(TuplesOf(e), {aid})
  {
    var kept := Keep(e, {aid});
    var released := e.records.Keys - kept.records.Keys;
    forall t | t in Touched(TuplesOf(e), {aid})
      ensures t in TuplesAt(e, released)
    {
      var x :| x in e.records && t == TupleOf(e.action, e.records[x]);
      assert x in released;
    }
    forall t | t in TuplesAt(e, released)
      ensures t in Touched(TuplesOf(e), {aid})
    {
      var x :| x in released && t == TupleOf(e.action, e.records[x]);
    }
  }

  lemma {:induction false} KeepAllPush(es: seq<Executor>, e: Executor, gone: set<Aid>)
    ensures KeepAll(es + [e], gone) == KeepAll(es, gone) + if Keep(e, gone).records == map[] then [] else [Keep(e, gone)]
  {
    if es == [] {
      assert es + [e] == [e] && [e][1..] == [];
    } else {
      assert (es + [e])[1..] == es[1..] + [e];
      KeepAllPush(es[1..], e, gone);
    }
  }

  lemma HeadTail<T>(s: seq<T>, k: nat)
    requires k < |s|
    ensures s[k..] == [s[k]] + s[k + 1..]
  {}

  lemma InTheMiddle<T>(a: seq<T>, x: T, y: T, b: seq<T>)
    ensures var s := a + ([x] + b);
            s[..|a|] + s[|a| + 1..] == a + b && s[|a| := y] == a + [y] + b
  {
    var s := a + ([x] + b);
    assert s[..|a|] == a && s[|a| + 1..] == b;
    assert |s[|a| := y]| == |a + [y] + b|;
  }

  lemma ErasedSoFar(es: seq<Executor>, k: nat, aid: Aid)
    requires k < |es|
    ensures var before, left := KeepAll(es[..k], {aid}), Keep(es[k], {aid});
            var bindings, pos := before + es[k..], |before|;
            && bindings[..pos] + bindings[pos + 1..] == before + es[k + 1..]
            && bindings[pos := left] == before + [left] + es[k + 1..]
            && KeepAll(es[..k + 1], {aid}) == before + if left.records == map[] then [] else [left]
  {
    KeepAllPush(es[..k], es[k], {aid});
    assert es[..k] + [es[k]] == es[..k + 1];
    HeadTail(es, k);
    InTheMiddle(KeepAll(es[..k], {aid}), es[k], Keep(es[k], {aid}), es[k + 1..]);
  }

  lemma ReleaseOne(e: Executor, done: set<Aid>, x: Aid, f: Automata, told: seq<Notice>)
    requires ExecutorOk(e) && done <= e.records.Keys && x in e.records && x !in done && TuplesOk(TuplesOf(e))
    requires e.records[x].binder in f
    requires Announces(told, UnboundNotices(TuplesAt(e, done)))
    ensures var r, before := e.records[x], DropKeys(f, TuplesAt(e, done));
            && DropKeys(f, TuplesAt(e, done + {x}))
               == before[r.binder := before[r.binder].(bindKeys := before[r.binder].bindKeys - {r.key})]
            && Announces(told + [UnboundNotice(r.binder, r.key)], UnboundNotices(TuplesAt(e, done + {x})))
  {
    var r, t := e.records[x], TupleOf(e.action, e.records[x]);
    assert TuplesAt(e, done + {x}) == TuplesAt(e, done) + {t};
    DropKeysTwice(f, TuplesAt(e, done), {t});
    DropOneKey(DropKeys(f, TuplesAt(e, done)), t);
    assert t in TuplesOf(e) && t !in TuplesAt(e, done);
    assert TuplesAt(e, done) <= TuplesOf(e);
    UnboundInParts(TuplesOf(e), TuplesAt(e, done), {t});
    assert UnboundNotices({t}) == {UnboundNotice(r.binder, r.key)};
    AnnouncesConcat(told, [UnboundNotice(r.binder, r.key)], UnboundNotices(TuplesAt(e, done)), UnboundNotices({t}));
  }
}
