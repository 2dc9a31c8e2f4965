/**
 The model part of the protocol is what the class Model does: each configuration runnable that the queue holds for
 the model (lib/create_runnable.hpp, lib/bind_runnable.hpp, lib/unbind_runnable.hpp, lib/destroy_runnable.hpp),
 run on an object that represents the system, leaves an object that represents the system after that step, and
 has put exactly that step's notices on the queue.
 */
module ModelProtocol {
  import opened Common
  import opened Bindings
  import opened Forest
  import opened Automaton
  import opened ProtocolSystem
  import opened ProtocolTheorems
  import opened SequentialSet
  import M = Model

  /** The object holds the forest and the bindings of the system, and has handed out every identifier ever used
      on its way up to the counter. */
  ghost predicate Represents(m: M.Model, sys: System)
    reads m, m.aids
  {
    && m.Valid()
    && sys.automata == m.records && sys.tuples == Tuples(m.bindings)
    && sys.births == m.birth && sys.clock == m.clock
    && m.records.Keys <= sys.ever && forall x | x in sys.ever :: x <= m.aids.counter
  }

  /** Until the counter wraps, the next identifier is one that was never used. */
  lemma NextIsFresh(used: set<nat>, c: nat, r: nat)
    requires c < MAX_ID && (forall x | x in used :: x <= c) && IsNextFree(used, c, r)
    ensures r == c + 1
  {
    assert c + 1 !in used && Distance(c, r) <= Distance(c, c + 1);
  }

  lemma OneIsFree(used: set<nat>, c: nat)
    requires c < MAX_ID && forall x | x in used :: x <= c
    ensures exists x: nat :: x <= MAX_ID && x !in used
  {
    assert c + 1 !in used;
  }

  /** The system as the scheduler starts it: a new model with the root automaton. */
  method Start(instance: Instance, ghost calls: seq<Call>) returns (m: M.Model, root: Aid)
    requires CanBuild(calls)
    ensures fresh(m) && fresh(m.aids) && Represents(m, InitialSystem(root, instance, calls))
    ensures m.notices == []
  {
    m := new M.Model();
    OneIsFree(m.aids.used, 0);
    var aid := m.CreateRoot(instance);
    assert Instances(map[]) == {};
    root := aid.value;
    assert Tuples([]) == {};
  }

  // ---------------------------------------------------------------- create

  method RunCreateRequest(m: M.Model, creator: Aid, instance: Instance, key: Key,
                          ghost sys: System, ghost calls: seq<Call>) returns (result: CreateResult, ghost c: Choice)
    requires Represents(m, sys) && m.aids.counter < MAX_ID && CanBuild(calls)
    requires sys.queue != [] && sys.queue[0].RequestTask? && sys.queue[0].kind == CreateKind
    requires sys.queue[0].aid == creator && sys.queue[0].k == key
    modifies m, m.aids
    ensures Enabled(sys, RunStep(c)) && c.instance == instance && c.calls == calls
    ensures Represents(m, Take(sys, RunStep(c))) && old(m.notices) <= m.notices
    ensures Take(sys, RunStep(c)).queue
            == sys.queue[1..] + Outputs(c.aid, if result == AutomatonCreated then BuiltOutputs(calls) else [])
               + NoticeTasks(m.notices[|old(m.notices)|..])
  {
    ghost var told := m.notices;
    c := Choice(key, sys.queue[0].output, sys.queue[0].input, instance, m.aids.counter + 1, calls, []);
    result := CreateFresh(m, creator, instance, key);
    CreateAgrees(sys, creator, key, c, result);
    assert m.notices[|told|..] == if result == CreatorDoesNotExist then [] else [CreatedNotice(creator, result, key)];
  }

  /** Before the counter wraps, a new automaton gets the next identifier. */
  method CreateFresh(m: M.Model, creator: Aid, instance: Instance, key: Key) returns (result: CreateResult)
    requires m.Valid() && m.aids.counter < MAX_ID && forall x | x in m.records :: x <= m.aids.counter
    modifies m, m.aids
    ensures m.Valid() && m.bindings == old(m.bindings)
    ensures result == if creator !in old(m.records) then CreatorDoesNotExist
                      else if key in old(m.records)[creator].children then CreateKeyExists
                      else if instance in Instances(old(m.records)) then InstanceExists
                      else AutomatonCreated
    ensures var aid := old(m.aids.counter) + 1;
            if result == AutomatonCreated
            then m.records == WithAutomaton(old(m.records), aid, instance, creator, key) && m.aids.counter == aid
                 && m.birth == old(m.birth)[aid := old(m.clock)] && m.clock == old(m.clock) + 1
            else m.records == old(m.records) && m.birth == old(m.birth) && m.clock == old(m.clock)
                 && old(m.aids.counter) <= m.aids.counter
    ensures m.notices == old(m.notices)
                         + if result == CreatorDoesNotExist then [] else [CreatedNotice(creator, result, key)]
  {
    ghost var used, before := m.aids.used, m.aids.counter;
    OneIsFree(used, before);
    var aid;
    result, aid := m.Create(creator, instance, key);
    if result == AutomatonCreated || result == InstanceExists {
      NextIsFresh(used, before, m.aids.counter);
    }
  }

  lemma CreateAgrees(sys: System, a: Aid, k: Key, c: Choice, r: CreateResult)
    requires sys.queue != [] && sys.queue[0].RequestTask? && sys.queue[0].kind == CreateKind
    requires sys.queue[0].aid == a && sys.queue[0].k == k && Enabled(sys, RunStep(c))
    requires r == if a !in sys.automata then CreatorDoesNotExist
                  else if k in sys.automata[a].children then CreateKeyExists
                  else if c.instance in Instances(sys.automata) then InstanceExists
                  else AutomatonCreated
    ensures var sys', told := Take(sys, RunStep(c)), if r == CreatorDoesNotExist then [] else [CreatedNotice(a, r, k)];
            && sys'.tuples == sys.tuples
            && sys'.queue == sys.queue[1..] + Outputs(c.aid, if r == AutomatonCreated then BuiltOutputs(c.calls) else [])
                             + NoticeTasks(told)
            && if r == AutomatonCreated
               then sys'.automata == WithAutomaton(sys.automata, c.aid, c.instance, a, k) && sys'.ever == sys.ever + {c.aid}
                    && sys'.births == sys.births[c.aid := sys.clock] && sys'.clock == sys.clock + 1
               else SameModel(sys, sys')
  {}

  predicate SameModel(sys: System, sys': System) {
    && sys'.automata == sys.automata && sys'.tuples == sys.tuples && sys'.ever == sys.ever
    && sys'.births == sys.births && sys'.clock == sys.clock
  }

  // ---------------------------------------------------------------- bind and unbind

  method RunBindRequest(m: M.Model, binder: Aid, o: M.Request, i: M.Request, key: Key, ghost sys: System, ghost c: Choice)
    requires Represents(m, sys) && o.action.category == Output && i.action.category == Input
    requires sys.queue != []
    requires sys.queue[0] == RequestTask(binder, BindKind, key, M.Resolved(o, i.action.aid), M.Resolved(i, o.action.aid))
    modifies m
    ensures Enabled(sys, RunStep(c)) && Represents(m, Take(sys, RunStep(c))) && old(m.notices) <= m.notices
    ensures Take(sys, RunStep(c)).queue == sys.queue[1..] + NoticeTasks(m.notices[|old(m.notices)|..])
  {
    ghost var told := m.notices;
    var r := m.Bind(binder, o, i, key);
    assert m.notices[|told|..] == if r == BinderDoesNotExist then [] else [BoundNotice(binder, r, key)];
    assert sys.tuples + {} == sys.tuples;
  }

  method RunUnbindRequest(m: M.Model, binder: Aid, key: Key, ghost sys: System, ghost c: Choice)
    requires Represents(m, sys) && sys.queue != [] && sys.queue[0] == WithdrawTask(binder, BindKind, key)
    modifies m
    ensures Enabled(sys, RunStep(c)) && Represents(m, Take(sys, RunStep(c))) && old(m.notices) <= m.notices
    ensures Take(sys, RunStep(c)).queue == sys.queue[1..] + NoticeTasks(m.notices[|old(m.notices)|..])
  {
    ghost var told := m.notices;
    var ok := m.Unbind(binder, key);
    assert m.notices[|told|..] == if ok then [UnboundNotice(binder, key)]
                                  else if binder in sys.automata then [BindKeyDneNotice(binder, key)] else [];
    NothingToWithdraw(sys.tuples, binder, key);
  }

  lemma NothingToWithdraw(ts: set<Tuple>, binder: Aid, key: Key)
    ensures key !in BoundKeys(ts, binder) ==> WithoutKey(ts, binder, key) == ts
  {}

  // ---------------------------------------------------------------- destroy

  /** The order in which the object announces the losses is the one that the step leaves open. */
  method RunDestroyRequest(m: M.Model, automaton: Aid, key: Key, ghost sys: System, ghost d: Choice) returns (ghost c: Choice)
    requires Represents(m, sys) && sys.queue != [] && sys.queue[0] == WithdrawTask(automaton, CreateKind, key)
    modifies m, m.aids`used
    ensures Enabled(sys, RunStep(c)) && Represents(m, Take(sys, RunStep(c))) && old(m.notices) <= m.notices
    ensures Take(sys, RunStep(c)).queue == sys.queue[1..] + NoticeTasks(m.notices[|old(m.notices)|..])
  {
    ghost var told, es := m.notices, m.bindings;
    var ok := m.DestroyChild(automaton, key);
    c := d.(ns := m.notices[|told|..]);
    if ok {
      KeepAllTuples(es, Child(sys, automaton, key));
    }
  }
}
