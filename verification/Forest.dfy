/**
 The state of the model (lib/model.hpp, lib/automaton_record.cpp): the automata, each with its parent and its
 children by key, and the executors of the bindings; and what is left of it when a set of automata goes.
 */
module Forest {
  import opened Common
  import opened Bindings

  type Instance = nat

  datatype AutomatonRecord = AutomatonRecord(instance: Instance, parent: Option<Aid>, key: Key,
                                             children: map<Key, Aid>, bindKeys: set<Key>)

  type Automata = map<Aid, AutomatonRecord>

  datatype State = State(automata: Automata, executors: seq<Executor>)

  /** birth numbers the automata in the order of their creation. */
  type Births = map<Aid, nat>

  // ---------------------------------------------------------------- the forest

  ghost predicate ParentOk(f: Automata, birth: Births, c: Aid) {
    && c in f && c in birth
    && (f[c].parent.Some? ==>
          var p := f[c].parent.value;
          && p in f && p in birth && birth[p] < birth[c]
          && f[c].key in f[p].children && f[p].children[f[c].key] == c)
  }

  ghost predicate ChildOk(f: Automata, p: Aid, k: Key) {
    && p in f && k in f[p].children
    && var c := f[p].children[k];
       c in f && f[c].parent == Some(p) && f[c].key == k
  }

  ghost predicate ForestOk(f: Automata, birth: Births) {
    && (forall c {:trigger ParentOk(f, birth, c)} | c in f :: ParentOk(f, birth, c))
    && (forall p, k {:trigger ChildOk(f, p, k)} | p in f && k in f[p].children :: ChildOk(f, p, k))
  }

  /** x is a or was created by a descendant of a. */
  ghost predicate Descends(f: Automata, birth: Births, x: Aid, a: Aid)
    requires ForestOk(f, birth)
    decreases if x in birth then birth[x] else 0
  {
    && x in f
    && (x == a || (assert ParentOk(f, birth, x); f[x].parent.Some? && Descends(f, birth, f[x].parent.value, a)))
  }

  ghost function Subtree(f: Automata, birth: Births, a: Aid): (s: set<Aid>)
    requires ForestOk(f, birth)
  {
    set x | x in f && Descends(f, birth, x, a)
  }

  ghost predicate DownClosed(f: Automata, gone: set<Aid>) {
    forall c | c in f && f[c].parent.Some? && f[c].parent.value in gone :: c in gone
  }

  lemma SubtreeDownClosed(f: Automata, birth: Births, a: Aid)
    requires ForestOk(f, birth)
    ensures DownClosed(f, Subtree(f, birth, a))
  {
    forall c | c in f && f[c].parent.Some? && f[c].parent.value in Subtree(f, birth, a)
      ensures Descends(f, birth, c, a)
    {
      assert ParentOk(f, birth, c);
    }
  }

  /** A closed set that holds a holds everything below a. */
  lemma {:induction false} SubtreeLeast(f: Automata, birth: Births, gone: set<Aid>, x: Aid, a: Aid)
    requires ForestOk(f, birth) && DownClosed(f, gone) && a in gone && Descends(f, birth, x, a)
    ensures x in gone
    decreases if x in birth then birth[x] else 0
  {
    if x != a {
      assert ParentOk(f, birth, x);
      SubtreeLeast(f, birth, gone, f[x].parent.value, a);
    }
  }

  lemma {:induction false} DescendsBirth(f: Automata, birth: Births, x: Aid, a: Aid)
    requires ForestOk(f, birth) && Descends(f, birth, x, a)
    ensures x in birth && a in f && a in birth && birth[a] <= birth[x]
    ensures x != a ==> birth[a] < birth[x]
    decreases if x in birth then birth[x] else 0
  {
    assert ParentOk(f, birth, x);
    if x != a {
      DescendsBirth(f, birth, f[x].parent.value, a);
    }
  }

  lemma {:induction false} DescendsTrans(f: Automata, birth: Births, x: Aid, c: Aid, a: Aid)
    requires ForestOk(f, birth) && Descends(f, birth, x, c) && Descends(f, birth, c, a)
    ensures Descends(f, birth, x, a)
    decreases if x in birth then birth[x] else 0
  {
    if x != c {
      assert ParentOk(f, birth, x);
      DescendsTrans(f, birth, f[x].parent.value, c, a);
    }
  }

  /** Whoever is strictly below a is below one of its children. */
  lemma {:induction false} BelowAChild(f: Automata, birth: Births, x: Aid, a: Aid) returns (c: Aid)
    requires ForestOk(f, birth) && Descends(f, birth, x, a) && x != a
    ensures c in f && f[c].parent == Some(a) && Descends(f, birth, x, c)
    decreases if x in birth then birth[x] else 0
  {
    assert ParentOk(f, birth, x);
    var p := f[x].parent.value;
    if p == a {
      c := x;
    } else {
      c := BelowAChild(f, birth, p, a);
    }
  }

  // ---------------------------------------------------------------- the whole state

  ghost predicate IsLive(live: set<Aid>, t: Tuple) {
    t.output.aid in live && t.input.aid in live && t.binder in live
  }

  ghost predicate LiveTuples(live: set<Aid>, ts: set<Tuple>) {
    forall t {:trigger IsLive(live, t)} | t in ts :: IsLive(live, t)
  }

  ghost predicate BindKeysOk(f: Automata, ts: set<Tuple>) {
    forall x | x in f :: f[x].bindKeys == BoundKeys(ts, x)
  }

  ghost predicate InstancesOk(f: Automata) {
    forall x, y | x in f && y in f && f[x].instance == f[y].instance :: x == y
  }

  ghost predicate StateOk(s: State, birth: Births) {
    && ForestOk(s.automata, birth)
    && InstancesOk(s.automata)
    && TableOk(s.executors)
    && TuplesOk(Tuples(s.executors))
    && LiveTuples(s.automata.Keys, Tuples(s.executors))
    && BindKeysOk(s.automata, Tuples(s.executors))
  }

  // ---------------------------------------------------------------- removing automata

  /** The automata that stay: their children that stay, and the keys of their bindings that stay. */
  function Without(f: Automata, gone: set<Aid>, kept: set<Tuple>): Automata {
    map x | x in f && x !in gone ::
      f[x].(children := map k | k in f[x].children && f[x].children[k] !in gone :: f[x].children[k],
            bindKeys := BoundKeys(kept, x))
  }

  /** The state without some automata and all bindings they take part in, as output, input or binder. */
  function Remove(s: State, gone: set<Aid>): State {
    var executors := KeepAll(s.executors, gone);
    State(Without(s.automata, gone, Tuples(executors)), executors)
  }

  lemma WithoutTwice(f: Automata, a: set<Aid>, b: set<Aid>, ta: set<Tuple>, tb: set<Tuple>)
    ensures Without(Without(f, a, ta), b, tb) == Without(f, a + b, tb)
  {
    var once, twice, both := Without(f, a, ta), Without(Without(f, a, ta), b, tb), Without(f, a + b, tb);
    forall x | x in both
      ensures twice[x] == both[x]
    {
      assert x in once;
      assert twice[x].children == both[x].children;
    }
  }

  lemma RemoveTwice(s: State, a: set<Aid>, b: set<Aid>)
    ensures Remove(Remove(s, a), b) == Remove(s, a + b)
  {
    KeepAllTwice(s.executors, a, b);
    var ea, eb := KeepAll(s.executors, a), KeepAll(s.executors, a + b);
    WithoutTwice(s.automata, a, b, Tuples(ea), Tuples(eb));
  }

  lemma RemoveNothing(s: State, birth: Births)
    requires StateOk(s, birth)
    ensures Remove(s, {}) == s
  {
    KeepAllNothing(s.executors);
    var f := s.automata;
    forall x | x in f
      ensures Without(f, {}, Tuples(s.executors))[x] == f[x]
    {
      assert (map k | k in f[x].children && f[x].children[k] !in {} :: f[x].children[k]) == f[x].children;
    }
    assert Without(f, {}, Tuples(s.executors)) == f;
  }

  lemma RemoveForest(f: Automata, birth: Births, gone: set<Aid>, kept: set<Tuple>)
    requires ForestOk(f, birth) && DownClosed(f, gone)
    ensures ForestOk(Without(f, gone, kept), birth)
  {
    var f' := Without(f, gone, kept);
    forall c | c in f'
      ensures ParentOk(f', birth, c)
    {
      assert ParentOk(f, birth, c);
    }
    forall p, k | p in f' && k in f'[p].children
      ensures ChildOk(f', p, k)
    {
      assert ChildOk(f, p, k);
    }
  }

  /** Removing a closed set of automata keeps the invariant. */
  lemma RemoveOk(s: State, birth: Births, gone: set<Aid>)
    requires StateOk(s, birth) && DownClosed(s.automata, gone)
    ensures StateOk(Remove(s, gone), birth)
    ensures Tuples(Remove(s, gone).executors) == Untouched(Tuples(s.executors), gone)
    ensures Remove(s, gone).automata.Keys == s.automata.Keys - gone
  {
    var executors := KeepAll(s.executors, gone);
    KeepAllOk(s.executors, gone);
    KeepAllTuples(s.executors, gone);
    RemoveForest(s.automata, birth, gone, Tuples(executors));
    RemoveTuples(s.automata.Keys, Tuples(s.executors), gone);
    assert Remove(s, gone).automata.Keys == s.automata.Keys - gone;
  }

  lemma RemoveTuples(live: set<Aid>, ts: set<Tuple>, gone: set<Aid>)
    requires TuplesOk(ts) && LiveTuples(live, ts)
    ensures TuplesOk(Untouched(ts, gone)) && LiveTuples(live - gone, Untouched(ts, gone))
  {
    forall t | t in Untouched(ts, gone)
      ensures TupleOk(t) && IsLive(live - gone, t)
    {
      assert IsLive(live, t);
    }
  }

  /** After a closed set is gone, what is below an automaton is what was below it and is still there. */
  lemma {:induction false} DescendsAfter(f: Automata, birth: Births, gone: set<Aid>, kept: set<Tuple>, x: Aid, a: Aid)
    requires ForestOk(f, birth) && DownClosed(f, gone) && ForestOk(Without(f, gone, kept), birth)
    requires a !in gone && x in f && x !in gone
    ensures Descends(Without(f, gone, kept), birth, x, a) <==> Descends(f, birth, x, a)
    decreases if x in birth then birth[x] else 0
  {
    assert ParentOk(f, birth, x);
    if x != a && f[x].parent.Some? {
      DescendsAfter(f, birth, gone, kept, f[x].parent.value, a);
    }
  }

  lemma SubtreeAfter(f: Automata, birth: Births, gone: set<Aid>, kept: set<Tuple>, a: Aid)
    requires ForestOk(f, birth) && DownClosed(f, gone) && a !in gone
    ensures ForestOk(Without(f, gone, kept), birth)
    ensures Subtree(Without(f, gone, kept), birth, a) == Subtree(f, birth, a) - gone
  {
    RemoveForest(f, birth, gone, kept);
    forall x | x in f && x !in gone
      ensures Descends(Without(f, gone, kept), birth, x, a) <==> Descends(f, birth, x, a)
    {
      DescendsAfter(f, birth, gone, kept, x, a);
    }
  }

  // ---------------------------------------------------------------- what is announced

  datatype Notice =
    CreatedNotice(to: Aid, created: CreateResult, key: Key)
  | BoundNotice(to: Aid, bound: BindResult, key: Key)
  | UnboundNotice(to: Aid, key: Key)
  | BindKeyDneNotice(to: Aid, key: Key)
  | DestroyedNotice(to: Aid, key: Key)
  | CreateKeyDneNotice(to: Aid, key: Key)

  datatype CreateResult = CreatorDoesNotExist | CreateKeyExists | InstanceExists | AutomatonCreated

  function UnboundNotices(ts: set<Tuple>): set<Notice> {
    set t | t in ts :: UnboundNotice(t.binder, t.key)
  }

  function DestroyedNotices(f: Automata, gone: set<Aid>): set<Notice> {
    set x | x in gone && x in f && f[x].parent.Some? :: DestroyedNotice(f[x].parent.value, f[x].key)
  }

  /** The binder of every binding that goes is told, and the parent of every automaton that goes. */
  function GoneNotices(f: Automata, ts: set<Tuple>, gone: set<Aid>): set<Notice> {
    UnboundNotices(ts - Untouched(ts, gone)) + DestroyedNotices(f, gone)
  }

  function Announced(s: State, gone: set<Aid>): set<Notice> {
    GoneNotices(s.automata, Tuples(s.executors), gone)
  }

  /** Each of these notices once, in some order. */
  ghost predicate Announces(ns: seq<Notice>, all: set<Notice>) {
    && (forall i, j {:trigger Differ(ns, i, j)} | 0 <= i < j < |ns| :: Differ(ns, i, j))
    && (forall n {:trigger Told(ns, n)} :: Told(ns, n) <==> n in all)
  }

  ghost predicate Differ(ns: seq<Notice>, i: int, j: int)
    requires 0 <= i < j < |ns|
  {
    ns[i] != ns[j]
  }

  ghost predicate Told(ns: seq<Notice>, n: Notice) {
    n in ns
  }

  // ---------------------------------------------------------------- what a destruction leaves

  /** From s to s' only automata and bindings were lost: the automata that stay are unchanged but for children and
      bindings that are gone, and a binding stays exactly if all three of its automata do. */
  ghost predicate OnlyLosses(s: State, s': State) {
    && (forall t :: t in Tuples(s'.executors) <==> t in Tuples(s.executors) && IsLive(s'.automata.Keys, t))
    && (forall x | x in s'.automata :: x in s.automata && SameButLosses(s, s', x))
  }

  ghost predicate SameButLosses(s: State, s': State, x: Aid)
    requires x in s.automata && x in s'.automata
  {
    var r, r' := s.automata[x], s'.automata[x];
    && r'.instance == r.instance && r'.parent == r.parent && r'.key == r.key
    && (forall k :: k in r'.children <==> k in r.children && r.children[k] in s'.automata)
    && (forall k | k in r'.children :: r'.children[k] == r.children[k])
    && (forall k :: k in r'.bindKeys <==>
          exists t :: t in Tuples(s.executors) && IsLive(s'.automata.Keys, t) && t.binder == x && t.key == k)
  }

  /** Every loss is told once: to the binder of each binding lost, and to the parent of each automaton lost. */
  ghost predicate LossesTold(s: State, s': State, ns: seq<Notice>) {
    && (forall i, j {:trigger Differ(ns, i, j)} | 0 <= i < j < |ns| :: Differ(ns, i, j))
    && forall n {:trigger Told(ns, n)} :: Told(ns, n) <==>
         (|| (exists t :: t in Tuples(s.executors) && t !in Tuples(s'.executors) && n == UnboundNotice(t.binder, t.key))
          || (exists x :: x in s.automata && x !in s'.automata && s.automata[x].parent.Some?
                          && n == DestroyedNotice(s.automata[x].parent.value, s.automata[x].key)))
  }

  lemma RemoveOnlyLoses(s: State, birth: Births, gone: set<Aid>)
    requires StateOk(s, birth) && DownClosed(s.automata, gone)
    ensures OnlyLosses(s, Remove(s, gone))
  {
    var s' := Remove(s, gone);
    var ts, ts' := Tuples(s.executors), Tuples(s'.executors);
    RemoveOk(s, birth, gone);
    forall t
      ensures t in ts' <==> t in ts && IsLive(s'.automata.Keys, t)
    {
      assert t in ts ==> IsLive(s.automata.Keys, t);
    }
    forall x | x in s'.automata
      ensures SameButLosses(s, s', x)
    {
      forall k | k in s.automata[x].children
        ensures s.automata[x].children[k] in s.automata
      {
        assert ChildOk(s.automata, x, k);
      }
      assert s'.automata[x].bindKeys == BoundKeys(ts', x);
    }
  }

  /** Destroying an automaton loses it, what is below it and their bindings, and tells exactly that. */
  lemma SubtreeLost(s: State, birth: Births, a: Aid, ns: seq<Notice>)
    requires StateOk(s, birth) && Announces(ns, Announced(s, Subtree(s.automata, birth, a)))
    ensures var s' := Remove(s, Subtree(s.automata, birth, a));
            && OnlyLosses(s, s') && LossesTold(s, s', ns)
            && s'.automata.Keys == s.automata.Keys - Subtree(s.automata, birth, a)
  {
    var gone := Subtree(s.automata, birth, a);
    SubtreeDownClosed(s.automata, birth, a);
    RemoveOk(s, birth, gone);
    RemoveOnlyLoses(s, birth, gone);
    RemoveTellsLosses(s, birth, gone, ns);
  }

  lemma RemoveTellsLosses(s: State, birth: Births, gone: set<Aid>, ns: seq<Notice>)
    requires StateOk(s, birth) && DownClosed(s.automata, gone) && Announces(ns, Announced(s, gone))
    ensures LossesTold(s, Remove(s, gone), ns)
  {
    var s' := Remove(s, gone);
    RemoveOk(s, birth, gone);
    forall n
      ensures Told(ns, n) <==>
                (|| (exists t :: t in Tuples(s.executors) && t !in Tuples(s'.executors) && n == UnboundNotice(t.binder, t.key))
                 || (exists x :: x in s.automata && x !in s'.automata && s.automata[x].parent.Some?
                                 && n == DestroyedNotice(s.automata[x].parent.value, s.automata[x].key)))
    {
      assert Told(ns, n) <==> n in Announced(s, gone);
    }
  }

  lemma AnnouncesConcat(a: seq<Notice>, b: seq<Notice>, x: set<Notice>, y: set<Notice>)
    requires Announces(a, x) && Announces(b, y) && x !! y
    ensures Announces(a + b, x + y)
  {
    forall i, j | 0 <= i < j < |a + b|
      ensures Differ(a + b, i, j)
    {
      if i < |a| <= j {
        assert Told(a, a[i]) && Told(b, b[j - |a|]);
      } else if j < |a| {
        assert Differ(a, i, j);
      } else {
        assert Differ(b, i - |a|, j - |a|);
      }
    }
    forall n
      ensures Told(a + b, n) <==> n in x + y
    {
      assert Told(a + b, n) <==> Told(a, n) || Told(b, n);
    }
  }

  lemma AnnouncedInParts(s: State, birth: Births, a: set<Aid>, b: set<Aid>)
    requires StateOk(s, birth) && DownClosed(s.automata, a) && a !! b
    ensures Announced(s, a + b) == Announced(s, a) + Announced(Remove(s, a), b)
    ensures Announced(s, a) !! Announced(Remove(s, a), b)
  {
    var ts, s' := Tuples(s.executors), Remove(s, a);
    RemoveOk(s, birth, a);
    var all, first := ts - Untouched(ts, a + b), ts - Untouched(ts, a);
    var second := Untouched(ts, a) - Untouched(Untouched(ts, a), b);
    assert all == first + second;
    UnboundInParts(ts, first, second);
    DestroyedInParts(s.automata, birth, a, b, Tuples(s'.executors));
  }

  lemma UnboundInParts(ts: set<Tuple>, a: set<Tuple>, b: set<Tuple>)
    requires TuplesOk(ts) && a <= ts && b <= ts && a !! b
    ensures UnboundNotices(a + b) == UnboundNotices(a) + UnboundNotices(b)
    ensures UnboundNotices(a) !! UnboundNotices(b)
  {
    forall t, u | t in a && u in b
      ensures UnboundNotice(t.binder, t.key) != UnboundNotice(u.binder, u.key)
    {
      assert Compatible(t, u);
    }
  }

  lemma DestroyedInParts(f: Automata, birth: Births, a: set<Aid>, b: set<Aid>, kept: set<Tuple>)
    requires ForestOk(f, birth) && DownClosed(f, a) && a !! b
    ensures DestroyedNotices(f, a + b) == DestroyedNotices(f, a) + DestroyedNotices(Without(f, a, kept), b)
    ensures DestroyedNotices(f, a) !! DestroyedNotices(Without(f, a, kept), b)
  {
    forall x, y | x in f && y in f && f[x].parent.Some? && f[x].parent == f[y].parent && f[x].key == f[y].key
      ensures x == y
    {
      assert ParentOk(f, birth, x) && ParentOk(f, birth, y);
    }
  }

  // ---------------------------------------------------------------- recursive destruction

  /** Part of what is below a is gone. */
  ghost predicate PartlyGone(s: State, birth: Births, a: Aid, gone: set<Aid>, now: State, told: seq<Notice>) {
    && StateOk(s, birth) && a in s.automata && a !in gone
    && gone <= Subtree(s.automata, birth, a) && DownClosed(s.automata, gone)
    && now == Remove(s, gone) && Announces(told, Announced(s, gone))
  }

  lemma NothingGone(s: State, birth: Births, a: Aid)
    requires StateOk(s, birth) && a in s.automata
    ensures PartlyGone(s, birth, a, {}, s, [])
  {
    RemoveNothing(s, birth);
    assert Untouched(Tuples(s.executors), {}) == Tuples(s.executors);
    assert Announced(s, {}) == {};
  }

  /** A child that is still there goes, with everything below it. */
  lemma ChildGone(s: State, birth: Births, a: Aid, gone: set<Aid>, now: State, told: seq<Notice>, k: Key,
                  sub: set<Aid>, told': seq<Notice>)
    requires PartlyGone(s, birth, a, gone, now, told)
    requires ForestOk(now.automata, birth) && a in now.automata && k in now.automata[a].children
    requires sub == Subtree(now.automata, birth, now.automata[a].children[k]) && Announces(told', Announced(now, sub))
    ensures PartlyGone(s, birth, a, gone + sub, Remove(now, sub), told + told')
  {
    var f, c := s.automata, now.automata[a].children[k];
    assert ChildOk(f, a, k) && ChildOk(now.automata, a, k) && ParentOk(f, birth, c);
    SubtreeAfter(f, birth, gone, Tuples(now.executors), c);
    SubtreeDownClosed(f, birth, c);
    assert DownClosed(f, gone + sub) by {
      assert gone + sub == gone + Subtree(f, birth, c);
    }
    forall x | x in sub
      ensures x in Subtree(f, birth, a) && x != a
    {
      DescendsTrans(f, birth, x, c, a);
      DescendsBirth(f, birth, x, c);
    }
    RemoveTwice(s, gone, sub);
    AnnouncedInParts(s, birth, gone, sub);
    AnnouncesConcat(told, told', Announced(s, gone), Announced(now, sub));
  }

  /** When a has no children left, everything strictly below it is gone. */
  lemma ChildrenGone(s: State, birth: Births, a: Aid, gone: set<Aid>, now: State, told: seq<Notice>)
    requires PartlyGone(s, birth, a, gone, now, told) && a in now.automata && now.automata[a].children == map[]
    ensures gone + {a} == Subtree(s.automata, birth, a)
  {
    var f := s.automata;
    forall x | x in Subtree(f, birth, a) && x != a
      ensures x in gone
    {
      var c := BelowAChild(f, birth, x, a);
      assert ParentOk(f, birth, c);
      assert f[c].key !in now.automata[a].children;
      assert c in gone;
      SubtreeLeast(f, birth, gone, x, c);
    }
  }

  lemma LastGone(s: State, birth: Births, a: Aid, gone: set<Aid>, now: State, told: seq<Notice>, told': seq<Notice>)
    requires PartlyGone(s, birth, a, gone, now, told) && a in now.automata && now.automata[a].children == map[]
    requires Announces(told', Announced(now, {a}))
    ensures Remove(now, {a}) == Remove(s, Subtree(s.automata, birth, a))
    ensures Announces(told + told', Announced(s, Subtree(s.automata, birth, a)))
  {
    ChildrenGone(s, birth, a, gone, now, told);
    RemoveTwice(s, gone, {a});
    AnnouncedInParts(s, birth, gone, {a});
    AnnouncesConcat(told, told', Announced(s, gone), Announced(now, {a}));
  }

  // ---------------------------------------------------------------- roots and new automata

  /** The automaton created first, of those there are, has no parent. */
  lemma {:induction false} RootExists(f: Automata, birth: Births, x: Aid) returns (r: Aid)
    requires ForestOk(f, birth) && x in f
    ensures r in f && f[r].parent.None?
    decreases if x in birth then birth[x] else 0
  {
    assert ParentOk(f, birth, x);
    if f[x].parent.None? {
      r := x;
    } else {
      r := RootExists(f, birth, f[x].parent.value);
    }
  }

  /** Bindings need automata. */
  lemma NoBindings(s: State, birth: Births)
    requires StateOk(s, birth)
    ensures s.executors != [] ==> s.automata != map[]
  {
    var es := s.executors;
    if es != [] {
      assert EntryOk(es[0]);
      var x :| x in es[0].records;
      RecordIsTuple(es, 0, x);
      assert IsLive(s.automata.Keys, TupleOf(es[0].action, es[0].records[x]));
      assert es[0].records[x].binder in s.automata;
    }
  }

  function WithChild(f: Automata, parent: Aid, key: Key, child: Aid): Automata
    requires parent in f
  {
    f[parent := f[parent].(children := f[parent].children[key := child])]
  }

  function WithRoot(f: Automata, aid: Aid, instance: Instance): Automata {
    f[aid := AutomatonRecord(instance, None, 0, map[], {})]
  }

  function WithAutomaton(f: Automata, aid: Aid, instance: Instance, parent: Aid, key: Key): Automata
    requires parent in f
  {
    WithChild(f, parent, key, aid)[aid := AutomatonRecord(instance, Some(parent), key, map[], {})]
  }

  lemma RootForest(f: Automata, birth: Births, aid: Aid, instance: Instance, now: nat)
    requires ForestOk(f, birth) && aid !in f
    ensures ForestOk(WithRoot(f, aid, instance), birth[aid := now])
  {
    var f', birth' := WithRoot(f, aid, instance), birth[aid := now];
    forall c | c in f'
      ensures ParentOk(f', birth', c)
    {
      if c != aid {
        assert ParentOk(f, birth, c);
      }
    }
    forall p, k | p in f' && k in f'[p].children
      ensures ChildOk(f', p, k)
    {
      assert ChildOk(f, p, k);
    }
  }

  lemma ChildForest(f: Automata, birth: Births, aid: Aid, instance: Instance, parent: Aid, key: Key, now: nat)
    requires ForestOk(f, birth) && aid !in f && parent in f && key !in f[parent].children
    requires parent in birth ==> birth[parent] < now
    ensures ForestOk(WithAutomaton(f, aid, instance, parent, key), birth[aid := now])
  {
    var f', birth' := WithAutomaton(f, aid, instance, parent, key), birth[aid := now];
    assert ParentOk(f, birth, parent);
    forall c | c in f'
      ensures ParentOk(f', birth', c)
    {
      if c != aid {
        assert ParentOk(f, birth, c);
      }
    }
    forall p, k | p in f' && k in f'[p].children
      ensures ChildOk(f', p, k)
    {
      if !(p == parent && k == key) {
        assert ChildOk(f, p, k);
      }
    }
  }

  /** New automata have no bindings yet. */
  lemma NewAutomatonOk(s: State, birth: Births, f': Automata, birth': Births, aid: Aid, instance: Instance)
    requires StateOk(s, birth) && aid !in s.automata && ForestOk(f', birth')
    requires f'.Keys == s.automata.Keys + {aid} && f'[aid].instance == instance && f'[aid].bindKeys == {}
    requires forall x | x in s.automata :: f'[x].instance == s.automata[x].instance && f'[x].bindKeys == s.automata[x].bindKeys
    requires forall x | x in s.automata :: s.automata[x].instance != instance
    ensures StateOk(State(f', s.executors), birth')
  {
    var ts := Tuples(s.executors);
    forall t | t in ts
      ensures IsLive(f'.Keys, t) && t.binder != aid
    {
      assert IsLive(s.automata.Keys, t);
    }
    assert BoundKeys(ts, aid) == {};
  }

  // ---------------------------------------------------------------- bind keys

  function Instances(f: Automata): set<Instance> {
    set x | x in f :: f[x].instance
  }

  function WithBindKey(f: Automata, binder: Aid, key: Key): Automata
    requires binder in f
  {
    f[binder := f[binder].(bindKeys := f[binder].bindKeys + {key})]
  }

  function WithoutBindKey(f: Automata, binder: Aid, key: Key): Automata
    requires binder in f
  {
    f[binder := f[binder].(bindKeys := f[binder].bindKeys - {key})]
  }

  /** Only bind keys of one automaton and the tuples change. */
  lemma KeysForest(f: Automata, birth: Births, binder: Aid, keys: set<Key>)
    requires ForestOk(f, birth) && binder in f
    ensures var f' := f[binder := f[binder].(bindKeys := keys)];
            ForestOk(f', birth) && (InstancesOk(f) ==> InstancesOk(f')) && Instances(f') == Instances(f)
  {
    var f' := f[binder := f[binder].(bindKeys := keys)];
    forall c | c in f'
      ensures ParentOk(f', birth, c)
    {
      assert ParentOk(f, birth, c);
    }
    forall p, k | p in f' && k in f'[p].children
      ensures ChildOk(f', p, k)
    {
      assert ChildOk(f, p, k);
    }
    forall i | i in Instances(f)
      ensures i in Instances(f')
    {
      var x :| x in f && f[x].instance == i;
      assert x in f';
    }
  }
}
