/** Every step of automata, configuration queue and model keeps the invariant. */
module ProtocolSteps {
  import opened Bindings
  import opened Forest
  import opened Automaton
  import opened ProtocolSystem
  import opened ProtocolInvariant
  import L = ProtocolLocal

  // ---------------------------------------------------------------- helpers

  /** The step destroys the child k of a, for both of them alive. */
  predicate Destroys(sys: System, s: Step, a: Aid, k: Key) {
    && s.RunStep? && sys.queue != [] && sys.queue[0] == WithdrawTask(a, CreateKind, k)
    && a in sys.automata && k in sys.automata[a].children
  }

  /** The step makes automaton b withdraw, or have withdrawn, a binding that has vanished: b sends the withdrawal
      after the loss, or the loss comes while the withdrawal is queued. */
  ghost predicate StartsRace(sys: System, s: Step, b: Aid, x: Key)
    requires ForestOk(sys.automata, sys.births) && b in sys.helpers
  {
    || (s.RunStep? && sys.queue != [] && sys.queue[0] == OutputTask(b, SysUnbind)
        && Picks(sys, b, SysUnbind, s.c) && s.c.k == x && x !in BoundKeys(sys.tuples, b))
    || (exists a, k :: Destroys(sys, s, a, k) && Loses(sys, a, k, Child(sys, a, k), b, BindKind, x)
                       && x in sys.helpers[b].bind.undoRecv)
  }

  /** A helper stays in order, and races only as StartsRace says. */
  ghost predicate HelperKept(sys: System, s: Step, b: Aid, kind: Kind, x: Key)
    requires Enabled(sys, s) && ForestOk(sys.automata, sys.births)
  {
    var sys' := Take(sys, s);
    && HelperOk(sys', b, kind, x)
    && (b in sys.helpers && b in sys'.helpers ==>
          (L.Racing(LocalAt(sys', b, kind, x))
           <==> L.Racing(LocalAt(sys, b, kind, x)) || (kind == BindKind && StartsRace(sys, s, b, x))))
  }

  lemma NoDestruction(sys: System, s: Step)
    requires !s.RunStep? || sys.queue == [] || !sys.queue[0].WithdrawTask? || sys.queue[0].kind == BindKind
    ensures forall a, k :: !Destroys(sys, s, a, k)
  {}

  lemma CallKeeps(sys: System, s: Step, b: Aid, kind: Kind, x: Key)
    requires Inv(sys) && Enabled(sys, s) && !s.RunStep?
    ensures HelperKept(sys, s, b, kind, x)
  {
    assert HelperOk(sys, b, kind, x);
    NoDestruction(sys, s);
    if b in sys.helpers {
      CallHelper(sys, s, b, kind, x);
    }
  }

  lemma OutputKeeps(sys: System, s: Step, b: Aid, kind: Kind, x: Key)
    requires Inv(sys) && Enabled(sys, s) && s.RunStep? && sys.queue[0].OutputTask?
    ensures HelperKept(sys, s, b, kind, x)
  {
    var OutputTask(a, o) := sys.queue[0];
    assert HelperOk(sys, b, kind, x);
    NoDestruction(sys, s);
    if b in sys.helpers {
      if Picks(sys, a, o, s.c) {
        OutputHelper(sys, a, o, s.c, b, kind, x);
        if kind == CreateKind && b == a && x == s.c.k && o == SysDestroy {
          OutputLocal(sys, a, o, s.c, b, kind, x);
          L.UndoSentKeeps(LocalAt(sys, b, kind, x), false);
        }
      } else {
        PoppedLocal(sys, b, kind, x);
      }
    }
  }

  lemma NoticeKeeps(sys: System, s: Step, b: Aid, kind: Kind, x: Key)
    requires Inv(sys) && Enabled(sys, s) && s.RunStep? && sys.queue[0].NoticeTask?
    ensures HelperKept(sys, s, b, kind, x)
  {
    var n := sys.queue[0].n;
    assert HelperOk(sys, b, kind, x);
    NoDestruction(sys, s);
    if b in sys.helpers {
      if n.to in sys.helpers {
        NoticeHelper(sys, n, b, kind, x);
      } else {
        PoppedLocal(sys, b, kind, x);
      }
    }
  }

  /** Nothing is queued for an automaton that is just created, and what its constructor has requested waits. */
  lemma FreshAutomaton(sys: System, a: Aid, k: Key, c: Choice, kind: Kind, x: Key)
    requires ModelOk(sys) && TasksOk(sys) && sys.queue != [] && c.aid !in sys.ever && CanBuild(c.calls)
    requires a in sys.automata && c.aid in RunCreate(Popped(sys), a, k, c).helpers
    ensures HelperOk(RunCreate(Popped(sys), a, k, c), c.aid, kind, x)
    ensures LocalAt(RunCreate(Popped(sys), a, k, c), c.aid, kind, x).q == []
  {
    var sys' := RunCreate(Popped(sys), a, k, c);
    forall t | t in sys'.queue
      ensures EventOf(t, c.aid, kind, x) == []
    {
      assert t in sys.queue ==> TaskOk(sys.ever, t);
    }
    NoEvents(sys'.queue, c.aid, kind, x);
    BuiltWaits(c.calls);
    forall t | t in sys.tuples
      ensures t.binder != c.aid
    {
      assert IsLive(sys.automata.Keys, t);
    }
  }

  lemma CreateKeeps(sys: System, s: Step, b: Aid, kind: Kind, x: Key)
    requires Inv(sys) && Enabled(sys, s) && s.RunStep? && sys.queue[0].RequestTask? && sys.queue[0].kind == CreateKind
    ensures HelperKept(sys, s, b, kind, x)
  {
    var a, k := sys.queue[0].aid, sys.queue[0].k;
    assert HelperOk(sys, b, kind, x);
    NoDestruction(sys, s);
    if a !in sys.automata {
      if b in sys.helpers {
        PoppedLocal(sys, b, kind, x);
      }
    } else if b in sys.helpers {
      CreateLocal(sys, a, k, s.c, b, kind, x);
      if IsAbout(sys.queue[0], b, kind, x) {
        L.ExecutedKeeps(LocalAt(sys, b, kind, x), kind == BindKind, s.c.instance !in Instances(sys.automata));
      }
    } else if b in Take(sys, s).helpers {
      FreshAutomaton(sys, a, k, s.c, kind, x);
    }
  }

  lemma BindKeeps(sys: System, s: Step, b: Aid, kind: Kind, x: Key)
    requires Inv(sys) && Enabled(sys, s) && s.RunStep? && sys.queue[0].RequestTask? && sys.queue[0].kind == BindKind
    ensures HelperKept(sys, s, b, kind, x)
  {
    var RequestTask(a, _, k, output, input) := sys.queue[0];
    assert HelperOk(sys, b, kind, x);
    NoDestruction(sys, s);
    if b in sys.helpers {
      if a !in sys.automata {
        PoppedLocal(sys, b, kind, x);
      } else {
        BindLocal(sys, a, k, output, input, b, kind, x);
        if IsAbout(sys.queue[0], b, kind, x) {
          L.ExecutedKeeps(LocalAt(sys, b, kind, x), true,
                          BindOutcome(sys.automata.Keys, sys.tuples, output, input, a, k) == Bound);
        }
      }
    }
  }

  lemma UnbindKeeps(sys: System, s: Step, b: Aid, kind: Kind, x: Key)
    requires Inv(sys) && Enabled(sys, s) && s.RunStep? && sys.queue[0].WithdrawTask? && sys.queue[0].kind == BindKind
    requires !LosesRace(sys, s)
    ensures HelperKept(sys, s, b, kind, x)
  {
    var a, k := sys.queue[0].aid, sys.queue[0].k;
    assert HelperOk(sys, b, kind, x);
    NoDestruction(sys, s);
    if b in sys.helpers {
      if a !in sys.automata {
        PoppedLocal(sys, b, kind, x);
      } else {
        UnbindLocal(sys, a, k, b, kind, x);
        if IsAbout(sys.queue[0], b, kind, x) {
          L.ExecutedKeeps(LocalAt(sys, b, kind, x), true, true);
        }
      }
    }
  }

  /** A child that the automaton wants destroyed is there. */
  lemma ChildThere(sys: System, a: Aid, k: Key)
    requires Inv(sys) && sys.queue != [] && sys.queue[0] == WithdrawTask(a, CreateKind, k) && a in sys.automata
    ensures k in sys.automata[a].children
  {
    assert HelperOk(sys, a, CreateKind, k);
    assert LocalAt(sys, a, CreateKind, k).q[0] == L.UndoReq;
    L.ExecutedKeeps(LocalAt(sys, a, CreateKind, k), false, true);
  }

  lemma DestroyKeeps(sys: System, s: Step, b: Aid, kind: Kind, x: Key)
    requires Inv(sys) && Enabled(sys, s) && s.RunStep? && sys.queue[0].WithdrawTask? && sys.queue[0].kind == CreateKind
    ensures HelperKept(sys, s, b, kind, x)
  {
    var a, k := sys.queue[0].aid, sys.queue[0].k;
    assert HelperOk(sys, b, kind, x);
    if a !in sys.automata {
      if b in sys.helpers {
        PoppedLocal(sys, b, kind, x);
      }
    } else {
      ChildThere(sys, a, k);
      assert Destroys(sys, s, a, k);
      if b in Take(sys, s).helpers {
        DestroyLocal(sys, a, k, s.c, b, kind, x);
        var l := LocalAt(sys, b, kind, x);
        if IsAbout(sys.queue[0], b, kind, x) {
          L.ExecutedKeeps(l, kind == BindKind, true);
        } else if kind == BindKind && Loses(sys, a, k, Child(sys, a, k), b, kind, x) {
          L.VanishedKeeps(l);
        }
      }
    }
  }

  lemma StepHelper(sys: System, s: Step, b: Aid, kind: Kind, x: Key)
    requires Inv(sys) && Enabled(sys, s) && !LosesRace(sys, s)
    ensures HelperKept(sys, s, b, kind, x)
  {
    if !s.RunStep? {
      CallKeeps(sys, s, b, kind, x);
    } else {
      match sys.queue[0]
      case OutputTask(_, _) => OutputKeeps(sys, s, b, kind, x);
      case NoticeTask(_) => NoticeKeeps(sys, s, b, kind, x);
      case RequestTask(_, kd, _, _, _) =>
        if kd == CreateKind {
          CreateKeeps(sys, s, b, kind, x);
        } else {
          BindKeeps(sys, s, b, kind, x);
        }
      case WithdrawTask(_, kd, _) =>
        if kd == CreateKind {
          DestroyKeeps(sys, s, b, kind, x);
        } else {
          UnbindKeeps(sys, s, b, kind, x);
        }
    }
  }
}
