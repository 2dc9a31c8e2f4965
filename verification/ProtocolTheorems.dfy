/**
 What holds in every run of automata, configuration queue and model together: the automata's assertions hold at
 every delivery, the errors they say they prevent are not delivered, no enabled system output is forgotten.
 */
module ProtocolTheorems {
  import opened Common
  import opened Bindings
  import opened Forest
  import opened Automaton
  import opened ProtocolSystem
  import opened ProtocolInvariant
  import opened ProtocolSteps
  import L = ProtocolLocal

  // ---------------------------------------------------------------- the rest of the invariant

  lemma OutputStep(sys: System, s: Step, b: Aid, o: SysOutput)
    requires OutputOk(sys, b, o) && Enabled(sys, s) && sys.helpers.Keys <= sys.ever
    ensures OutputOk(Take(sys, s), b, o)
  {
    if s.RunStep? {
      RunQueued(sys, s.c, b, o);
    } else {
      Rescheduled(sys, s.aid, Take(sys, s).helpers[s.aid], b, o);
    }
  }

  lemma Rescheduled(sys: System, a: Aid, h: Helpers, b: Aid, o: SysOutput)
    requires b != a ==> OutputOk(sys, b, o)
    ensures OutputOk(Reschedule(sys, a, h), b, o)
  {
    if b == a && OutputEnabled(h, o) {
      ScheduledExactly(h, o);
      var i :| 0 <= i < |Scheduled(h)| && Scheduled(h)[i] == o;
      assert Outputs(a, Scheduled(h))[i] == OutputTask(a, o);
    }
  }

  lemma RunQueued(sys: System, c: Choice, b: Aid, o: SysOutput)
    requires OutputOk(sys, b, o) && Enabled(sys, RunStep(c)) && sys.helpers.Keys <= sys.ever
    ensures OutputOk(Take(sys, RunStep(c)), b, o)
  {
    var rest, t := sys.(queue := sys.queue[1..]), sys.queue[0];
    assert OutputTask(b, o) in sys.queue && t != OutputTask(b, o) ==> OutputTask(b, o) in rest.queue;
    match t
    case OutputTask(a, o') => OutputQueued(sys, a, o', c, b, o);
    case NoticeTask(n) =>
      if n.to in sys.helpers {
        Rescheduled(rest, n.to, Notified(sys.helpers[n.to], n), b, o);
      }
    case RequestTask(a, kind, k, _, _) =>
      if kind == CreateKind && b == c.aid && b !in sys.helpers {
        NewcomerQueued(rest, a, k, c, o);
      }
    case WithdrawTask(a, kind, k) =>
  }

  /** An output that finds nothing to send is not enabled; otherwise the automaton asks again. */
  lemma OutputQueued(sys: System, a: Aid, o': SysOutput, c: Choice, b: Aid, o: SysOutput)
    requires OutputOk(sys, b, o) && Enabled(sys, RunStep(c)) && sys.queue[0] == OutputTask(a, o')
    ensures OutputOk(RunOutput(Popped(sys), a, o', c), b, o)
  {
    assert OutputTask(b, o) in sys.queue && sys.queue[0] != OutputTask(b, o) ==> OutputTask(b, o) in Popped(sys).queue;
    if Picks(sys, a, o', c) {
      Rescheduled(Popped(sys), a, Effect(sys.helpers[a], o', c.k), b, o);
    }
  }

  lemma NewcomerQueued(sys: System, a: Aid, k: Key, c: Choice, o: SysOutput)
    requires c.aid !in sys.helpers && CanBuild(c.calls)
    ensures OutputOk(RunCreate(sys, a, k, c), c.aid, o)
  {
    BuiltWaits(c.calls);
    if OutputEnabled(Built(c.calls), o) {
      var i :| 0 <= i < |BuiltOutputs(c.calls)| && BuiltOutputs(c.calls)[i] == o;
      assert Outputs(c.aid, BuiltOutputs(c.calls))[i] == OutputTask(c.aid, o);
    }
  }

  lemma TasksStep(sys: System, s: Step)
    requires ModelOk(sys) && TasksOk(sys) && Enabled(sys, s)
    ensures TasksOk(Take(sys, s))
  {
    var sys' := Take(sys, s);
    forall t | t in sys'.queue
      ensures TaskOk(sys'.ever, t)
    {
      if t in sys.queue {
        assert TaskOk(sys.ever, t);
      } else if Destruction(sys, s) {
        LossKnown(sys, s, t);
      } else {
        NewTask(sys, s, t);
      }
    }
  }

  lemma NewTask(sys: System, s: Step, t: Task)
    requires ModelOk(sys) && TasksOk(sys) && Enabled(sys, s) && !Destruction(sys, s)
    requires t in Take(sys, s).queue && t !in sys.queue
    ensures TaskOk(Take(sys, s).ever, t)
  {
    if s.RunStep? {
      assert TaskOk(sys.ever, sys.queue[0]);
      RunTask(Popped(sys), sys.queue[0], s.c, t);
    } else {
      assert t in Outputs(s.aid, Scheduled(Take(sys, s).helpers[s.aid]));
    }
  }

  lemma RunTask(sys: System, head: Task, c: Choice, t: Task)
    requires ForestOk(sys.automata, sys.births) && !(head.WithdrawTask? && head.kind == CreateKind)
    requires TaskOk(sys.ever, head) && t in Run(sys, head, c).queue && t !in sys.queue
    requires Possible(sys, head, c)
    ensures TaskOk(Run(sys, head, c).ever, t)
  {
    match head
    case OutputTask(a, o) => RunOutputTask(sys, a, o, c, t);
    case RequestTask(a, kind, k, output, input) =>
      if kind == CreateKind {
        RunCreateTask(sys, a, k, c, t);
      }
    case WithdrawTask(_, _, _) =>
    case NoticeTask(_) =>
  }

  lemma RunOutputTask(sys: System, a: Aid, o: SysOutput, c: Choice, t: Task)
    requires ForestOk(sys.automata, sys.births) && TaskOk(sys.ever, OutputTask(a, o)) && Possible(sys, OutputTask(a, o), c)
    requires t in RunOutput(sys, a, o, c).queue && t !in sys.queue
    ensures TaskOk(sys.ever, t)
  {}

  lemma RunCreateTask(sys: System, a: Aid, k: Key, c: Choice, t: Task)
    requires a in sys.ever && t in RunCreate(sys, a, k, c).queue && t !in sys.queue
    ensures TaskOk(RunCreate(sys, a, k, c).ever, t)
  {}

  ghost predicate Destruction(sys: System, s: Step) {
    s.RunStep? && sys.queue != [] && sys.queue[0].WithdrawTask? && sys.queue[0].kind == CreateKind
  }

  lemma LossKnown(sys: System, s: Step, t: Task)
    requires ModelOk(sys) && TasksOk(sys) && Enabled(sys, s) && Destruction(sys, s)
    requires t in Take(sys, s).queue && t !in sys.queue
    ensures TaskOk(sys.ever, t)
  {
    var a, k := sys.queue[0].aid, sys.queue[0].k;
    if k in sys.automata[a].children {
      var i :| 0 <= i < |s.c.ns| && t == NoticeTask(s.c.ns[i]);
      var n := s.c.ns[i];
      assert Told(s.c.ns, n);
      NoticeKnown(sys, Child(sys, a, k), n);
    }
  }

  lemma NoticeKnown(sys: System, gone: set<Aid>, n: Notice)
    requires ModelOk(sys) && n in GoneNotices(sys.automata, sys.tuples, gone)
    ensures n.to in sys.ever
  {
    if t :| t in sys.tuples && n == UnboundNotice(t.binder, t.key) {
      assert IsLive(sys.automata.Keys, t);
    } else {
      var x :| x in gone && x in sys.automata && sys.automata[x].parent.Some?
               && n == DestroyedNotice(sys.automata[x].parent.value, sys.automata[x].key);
      assert ParentOk(sys.automata, sys.births, x);
    }
  }

  lemma ModelStep(sys: System, s: Step)
    requires ModelOk(sys) && TasksOk(sys) && Enabled(sys, s)
    ensures ModelOk(Take(sys, s))
  {
    if s.RunStep? {
      var rest := sys.(queue := sys.queue[1..]);
      match sys.queue[0]
      case OutputTask(_, _) =>
      case NoticeTask(_) =>
      case RequestTask(a, kind, k, output, input) =>
        assert TaskOk(sys.ever, sys.queue[0]);
        if kind == CreateKind {
          CreateModel(rest, a, k, s.c);
        } else {
          BindModel(rest, a, k, output, input);
        }
      case WithdrawTask(a, kind, k) =>
        if kind == CreateKind {
          DestroyModel(rest, a, k, s.c);
        } else {
          UnbindModel(rest, a, k);
        }
    }
  }

  lemma CreateModel(sys: System, a: Aid, k: Key, c: Choice)
    requires ModelOk(sys) && c.aid !in sys.ever
    ensures ModelOk(RunCreate(sys, a, k, c))
  {
    var sys' := RunCreate(sys, a, k, c);
    if a in sys.automata && k !in sys.automata[a].children && c.instance !in Instances(sys.automata) {
      ChildForest(sys.automata, sys.births, c.aid, c.instance, a, k, sys.clock);
      forall t | t in sys.tuples
        ensures IsLive(sys'.automata.Keys, t)
      {
        assert IsLive(sys.automata.Keys, t);
      }
    }
  }

  lemma BindModel(sys: System, a: Aid, k: Key, output: Action, input: Action)
    requires ModelOk(sys) && output.category == Output && input.category == Input
    ensures ModelOk(RunBind(sys, a, k, output, input))
  {
    var sys' := RunBind(sys, a, k, output, input);
    if a in sys.automata && BindOutcome(sys.automata.Keys, sys.tuples, output, input, a, k) == Bound {
      KeysForest(sys.automata, sys.births, a, sys.automata[a].bindKeys + {k});
      BoundKeepsTuplesOk(sys.automata.Keys, sys.tuples, output, input, a, k);
      assert sys'.automata.Keys == sys.automata.Keys;
      forall t | t in sys'.tuples
        ensures IsLive(sys'.automata.Keys, t)
      {
        assert t in sys.tuples ==> IsLive(sys.automata.Keys, t);
      }
    }
  }

  lemma UnbindModel(sys: System, a: Aid, k: Key)
    requires ModelOk(sys)
    ensures ModelOk(RunUnbind(sys, a, k))
  {
    var sys' := RunUnbind(sys, a, k);
    if a in sys.automata && k in BoundKeys(sys.tuples, a) {
      KeysForest(sys.automata, sys.births, a, sys.automata[a].bindKeys - {k});
      assert sys'.automata.Keys == sys.automata.Keys;
    }
  }

  lemma DestroyModel(sys: System, a: Aid, k: Key, c: Choice)
    requires ModelOk(sys)
    ensures ModelOk(RunDestroy(sys, a, k, c))
  {
    if a in sys.automata && k in sys.automata[a].children {
      var gone := Child(sys, a, k);
      SubtreeDownClosed(sys.automata, sys.births, sys.automata[a].children[k]);
      RemoveForest(sys.automata, sys.births, gone, Untouched(sys.tuples, gone));
      RemoveTuples(sys.automata.Keys, sys.tuples, gone);
      assert Without(sys.automata, gone, Untouched(sys.tuples, gone)).Keys == sys.automata.Keys - gone;
    }
  }

  lemma HelpersStep(sys: System, s: Step)
    requires Inv(sys) && Enabled(sys, s) && !LosesRace(sys, s)
    ensures HelpersOk(Take(sys, s))
  {
    forall a, kind, k
      ensures HelperOk(Take(sys, s), a, kind, k)
    {
      StepHelper(sys, s, a, kind, k);
    }
  }

  lemma StepInv(sys: System, s: Step)
    requires Inv(sys) && Enabled(sys, s) && !LosesRace(sys, s)
    ensures Inv(Take(sys, s))
  {
    ModelStep(sys, s);
    TasksStep(sys, s);
    HelpersStep(sys, s);
    forall a, o
      ensures OutputOk(Take(sys, s), a, o)
    {
      assert OutputOk(sys, a, o);
      OutputStep(sys, s, a, o);
    }
  }

  // ---------------------------------------------------------------- runs

  /** One root automaton, as the scheduler starts with; its constructor may have made calls. */
  function InitialSystem(root: Aid, instance: Instance, calls: seq<Call>): System {
    System(WithRoot(map[], root, instance), map[root := 0], 1, {}, map[root := Built(calls)],
           Outputs(root, BuiltOutputs(calls)), {root})
  }

  /** No request, withdrawal or answer is queued: so it is when the system starts. */
  predicate OnlyOutputs(sys: System) {
    forall t | t in sys.queue :: t.OutputTask?
  }

  lemma InitialInv(root: Aid, instance: Instance, calls: seq<Call>)
    requires CanBuild(calls)
    ensures Inv(InitialSystem(root, instance, calls)) && OnlyOutputs(InitialSystem(root, instance, calls))
  {
    var sys := InitialSystem(root, instance, calls);
    assert ForestOk(map[], map[]);
    RootForest(map[], map[], root, instance, 0);
    BuiltWaits(calls);
    forall a, kind, k
      ensures HelperOk(sys, a, kind, k)
    {
      NoEvents(sys.queue, a, kind, k);
    }
    forall a, o
      ensures OutputOk(sys, a, o)
    {
      if a == root && OutputEnabled(Built(calls), o) {
        var i :| 0 <= i < |BuiltOutputs(calls)| && BuiltOutputs(calls)[i] == o;
        assert sys.queue[i] == OutputTask(root, o);
      }
    }
  }

  /** No step so far has withdrawn a binding that had vanished. */
  ghost predicate IsRun(start: System, steps: seq<Step>)
    decreases |steps|, 0
  {
    steps == [] ||
    (IsRun(start, steps[..|steps| - 1])
     && Enabled(After(start, steps[..|steps| - 1]), steps[|steps| - 1])
     && !LosesRace(After(start, steps[..|steps| - 1]), steps[|steps| - 1]))
  }

  ghost function After(start: System, steps: seq<Step>): System
    requires IsRun(start, steps)
    decreases |steps|, 1
  {
    if steps == [] then start else Take(After(start, steps[..|steps| - 1]), steps[|steps| - 1])
  }

  lemma {:induction false} RunInv(start: System, steps: seq<Step>)
    requires Inv(start) && IsRun(start, steps)
    ensures Inv(After(start, steps))
    decreases |steps|
  {
    if steps != [] {
      var before := steps[..|steps| - 1];
      RunInv(start, before);
      StepInv(After(start, before), steps[|steps| - 1]);
    }
  }

  // ---------------------------------------------------------------- what the automata assert

  lemma {:induction false} EventInQueue(q: seq<Task>, t: Task, a: Aid, kind: Kind, k: Key, e: L.Event)
    requires t in q && EventOf(t, a, kind, k) == [e]
    ensures e in Events(q, a, kind, k)
  {
    if q[0] != t {
      EventInQueue(q[1..], t, a, kind, k, e);
    }
  }

  /** Until a withdrawal loses a race, CREATE_KEY_EXISTS, BIND_KEY_EXISTS, CREATE_KEY_DNE and BIND_KEY_DNE are
      not even queued for an automaton, ... */
  lemma PreventedErrors(start: System, steps: seq<Step>, n: Notice)
    requires Inv(start) && IsRun(start, steps)
    requires NoticeTask(n) in After(start, steps).queue && n.to in After(start, steps).helpers
    ensures !AnswerOf(n).KeyInUse? && !AnswerOf(n).NoSuchKey?
  {
    RunInv(start, steps);
    var sys := After(start, steps);
    assert HelperOk(sys, n.to, KindOf(n), n.key);
    EventInQueue(sys.queue, NoticeTask(n), n.to, KindOf(n), n.key, AnswerEvent(n));
    L.NoErrors(LocalAt(sys, n.to, KindOf(n), n.key), KindOf(n) == BindKind, AnswerEvent(n));
  }

  /** ... and every notice that is delivered meets what the automaton asserts about the helper's sets. */
  lemma DeliveredInOrder(start: System, steps: seq<Step>)
    requires Inv(start) && IsRun(start, steps)
    requires var q := After(start, steps).queue;
             q != [] && q[0].NoticeTask? && q[0].n.to in After(start, steps).helpers
    ensures var n := After(start, steps).queue[0].n;
            AssertsHold(After(start, steps).helpers[n.to], n)
  {
    RunInv(start, steps);
    var sys := After(start, steps);
    var n := sys.queue[0].n;
    assert HelperOk(sys, n.to, KindOf(n), n.key);
    NoticeHelper(sys, n, n.to, KindOf(n), n.key);
  }

  /** Destroying a child never fails: the child a withdrawal names is there. */
  lemma DestroyFindsChild(start: System, steps: seq<Step>)
    requires Inv(start) && IsRun(start, steps)
    requires var q := After(start, steps).queue;
             q != [] && q[0].WithdrawTask? && q[0].kind == CreateKind && q[0].aid in After(start, steps).automata
    ensures var sys := After(start, steps);
            sys.queue[0].k in sys.automata[sys.queue[0].aid].children
  {
    RunInv(start, steps);
    ChildThere(After(start, steps), After(start, steps).queue[0].aid, After(start, steps).queue[0].k);
  }

  ghost predicate Disjoint(s: Side) {
    && s.send !! s.recv && s.send !! s.done && s.recv !! s.done && s.undoSend !! s.undoRecv
    && s.undoSend <= s.recv + s.done && s.undoRecv <= s.done
  }

  /** A helper is in one place. */
  lemma HelperSetsDisjoint(start: System, steps: seq<Step>, a: Aid, kind: Kind)
    requires Inv(start) && IsRun(start, steps) && a in After(start, steps).helpers
    ensures Disjoint(SideOf(After(start, steps).helpers[a], kind))
  {
    RunInv(start, steps);
    var sys := After(start, steps);
    forall k
      ensures L.LocalOk(LocalAt(sys, a, kind, k), kind == BindKind)
    {
      assert HelperOk(sys, a, kind, k);
    }
    var s := SideOf(sys.helpers[a], kind);
    forall k
      ensures !(k in s.send && k in s.recv) && !(k in s.send && k in s.done) && !(k in s.recv && k in s.done)
      ensures !(k in s.undoSend && k in s.undoRecv)
      ensures k in s.undoSend ==> k in s.recv + s.done
      ensures k in s.undoRecv ==> k in s.done
    {
      assert L.LocalOk(LocalAt(sys, a, kind, k), kind == BindKind);
    }
  }

  /** An enabled system output always has a runnable queued. */
  lemma EnabledOutputQueued(start: System, steps: seq<Step>, a: Aid, o: SysOutput)
    requires Inv(start) && IsRun(start, steps) && a in After(start, steps).helpers
    requires OutputEnabled(After(start, steps).helpers[a], o)
    ensures OutputTask(a, o) in After(start, steps).queue
  {
    RunInv(start, steps);
    assert OutputOk(After(start, steps), a, o);
  }

  /** When the queue is empty nothing is waiting to be sent or answered, and what is done is what the model has:
      the children, or the bindings, of the automaton. */
  lemma EmptyQueueIsQuiet(start: System, steps: seq<Step>, a: Aid)
    requires Inv(start) && IsRun(start, steps) && a in After(start, steps).helpers
    requires After(start, steps).queue == []
    ensures var sys := After(start, steps);
            && a in sys.automata
            && sys.helpers[a].create == Side({}, {}, sys.automata[a].children.Keys, {}, {})
            && sys.helpers[a].bind == Side({}, {}, BoundKeys(sys.tuples, a), {}, {})
  {
    RunInv(start, steps);
    QuietSide(After(start, steps), a, CreateKind);
    QuietSide(After(start, steps), a, BindKind);
  }

  lemma QuietSide(sys: System, a: Aid, kind: Kind)
    requires Inv(sys) && sys.queue == [] && a in sys.helpers
    ensures SideOf(sys.helpers[a], kind)
            == Side({}, {}, if kind == CreateKind then sys.automata[a].children.Keys else BoundKeys(sys.tuples, a), {}, {})
  {
    var s := SideOf(sys.helpers[a], kind);
    var send, undo := if kind == CreateKind then SysCreate else SysBind, if kind == CreateKind then SysDestroy else SysUnbind;
    assert OutputOk(sys, a, send) && OutputOk(sys, a, undo);
    assert s.send == {} && UndoReady(s) == {};
    forall k
      ensures k !in s.recv && k !in s.undoRecv && k !in s.undoSend
      ensures k in s.done <==> Present(sys, a, kind, k)
    {
      assert HelperOk(sys, a, kind, k);
      L.QuietLocal(LocalAt(sys, a, kind, k), kind == BindKind);
      assert k !in UndoReady(s);
    }
  }

  // ---------------------------------------------------------------- BIND_KEY_DNE

  /** Some step of the run started a race about this binding. */
  ghost predicate RaceStarted(start: System, steps: seq<Step>, b: Aid, x: Key)
    requires Inv(start) && IsRun(start, steps)
    decreases |steps|
  {
    steps != [] &&
    var before := steps[..|steps| - 1];
    RunInv(start, before);
    RaceStarted(start, before, b, x)
    || (b in After(start, before).helpers && StartsRace(After(start, before), steps[|steps| - 1], b, x))
  }

  lemma {:induction false} RacingIffStarted(start: System, steps: seq<Step>, b: Aid, x: Key)
    requires Inv(start) && OnlyOutputs(start) && IsRun(start, steps) && b in After(start, steps).helpers
    ensures L.Racing(LocalAt(After(start, steps), b, BindKind, x)) <==> RaceStarted(start, steps, b, x)
    decreases |steps|
  {
    if steps != [] {
      var before, s := steps[..|steps| - 1], steps[|steps| - 1];
      RunInv(start, before);
      var sys := After(start, before);
      StepHelper(sys, s, b, BindKind, x);
      if b in sys.helpers {
        RacingIffStarted(start, before, b, x);
      } else {
        Newcomer(sys, s, b, x);
        NotEver(start, before, b, x);
      }
    } else {
      NoEvents(start.queue, b, BindKind, x);
    }
  }

  /** An automaton that is created now has not raced before. */
  lemma Newcomer(sys: System, s: Step, b: Aid, x: Key)
    requires ModelOk(sys) && TasksOk(sys) && Enabled(sys, s) && b !in sys.helpers && b in Take(sys, s).helpers
    ensures b !in sys.ever && !L.Racing(LocalAt(Take(sys, s), b, BindKind, x))
  {
    NewcomerCreated(sys, s, b);
    FreshAutomaton(sys, sys.queue[0].aid, sys.queue[0].k, s.c, BindKind, x);
  }

  lemma NewcomerCreated(sys: System, s: Step, b: Aid)
    requires Enabled(sys, s) && b !in sys.helpers && b in Take(sys, s).helpers
    ensures s.RunStep? && sys.queue[0].RequestTask? && sys.queue[0].kind == CreateKind && sys.queue[0].aid in sys.automata
    ensures b == s.c.aid && b !in sys.ever
  {}

  lemma EverGrows(sys: System, s: Step)
    requires Enabled(sys, s)
    ensures sys.ever <= Take(sys, s).ever
  {}

  lemma {:induction false} NotEver(start: System, steps: seq<Step>, b: Aid, x: Key)
    requires Inv(start) && IsRun(start, steps) && b !in After(start, steps).ever
    ensures !RaceStarted(start, steps, b, x)
    decreases |steps|
  {
    if steps != [] {
      var before := steps[..|steps| - 1];
      RunInv(start, before);
      EverGrows(After(start, before), steps[|steps| - 1]);
      NotEver(start, before, b, x);
    }
  }

  /** A withdrawal finds no binding, and BIND_KEY_DNE is emitted, exactly when the run has started a race
      about it: the binding was lost with one of its automata before the withdrawal was sent, or while the
      withdrawal was queued. */
  lemma BindKeyDneExactly(start: System, steps: seq<Step>, s: Step)
    requires Inv(start) && OnlyOutputs(start) && IsRun(start, steps) && Enabled(After(start, steps), s)
    requires var sys := After(start, steps);
             s.RunStep? && sys.queue[0].WithdrawTask? && sys.queue[0].kind == BindKind && sys.queue[0].aid in sys.helpers
    ensures var sys := After(start, steps);
            var b, x := sys.queue[0].aid, sys.queue[0].k;
            NoticeTask(BindKeyDneNotice(b, x)) in Take(sys, s).queue <==> RaceStarted(start, steps, b, x)
  {
    RunInv(start, steps);
    var sys := After(start, steps);
    var b, x := sys.queue[0].aid, sys.queue[0].k;
    assert HelperOk(sys, b, BindKind, x);
    var l := LocalAt(sys, b, BindKind, x);
    assert l.q[0] == L.UndoReq;
    L.ExecutedKeeps(l, true, true);
    RacingIffStarted(start, steps, b, x);
    if NoticeTask(BindKeyDneNotice(b, x)) in sys.queue {
      PreventedErrors(start, steps, BindKeyDneNotice(b, x));
    }
    var rest := sys.queue[1..];
    assert NoticeTask(BindKeyDneNotice(b, x)) in rest ==> NoticeTask(BindKeyDneNotice(b, x)) in sys.queue;
    if x !in BoundKeys(sys.tuples, b) {
      assert Take(sys, s).queue == rest + [NoticeTask(BindKeyDneNotice(b, x))];
    } else {
      assert Take(sys, s).queue == rest + [NoticeTask(UnboundNotice(b, x))];
    }
  }
}
