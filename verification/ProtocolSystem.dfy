/**
 Automata, configuration queue and model together (lib/automaton.cpp, lib/model.cpp, the queue of configuration
 runnables in lib/global_fifo_scheduler.cpp).  The model is taken as a forest and a set of binding tuples,
 which is what its methods are proved to implement.
 */
module ProtocolSystem {
  import opened Bindings
  import opened Forest
  import opened Automaton
  import L = ProtocolLocal

  datatype Task =
    OutputTask(aid: Aid, o: SysOutput)
  | RequestTask(aid: Aid, kind: Kind, k: Key, output: Action, input: Action)
  | WithdrawTask(aid: Aid, kind: Kind, k: Key)
  | NoticeTask(n: Notice)

  /** ever holds all identifiers used so far; an identifier is not used again. */
  datatype System = System(automata: Automata, births: Births, clock: nat, tuples: set<Tuple>,
                           helpers: map<Aid, Helpers>, queue: seq<Task>, ever: set<Aid>)

  /** A call that an automaton makes in its constructor, while it is being allocated: a request, or its withdrawal. */
  datatype Call = Requests(kind: Kind, k: Key) | Withdraws(kind: Kind, k: Key)

  /** What a step leaves open: the helper an output picks and the actions it binds, the allocated instance and
      identifier, what its constructor calls, the order in which the losses of a destruction are announced. */
  datatype Choice = Choice(k: Key, output: Action, input: Action, instance: Instance, aid: Aid, calls: seq<Call>,
                           ns: seq<Notice>)

  datatype Step = StartStep(aid: Aid, kind: Kind, k: Key) | UndoStep(aid: Aid, kind: Kind, k: Key) | RunStep(c: Choice)

  function TaskAid(t: Task): Aid {
    match t
    case OutputTask(a, _) => a
    case RequestTask(a, _, _, _, _) => a
    case WithdrawTask(a, _, _) => a
    case NoticeTask(n) => n.to
  }

  // ---------------------------------------------------------------- constructors

  predicate CallAllowed(h: Helpers, c: Call) {
    match c
    case Requests(kind, k) => Unseen(SideOf(h, kind), k)
    case Withdraws(kind, k) => Withdrawable(SideOf(h, kind), k)
  }

  function Called(h: Helpers, c: Call): Helpers {
    match c
    case Requests(kind, k) => WithSide(h, kind, Start(SideOf(h, kind), k))
    case Withdraws(kind, k) => WithSide(h, kind, Undo(SideOf(h, kind), k))
  }

  /** The helpers of an automaton after its constructor has made these calls, ... */
  function Built(calls: seq<Call>): Helpers {
    if calls == [] then NO_HELPERS else Called(Built(calls[..|calls| - 1]), calls[|calls| - 1])
  }

  /** ... the outputs it has asked for, after each of them, ... */
  function BuiltOutputs(calls: seq<Call>): seq<SysOutput> {
    if calls == [] then [] else BuiltOutputs(calls[..|calls| - 1]) + Scheduled(Built(calls))
  }

  /** ... and whether the assertions of the calls hold. */
  predicate CanBuild(calls: seq<Call>) {
    calls == [] || (CanBuild(calls[..|calls| - 1]) && CallAllowed(Built(calls[..|calls| - 1]), calls[|calls| - 1]))
  }

  /** A constructor leaves requests that wait to be sent and nothing else, and has asked for what they enable. */
  lemma {:induction false} BuiltWaits(calls: seq<Call>)
    requires CanBuild(calls)
    ensures Built(calls).create == Side(Built(calls).create.send, {}, {}, {}, {})
    ensures Built(calls).bind == Side(Built(calls).bind.send, {}, {}, {}, {})
    ensures forall o :: OutputEnabled(Built(calls), o) ==> o in BuiltOutputs(calls)
    decreases |calls|
  {
    if calls != [] {
      var h, c := Built(calls[..|calls| - 1]), calls[|calls| - 1];
      BuiltWaits(calls[..|calls| - 1]);
      forall o | OutputEnabled(Built(calls), o)
        ensures o in BuiltOutputs(calls)
      {
        ScheduledExactly(Built(calls), o);
      }
    }
  }

  // ---------------------------------------------------------------- steps

  function OutputKind(o: SysOutput): Kind {
    if o == SysCreate || o == SysDestroy then CreateKind else BindKind
  }

  predicate IsUndo(o: SysOutput) {
    o == SysUnbind || o == SysDestroy
  }

  function Candidates(h: Helpers, o: SysOutput): set<Key> {
    if IsUndo(o) then UndoReady(SideOf(h, OutputKind(o))) else SideOf(h, OutputKind(o)).send
  }

  function Effect(h: Helpers, o: SysOutput, k: Key): Helpers {
    var s := SideOf(h, OutputKind(o));
    WithSide(h, OutputKind(o), if IsUndo(o) then UndoSent(s, k) else Sent(s, k))
  }

  function SentTask(a: Aid, o: SysOutput, c: Choice): Task {
    if IsUndo(o) then WithdrawTask(a, OutputKind(o), c.k) else RequestTask(a, OutputKind(o), c.k, c.output, c.input)
  }

  function Outputs(a: Aid, os: seq<SysOutput>): (ts: seq<Task>)
    ensures |ts| == |os| && forall i | 0 <= i < |os| :: ts[i] == OutputTask(a, os[i])
  {
    seq(|os|, i requires 0 <= i < |os| => OutputTask(a, os[i]))
  }

  function NoticeTasks(ns: seq<Notice>): (ts: seq<Task>)
    ensures |ts| == |ns| && forall i | 0 <= i < |ns| :: ts[i] == NoticeTask(ns[i])
  {
    seq(|ns|, i requires 0 <= i < |ns| => NoticeTask(ns[i]))
  }

  function Append(sys: System, ts: seq<Task>): System {
    sys.(queue := sys.queue + ts)
  }

  /** The helpers of an automaton change, and it asks for the outputs that are enabled now. */
  function Reschedule(sys: System, a: Aid, h: Helpers): System {
    sys.(helpers := sys.helpers[a := h], queue := sys.queue + Outputs(a, Scheduled(h)))
  }

  ghost function Child(sys: System, a: Aid, k: Key): set<Aid>
    requires ForestOk(sys.automata, sys.births) && a in sys.automata && k in sys.automata[a].children
  {
    Subtree(sys.automata, sys.births, sys.automata[a].children[k])
  }

  ghost predicate Enabled(sys: System, s: Step) {
    match s
    case StartStep(a, kind, k) => a in sys.helpers && Unseen(SideOf(sys.helpers[a], kind), k)
    case UndoStep(a, kind, k) => a in sys.helpers && Withdrawable(SideOf(sys.helpers[a], kind), k)
    case RunStep(c) => sys.queue != [] && ForestOk(sys.automata, sys.births) && Possible(sys, sys.queue[0], c)
  }

  ghost predicate Possible(sys: System, t: Task, c: Choice)
    requires ForestOk(sys.automata, sys.births)
  {
    match t
    case OutputTask(a, o) =>
      a in sys.helpers && OutputEnabled(sys.helpers[a], o) ==>
        && c.k in Candidates(sys.helpers[a], o)
        && (o == SysBind ==> c.output.category == Output && c.input.category == Input)
    case RequestTask(_, kind, _, _, _) => kind == CreateKind ==> c.aid !in sys.ever && CanBuild(c.calls)
    case WithdrawTask(a, kind, k) =>
      kind == CreateKind && a in sys.automata && k in sys.automata[a].children ==>
        Announces(c.ns, GoneNotices(sys.automata, sys.tuples, Child(sys, a, k)))
    case NoticeTask(_) => true
  }

  ghost function Take(sys: System, s: Step): System
    requires Enabled(sys, s)
  {
    match s
    case StartStep(a, kind, k) =>
      var h := sys.helpers[a];
      Reschedule(sys, a, WithSide(h, kind, Start(SideOf(h, kind), k)))
    case UndoStep(a, kind, k) =>
      var h := sys.helpers[a];
      Reschedule(sys, a, WithSide(h, kind, Undo(SideOf(h, kind), k)))
    case RunStep(c) => Run(sys.(queue := sys.queue[1..]), sys.queue[0], c)
  }

  /** The runnable t, taken from the queue, is run. */
  ghost function Run(sys: System, t: Task, c: Choice): System
    requires ForestOk(sys.automata, sys.births)
  {
    match t
    case OutputTask(a, o) => RunOutput(sys, a, o, c)
    case RequestTask(a, kind, k, output, input) =>
      if kind == CreateKind then RunCreate(sys, a, k, c) else RunBind(sys, a, k, output, input)
    case WithdrawTask(a, kind, k) =>
      if kind == CreateKind then RunDestroy(sys, a, k, c) else RunUnbind(sys, a, k)
    case NoticeTask(n) =>
      if n.to in sys.helpers then Reschedule(sys, n.to, Notified(sys.helpers[n.to], n)) else sys
  }

  function RunOutput(sys: System, a: Aid, o: SysOutput, c: Choice): System {
    if a in sys.helpers && OutputEnabled(sys.helpers[a], o)
    then Append(Reschedule(sys, a, Effect(sys.helpers[a], o, c.k)), [SentTask(a, o, c)])
    else sys
  }

  function RunCreate(sys: System, a: Aid, k: Key, c: Choice): System {
    if a !in sys.automata then sys
    else if k in sys.automata[a].children then Append(sys, [NoticeTask(CreatedNotice(a, CreateKeyExists, k))])
    else if c.instance in Instances(sys.automata) then Append(sys, [NoticeTask(CreatedNotice(a, InstanceExists, k))])
    else Append(sys.(automata := WithAutomaton(sys.automata, c.aid, c.instance, a, k),
                     births := sys.births[c.aid := sys.clock], clock := sys.clock + 1,
                     helpers := sys.helpers[c.aid := Built(c.calls)], ever := sys.ever + {c.aid}),
                Outputs(c.aid, BuiltOutputs(c.calls)) + [NoticeTask(CreatedNotice(a, AutomatonCreated, k))])
  }

  function RunBind(sys: System, a: Aid, k: Key, output: Action, input: Action): System {
    var r := BindOutcome(sys.automata.Keys, sys.tuples, output, input, a, k);
    if r == BinderDoesNotExist then sys
    else if r == Bound && a in sys.automata
    then Append(sys.(automata := WithBindKey(sys.automata, a, k),
                     tuples := sys.tuples + {Tuple(output, input, a, k)}), [NoticeTask(BoundNotice(a, r, k))])
    else Append(sys, [NoticeTask(BoundNotice(a, r, k))])
  }

  ghost function RunDestroy(sys: System, a: Aid, k: Key, c: Choice): System
    requires ForestOk(sys.automata, sys.births)
  {
    if a !in sys.automata then sys
    else if k !in sys.automata[a].children then Append(sys, [NoticeTask(CreateKeyDneNotice(a, k))])
    else
      var gone := Child(sys, a, k);
      var kept := Untouched(sys.tuples, gone);
      Append(sys.(automata := Without(sys.automata, gone, kept), tuples := kept, helpers := sys.helpers - gone),
             NoticeTasks(c.ns))
  }

  function WithoutKey(ts: set<Tuple>, a: Aid, k: Key): set<Tuple> {
    set t | t in ts && !(t.binder == a && t.key == k)
  }

  function RunUnbind(sys: System, a: Aid, k: Key): System {
    if a !in sys.automata then sys
    else if k !in BoundKeys(sys.tuples, a) then Append(sys, [NoticeTask(BindKeyDneNotice(a, k))])
    else Append(sys.(automata := WithoutBindKey(sys.automata, a, k),
                     tuples := WithoutKey(sys.tuples, a, k)),
                [NoticeTask(UnboundNotice(a, k))])
  }

  // ---------------------------------------------------------------- one helper's view

  function AnswerEvent(n: Notice): L.Event {
    match AnswerOf(n)
    case Accept => L.Ok
    case Refuse => L.Fail
    case KeyInUse => L.KeyExists
    case Withdrawn => L.Gone
    case NoSuchKey => L.KeyDne
  }

  function EventOf(t: Task, a: Aid, kind: Kind, k: Key): seq<L.Event> {
    match t
    case OutputTask(_, _) => []
    case RequestTask(b, kd, x, _, _) => if b == a && kd == kind && x == k then [L.Req] else []
    case WithdrawTask(b, kd, x) => if b == a && kd == kind && x == k then [L.UndoReq] else []
    case NoticeTask(n) => if n.to == a && KindOf(n) == kind && n.key == k then [AnswerEvent(n)] else []
  }

  function Events(q: seq<Task>, a: Aid, kind: Kind, k: Key): seq<L.Event> {
    if q == [] then [] else EventOf(q[0], a, kind, k) + Events(q[1..], a, kind, k)
  }

  predicate Present(sys: System, a: Aid, kind: Kind, k: Key) {
    if kind == CreateKind then a in sys.automata && k in sys.automata[a].children
    else k in BoundKeys(sys.tuples, a)
  }

  function LocalOf(s: Side, k: Key, present: bool, q: seq<L.Event>): L.Local {
    L.Local(k in s.send, k in s.recv, k in s.done, k in s.undoSend, k in s.undoRecv, present, q)
  }

  function LocalAt(sys: System, a: Aid, kind: Kind, k: Key): L.Local
    requires a in sys.helpers
  {
    LocalOf(SideOf(sys.helpers[a], kind), k, Present(sys, a, kind, k), Events(sys.queue, a, kind, k))
  }

  lemma {:induction false} EventsConcat(p: seq<Task>, q: seq<Task>, a: Aid, kind: Kind, k: Key)
    ensures Events(p + q, a, kind, k) == Events(p, a, kind, k) + Events(q, a, kind, k)
  {
    if p == [] {
      assert p + q == q;
    } else {
      assert (p + q)[1..] == p[1..] + q;
      EventsConcat(p[1..], q, a, kind, k);
    }
  }

  lemma {:induction false} NoEvents(q: seq<Task>, a: Aid, kind: Kind, k: Key)
    requires forall t | t in q :: EventOf(t, a, kind, k) == []
    ensures Events(q, a, kind, k) == []
  {
    if q != [] {
      NoEvents(q[1..], a, kind, k);
    }
  }

  lemma OneEvent(t: Task, a: Aid, kind: Kind, k: Key)
    ensures Events([t], a, kind, k) == EventOf(t, a, kind, k)
  {
    assert [t][1..] == [];
  }

  /** What asking for outputs and sending one more task adds. */
  lemma EventsAfter(q: seq<Task>, os: seq<SysOutput>, b: Aid, ts: seq<Task>, a: Aid, kind: Kind, k: Key)
    ensures Events(q + Outputs(b, os), a, kind, k) == Events(q, a, kind, k)
    ensures Events(q + ts, a, kind, k) == Events(q, a, kind, k) + Events(ts, a, kind, k)
    ensures Events(q + Outputs(b, os) + ts, a, kind, k) == Events(q, a, kind, k) + Events(ts, a, kind, k)
  {
    EventsConcat(q, Outputs(b, os), a, kind, k);
    NoEvents(Outputs(b, os), a, kind, k);
    EventsConcat(q, ts, a, kind, k);
    EventsConcat(q + Outputs(b, os), ts, a, kind, k);
  }

  function WithdrawnNotice(a: Aid, kind: Kind, k: Key): Notice {
    if kind == CreateKind then DestroyedNotice(a, k) else UnboundNotice(a, k)
  }

  /** A loss that is announced is announced once to whoever has it, and nothing else is. */
  lemma {:induction false} EventsOfLosses(ns: seq<Notice>, all: set<Notice>, a: Aid, kind: Kind, k: Key)
    requires Announces(ns, all) && forall n | n in all :: n.DestroyedNotice? || n.UnboundNotice?
    ensures Events(NoticeTasks(ns), a, kind, k) == if WithdrawnNotice(a, kind, k) in all then [L.Gone] else []
  {
    if ns == [] {
      forall n
        ensures n !in all
      {
        assert !Told(ns, n);
      }
    } else {
      var rest := all - {ns[0]};
      assert Told(ns, ns[0]);
      AnnouncesRest(ns, all);
      EventsOfLosses(ns[1..], rest, a, kind, k);
      assert NoticeTasks(ns)[1..] == NoticeTasks(ns[1..]);
    }
  }

  lemma AnnouncesRest(ns: seq<Notice>, all: set<Notice>)
    requires Announces(ns, all) && ns != []
    ensures Announces(ns[1..], all - {ns[0]})
  {
    forall i, j | 0 <= i < j < |ns[1..]|
      ensures Differ(ns[1..], i, j)
    {
      assert Differ(ns, i + 1, j + 1);
    }
    forall n
      ensures Told(ns[1..], n) <==> n in all - {ns[0]}
    {
      assert Told(ns, n) <==> n in all;
      if Told(ns[1..], n) {
        var j :| 0 <= j < |ns[1..]| && ns[1..][j] == n;
        assert Differ(ns, 0, j + 1);
      }
    }
  }
}
