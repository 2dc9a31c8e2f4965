/** The invariant of automata, configuration queue and model, and that every step keeps it. */
module ProtocolInvariant {
  import opened Common
  import opened Bindings
  import opened Forest
  import opened Automaton
  import opened ProtocolSystem
  import L = ProtocolLocal

  ghost predicate ModelOk(sys: System) {
    && ForestOk(sys.automata, sys.births)
    && (forall x | x in sys.births :: sys.births[x] < sys.clock)
    && TuplesOk(sys.tuples) && LiveTuples(sys.automata.Keys, sys.tuples)
    && sys.helpers.Keys == sys.automata.Keys <= sys.ever
  }

  ghost predicate TaskOk(ever: set<Aid>, t: Task) {
    && TaskAid(t) in ever
    && (t.RequestTask? && t.kind == BindKind ==> t.output.category == Output && t.input.category == Input)
  }

  ghost predicate TasksOk(sys: System) {
    forall t {:trigger TaskOk(sys.ever, t)} | t in sys.queue :: TaskOk(sys.ever, t)
  }

  ghost predicate HelperOk(sys: System, a: Aid, kind: Kind, k: Key) {
    a in sys.helpers ==> L.LocalOk(LocalAt(sys, a, kind, k), kind == BindKind)
  }

  ghost predicate HelpersOk(sys: System) {
    forall a, kind, k {:trigger HelperOk(sys, a, kind, k)} :: HelperOk(sys, a, kind, k)
  }

  /** An enabled system output has a runnable in the queue. */
  ghost predicate OutputOk(sys: System, a: Aid, o: SysOutput) {
    a in sys.helpers && OutputEnabled(sys.helpers[a], o) ==> OutputTask(a, o) in sys.queue
  }

  ghost predicate OutputsOk(sys: System) {
    forall a, o {:trigger OutputOk(sys, a, o)} :: OutputOk(sys, a, o)
  }

  ghost predicate Inv(sys: System) {
    ModelOk(sys) && TasksOk(sys) && HelpersOk(sys) && OutputsOk(sys)
  }

  /** The step withdraws a binding that has vanished: it is the one that emits BIND_KEY_DNE. */
  predicate LosesRace(sys: System, s: Step) {
    && s.RunStep? && sys.queue != [] && sys.queue[0].WithdrawTask? && sys.queue[0].kind == BindKind
    && sys.queue[0].aid in sys.automata && sys.queue[0].k !in BoundKeys(sys.tuples, sys.queue[0].aid)
  }

  // ---------------------------------------------------------------- helpers: calls of the automaton

  function CallLocal(s: Step, l: L.Local): L.Local {
    if s.StartStep? then L.Start(l) else L.Undo(l)
  }

  lemma CallLocalAt(sys: System, s: Step, a: Aid, kind: Kind, k: Key)
    requires Enabled(sys, s) && !s.RunStep? && a in sys.helpers
    ensures a in Take(sys, s).helpers
    ensures LocalAt(Take(sys, s), a, kind, k)
            == if a == s.aid && kind == s.kind && k == s.k then CallLocal(s, LocalAt(sys, a, kind, k)) else LocalAt(sys, a, kind, k)
  {
    var side := SideOf(sys.helpers[a], kind);
    CalledSide(sys, s, a, kind);
    CalledRest(sys, s, a, kind, k);
    if s.StartStep? {
      StartedSide(side, s.k, k, Present(sys, a, kind, k), Events(sys.queue, a, kind, k));
    } else {
      UndoneSide(side, s.k, k, Present(sys, a, kind, k), Events(sys.queue, a, kind, k));
    }
  }

  lemma CalledSide(sys: System, s: Step, a: Aid, kind: Kind)
    requires Enabled(sys, s) && !s.RunStep? && a in sys.helpers
    ensures a in Take(sys, s).helpers
    ensures var side := SideOf(sys.helpers[a], kind);
            SideOf(Take(sys, s).helpers[a], kind)
            == if a == s.aid && kind == s.kind then (if s.StartStep? then Start(side, s.k) else Undo(side, s.k)) else side
  {}

  /** A call changes nothing the model has, and queues no request. */
  lemma CalledRest(sys: System, s: Step, a: Aid, kind: Kind, k: Key)
    requires Enabled(sys, s) && !s.RunStep?
    ensures Present(Take(sys, s), a, kind, k) == Present(sys, a, kind, k)
    ensures Events(Take(sys, s).queue, a, kind, k) == Events(sys.queue, a, kind, k)
  {
    EventsAfter(sys.queue, Scheduled(Take(sys, s).helpers[s.aid]), s.aid, [], a, kind, k);
  }

  lemma StartedSide(side: Side, x: Key, k: Key, p: bool, q: seq<L.Event>)
    ensures LocalOf(Start(side, x), k, p, q) == if k == x then L.Start(LocalOf(side, k, p, q)) else LocalOf(side, k, p, q)
  {}

  lemma UndoneSide(side: Side, x: Key, k: Key, p: bool, q: seq<L.Event>)
    ensures LocalOf(Undo(side, x), k, p, q) == if k == x then L.Undo(LocalOf(side, k, p, q)) else LocalOf(side, k, p, q)
  {}

  lemma CallHelper(sys: System, s: Step, a: Aid, kind: Kind, k: Key)
    requires Enabled(sys, s) && !s.RunStep? && a in sys.helpers && HelperOk(sys, a, kind, k)
    ensures a in Take(sys, s).helpers && HelperOk(Take(sys, s), a, kind, k)
    ensures L.Racing(LocalAt(Take(sys, s), a, kind, k)) <==> L.Racing(LocalAt(sys, a, kind, k))
  {
    var l := LocalAt(sys, a, kind, k);
    CallLocalAt(sys, s, a, kind, k);
    if a == s.aid && kind == s.kind && k == s.k {
      if s.StartStep? {
        L.StartKeeps(l, kind == BindKind);
      } else {
        L.UndoKeeps(l, kind == BindKind);
      }
    }
  }

  // ---------------------------------------------------------------- helpers: outputs and notices

  /** The queue without its head. */
  function Popped(sys: System): System
    requires sys.queue != []
  {
    sys.(queue := sys.queue[1..])
  }

  predicate Picks(sys: System, a: Aid, o: SysOutput, c: Choice) {
    a in sys.helpers && OutputEnabled(sys.helpers[a], o) && c.k in Candidates(sys.helpers[a], o)
  }

  function SentLocal(o: SysOutput, l: L.Local): L.Local {
    if IsUndo(o) then L.UndoSent(l) else L.Sent(l)
  }

  lemma OutputEvents(sys: System, a: Aid, o: SysOutput, c: Choice, b: Aid, kind: Kind, k: Key)
    requires sys.queue != [] && sys.queue[0] == OutputTask(a, o) && Picks(sys, a, o, c)
    ensures Events(RunOutput(Popped(sys), a, o, c).queue, b, kind, k)
            == Events(sys.queue, b, kind, k)
               + if b == a && kind == OutputKind(o) && k == c.k then [if IsUndo(o) then L.UndoReq else L.Req] else []
  {
    AppendedEvents(sys.queue, Scheduled(Effect(sys.helpers[a], o, c.k)), a, SentTask(a, o, c), b, kind, k);
  }

  /** An output leaves the queue; outputs it asked for and one task join it. */
  lemma AppendedEvents(q: seq<Task>, os: seq<SysOutput>, a: Aid, t: Task, b: Aid, kind: Kind, k: Key)
    requires q != [] && q[0].OutputTask?
    ensures Events(q[1..] + Outputs(a, os) + [t], b, kind, k) == Events(q, b, kind, k) + EventOf(t, b, kind, k)
  {
    calc {
      Events(q[1..] + Outputs(a, os) + [t], b, kind, k);
      { AppendEvents(q[1..], Outputs(a, os), t, b, kind, k); }
      Events(q[1..], b, kind, k) + Events(Outputs(a, os), b, kind, k) + EventOf(t, b, kind, k);
      { OutputsEvents(a, os, b, kind, k); }
      Events(q[1..], b, kind, k) + EventOf(t, b, kind, k);
      { HeadOutput(q, b, kind, k); }
      Events(q, b, kind, k) + EventOf(t, b, kind, k);
    }
  }

  lemma OutputsEvents(a: Aid, os: seq<SysOutput>, b: Aid, kind: Kind, k: Key)
    ensures Events(Outputs(a, os), b, kind, k) == []
  {
    NoEvents(Outputs(a, os), b, kind, k);
  }

  lemma HeadOutput(q: seq<Task>, b: Aid, kind: Kind, k: Key)
    requires q != [] && q[0].OutputTask?
    ensures Events(q, b, kind, k) == Events(q[1..], b, kind, k)
  {}

  lemma AppendEvents(p: seq<Task>, q: seq<Task>, t: Task, b: Aid, kind: Kind, k: Key)
    ensures Events(p + q + [t], b, kind, k) == Events(p, b, kind, k) + Events(q, b, kind, k) + EventOf(t, b, kind, k)
  {
    EventsConcat(p, q, b, kind, k);
    EventsConcat(p + q, [t], b, kind, k);
    OneEvent(t, b, kind, k);
  }

  lemma OutputLocal(sys: System, a: Aid, o: SysOutput, c: Choice, b: Aid, kind: Kind, k: Key)
    requires sys.queue != [] && sys.queue[0] == OutputTask(a, o) && Picks(sys, a, o, c) && b in sys.helpers
    ensures b in RunOutput(Popped(sys), a, o, c).helpers
    ensures LocalAt(RunOutput(Popped(sys), a, o, c), b, kind, k)
            == if b == a && kind == OutputKind(o) && k == c.k then SentLocal(o, LocalAt(sys, b, kind, k))
               else LocalAt(sys, b, kind, k)
    ensures b == a && kind == OutputKind(o) && k == c.k ==>
              var l := LocalAt(sys, b, kind, k);
              if IsUndo(o) then l.undoSend && l.done else l.send
  {
    var sys' := RunOutput(Popped(sys), a, o, c);
    OutputEvents(sys, a, o, c, b, kind, k);
    EffectFlags(sys.helpers[a], o, c.k, kind, k, Present(sys, b, kind, k), Events(sys'.queue, b, kind, k));
    assert Present(sys', b, kind, k) == Present(sys, b, kind, k);
  }

  lemma EffectFlags(h: Helpers, o: SysOutput, x: Key, kind: Kind, k: Key, present: bool, q: seq<L.Event>)
    requires x in Candidates(h, o)
    ensures var l := LocalOf(SideOf(h, kind), k, present, q);
            && LocalOf(SideOf(Effect(h, o, x), kind), k, present, q)
               == (if kind == OutputKind(o) && k == x then SentLocal(o, l).(q := q) else l)
            && (kind == OutputKind(o) && k == x ==> if IsUndo(o) then l.undoSend && l.done else l.send)
  {}

  /** Only a withdrawal of what has vanished starts a race. */
  lemma OutputHelper(sys: System, a: Aid, o: SysOutput, c: Choice, b: Aid, kind: Kind, k: Key)
    requires sys.queue != [] && sys.queue[0] == OutputTask(a, o) && Picks(sys, a, o, c)
    requires b in sys.helpers && HelperOk(sys, b, kind, k)
    ensures b in RunOutput(Popped(sys), a, o, c).helpers && HelperOk(RunOutput(Popped(sys), a, o, c), b, kind, k)
    ensures var l, l' := LocalAt(sys, b, kind, k), LocalAt(RunOutput(Popped(sys), a, o, c), b, kind, k);
            L.Racing(l') <==> L.Racing(l) || (b == a && kind == OutputKind(o) && k == c.k && IsUndo(o) && !l.present)
  {
    var l := LocalAt(sys, b, kind, k);
    OutputLocal(sys, a, o, c, b, kind, k);
    if b == a && kind == OutputKind(o) && k == c.k {
      if IsUndo(o) {
        L.UndoSentKeeps(l, kind == BindKind);
      } else {
        L.SentKeeps(l, kind == BindKind);
      }
    }
  }

  lemma NoticeLocal(sys: System, n: Notice, b: Aid, kind: Kind, k: Key)
    requires sys.queue != [] && sys.queue[0] == NoticeTask(n) && n.to in sys.helpers && b in sys.helpers
    ensures b == n.to && kind == KindOf(n) && k == n.key ==>
              var l := LocalAt(sys, b, kind, k);
              l.q == [AnswerEvent(n)] + Events(sys.queue[1..], b, kind, k)
    ensures var l, l' := LocalAt(sys, b, kind, k), LocalAt(Reschedule(Popped(sys), n.to, Notified(sys.helpers[n.to], n)), b, kind, k);
            if b == n.to && kind == KindOf(n) && k == n.key
            then l' == LocalOf(SideOf(Notified(sys.helpers[b], n), kind), k, l.present, l.q[1..])
            else l' == l
  {
    assert Events(sys.queue[1..] + Outputs(n.to, Scheduled(Notified(sys.helpers[n.to], n))), b, kind, k)
           == Events(sys.queue[1..], b, kind, k) by {
      EventsAfter(sys.queue[1..], Scheduled(Notified(sys.helpers[n.to], n)), n.to, [], b, kind, k);
    }
    NoticeFlags(sys.helpers[n.to], n, kind, k, Present(sys, b, kind, k), Events(sys.queue, b, kind, k));
  }

  lemma NoticeFlags(h: Helpers, n: Notice, kind: Kind, k: Key, present: bool, q: seq<L.Event>)
    ensures kind != KindOf(n) || k != n.key ==>
              LocalOf(SideOf(Notified(h, n), kind), k, present, q) == LocalOf(SideOf(h, kind), k, present, q)
  {}

  lemma NoticeHelper(sys: System, n: Notice, b: Aid, kind: Kind, k: Key)
    requires sys.queue != [] && sys.queue[0] == NoticeTask(n) && n.to in sys.helpers
    requires b in sys.helpers && HelperOk(sys, b, kind, k)
    ensures var sys' := Reschedule(Popped(sys), n.to, Notified(sys.helpers[n.to], n));
            && HelperOk(sys', b, kind, k)
            && (L.Racing(LocalAt(sys', b, kind, k)) <==> L.Racing(LocalAt(sys, b, kind, k)))
    ensures b == n.to && kind == KindOf(n) && k == n.key ==> AssertsHold(sys.helpers[b], n)
  {
    var l := LocalAt(sys, b, kind, k);
    NoticeLocal(sys, n, b, kind, k);
    if b == n.to && kind == KindOf(n) && k == n.key {
      L.DeliveredKeeps(l, kind == BindKind);
      NoticeDelivered(sys.helpers[b], n, l);
    }
  }

  /** What the automaton does with a notice is what the exchange about the helper has it do. */
  lemma NoticeDelivered(h: Helpers, n: Notice, l: L.Local)
    requires l.q != [] && l.q[0] == AnswerEvent(n) && L.AssertsHold(l)
    requires l == LocalOf(SideOf(h, KindOf(n)), n.key, l.present, l.q)
    ensures LocalOf(SideOf(Notified(h, n), KindOf(n)), n.key, l.present, l.q[1..]) == L.Delivered(l)
    ensures AssertsHold(h, n)
  {}

  /** A runnable that does nothing, or is about others. */
  lemma PoppedLocal(sys: System, b: Aid, kind: Kind, k: Key)
    requires sys.queue != [] && b in sys.helpers && EventOf(sys.queue[0], b, kind, k) == []
    ensures LocalAt(Popped(sys), b, kind, k) == LocalAt(sys, b, kind, k)
  {}

  // ---------------------------------------------------------------- helpers: the model executes a request

  /** A request leaves the queue and its answer joins it. */
  lemma AnsweredEvents(q: seq<Task>, t: Task, b: Aid, kind: Kind, k: Key)
    requires q != []
    ensures Events(q, b, kind, k) == EventOf(q[0], b, kind, k) + Events(q[1..], b, kind, k)
    ensures Events(q[1..] + [t], b, kind, k) == Events(q[1..], b, kind, k) + EventOf(t, b, kind, k)
  {
    EventsConcat(q[1..], [t], b, kind, k);
    OneEvent(t, b, kind, k);
  }

  predicate IsAbout(t: Task, b: Aid, kind: Kind, k: Key) {
    (t.RequestTask? || t.WithdrawTask?) && t.aid == b && t.kind == kind && t.k == k
  }

  /** What the queue says about a helper when the model has executed a request and answered with n. */
  lemma AnsweredQueue(q: seq<Task>, n: Notice, b: Aid, kind: Kind, x: Key)
    requires q != [] && IsAbout(q[0], n.to, KindOf(n), n.key)
    ensures var e, e' := Events(q, b, kind, x), Events(q[1..] + [NoticeTask(n)], b, kind, x);
            if IsAbout(q[0], b, kind, x)
            then e != [] && e[0] == (if q[0].RequestTask? then L.Req else L.UndoReq) && e' == e[1..] + [AnswerEvent(n)]
            else e' == e
  {
    AnsweredEvents(q, NoticeTask(n), b, kind, x);
    var rest := Events(q[1..], b, kind, x);
    if IsAbout(q[0], b, kind, x) {
      var first := if q[0].RequestTask? then L.Req else L.UndoReq;
      assert Events(q, b, kind, x) == [first] + rest;
      assert ([first] + rest)[1..] == rest;
    } else {
      assert [] + rest == rest && rest + [] == rest;
    }
  }

  lemma CreateLocal(sys: System, a: Aid, k: Key, c: Choice, b: Aid, kind: Kind, x: Key)
    requires sys.queue != [] && sys.queue[0].RequestTask? && IsAbout(sys.queue[0], a, CreateKind, k)
    requires sys.helpers.Keys == sys.automata.Keys && a in sys.automata && c.aid !in sys.automata && b in sys.helpers
    ensures b in RunCreate(Popped(sys), a, k, c).helpers
    ensures var l := LocalAt(sys, b, kind, x);
            && (IsAbout(sys.queue[0], b, kind, x) ==> l.q != [] && l.q[0] == L.Req)
            && LocalAt(RunCreate(Popped(sys), a, k, c), b, kind, x)
               == if IsAbout(sys.queue[0], b, kind, x) then L.Executed(l, c.instance !in Instances(sys.automata)) else l
  {
    var r := CreateOutcome(sys, a, k, c);
    var sys' := RunCreate(Popped(sys), a, k, c);
    CreateQueue(sys, a, k, c, b, kind, x);
    AnsweredQueue(sys.queue, CreatedNotice(a, r, k), b, kind, x);
    CreateAnswered(SideOf(sys.helpers[b], kind), x, Present(sys, b, kind, x), Present(sys', b, kind, x),
                   Events(sys.queue, b, kind, x), Events(sys'.queue, b, kind, x),
                   IsAbout(sys.queue[0], b, kind, x), c.instance !in Instances(sys.automata), CreatedNotice(a, r, k));
  }

  function CreateOutcome(sys: System, a: Aid, k: Key, c: Choice): CreateResult
    requires a in sys.automata
  {
    if k in sys.automata[a].children then CreateKeyExists
    else if c.instance in Instances(sys.automata) then InstanceExists else AutomatonCreated
  }

  /** The outputs that the constructor asks for say nothing about anybody's helpers. */
  lemma CreateQueue(sys: System, a: Aid, k: Key, c: Choice, b: Aid, kind: Kind, x: Key)
    requires sys.queue != [] && a in sys.automata
    ensures Events(RunCreate(Popped(sys), a, k, c).queue, b, kind, x)
            == Events(sys.queue[1..] + [NoticeTask(CreatedNotice(a, CreateOutcome(sys, a, k, c), k))], b, kind, x)
  {
    AskedEvents(sys.queue[1..], BuiltOutputs(c.calls), c.aid, NoticeTask(CreatedNotice(a, AutomatonCreated, k)), b, kind, x);
  }

  lemma AskedEvents(q: seq<Task>, os: seq<SysOutput>, a: Aid, t: Task, b: Aid, kind: Kind, x: Key)
    ensures Events(q + (Outputs(a, os) + [t]), b, kind, x) == Events(q + [t], b, kind, x)
  {
    EventsConcat(q, Outputs(a, os) + [t], b, kind, x);
    EventsConcat(Outputs(a, os), [t], b, kind, x);
    OutputsEvents(a, os, b, kind, x);
    EventsConcat(q, [t], b, kind, x);
    assert [] + Events([t], b, kind, x) == Events([t], b, kind, x);
  }

  lemma CreateAnswered(side: Side, x: Key, p: bool, p': bool, q: seq<L.Event>, q': seq<L.Event>, about: bool,
                       accepted: bool, n: Notice)
    requires about ==> q != [] && q[0] == L.Req && q' == q[1..] + [AnswerEvent(n)]
    requires about ==> AnswerEvent(n) == (if p then L.KeyExists else if accepted then L.Ok else L.Fail)
    requires about ==> p' == (p || accepted)
    requires !about ==> q' == q && p' == p
    ensures var l := LocalOf(side, x, p, q);
            LocalOf(side, x, p', q') == if about then L.Executed(l, accepted) else l
  {}

  lemma BindAnswer(live: set<Aid>, ts: set<Tuple>, output: Action, input: Action, a: Aid, k: Key)
    requires a in live
    ensures var r := BindOutcome(live, ts, output, input, a, k);
            r != BinderDoesNotExist && (r == BindKeyExists <==> k in BoundKeys(ts, a))
  {}

  lemma KeysAfterBind(ts: set<Tuple>, t: Tuple, b: Aid)
    ensures BoundKeys(ts + {t}, b) == BoundKeys(ts, b) + if b == t.binder then {t.key} else {}
  {}

  lemma KeysAfterUnbind(ts: set<Tuple>, a: Aid, k: Key, b: Aid)
    ensures BoundKeys(WithoutKey(ts, a, k), b)
            == BoundKeys(ts, b) - if b == a then {k} else {}
  {}

  lemma BindLocal(sys: System, a: Aid, k: Key, output: Action, input: Action, b: Aid, kind: Kind, x: Key)
    requires sys.queue != [] && sys.queue[0].RequestTask? && IsAbout(sys.queue[0], a, BindKind, k)
    requires sys.helpers.Keys == sys.automata.Keys && a in sys.automata && b in sys.helpers
    ensures b in RunBind(Popped(sys), a, k, output, input).helpers
    ensures var l := LocalAt(sys, b, kind, x);
            && (IsAbout(sys.queue[0], b, kind, x) ==> l.q != [] && l.q[0] == L.Req)
            && LocalAt(RunBind(Popped(sys), a, k, output, input), b, kind, x)
               == if IsAbout(sys.queue[0], b, kind, x)
                  then L.Executed(l, BindOutcome(sys.automata.Keys, sys.tuples, output, input, a, k) == Bound)
                  else l
  {
    var r := BindOutcome(sys.automata.Keys, sys.tuples, output, input, a, k);
    BindAnswer(sys.automata.Keys, sys.tuples, output, input, a, k);
    KeysAfterBind(sys.tuples, Tuple(output, input, a, k), b);
    AnsweredQueue(sys.queue, BoundNotice(a, r, k), b, kind, x);
    var sys' := RunBind(Popped(sys), a, k, output, input);
    RequestAnswered(SideOf(sys.helpers[b], kind), x, Present(sys, b, kind, x), Present(sys', b, kind, x),
                    Events(sys.queue, b, kind, x), Events(sys'.queue, b, kind, x),
                    IsAbout(sys.queue[0], b, kind, x), r, BoundNotice(a, r, k));
  }

  /** The answer to a request, seen by one helper: about says that it is its own. */
  lemma RequestAnswered(side: Side, x: Key, p: bool, p': bool, q: seq<L.Event>, q': seq<L.Event>, about: bool, r: BindResult,
                        n: Notice)
    requires n.BoundNotice? && n.bound == r != BinderDoesNotExist
    requires about ==> q != [] && q[0] == L.Req && q' == q[1..] + [AnswerEvent(n)]
    requires about ==> (r == BindKeyExists <==> p) && p' == (p || r == Bound)
    requires !about ==> q' == q && p' == p
    ensures var l := LocalOf(side, x, p, q);
            LocalOf(side, x, p', q') == if about then L.Executed(l, r == Bound) else l
  {}

  /** The answer to a withdrawal. */
  lemma WithdrawalAnswered(side: Side, x: Key, p: bool, p': bool, q: seq<L.Event>, q': seq<L.Event>, about: bool, n: Notice)
    requires about ==> q != [] && q[0] == L.UndoReq && q' == q[1..] + [AnswerEvent(n)]
    requires about ==> AnswerEvent(n) == (if p then L.Gone else L.KeyDne) && !p'
    requires !about ==> q' == q && p' == p
    ensures var l := LocalOf(side, x, p, q);
            LocalOf(side, x, p', q') == if about then L.Executed(l, true) else l
  {}

  lemma UnbindLocal(sys: System, a: Aid, k: Key, b: Aid, kind: Kind, x: Key)
    requires sys.queue != [] && sys.queue[0].WithdrawTask? && IsAbout(sys.queue[0], a, BindKind, k)
    requires sys.helpers.Keys == sys.automata.Keys && a in sys.automata && b in sys.helpers
    ensures b in RunUnbind(Popped(sys), a, k).helpers
    ensures var l := LocalAt(sys, b, kind, x);
            && (IsAbout(sys.queue[0], b, kind, x) ==> l.q != [] && l.q[0] == L.UndoReq)
            && LocalAt(RunUnbind(Popped(sys), a, k), b, kind, x)
               == if IsAbout(sys.queue[0], b, kind, x) then L.Executed(l, true) else l
  {
    var n := if k in BoundKeys(sys.tuples, a) then UnboundNotice(a, k) else BindKeyDneNotice(a, k);
    KeysAfterUnbind(sys.tuples, a, k, b);
    AnsweredQueue(sys.queue, n, b, kind, x);
    var sys' := RunUnbind(Popped(sys), a, k);
    WithdrawalAnswered(SideOf(sys.helpers[b], kind), x, Present(sys, b, kind, x), Present(sys', b, kind, x),
                       Events(sys.queue, b, kind, x), Events(sys'.queue, b, kind, x),
                       IsAbout(sys.queue[0], b, kind, x), n);
  }

  // ---------------------------------------------------------------- helpers: a destruction

  /** Of the automata that stay, only the one that asked loses a child, and only that child. */
  lemma GoneChild(sys: System, a: Aid, k: Key, b: Aid, x: Key)
    requires ForestOk(sys.automata, sys.births) && a in sys.automata && k in sys.automata[a].children
    requires b in sys.automata && b !in Child(sys, a, k)
    ensures x in sys.automata[b].children && sys.automata[b].children[x] in Child(sys, a, k) <==> b == a && x == k
    ensures DestroyedNotice(b, x) in DestroyedNotices(sys.automata, Child(sys, a, k)) <==> b == a && x == k
  {
    var f, child, gone := sys.automata, sys.automata[a].children[k], Child(sys, a, k);
    assert ChildOk(f, a, k) && ParentOk(f, sys.births, child);
    assert child in gone;
    forall y | y in gone && f[y].parent == Some(b)
      ensures y == child
    {
      assert ParentOk(f, sys.births, y);
    }
    if x in f[b].children {
      assert ChildOk(f, b, x);
    }
    forall y | y in f && f[y].parent == Some(b) && f[y].key == x
      ensures x in f[b].children && f[b].children[x] == y
    {
      assert ParentOk(f, sys.births, y);
    }
  }

  /** A binder is told of exactly the keys it loses. */
  lemma GoneBinding(ts: set<Tuple>, gone: set<Aid>, b: Aid, x: Key)
    requires TuplesOk(ts)
    ensures UnboundNotice(b, x) in UnboundNotices(ts - Untouched(ts, gone))
            <==> x in BoundKeys(ts, b) && x !in BoundKeys(Untouched(ts, gone), b)
  {
    if t :| t in ts - Untouched(ts, gone) && UnboundNotice(t.binder, t.key) == UnboundNotice(b, x) {
      forall u | u in Untouched(ts, gone)
        ensures !(u.binder == b && u.key == x)
      {
        assert Compatible(t, u);
      }
    }
  }

  lemma LossesOnly(f: Automata, ts: set<Tuple>, gone: set<Aid>, n: Notice)
    requires n in GoneNotices(f, ts, gone)
    ensures n.DestroyedNotice? || n.UnboundNotice?
  {}

  /** Whether a helper of an automaton that stays loses what it had. */
  predicate Loses(sys: System, a: Aid, k: Key, gone: set<Aid>, b: Aid, kind: Kind, x: Key) {
    if kind == CreateKind then b == a && x == k
    else x in BoundKeys(sys.tuples, b) && x !in BoundKeys(Untouched(sys.tuples, gone), b)
  }

  lemma DestroyEvents(sys: System, a: Aid, k: Key, c: Choice, b: Aid, kind: Kind, x: Key)
    requires ModelOk(sys) && a in sys.automata && k in sys.automata[a].children
    requires Announces(c.ns, GoneNotices(sys.automata, sys.tuples, Child(sys, a, k)))
    requires b in sys.automata && b !in Child(sys, a, k)
    ensures Events(sys.queue + NoticeTasks(c.ns), b, kind, x)
            == Events(sys.queue, b, kind, x) + if Loses(sys, a, k, Child(sys, a, k), b, kind, x) then [L.Gone] else []
  {
    var gone := Child(sys, a, k);
    var all := GoneNotices(sys.automata, sys.tuples, gone);
    forall n | n in all
      ensures n.DestroyedNotice? || n.UnboundNotice?
    {
      LossesOnly(sys.automata, sys.tuples, gone, n);
    }
    EventsConcat(sys.queue, NoticeTasks(c.ns), b, kind, x);
    EventsOfLosses(c.ns, all, b, kind, x);
    if kind == CreateKind {
      GoneChild(sys, a, k, b, x);
    } else {
      GoneBinding(sys.tuples, gone, b, x);
    }
  }

  lemma DestroyPresent(sys: System, a: Aid, k: Key, c: Choice, b: Aid, kind: Kind, x: Key)
    requires ModelOk(sys) && a in sys.automata && k in sys.automata[a].children
    requires b in sys.automata && b !in Child(sys, a, k)
    ensures Present(RunDestroy(sys, a, k, c), b, kind, x)
            <==> Present(sys, b, kind, x) && !Loses(sys, a, k, Child(sys, a, k), b, kind, x)
    ensures Loses(sys, a, k, Child(sys, a, k), b, kind, x) ==> Present(sys, b, kind, x)
  {
    var gone := Child(sys, a, k);
    if kind == CreateKind {
      GoneChild(sys, a, k, b, x);
    } else {
      assert BoundKeys(Untouched(sys.tuples, gone), b) <= BoundKeys(sys.tuples, b);
    }
  }

  /** The state of a helper of an automaton that stays, after a destruction run from the queue rest. */
  lemma DestroyParts(sys: System, rest: System, a: Aid, k: Key, c: Choice, b: Aid, kind: Kind, x: Key)
    requires ModelOk(rest) && a in rest.automata && k in rest.automata[a].children
    requires Announces(c.ns, GoneNotices(rest.automata, rest.tuples, Child(rest, a, k)))
    requires b in rest.automata && b !in Child(rest, a, k)
    requires sys.automata == rest.automata && sys.tuples == rest.tuples && sys.helpers == rest.helpers
    ensures b in sys.helpers && b in RunDestroy(rest, a, k, c).helpers
    ensures var l, loses := LocalAt(sys, b, kind, x), Loses(rest, a, k, Child(rest, a, k), b, kind, x);
            && (loses ==> l.present)
            && LocalAt(RunDestroy(rest, a, k, c), b, kind, x)
               == l.(present := l.present && !loses,
                     q := Events(rest.queue, b, kind, x) + if loses then [L.Gone] else [])
  {
    DestroyEvents(rest, a, k, c, b, kind, x);
    DestroyPresent(rest, a, k, c, b, kind, x);
  }

  lemma HeadEvents(sys: System, b: Aid, kind: Kind, x: Key)
    requires sys.queue != [] && sys.queue[0].WithdrawTask?
    ensures Events(sys.queue, b, kind, x)
            == (if IsAbout(sys.queue[0], b, kind, x) then [L.UndoReq] else []) + Events(Popped(sys).queue, b, kind, x)
  {}

  /** The destruction seen by a helper of an automaton that stays. */
  lemma DestroyLocal(sys: System, a: Aid, k: Key, c: Choice, b: Aid, kind: Kind, x: Key)
    requires ModelOk(sys) && sys.queue != [] && sys.queue[0] == WithdrawTask(a, CreateKind, k)
    requires a in sys.automata && k in sys.automata[a].children
    requires Announces(c.ns, GoneNotices(sys.automata, sys.tuples, Child(sys, a, k)))
    requires b in sys.automata && b !in Child(sys, a, k)
    ensures b in RunDestroy(Popped(sys), a, k, c).helpers
    ensures var l, l' := LocalAt(sys, b, kind, x), LocalAt(RunDestroy(Popped(sys), a, k, c), b, kind, x);
            if IsAbout(sys.queue[0], b, kind, x) then l.q != [] && l.q[0] == L.UndoReq && l.present && l' == L.Executed(l, true)
            else if kind == BindKind && Loses(sys, a, k, Child(sys, a, k), b, kind, x) then l.present && l' == L.Vanished(l)
            else l' == l
  {
    DestroyParts(sys, Popped(sys), a, k, c, b, kind, x);
    HeadEvents(sys, b, kind, x);
  }
}
