/**
 The base class of all automata (lib/automaton.cpp): the sets that track which helpers have a create or bind
 request, or its withdrawal, waiting, sent or answered.  Creating and binding use the same discipline.
 */
module Automaton {
  import opened Common
  import opened Bindings
  import opened Forest
  import opened AscendingSets

  /** The five sets of one kind of request: send, receive and done, and send and receive of its withdrawal
      (destroy for create, unbind for bind). */
  datatype Side = Side(send: set<Key>, recv: set<Key>, done: set<Key>, undoSend: set<Key>, undoRecv: set<Key>)

  datatype Helpers = Helpers(create: Side, bind: Side)

  datatype Kind = CreateKind | BindKind

  /** The system outputs of an automaton. */
  datatype SysOutput = SysCreate | SysBind | SysUnbind | SysDestroy

  const NO_HELPERS := Helpers(Side({}, {}, {}, {}, {}), Side({}, {}, {}, {}, {}))

  function SideOf(h: Helpers, kind: Kind): Side {
    if kind.CreateKind? then h.create else h.bind
  }

  function WithSide(h: Helpers, kind: Kind, s: Side): Helpers {
    if kind.CreateKind? then h.(create := s) else h.(bind := s)
  }

  // ---------------------------------------------------------------- what each operation does to one side

  predicate Unseen(s: Side, k: Key) {
    k !in s.send && k !in s.recv && k !in s.done && k !in s.undoSend && k !in s.undoRecv
  }

  /** In exactly one of the sets of the request, and not being withdrawn. */
  predicate Withdrawable(s: Side, k: Key) {
    && (|| (k in s.send && k !in s.recv && k !in s.done)
        || (k !in s.send && k in s.recv && k !in s.done)
        || (k !in s.send && k !in s.recv && k in s.done))
    && k !in s.undoSend && k !in s.undoRecv
  }

  function Start(s: Side, k: Key): Side {
    s.(send := s.send + {k})
  }

  function Undo(s: Side, k: Key): Side {
    if k in s.send then s.(send := s.send - {k}) else s.(undoSend := s.undoSend + {k})
  }

  function Sent(s: Side, k: Key): Side {
    s.(send := s.send - {k}, recv := s.recv + {k})
  }

  function UndoReady(s: Side): set<Key> {
    s.undoSend * s.done
  }

  function UndoSent(s: Side, k: Key): Side {
    s.(undoSend := s.undoSend - {k}, undoRecv := s.undoRecv + {k})
  }

  function Accepted(s: Side, k: Key): Side {
    s.(done := s.done + {k}, recv := s.recv - {k})
  }

  function Refused(s: Side, k: Key): Side {
    s.(undoSend := s.undoSend - {k}, recv := s.recv - {k})
  }

  /** The assertion at the delivery of UNBOUND_RESULT and AUTOMATON_DESTROYED_RESULT. */
  predicate OneOfRecvDone(s: Side, k: Key) {
    (k in s.recv && k !in s.done) || (k !in s.recv && k in s.done)
  }

  function Undone(s: Side, k: Key): Side {
    var s' := if k in s.recv then s.(recv := s.recv - {k}) else s.(done := s.done - {k});
    if k in s.undoSend then s'.(undoSend := s'.undoSend - {k}) else s'.(undoRecv := s'.undoRecv - {k})
  }

  // ---------------------------------------------------------------- notices

  function KindOf(n: Notice): Kind {
    match n
    case CreatedNotice(_, _, _) => CreateKind
    case DestroyedNotice(_, _) => CreateKind
    case CreateKeyDneNotice(_, _) => CreateKind
    case BoundNotice(_, _, _) => BindKind
    case UnboundNotice(_, _) => BindKind
    case BindKeyDneNotice(_, _) => BindKind
  }

  datatype Answer = Accept | Refuse | KeyInUse | Withdrawn | NoSuchKey

  function AnswerOf(n: Notice): Answer {
    match n
    case CreatedNotice(_, r, _) =>
      if r == AutomatonCreated then Accept else if r == InstanceExists then Refuse else KeyInUse
    case BoundNotice(_, r, _) =>
      if r == Bound then Accept else if r == BindKeyExists || r == BinderDoesNotExist then KeyInUse else Refuse
    case DestroyedNotice(_, _) => Withdrawn
    case UnboundNotice(_, _) => Withdrawn
    case CreateKeyDneNotice(_, _) => NoSuchKey
    case BindKeyDneNotice(_, _) => NoSuchKey
  }

  /** The assertions of sys_created_effect, sys_bound_effect, sys_unbound_effect and sys_destroyed_effect;
      the answers KeyInUse and NoSuchKey are the ones the automaton asserts it prevents. */
  predicate AssertsHold(h: Helpers, n: Notice) {
    var s := SideOf(h, KindOf(n));
    match AnswerOf(n)
    case Accept => n.key in s.recv
    case Refuse => n.key in s.recv
    case KeyInUse => false
    case Withdrawn => OneOfRecvDone(s, n.key)
    case NoSuchKey => false
  }

  function Notified(h: Helpers, n: Notice): Helpers {
    var s := SideOf(h, KindOf(n));
    match AnswerOf(n)
    case Accept => WithSide(h, KindOf(n), Accepted(s, n.key))
    case Refuse => WithSide(h, KindOf(n), Refused(s, n.key))
    case Withdrawn => WithSide(h, KindOf(n), Undone(s, n.key))
    case KeyInUse => h
    case NoSuchKey => h
  }

  // ---------------------------------------------------------------- scheduling

  predicate OutputEnabled(h: Helpers, o: SysOutput) {
    match o
    case SysCreate => h.create.send != {}
    case SysBind => h.bind.send != {}
    case SysUnbind => UndoReady(h.bind) != {}
    case SysDestroy => UndoReady(h.create) != {}
  }

  function IfEnabled(h: Helpers, o: SysOutput): seq<SysOutput> {
    if OutputEnabled(h, o) then [o] else []
  }

  /** What schedule() asks for. */
  function Scheduled(h: Helpers): seq<SysOutput> {
    IfEnabled(h, SysCreate) + IfEnabled(h, SysBind) + IfEnabled(h, SysUnbind) + IfEnabled(h, SysDestroy)
  }

  lemma ScheduledExactly(h: Helpers, o: SysOutput)
    ensures o in Scheduled(h) <==> OutputEnabled(h, o)
  {
    var a, b, c, d := IfEnabled(h, SysCreate), IfEnabled(h, SysBind), IfEnabled(h, SysUnbind), IfEnabled(h, SysDestroy);
    assert o in a + b + c + d <==> o in a || o in b || o in c || o in d;
  }

  // ---------------------------------------------------------------- the automaton

  class Automaton {
    var createSend: set<Key>
    var createRecv: set<Key>
    var createDone: set<Key>
    var destroySend: set<Key>
    var destroyRecv: set<Key>
    var bindSend: set<Key>
    var bindRecv: set<Key>
    var bindDone: set<Key>
    var unbindSend: set<Key>
    var unbindRecv: set<Key>
    /** What was asked of the scheduler. */
    var scheduled: seq<SysOutput>

    ghost function State(): Helpers
      reads this
    {
      Helpers(Side(createSend, createRecv, createDone, destroySend, destroyRecv),
              Side(bindSend, bindRecv, bindDone, unbindSend, unbindRecv))
    }

    constructor ()
      ensures State() == NO_HELPERS && scheduled == []
    {
      createSend, createRecv, createDone, destroySend, destroyRecv := {}, {}, {}, {}, {};
      bindSend, bindRecv, bindDone, unbindSend, unbindRecv := {}, {}, {}, {}, {};
      scheduled := [];
    }

    method Create(helper: Key)
      requires Unseen(State().create, helper)
      modifies this
      ensures State() == WithSide(old(State()), CreateKind, Start(old(State()).create, helper))
      ensures createSend == old(createSend) + {helper} && createRecv == old(createRecv) && createDone == old(createDone)
      ensures destroySend == old(destroySend) && destroyRecv == old(destroyRecv)
      ensures bindSend == old(bindSend) && bindRecv == old(bindRecv) && bindDone == old(bindDone)
      ensures unbindSend == old(unbindSend) && unbindRecv == old(unbindRecv)
      ensures scheduled == old(scheduled) + Scheduled(State())
    {
      createSend := createSend + {helper};
      Schedule();
    }

    method Bind(helper: Key)
      requires Unseen(State().bind, helper)
      modifies this
      ensures State() == WithSide(old(State()), BindKind, Start(old(State()).bind, helper))
      ensures bindSend == old(bindSend) + {helper} && bindRecv == old(bindRecv) && bindDone == old(bindDone)
      ensures unbindSend == old(unbindSend) && unbindRecv == old(unbindRecv)
      ensures createSend == old(createSend) && createRecv == old(createRecv) && createDone == old(createDone)
      ensures destroySend == old(destroySend) && destroyRecv == old(destroyRecv)
      ensures scheduled == old(scheduled) + Scheduled(State())
    {
      bindSend := bindSend + {helper};
      Schedule();
    }

    /** The helper is told at once when its request was not sent yet. */
    method Unbind(helper: Key) returns (toldAtOnce: bool)
      requires Withdrawable(State().bind, helper)
      modifies this
      ensures State() == WithSide(old(State()), BindKind, Undo(old(State()).bind, helper))
      ensures bindSend == old(bindSend) - {helper} && bindRecv == old(bindRecv) && bindDone == old(bindDone)
      ensures unbindSend == old(unbindSend) + (if toldAtOnce then {} else {helper}) && unbindRecv == old(unbindRecv)
      ensures createSend == old(createSend) && createRecv == old(createRecv) && createDone == old(createDone)
      ensures destroySend == old(destroySend) && destroyRecv == old(destroyRecv)
      ensures toldAtOnce <==> helper in old(bindSend)
      ensures scheduled == old(scheduled) + Scheduled(State())
    {
      toldAtOnce := helper in bindSend;
      if toldAtOnce {
        bindSend := bindSend - {helper};
      } else {
        unbindSend := unbindSend + {helper};
      }
      Schedule();
    }

    method Destroy(helper: Key) returns (toldAtOnce: bool)
      requires Withdrawable(State().create, helper)
      modifies this
      ensures State() == WithSide(old(State()), CreateKind, Undo(old(State()).create, helper))
      ensures createSend == old(createSend) - {helper} && createRecv == old(createRecv) && createDone == old(createDone)
      ensures destroySend == old(destroySend) + (if toldAtOnce then {} else {helper}) && destroyRecv == old(destroyRecv)
      ensures bindSend == old(bindSend) && bindRecv == old(bindRecv) && bindDone == old(bindDone)
      ensures unbindSend == old(unbindSend) && unbindRecv == old(unbindRecv)
      ensures toldAtOnce <==> helper in old(createSend)
      ensures scheduled == old(scheduled) + Scheduled(State())
    {
      toldAtOnce := helper in createSend;
      if toldAtOnce {
        createSend := createSend - {helper};
      } else {
        destroySend := destroySend + {helper};
      }
      Schedule();
    }

    method SysCreatePrecondition() returns (b: bool)
      ensures b <==> OutputEnabled(State(), SysCreate)
      ensures b <==> createSend != {}
    {
      b := createSend != {};
    }

    method SysCreateEffect() returns (helper: Key)
      requires OutputEnabled(State(), SysCreate)
      modifies this
      ensures helper in old(createSend)
      ensures State() == WithSide(old(State()), CreateKind, Sent(old(State()).create, helper))
      ensures createSend == old(createSend) - {helper} && createRecv == old(createRecv) + {helper} && createDone == old(createDone)
      ensures destroySend == old(destroySend) && destroyRecv == old(destroyRecv)
      ensures bindSend == old(bindSend) && bindRecv == old(bindRecv) && bindDone == old(bindDone)
      ensures unbindSend == old(unbindSend) && unbindRecv == old(unbindRecv)
      ensures scheduled == old(scheduled)
    {
      helper := Smallest(createSend);
      createSend := createSend - {helper};
      createRecv := createRecv + {helper};
    }

    method SysBindPrecondition() returns (b: bool)
      ensures b <==> OutputEnabled(State(), SysBind)
      ensures b <==> bindSend != {}
    {
      b := bindSend != {};
    }

    method SysBindEffect() returns (helper: Key)
      requires OutputEnabled(State(), SysBind)
      modifies this
      ensures helper in old(bindSend)
      ensures State() == WithSide(old(State()), BindKind, Sent(old(State()).bind, helper))
      ensures bindSend == old(bindSend) - {helper} && bindRecv == old(bindRecv) + {helper} && bindDone == old(bindDone)
      ensures unbindSend == old(unbindSend) && unbindRecv == old(unbindRecv)
      ensures createSend == old(createSend) && createRecv == old(createRecv) && createDone == old(createDone)
      ensures destroySend == old(destroySend) && destroyRecv == old(destroyRecv)
      ensures scheduled == old(scheduled)
    {
      helper := Smallest(bindSend);
      bindSend := bindSend - {helper};
      bindRecv := bindRecv + {helper};
    }

    method SysUnbindPrecondition() returns (b: bool)
      ensures b <==> OutputEnabled(State(), SysUnbind)
      ensures b <==> exists k :: k in unbindSend && k in bindDone
    {
      var pos := FindReady(unbindSend, bindDone);
      b := pos.Some?;
    }

    method SysUnbindEffect() returns (helper: Key)
      requires OutputEnabled(State(), SysUnbind)
      modifies this
      ensures helper in UndoReady(old(State()).bind)
      ensures State() == WithSide(old(State()), BindKind, UndoSent(old(State()).bind, helper))
      ensures helper in old(unbindSend) && helper in old(bindDone)
      ensures unbindSend == old(unbindSend) - {helper} && unbindRecv == old(unbindRecv) + {helper}
      ensures bindSend == old(bindSend) && bindRecv == old(bindRecv) && bindDone == old(bindDone)
      ensures createSend == old(createSend) && createRecv == old(createRecv) && createDone == old(createDone)
      ensures destroySend == old(destroySend) && destroyRecv == old(destroyRecv)
      ensures scheduled == old(scheduled)
    {
      var pos := FindReady(unbindSend, bindDone);
      assert pos.Some?;
      helper := pos.value;
      unbindSend := unbindSend - {helper};
      unbindRecv := unbindRecv + {helper};
    }

    method SysDestroyPrecondition() returns (b: bool)
      ensures b <==> OutputEnabled(State(), SysDestroy)
      ensures b <==> exists k :: k in destroySend && k in createDone
    {
      var pos := FindReady(destroySend, createDone);
      b := pos.Some?;
    }

    method SysDestroyEffect() returns (helper: Key)
      requires OutputEnabled(State(), SysDestroy)
      modifies this
      ensures helper in UndoReady(old(State()).create)
      ensures State() == WithSide(old(State()), CreateKind, UndoSent(old(State()).create, helper))
      ensures helper in old(destroySend) && helper in old(createDone)
      ensures destroySend == old(destroySend) - {helper} && destroyRecv == old(destroyRecv) + {helper}
      ensures createSend == old(createSend) && createRecv == old(createRecv) && createDone == old(createDone)
      ensures bindSend == old(bindSend) && bindRecv == old(bindRecv) && bindDone == old(bindDone)
      ensures unbindSend == old(unbindSend) && unbindRecv == old(unbindRecv)
      ensures scheduled == old(scheduled)
    {
      var pos := FindReady(destroySend, createDone);
      assert pos.Some?;
      helper := pos.value;
      destroySend := destroySend - {helper};
      destroyRecv := destroyRecv + {helper};
    }

    method SysCreatedEffect(n: Notice)
      requires n.CreatedNotice? && AssertsHold(State(), n)
      modifies this
      ensures State() == Notified(old(State()), n)
      ensures createRecv == old(createRecv) - {n.key} && createSend == old(createSend) && destroyRecv == old(destroyRecv)
      ensures createDone == old(createDone) + if n.created == AutomatonCreated then {n.key} else {}
      ensures destroySend == old(destroySend) - if n.created == AutomatonCreated then {} else {n.key}
      ensures bindSend == old(bindSend) && bindRecv == old(bindRecv) && bindDone == old(bindDone)
      ensures unbindSend == old(unbindSend) && unbindRecv == old(unbindRecv)
      ensures scheduled == old(scheduled)
    {
      if n.created == InstanceExists {
        destroySend := destroySend - {n.key};
        createRecv := createRecv - {n.key};
      } else {
        createDone := createDone + {n.key};
        createRecv := createRecv - {n.key};
      }
    }

    method SysBoundEffect(n: Notice)
      requires n.BoundNotice? && AssertsHold(State(), n)
      modifies this
      ensures State() == Notified(old(State()), n)
      ensures bindRecv == old(bindRecv) - {n.key} && bindSend == old(bindSend) && unbindRecv == old(unbindRecv)
      ensures bindDone == old(bindDone) + if n.bound == Bound then {n.key} else {}
      ensures unbindSend == old(unbindSend) - if n.bound == Bound then {} else {n.key}
      ensures createSend == old(createSend) && createRecv == old(createRecv) && createDone == old(createDone)
      ensures destroySend == old(destroySend) && destroyRecv == old(destroyRecv)
      ensures scheduled == old(scheduled)
    {
      if n.bound == Bound {
        bindDone := bindDone + {n.key};
        bindRecv := bindRecv - {n.key};
      } else {
        unbindSend := unbindSend - {n.key};
        bindRecv := bindRecv - {n.key};
      }
    }

    method SysUnboundEffect(n: Notice)
      requires n.UnboundNotice? && AssertsHold(State(), n)
      modifies this
      ensures State() == Notified(old(State()), n)
      ensures bindRecv == old(bindRecv) - {n.key} && bindDone == old(bindDone) - {n.key} && bindSend == old(bindSend)
      ensures unbindSend == old(unbindSend) - {n.key}
      ensures unbindRecv == old(unbindRecv) - if n.key in old(unbindSend) then {} else {n.key}
      ensures createSend == old(createSend) && createRecv == old(createRecv) && createDone == old(createDone)
      ensures destroySend == old(destroySend) && destroyRecv == old(destroyRecv)
      ensures scheduled == old(scheduled)
    {
      var helper := n.key;
      if helper in bindRecv {
        bindRecv := bindRecv - {helper};
      } else if helper in bindDone {
        bindDone := bindDone - {helper};
      }
      if helper in unbindSend {
        unbindSend := unbindSend - {helper};
      } else if helper in unbindRecv {
        unbindRecv := unbindRecv - {helper};
      }
    }

    method SysDestroyedEffect(n: Notice)
      requires n.DestroyedNotice? && AssertsHold(State(), n)
      modifies this
      ensures State() == Notified(old(State()), n)
      ensures createRecv == old(createRecv) - {n.key} && createDone == old(createDone) - {n.key} && createSend == old(createSend)
      ensures destroySend == old(destroySend) - {n.key}
      ensures destroyRecv == old(destroyRecv) - if n.key in old(destroySend) then {} else {n.key}
      ensures bindSend == old(bindSend) && bindRecv == old(bindRecv) && bindDone == old(bindDone)
      ensures unbindSend == old(unbindSend) && unbindRecv == old(unbindRecv)
      ensures scheduled == old(scheduled)
    {
      var helper := n.key;
      if helper in createRecv {
        createRecv := createRecv - {helper};
      } else if helper in createDone {
        createDone := createDone - {helper};
      }
      if helper in destroySend {
        destroySend := destroySend - {helper};
      } else if helper in destroyRecv {
        destroyRecv := destroyRecv - {helper};
      }
    }

    method Schedule()
      modifies `scheduled
      ensures scheduled == old(scheduled) + Scheduled(State())
    {
      var os: seq<SysOutput> := [];
      var create := SysCreatePrecondition();
      if create {
        os := os + [SysCreate];
      }
      var bind := SysBindPrecondition();
      if bind {
        os := os + [SysBind];
      }
      var unbind := SysUnbindPrecondition();
      if unbind {
        os := os + [SysUnbind];
      }
      var destroy := SysDestroyPrecondition();
      if destroy {
        os := os + [SysDestroy];
      }
      assert os == Scheduled(State());
      scheduled := scheduled + os;
    }
  }

  /** The loop of sys_unbind_precondition and sys_destroy_precondition: the first withdrawal whose request is done. */
  method FindReady(undoSend: set<Key>, done: set<Key>) returns (pos: Option<Key>)
    ensures pos.Some? <==> undoSend * done != {}
    ensures pos.Some? <==> exists k :: k in undoSend && k in done
    ensures pos.Some? ==> pos.value in undoSend * done && forall k | k in undoSend * done :: pos.value <= k
  {
    var rest := undoSend;
    while rest != {}
      invariant rest <= undoSend && forall k | k in undoSend && k !in rest :: k !in done
      decreases rest
    {
      var k := Smallest(rest);
      if k in done {
        assert k in undoSend * done && k in undoSend && k in done;
        return Some(k);
      }
      rest := rest - {k};
    }
    return None;
  }
}
