/**
 The exchange about one helper of one automaton: where the automaton has it, whether the model holds it, and
 what is in the configuration queue about it, oldest first.
 */
module ProtocolLocal {

  datatype Event = Req | UndoReq | Ok | Fail | KeyExists | Gone | KeyDne

  datatype Local = Local(send: bool, recv: bool, done: bool, undoSend: bool, undoRecv: bool,
                         present: bool, q: seq<Event>)

  predicate Idle(l: Local) {
    !l.send && !l.recv && !l.done && !l.undoSend && !l.undoRecv
  }

  predicate OnlySend(l: Local) {
    l.send && !l.recv && !l.done && !l.undoSend && !l.undoRecv
  }

  predicate OnlyRecv(l: Local) {
    !l.send && l.recv && !l.done && !l.undoRecv
  }

  predicate OnlyDone(l: Local) {
    !l.send && !l.recv && l.done && !l.undoRecv
  }

  predicate Undoing(l: Local) {
    !l.send && !l.recv && l.done && !l.undoSend && l.undoRecv
  }

  /** The states of a helper as the design has them.  What is established may vanish by itself (a bound
      automaton is destroyed) when vanishes holds. */
  predicate Regular(l: Local, vanishes: bool) {
    || ((Idle(l) || OnlySend(l)) && !l.present && l.q == [])
    || (OnlyRecv(l) && !l.present && (l.q == [Req] || l.q == [Fail]))
    || (OnlyRecv(l) && l.present && l.q == [Ok])
    || (vanishes && OnlyRecv(l) && !l.present && l.q == [Ok, Gone])
    || (OnlyDone(l) && l.present && l.q == [])
    || (vanishes && OnlyDone(l) && !l.present && l.q == [Gone])
    || (Undoing(l) && l.present && l.q == [UndoReq])
    || (Undoing(l) && !l.present && l.q == [Gone])
  }

  /** A withdrawal is queued for something that has already vanished. */
  predicate Racing(l: Local) {
    && !l.present
    && (|| (Undoing(l) && (l.q == [UndoReq, Gone] || l.q == [Gone, UndoReq]))
        || ((Idle(l) || OnlySend(l)) && l.q == [UndoReq])
        || (OnlyRecv(l) && l.q == [UndoReq, Req]))
  }

  predicate LocalOk(l: Local, vanishes: bool) {
    Regular(l, vanishes) || (vanishes && Racing(l))
  }

  // ---------------------------------------------------------------- what can happen to a helper

  function Start(l: Local): Local {
    l.(send := true)
  }

  predicate Withdrawable(l: Local) {
    && ((l.send && !l.recv && !l.done) || (!l.send && l.recv && !l.done) || (!l.send && !l.recv && l.done))
    && !l.undoSend && !l.undoRecv
  }

  function Undo(l: Local): Local {
    if l.send then l.(send := false) else l.(undoSend := true)
  }

  function Sent(l: Local): Local {
    l.(send := false, recv := true, q := l.q + [Req])
  }

  function UndoSent(l: Local): Local {
    l.(undoSend := false, undoRecv := true, q := l.q + [UndoReq])
  }

  /** The model executes the oldest request; accepted is its decision when the key is free. */
  function Executed(l: Local, accepted: bool): Local
    requires l.q != [] && (l.q[0] == Req || l.q[0] == UndoReq)
  {
    if l.q[0] == Req then
      if l.present then l.(q := l.q[1..] + [KeyExists])
      else if accepted then l.(present := true, q := l.q[1..] + [Ok])
      else l.(q := l.q[1..] + [Fail])
    else
      if l.present then l.(present := false, q := l.q[1..] + [Gone])
      else l.(q := l.q[1..] + [KeyDne])
  }

  function Vanished(l: Local): Local {
    l.(present := false, q := l.q + [Gone])
  }

  /** What the automaton asserts when it is told. */
  predicate AssertsHold(l: Local)
    requires l.q != []
  {
    match l.q[0]
    case Ok => l.recv
    case Fail => l.recv
    case Gone => (l.recv && !l.done) || (!l.recv && l.done)
    case _ => false
  }

  function Delivered(l: Local): Local
    requires l.q != []
  {
    var rest := l.(q := l.q[1..]);
    match l.q[0]
    case Ok => rest.(recv := false, done := true)
    case Fail => rest.(recv := false, undoSend := false)
    case Gone =>
      var l' := if l.recv then rest.(recv := false) else rest.(done := false);
      if l.undoSend then l'.(undoSend := false) else l'.(undoRecv := false)
    case _ => rest
  }

  predicate IsAnswer(e: Event) {
    e != Req && e != UndoReq
  }

  // ---------------------------------------------------------------- every step keeps the helper in order

  lemma StartKeeps(l: Local, v: bool)
    requires LocalOk(l, v) && Idle(l)
    ensures LocalOk(Start(l), v) && (Racing(Start(l)) <==> Racing(l))
  {}

  lemma UndoKeeps(l: Local, v: bool)
    requires LocalOk(l, v) && Withdrawable(l)
    ensures LocalOk(Undo(l), v) && (Racing(Undo(l)) <==> Racing(l))
  {}

  lemma SentKeeps(l: Local, v: bool)
    requires LocalOk(l, v) && l.send
    ensures LocalOk(Sent(l), v) && (Racing(Sent(l)) <==> Racing(l))
  {}

  /** Withdrawing what has vanished starts a race; it cannot happen where nothing vanishes. */
  lemma UndoSentKeeps(l: Local, v: bool)
    requires LocalOk(l, v) && l.undoSend && l.done
    ensures LocalOk(UndoSent(l), v) && !Racing(l) && (Racing(UndoSent(l)) <==> !l.present)
    ensures !v ==> l.present
  {
    assert l.q == [] || l.q == [Gone];
    assert [] + [UndoReq] == [UndoReq] && [Gone] + [UndoReq] == [Gone, UndoReq];
  }

  /** The model never finds the key in use, and finds nothing to withdraw only in a race. */
  lemma ExecutedKeeps(l: Local, v: bool, accepted: bool)
    requires LocalOk(l, v) && l.q != [] && (l.q[0] == Req || l.q[0] == UndoReq)
    ensures l.q[0] == Req ==> !l.present && !Racing(l)
    ensures l.q[0] == UndoReq ==> (l.present <==> !Racing(l))
    ensures l.q[0] == Req || l.present ==> LocalOk(Executed(l, accepted), v) && !Racing(Executed(l, accepted))
  {
    assert l.q[1..] == [] || l.q[1..] == [Gone] || l.q[1..] == [Req];
  }

  lemma VanishedKeeps(l: Local)
    requires LocalOk(l, true) && l.present
    ensures LocalOk(Vanished(l), true) && !Racing(l) && (Racing(Vanished(l)) <==> l.undoRecv)
  {
    assert l.q == [Ok] || l.q == [] || l.q == [UndoReq];
    assert [UndoReq] + [Gone] == [UndoReq, Gone] && [Ok] + [Gone] == [Ok, Gone] && [] + [Gone] == [Gone];
  }

  /** Every answer finds the helper where the automaton asserts it is. */
  lemma DeliveredKeeps(l: Local, v: bool)
    requires LocalOk(l, v) && l.q != [] && IsAnswer(l.q[0])
    ensures AssertsHold(l) && LocalOk(Delivered(l), v) && (Racing(Delivered(l)) <==> Racing(l))
  {
    assert l.q[1..] == [] || l.q[1..] == [Gone] || l.q[1..] == [UndoReq];
  }

  /** With nothing queued a helper is idle, waiting to be sent, or established. */
  lemma QuietLocal(l: Local, v: bool)
    requires LocalOk(l, v) && l.q == []
    ensures !l.recv && !l.undoRecv && l.present == l.done && !Racing(l)
  {}

  /** The errors that are prevented are never on their way. */
  lemma NoErrors(l: Local, v: bool, e: Event)
    requires LocalOk(l, v) && e in l.q
    ensures e != KeyExists && e != KeyDne
  {}
}
