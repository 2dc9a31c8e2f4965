/**
 Requests and withdrawals are carried out: a helper that an automaton creates or binds is kept track of, and one
 that it destroys or unbinds stays marked, until the automaton has heard that it is gone; when nothing is queued
 any more the one is established and the other gone.
 */
module ProtocolOutcomes {
  import opened Bindings
  import opened Forest
  import opened Automaton
  import opened ProtocolSystem
  import opened ProtocolInvariant
  import opened ProtocolTheorems

  /** The step delivers to a that the request about k was refused, or that what k stood for is gone. */
  predicate Closes(sys: System, s: Step, a: Aid, kind: Kind, k: Key) {
    && s.RunStep? && sys.queue != [] && sys.queue[0].NoticeTask?
    && var n := sys.queue[0].n;
       n.to == a && KindOf(n) == kind && n.key == k && (AnswerOf(n).Refuse? || AnswerOf(n).Withdrawn?)
  }

  /** a has withdrawn k after its request was sent, and has not heard since that it is over. */
  ghost predicate IsOpen(start: System, steps: seq<Step>, a: Aid, kind: Kind, k: Key)
    requires Inv(start) && IsRun(start, steps)
    decreases |steps|
  {
    steps != [] &&
    var before, s := steps[..|steps| - 1], steps[|steps| - 1];
    var sys := After(start, before);
    if s == UndoStep(a, kind, k) then k !in SideOf(sys.helpers[a], kind).send
    else IsOpen(start, before, a, kind, k) && !Closes(sys, s, a, kind, k)
  }

  predicate Marked(s: Side, k: Key) {
    k in s.undoSend || k in s.undoRecv
  }

  /** A withdrawal of a request that was sent is waiting to be sent, or sent, until it is answered; in particular
      one that comes before the answer to the request is not lost. */
  lemma {:induction false} WithdrawalPending(start: System, steps: seq<Step>, a: Aid, kind: Kind, k: Key)
    requires Inv(start) && IsRun(start, steps) && IsOpen(start, steps, a, kind, k) && a in After(start, steps).helpers
    ensures Marked(SideOf(After(start, steps).helpers[a], kind), k)
    decreases |steps|
  {
    var before, s := steps[..|steps| - 1], steps[|steps| - 1];
    var sys := After(start, before);
    RunInv(start, before);
    if s == UndoStep(a, kind, k) {
      WithdrawalMarks(sys, a, kind, k);
    } else {
      OpenKnown(start, before, a, kind, k);
      if a in sys.helpers {
        WithdrawalPending(start, before, a, kind, k);
        StaysMarked(sys, s, a, kind, k);
      } else {
        NewcomerCreated(sys, s, a);
      }
    }
  }

  lemma WithdrawalMarks(sys: System, a: Aid, kind: Kind, k: Key)
    requires Enabled(sys, UndoStep(a, kind, k))
    ensures a in Take(sys, UndoStep(a, kind, k)).helpers
    ensures var side, side' := SideOf(sys.helpers[a], kind), SideOf(Take(sys, UndoStep(a, kind, k)).helpers[a], kind);
            if k in side.send then Unseen(side', k) else Marked(side', k)
  {}

  lemma {:induction false} OpenKnown(start: System, steps: seq<Step>, a: Aid, kind: Kind, k: Key)
    requires Inv(start) && IsRun(start, steps) && IsOpen(start, steps, a, kind, k)
    ensures a in After(start, steps).ever
    decreases |steps|
  {
    var before, s := steps[..|steps| - 1], steps[|steps| - 1];
    RunInv(start, before);
    EverGrows(After(start, before), s);
    if s != UndoStep(a, kind, k) {
      OpenKnown(start, before, a, kind, k);
    }
  }

  lemma StaysMarked(sys: System, s: Step, a: Aid, kind: Kind, k: Key)
    requires Enabled(sys, s) && s != UndoStep(a, kind, k) && !Closes(sys, s, a, kind, k)
    requires a in sys.helpers && a in Take(sys, s).helpers && Marked(SideOf(sys.helpers[a], kind), k)
    requires s.RunStep? && sys.queue[0].RequestTask? && sys.queue[0].kind == CreateKind ==> s.c.aid != a
    ensures Marked(SideOf(Take(sys, s).helpers[a], kind), k)
  {
    HelpersAfter(sys, s, a);
  }

  // ---------------------------------------------------------------- how a step changes the helpers of an automaton

  /** The helpers of an automaton that is there before and after the step. */
  ghost function NextHelpers(sys: System, s: Step, a: Aid): Helpers
    requires a in sys.helpers && Enabled(sys, s)
  {
    var h := sys.helpers[a];
    match s
    case StartStep(b, kind, k) => if b == a then WithSide(h, kind, Start(SideOf(h, kind), k)) else h
    case UndoStep(b, kind, k) => if b == a then WithSide(h, kind, Undo(SideOf(h, kind), k)) else h
    case RunStep(c) =>
      match sys.queue[0]
      case OutputTask(b, o) => if b == a && OutputEnabled(h, o) then Effect(h, o, c.k) else h
      case NoticeTask(n) => if n.to == a then Notified(h, n) else h
      case RequestTask(_, _, _, _, _) => h
      case WithdrawTask(_, _, _) => h
  }

  lemma HelpersAfter(sys: System, s: Step, a: Aid)
    requires Enabled(sys, s) && a in sys.helpers && a in Take(sys, s).helpers
    requires s.RunStep? && sys.queue[0].RequestTask? && sys.queue[0].kind == CreateKind ==> s.c.aid != a
    ensures Take(sys, s).helpers[a] == NextHelpers(sys, s, a)
  {}

  // ---------------------------------------------------------------- the end of it

  /** The last thing that a has asked for about k is that it go. */
  predicate LastCallWithdraws(steps: seq<Step>, a: Aid, kind: Kind, k: Key)
    decreases |steps|
  {
    steps != [] &&
    var s := steps[|steps| - 1];
    s == UndoStep(a, kind, k) || (s != StartStep(a, kind, k) && LastCallWithdraws(steps[..|steps| - 1], a, kind, k))
  }

  /** A helper whose last call was a withdrawal is marked, or in none of the sets. */
  lemma {:induction false} MarkedOrGone(start: System, steps: seq<Step>, a: Aid, kind: Kind, k: Key)
    requires Inv(start) && IsRun(start, steps) && LastCallWithdraws(steps, a, kind, k) && a in After(start, steps).helpers
    ensures var side := SideOf(After(start, steps).helpers[a], kind); Marked(side, k) || Unseen(side, k)
    decreases |steps|
  {
    var before, s := steps[..|steps| - 1], steps[|steps| - 1];
    var sys := After(start, before);
    RunInv(start, before);
    if s == UndoStep(a, kind, k) {
      WithdrawalMarks(sys, a, kind, k);
    } else {
      CallerKnown(start, before, a, kind, k);
      if a in sys.helpers {
        MarkedOrGone(start, before, a, kind, k);
        HelperSetsDisjoint(start, before, a, kind);
        if s.RunStep? && sys.queue[0].NoticeTask? && sys.queue[0].n.to == a {
          DeliveredInOrder(start, before);
        }
        StaysMarkedOrGone(sys, s, a, kind, k);
      } else {
        NewcomerCreated(sys, s, a);
      }
    }
  }

  lemma {:induction false} CallerKnown(start: System, steps: seq<Step>, a: Aid, kind: Kind, k: Key)
    requires Inv(start) && IsRun(start, steps) && LastCallWithdraws(steps, a, kind, k)
    ensures a in After(start, steps).ever
    decreases |steps|
  {
    var before, s := steps[..|steps| - 1], steps[|steps| - 1];
    RunInv(start, before);
    EverGrows(After(start, before), s);
    if s != UndoStep(a, kind, k) {
      CallerKnown(start, before, a, kind, k);
    }
  }

  lemma StaysMarkedOrGone(sys: System, s: Step, a: Aid, kind: Kind, k: Key)
    requires Enabled(sys, s) && s != UndoStep(a, kind, k) && s != StartStep(a, kind, k)
    requires a in sys.helpers && a in Take(sys, s).helpers && Disjoint(SideOf(sys.helpers[a], kind))
    requires Marked(SideOf(sys.helpers[a], kind), k) || Unseen(SideOf(sys.helpers[a], kind), k)
    requires s.RunStep? && sys.queue[0].RequestTask? && sys.queue[0].kind == CreateKind ==> s.c.aid != a
    requires s.RunStep? && sys.queue[0].NoticeTask? && sys.queue[0].n.to == a ==>
               AssertsHold(sys.helpers[a], sys.queue[0].n)
    ensures var side := SideOf(Take(sys, s).helpers[a], kind); Marked(side, k) || Unseen(side, k)
  {
    HelpersAfter(sys, s, a);
  }

  /** When nothing is queued any more, what an automaton has destroyed or unbound last is gone: from its sets, and
      from the model. */
  lemma WithdrawalCarriedOut(start: System, steps: seq<Step>, a: Aid, kind: Kind, k: Key)
    requires Inv(start) && IsRun(start, steps) && LastCallWithdraws(steps, a, kind, k)
    requires a in After(start, steps).helpers && After(start, steps).queue == []
    ensures var sys := After(start, steps);
            && Unseen(SideOf(sys.helpers[a], kind), k) && a in sys.automata
            && (kind == CreateKind ==> k !in sys.automata[a].children)
            && (kind == BindKind ==> forall t | t in sys.tuples :: !(t.binder == a && t.key == k))
  {
    MarkedOrGone(start, steps, a, kind, k);
    EmptyQueueIsQuiet(start, steps, a);
  }

  // ---------------------------------------------------------------- requests

  /** a has asked for k, and has neither withdrawn it nor heard since that it was refused or is gone. */
  ghost predicate IsAsked(start: System, steps: seq<Step>, a: Aid, kind: Kind, k: Key)
    requires Inv(start) && IsRun(start, steps)
    decreases |steps|
  {
    steps != [] &&
    var before, s := steps[..|steps| - 1], steps[|steps| - 1];
    || s == StartStep(a, kind, k)
    || (s != UndoStep(a, kind, k) && IsAsked(start, before, a, kind, k) && !Closes(After(start, before), s, a, kind, k))
  }

  predicate Tracked(s: Side, k: Key) {
    k in s.send || k in s.recv || k in s.done
  }

  lemma {:induction false} RequestTracked(start: System, steps: seq<Step>, a: Aid, kind: Kind, k: Key)
    requires Inv(start) && IsRun(start, steps) && IsAsked(start, steps, a, kind, k) && a in After(start, steps).helpers
    ensures Tracked(SideOf(After(start, steps).helpers[a], kind), k)
    decreases |steps|
  {
    var before, s := steps[..|steps| - 1], steps[|steps| - 1];
    var sys := After(start, before);
    RunInv(start, before);
    if s == StartStep(a, kind, k) {
      HelpersAfter(sys, s, a);
    } else {
      AskerKnown(start, before, a, kind, k);
      if a in sys.helpers {
        RequestTracked(start, before, a, kind, k);
        StaysTracked(sys, s, a, kind, k);
      } else {
        NewcomerCreated(sys, s, a);
      }
    }
  }

  lemma {:induction false} AskerKnown(start: System, steps: seq<Step>, a: Aid, kind: Kind, k: Key)
    requires Inv(start) && IsRun(start, steps) && IsAsked(start, steps, a, kind, k)
    ensures a in After(start, steps).ever
    decreases |steps|
  {
    var before, s := steps[..|steps| - 1], steps[|steps| - 1];
    RunInv(start, before);
    EverGrows(After(start, before), s);
    if s != StartStep(a, kind, k) {
      AskerKnown(start, before, a, kind, k);
    }
  }

  lemma StaysTracked(sys: System, s: Step, a: Aid, kind: Kind, k: Key)
    requires Enabled(sys, s) && s != UndoStep(a, kind, k) && !Closes(sys, s, a, kind, k)
    requires a in sys.helpers && a in Take(sys, s).helpers && Tracked(SideOf(sys.helpers[a], kind), k)
    requires s.RunStep? && sys.queue[0].RequestTask? && sys.queue[0].kind == CreateKind ==> s.c.aid != a
    ensures Tracked(SideOf(Take(sys, s).helpers[a], kind), k)
  {
    HelpersAfter(sys, s, a);
  }

  /** When nothing is queued any more, what was asked for and neither refused nor lost is established: the automaton
      has it among those done, and the model has the child or the binding. */
  lemma RequestCarriedOut(start: System, steps: seq<Step>, a: Aid, kind: Kind, k: Key)
    requires Inv(start) && IsRun(start, steps) && IsAsked(start, steps, a, kind, k)
    requires a in After(start, steps).helpers && After(start, steps).queue == []
    ensures var sys := After(start, steps);
            && k in SideOf(sys.helpers[a], kind).done && a in sys.automata
            && (kind == CreateKind ==> k in sys.automata[a].children)
            && (kind == BindKind ==> exists t :: t in sys.tuples && t.binder == a && t.key == k)
  {
    RequestTracked(start, steps, a, kind, k);
    EmptyQueueIsQuiet(start, steps, a);
  }
}
