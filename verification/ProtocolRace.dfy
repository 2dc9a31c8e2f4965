/**
 A run in which BIND_KEY_DNE is delivered although the automaton asserts it prevents it: an automaton destroys its
 child and, before it hears of that, unbinds a binding to the child.
 */
module ProtocolRace {
  import opened Common
  import opened Bindings
  import opened Forest
  import opened Automaton
  import opened ProtocolSystem
  import opened ProtocolInvariant
  import opened ProtocolTheorems

  const PARENT: Aid := 0
  const CHILD: Aid := 1
  const CHILD_KEY: Key := 5
  const BIND_KEY: Key := 6
  const OUT := Action(PARENT, 0, 0, Output)
  const IN := Action(CHILD, 0, 0, Input)

  /** Every choice the run needs: only the helper picked differs. */
  function Pick(k: Key): Step {
    RunStep(Choice(k, OUT, IN, 11, CHILD, [], [UnboundNotice(PARENT, BIND_KEY), DestroyedNotice(PARENT, CHILD_KEY)]))
  }

  const NOTHING := Side({}, {}, {}, {}, {})

  /** Where a helper is: waiting to be sent, asked for, held, to be withdrawn, being withdrawn. */
  function Waiting(k: Key): Side { Side({k}, {}, {}, {}, {}) }

  function Asked(k: Key): Side { Side({}, {k}, {}, {}, {}) }

  function Holding(k: Key): Side { Side({}, {}, {k}, {}, {}) }

  function Leaving(k: Key): Side { Side({}, {}, {k}, {k}, {}) }

  function Left(k: Key): Side { Side({}, {}, {k}, {}, {k}) }

  /** The system before there is a child, ... */
  function Before(create: Side, bind: Side, queue: seq<Task>): System {
    System(WithRoot(map[], PARENT, 10), map[PARENT := 0], 1, {}, map[PARENT := Helpers(create, bind)], queue, {PARENT})
  }

  /** ... while there is, ... */
  function Together(create: Side, bind: Side, bound: bool, queue: seq<Task>): System {
    var f := WithAutomaton(WithRoot(map[], PARENT, 10), CHILD, 11, PARENT, CHILD_KEY);
    System(if bound then WithBindKey(f, PARENT, BIND_KEY) else f, map[PARENT := 0, CHILD := 1], 2,
           if bound then {Tuple(OUT, IN, PARENT, BIND_KEY)} else {},
           map[PARENT := Helpers(create, bind), CHILD := NO_HELPERS], queue, {PARENT, CHILD})
  }

  /** ... and after it is gone. */
  function Afterwards(create: Side, bind: Side, queue: seq<Task>): System {
    System(WithRoot(map[], PARENT, 10), map[PARENT := 0, CHILD := 1], 2, {},
           map[PARENT := Helpers(create, bind)], queue, {PARENT, CHILD})
  }

  function Losses(): seq<Notice> {
    [UnboundNotice(PARENT, BIND_KEY), DestroyedNotice(PARENT, CHILD_KEY)]
  }

  /** The system after i steps of the run. */
  function Stage(i: nat): System {
    match i
    case 0 => Before(NOTHING, NOTHING, [])
    case 1 => Before(Waiting(CHILD_KEY), NOTHING, [OutputTask(PARENT, SysCreate)])
    case 2 => Before(Asked(CHILD_KEY), NOTHING, [RequestTask(PARENT, CreateKind, CHILD_KEY, OUT, IN)])
    case 3 => Together(Asked(CHILD_KEY), NOTHING, false, [NoticeTask(CreatedNotice(PARENT, AutomatonCreated, CHILD_KEY))])
    case 4 => Together(Holding(CHILD_KEY), NOTHING, false, [])
    case 5 => Together(Holding(CHILD_KEY), Waiting(BIND_KEY), false, [OutputTask(PARENT, SysBind)])
    case 6 => Together(Holding(CHILD_KEY), Asked(BIND_KEY), false, [RequestTask(PARENT, BindKind, BIND_KEY, OUT, IN)])
    case 7 => Together(Holding(CHILD_KEY), Asked(BIND_KEY), true, [NoticeTask(BoundNotice(PARENT, Bound, BIND_KEY))])
    case 8 => Together(Holding(CHILD_KEY), Holding(BIND_KEY), true, [])
    case 9 => Together(Leaving(CHILD_KEY), Holding(BIND_KEY), true, [OutputTask(PARENT, SysDestroy)])
    case 10 => Together(Left(CHILD_KEY), Holding(BIND_KEY), true, [WithdrawTask(PARENT, CreateKind, CHILD_KEY)])
    case 11 => Together(Left(CHILD_KEY), Leaving(BIND_KEY), true,
                        [WithdrawTask(PARENT, CreateKind, CHILD_KEY), OutputTask(PARENT, SysUnbind)])
    case 12 => Afterwards(Left(CHILD_KEY), Leaving(BIND_KEY), [OutputTask(PARENT, SysUnbind)] + NoticeTasks(Losses()))
    case 13 => Afterwards(Left(CHILD_KEY), Left(BIND_KEY),
                          NoticeTasks(Losses()) + [WithdrawTask(PARENT, BindKind, BIND_KEY)])
    case 14 => Afterwards(Left(CHILD_KEY), NOTHING,
                          [NoticeTask(DestroyedNotice(PARENT, CHILD_KEY)), WithdrawTask(PARENT, BindKind, BIND_KEY)])
    case _ => Afterwards(NOTHING, NOTHING, [WithdrawTask(PARENT, BindKind, BIND_KEY)])
  }

  /** The parent asks for a child and, when it has it, for a binding; it destroys the child and unbinds. */
  function Script(i: nat): Step {
    match i
    case 0 => StartStep(PARENT, CreateKind, CHILD_KEY)
    case 1 => Pick(CHILD_KEY)
    case 4 => StartStep(PARENT, BindKind, BIND_KEY)
    case 5 => Pick(BIND_KEY)
    case 8 => UndoStep(PARENT, CreateKind, CHILD_KEY)
    case 9 => Pick(CHILD_KEY)
    case 10 => UndoStep(PARENT, BindKind, BIND_KEY)
    case 12 => Pick(BIND_KEY)
    case _ => Pick(0)
  }

  // ---------------------------------------------------------------- what the parent asks for

  lemma Asks(h: Helpers, o: SysOutput)
    requires OutputEnabled(h, o) && forall p | p != o :: !OutputEnabled(h, p)
    ensures Outputs(PARENT, Scheduled(h)) == [OutputTask(PARENT, o)]
  {
    assert Scheduled(h) == [o];
  }

  lemma AsksNothing(h: Helpers)
    requires forall p :: !OutputEnabled(h, p)
    ensures Outputs(PARENT, Scheduled(h)) == []
  {
    assert Scheduled(h) == [];
  }

  // ---------------------------------------------------------------- the run

  ghost predicate Goes(sys: System, s: Step, sys': System) {
    ForestOk(sys.automata, sys.births) ==> Enabled(sys, s) && !LosesRace(sys, s) && Take(sys, s) == sys'
  }

  ghost predicate StageGoes(i: nat) {
    Goes(Stage(i), Script(i), Stage(i + 1))
  }

  /** The parent hears n and then has nothing to ask for. */
  lemma Hears(sys: System, n: Notice, rest: seq<Task>, h: Helpers)
    requires sys.queue == [NoticeTask(n)] + rest && n.to == PARENT && PARENT in sys.helpers
    requires h == Notified(sys.helpers[PARENT], n) && forall p :: !OutputEnabled(h, p)
    ensures Goes(sys, Pick(0), sys.(helpers := sys.helpers[PARENT := h], queue := rest))
  {
    AsksNothing(h);
    assert sys.queue[1..] == rest && rest + [] == rest;
  }

  /** An output of the parent sends its request for k, and no other is enabled then. */
  lemma Sends(sys: System, o: SysOutput, k: Key, rest: seq<Task>, h: Helpers)
    requires sys.queue == [OutputTask(PARENT, o)] + rest && PARENT in sys.helpers
    requires OutputEnabled(sys.helpers[PARENT], o) && k in Candidates(sys.helpers[PARENT], o)
    requires h == Effect(sys.helpers[PARENT], o, k) && forall p :: !OutputEnabled(h, p)
    ensures Goes(sys, Pick(k), sys.(helpers := sys.helpers[PARENT := h], queue := rest + [SentTask(PARENT, o, Pick(k).c)]))
  {
    AsksNothing(h);
    assert sys.queue[1..] == rest && rest + [] == rest;
  }

  lemma AsksForChild()
    ensures StageGoes(0)
  {
    assert Start(NOTHING, CHILD_KEY) == Waiting(CHILD_KEY);
    var h0, h1 := Helpers(NOTHING, NOTHING), Helpers(Waiting(CHILD_KEY), NOTHING);
    Asks(h1, SysCreate);
    assert map[PARENT := h0][PARENT := h1] == map[PARENT := h1];
  }

  lemma SendsCreate()
    ensures StageGoes(1)
  {
    var h1, h2 := Helpers(Waiting(CHILD_KEY), NOTHING), Helpers(Asked(CHILD_KEY), NOTHING);
    assert Sent(Waiting(CHILD_KEY), CHILD_KEY) == Asked(CHILD_KEY);
    Sends(Stage(1), SysCreate, CHILD_KEY, [], h2);
    assert map[PARENT := h1][PARENT := h2] == map[PARENT := h2];
  }

  lemma ChildCreated()
    ensures StageGoes(2)
  {
    assert forall x | x in WithRoot(map[], PARENT, 10) :: x == PARENT;
  }

  lemma HearsOfChild()
    ensures StageGoes(3)
  {
    var h1, h2 := Helpers(Asked(CHILD_KEY), NOTHING), Helpers(Holding(CHILD_KEY), NOTHING);
    assert Accepted(Asked(CHILD_KEY), CHILD_KEY) == Holding(CHILD_KEY);
    Hears(Stage(3), CreatedNotice(PARENT, AutomatonCreated, CHILD_KEY), [], h2);
    assert map[PARENT := h1, CHILD := NO_HELPERS][PARENT := h2] == map[PARENT := h2, CHILD := NO_HELPERS];
  }

  lemma AsksForBinding()
    ensures StageGoes(4)
  {
    assert Start(NOTHING, BIND_KEY) == Waiting(BIND_KEY);
    var h0, h1 := Helpers(Holding(CHILD_KEY), NOTHING), Helpers(Holding(CHILD_KEY), Waiting(BIND_KEY));
    Asks(h1, SysBind);
    assert map[PARENT := h0, CHILD := NO_HELPERS][PARENT := h1] == map[PARENT := h1, CHILD := NO_HELPERS];
  }

  lemma SendsBind()
    ensures StageGoes(5)
  {
    var h1, h2 := Helpers(Holding(CHILD_KEY), Waiting(BIND_KEY)), Helpers(Holding(CHILD_KEY), Asked(BIND_KEY));
    assert Sent(Waiting(BIND_KEY), BIND_KEY) == Asked(BIND_KEY);
    Sends(Stage(5), SysBind, BIND_KEY, [], h2);
    assert map[PARENT := h1, CHILD := NO_HELPERS][PARENT := h2] == map[PARENT := h2, CHILD := NO_HELPERS];
  }

  lemma Binds(sys: System)
    requires sys.queue == [RequestTask(PARENT, BindKind, BIND_KEY, OUT, IN)] && PARENT in sys.automata
    requires BindOutcome(sys.automata.Keys, sys.tuples, OUT, IN, PARENT, BIND_KEY) == Bound
    ensures Goes(sys, Pick(0), sys.(automata := WithBindKey(sys.automata, PARENT, BIND_KEY),
                                    tuples := sys.tuples + {Tuple(OUT, IN, PARENT, BIND_KEY)},
                                    queue := [NoticeTask(BoundNotice(PARENT, Bound, BIND_KEY))]))
  {}

  lemma Bindable()
    ensures PARENT in Stage(6).automata
    ensures BindOutcome(Stage(6).automata.Keys, Stage(6).tuples, OUT, IN, PARENT, BIND_KEY) == Bound
  {}

  lemma BindingMade()
    ensures StageGoes(6)
  {
    Bindable();
    Binds(Stage(6));
    assert {} + {Tuple(OUT, IN, PARENT, BIND_KEY)} == {Tuple(OUT, IN, PARENT, BIND_KEY)};
  }

  lemma HearsOfBinding()
    ensures StageGoes(7)
  {
    var h1, h2 := Helpers(Holding(CHILD_KEY), Asked(BIND_KEY)), Helpers(Holding(CHILD_KEY), Holding(BIND_KEY));
    assert Accepted(Asked(BIND_KEY), BIND_KEY) == Holding(BIND_KEY);
    Hears(Stage(7), BoundNotice(PARENT, Bound, BIND_KEY), [], h2);
    assert map[PARENT := h1, CHILD := NO_HELPERS][PARENT := h2] == map[PARENT := h2, CHILD := NO_HELPERS];
  }

  lemma DestroysChild()
    ensures StageGoes(8)
  {
    assert Undo(Holding(CHILD_KEY), CHILD_KEY) == Leaving(CHILD_KEY);
    var h0, h1 := Helpers(Holding(CHILD_KEY), Holding(BIND_KEY)), Helpers(Leaving(CHILD_KEY), Holding(BIND_KEY));
    assert CHILD_KEY in UndoReady(h1.create);
    Asks(h1, SysDestroy);
    assert map[PARENT := h0, CHILD := NO_HELPERS][PARENT := h1] == map[PARENT := h1, CHILD := NO_HELPERS];
  }

  lemma SendsDestroy()
    ensures StageGoes(9)
  {
    var h1, h2 := Helpers(Leaving(CHILD_KEY), Holding(BIND_KEY)), Helpers(Left(CHILD_KEY), Holding(BIND_KEY));
    assert UndoSent(Leaving(CHILD_KEY), CHILD_KEY) == Left(CHILD_KEY);
    assert CHILD_KEY in UndoReady(h1.create);
    Sends(Stage(9), SysDestroy, CHILD_KEY, [], h2);
    assert map[PARENT := h1, CHILD := NO_HELPERS][PARENT := h2] == map[PARENT := h2, CHILD := NO_HELPERS];
  }

  lemma Unbinds()
    ensures StageGoes(10)
  {
    assert Undo(Holding(BIND_KEY), BIND_KEY) == Leaving(BIND_KEY);
    var h0, h1 := Helpers(Left(CHILD_KEY), Holding(BIND_KEY)), Helpers(Left(CHILD_KEY), Leaving(BIND_KEY));
    assert BIND_KEY in UndoReady(h1.bind);
    Asks(h1, SysUnbind);
    assert map[PARENT := h0, CHILD := NO_HELPERS][PARENT := h1] == map[PARENT := h1, CHILD := NO_HELPERS];
  }

  /** The child goes, and the binding with it, ... */
  lemma LosesChild()
    ensures StageGoes(11)
  {
    if ForestOk(Stage(11).automata, Stage(11).births) {
      LossPossible();
      LossTaken();
    }
  }

  lemma LossPossible()
    requires ForestOk(Stage(11).automata, Stage(11).births)
    ensures Enabled(Stage(11), Script(11))
  {
    ChildIsLeaf(Stage(11));
    BindingLost(Stage(11));
    TwoLosses();
  }

  lemma LossTaken()
    requires ForestOk(Stage(11).automata, Stage(11).births) && Enabled(Stage(11), Script(11))
    ensures Take(Stage(11), Script(11)) == Stage(12)
  {
    ChildIsLeaf(Stage(11));
    BindingLost(Stage(11));
    ChildForgotten();
    assert Stage(11).helpers - {CHILD} == map[PARENT := Helpers(Left(CHILD_KEY), Leaving(BIND_KEY))];
  }

  lemma ChildForgotten()
    ensures Without(Stage(11).automata, {CHILD}, {}) == WithRoot(map[], PARENT, 10)
  {
    var kept := Without(Stage(11).automata, {CHILD}, {});
    assert kept[PARENT].children == map[] && BoundKeys({}, PARENT) == {};
  }

  lemma BindingLost(sys: System)
    requires sys.automata == Stage(11).automata && sys.tuples == {Tuple(OUT, IN, PARENT, BIND_KEY)}
    ensures Untouched(sys.tuples, {CHILD}) == {}
    ensures GoneNotices(sys.automata, sys.tuples, {CHILD})
            == {UnboundNotice(PARENT, BIND_KEY), DestroyedNotice(PARENT, CHILD_KEY)}
  {
    assert UnboundNotices({Tuple(OUT, IN, PARENT, BIND_KEY)}) == {UnboundNotice(PARENT, BIND_KEY)};
    assert DestroyedNotices(sys.automata, {CHILD}) == {DestroyedNotice(PARENT, CHILD_KEY)};
  }

  lemma TwoLosses()
    ensures Announces(Losses(), {UnboundNotice(PARENT, BIND_KEY), DestroyedNotice(PARENT, CHILD_KEY)})
  {}

  lemma ChildIsLeaf(sys: System)
    requires ForestOk(sys.automata, sys.births) && sys.automata.Keys == {PARENT, CHILD} && sys.automata[PARENT].parent == None
    requires CHILD_KEY in sys.automata[PARENT].children && sys.automata[PARENT].children[CHILD_KEY] == CHILD
    ensures Child(sys, PARENT, CHILD_KEY) == {CHILD}
  {
    assert !Descends(sys.automata, sys.births, PARENT, CHILD);
  }

  /** ... but the parent withdraws the binding before it hears of it. */
  lemma SendsUnbind()
    ensures StageGoes(12)
  {
    var h1, h2 := Helpers(Left(CHILD_KEY), Leaving(BIND_KEY)), Helpers(Left(CHILD_KEY), Left(BIND_KEY));
    assert UndoSent(Leaving(BIND_KEY), BIND_KEY) == Left(BIND_KEY);
    assert BIND_KEY in UndoReady(h1.bind);
    Sends(Stage(12), SysUnbind, BIND_KEY, NoticeTasks(Losses()), h2);
    assert map[PARENT := h1][PARENT := h2] == map[PARENT := h2];
  }

  lemma HearsOfBindingLost()
    ensures StageGoes(13)
  {
    var h1, h2 := Helpers(Left(CHILD_KEY), Left(BIND_KEY)), Helpers(Left(CHILD_KEY), NOTHING);
    assert Undone(Left(BIND_KEY), BIND_KEY) == NOTHING;
    Hears(Stage(13), UnboundNotice(PARENT, BIND_KEY), Stage(14).queue, h2);
    assert map[PARENT := h1][PARENT := h2] == map[PARENT := h2];
  }

  lemma HearsOfChildLost()
    ensures StageGoes(14)
  {
    var h1, h2 := Helpers(Left(CHILD_KEY), NOTHING), Helpers(NOTHING, NOTHING);
    assert Undone(Left(CHILD_KEY), CHILD_KEY) == NOTHING;
    Hears(Stage(14), DestroyedNotice(PARENT, CHILD_KEY), Stage(15).queue, h2);
    assert map[PARENT := h1][PARENT := h2] == map[PARENT := h2];
  }

  lemma AllStagesGo(i: nat)
    requires i < 15
    ensures StageGoes(i)
  {
    if i == 0 {
      AsksForChild();
    } else if i == 1 {
      SendsCreate();
    } else if i == 2 {
      ChildCreated();
    } else if i == 3 {
      HearsOfChild();
    } else if i == 4 {
      AsksForBinding();
    } else if i == 5 {
      SendsBind();
    } else if i == 6 {
      BindingMade();
    } else if i == 7 {
      HearsOfBinding();
    } else if i == 8 {
      DestroysChild();
    } else if i == 9 {
      SendsDestroy();
    } else if i == 10 {
      Unbinds();
    } else if i == 11 {
      LosesChild();
    } else if i == 12 {
      SendsUnbind();
    } else if i == 13 {
      HearsOfBindingLost();
    } else {
      HearsOfChildLost();
    }
  }

  function Steps(n: nat): (steps: seq<Step>)
    ensures |steps| == n
  {
    if n == 0 then [] else Steps(n - 1) + [Script(n - 1)]
  }

  lemma {:induction false} ReachStage(n: nat)
    requires n <= 15
    ensures IsRun(InitialSystem(PARENT, 10, []), Steps(n)) && After(InitialSystem(PARENT, 10, []), Steps(n)) == Stage(n)
    ensures Inv(Stage(n))
  {
    InitialInv(PARENT, 10, []);
    if n > 0 {
      ReachStage(n - 1);
      AllStagesGo(n - 1);
      assert Steps(n)[..n - 1] == Steps(n - 1);
      StepInv(Stage(n - 1), Script(n - 1));
    }
  }

  /** The withdrawal then finds nothing. */
  lemma LastStep()
    requires Inv(Stage(15))
    ensures Enabled(Stage(15), Pick(0))
    ensures Take(Stage(15), Pick(0)).queue == [NoticeTask(BindKeyDneNotice(PARENT, BIND_KEY))]
    ensures PARENT in Take(Stage(15), Pick(0)).helpers
  {
    assert BIND_KEY !in BoundKeys({}, PARENT);
  }

  /** BIND_KEY_DNE is queued for an automaton that is there to receive it. */
  lemma BindKeyDneReachable()
    ensures var start := InitialSystem(PARENT, 10, []);
            && Inv(start) && IsRun(start, Steps(15)) && Enabled(After(start, Steps(15)), Pick(0))
            && var sys := Take(After(start, Steps(15)), Pick(0));
               PARENT in sys.helpers && sys.queue == [NoticeTask(BindKeyDneNotice(PARENT, BIND_KEY))]
  {
    InitialInv(PARENT, 10, []);
    ReachStage(15);
    LastStep();
  }
}
