/** No thread of the scheduler waits for ever, and when no runnable is left all of them stop. */
module SchedulerShutdownTheorems {
  import opened Common
  import opened SchedulerShutdown

  // ---------------------------------------------------------------- runs

  /** Threads start at the head of their loops; the first automaton may already have scheduled something. */
  ghost predicate Initial(s: State) {
    && |s.poppers| == |s.queues| && |s.pending| == 3 && Conserved(s)
    && (forall i: nat | i < |s.poppers| :: s.poppers[i].Check?)
    && s.io.IoCheck? && s.released == 0 && !s.woken
    && forall j: nat | j < |s.queues| :: false !in s.queues[j]
  }

  /** A run in which no close drops the last runnables unnoticed. */
  ghost predicate IsRun(start: State, steps: seq<Step>)
    decreases |steps|, 0
  {
    steps == [] ||
    (IsRun(start, steps[..|steps| - 1])
     && Enabled(After(start, steps[..|steps| - 1]), steps[|steps| - 1])
     && !Hangs(After(start, steps[..|steps| - 1]), steps[|steps| - 1]))
  }

  ghost function After(start: State, steps: seq<Step>): State
    requires IsRun(start, steps)
    decreases |steps|, 1
  {
    if steps == [] then start else Take(After(start, steps[..|steps| - 1]), steps[|steps| - 1])
  }

  lemma InitialInOrder(s: State)
    requires Initial(s)
    ensures InOrder(s)
  {
    forall i: nat | i < |s.poppers|
      ensures PopperOk(s, i)
    {
    }
    forall k: nat
      ensures ListOk(s, k)
    {
    }
  }

  lemma {:induction false} RunInOrder(start: State, steps: seq<Step>)
    requires InOrder(start) && IsRun(start, steps)
    ensures InOrder(After(start, steps))
    decreases |steps|
  {
    if steps != [] {
      RunInOrder(start, steps[..|steps| - 1]);
      StepInOrder(After(start, steps[..|steps| - 1]), steps[|steps| - 1]);
    }
  }

  // ---------------------------------------------------------------- nobody waits for ever

  predicate PopperBlocked(s: State, i: nat) {
    i < |s.poppers| && i < |s.queues| && (s.poppers[i].Done? || (s.poppers[i].Popping? && s.queues[i] == []))
  }

  predicate IoBlocked(s: State) {
    s.io.IoDone? || (s.io.Selecting? && s.wakeup == 0 && s.registered == 0)
  }

  predicate Finished(s: State) {
    s.io.IoDone? && forall i | 0 <= i < |s.poppers| :: s.poppers[i].Done?
  }

  /** Somebody has not stopped, and nothing can wake those who have not. */
  predicate Stuck(s: State) {
    !Finished(s) && IoBlocked(s) && forall i: nat | i < |s.poppers| :: PopperBlocked(s, i)
  }

  lemma NoDeadlock(s: State)
    requires InOrder(s)
    ensures !Stuck(s)
  {
    if IoBlocked(s) && forall i: nat | i < |s.poppers| :: PopperBlocked(s, i) {
      if s.woken {
        forall i: nat | i < |s.poppers|
          ensures s.poppers[i].Done?
        {
          assert PopperOk(s, i) && PopperBlocked(s, i);
        }
      } else {
        AllWaiting(s);
      }
    }
  }

  /** If all of them waited before anyone has noticed, there would be no runnable, and nobody to notice. */
  lemma AllWaiting(s: State)
    requires Conserved(s) && PoppersOk(s) && IoOk(s) && ListsOk(s) && !s.woken && IoBlocked(s)
    requires forall i: nat | i < |s.poppers| :: PopperBlocked(s, i)
    ensures s.count == 0 && !Noticed(s)
  {
    forall i: nat | i < |s.poppers|
      ensures s.poppers[i].Popping? && s.queues[i] == []
    {
      assert PopperOk(s, i) && PopperBlocked(s, i);
    }
    forall k: nat | k < |s.pending|
      ensures s.pending[k] == 0
    {
      assert ListOk(s, k);
    }
    SomeLeft(s);
  }

  /** In no reachable state is every thread that has not stopped waiting for nothing. */
  lemma NeverStuck(start: State, steps: seq<Step>)
    requires Initial(start) && IsRun(start, steps)
    ensures !Stuck(After(start, steps))
  {
    InitialInOrder(start);
    RunInOrder(start, steps);
    NoDeadlock(After(start, steps));
  }

  /** Once there is no runnable there never is one again. */
  lemma {:induction false} CountStaysZero(start: State, steps: seq<Step>, n: nat)
    requires Initial(start) && IsRun(start, steps) && n <= |steps|
    ensures IsRun(start, steps[..n])
    ensures After(start, steps[..n]).count == 0 ==> After(start, steps).count == 0
    decreases |steps|
  {
    if n == |steps| {
      assert steps[..n] == steps;
    } else {
      var before := steps[..|steps| - 1];
      CountStaysZero(start, before, n);
      assert before[..n] == steps[..n];
      InitialInOrder(start);
      RunInOrder(start, before);
      if After(start, before).count == 0 {
        ZeroStaysZero(After(start, before), steps[|steps| - 1]);
      }
    }
  }

  // ---------------------------------------------------------------- everybody stops

  /** How far a thread is from stopping when there is no runnable. */
  function PopperRank(p: Popper, n: nat): nat {
    match p
    case Popping => n + 4
    case Check => n + 3
    case Pushing(m) => if m <= n then n + 2 - m else 2
    case Executing(_) => n + 5
    case Done => 0
  }

  function IoRank(io: Io, n: nat): nat {
    match io
    case Draining(k) => if k < 3 then n + 9 - k else n + 6
    case Closing => n + 6
    case Selecting => n + 5
    case Firing(_) => n + 4
    case IoCheck => n + 3
    case IoPushing(m) => if m <= n then n + 2 - m else 2
    case IoDone => 0
  }

  function PopperRanks(s: State): (r: seq<int>)
    ensures |r| == |s.poppers| && forall i | 0 <= i < |r| :: r[i] == PopperRank(s.poppers[i], |s.queues|)
  {
    seq(|s.poppers|, i requires 0 <= i < |s.poppers| => PopperRank(s.poppers[i], |s.queues|))
  }

  function Rank(s: State): int {
    Sum(PopperRanks(s)) + IoRank(s.io, |s.queues|) + s.closes
  }

  lemma PopperRankDrops(s: State, t: Step)
    requires InOrder(s) && Enabled(s, t) && s.count == 0 && PopperStep(t)
    ensures Rank(Take(s, t)) < Rank(s)
  {
    NoneLeft(s);
    assert PopperOk(s, t.i);
    SumChange(PopperRanks(s), PopperRanks(Take(s, t)), t.i);
  }

  lemma RankDrops(s: State, t: Step)
    requires InOrder(s) && Enabled(s, t) && s.count == 0
    ensures Rank(Take(s, t)) < Rank(s)
  {
    NoneLeft(s);
    if PopperStep(t) {
      PopperRankDrops(s, t);
    } else {
      assert PopperRanks(Take(s, t)) == PopperRanks(s);
    }
  }

  lemma RankNonNegative(s: State)
    ensures Rank(s) >= 0
  {
    SumAtLeast(PopperRanks(s), 0);
  }

  /** Whoever is not blocked can move. */
  lemma SomeoneMoves(s: State) returns (t: Step)
    requires InOrder(s) && s.count == 0 && !Finished(s)
    ensures Enabled(s, t) && !Hangs(s, t)
  {
    NoDeadlock(s);
    NoneLeft(s);
    if IoBlocked(s) {
      var i: nat :| i < |s.poppers| && !PopperBlocked(s, i);
      t := match s.poppers[i]
        case Check => CheckStep(i)
        case Pushing(_) => PushStep(i)
        case _ => PopStep(i);
    } else {
      t := match s.io
        case IoCheck => IoCheckStep
        case IoPushing(_) => IoPushStep
        case Draining(_) => NextListStep
        case Closing => if s.closes > 0 then CloseStep(0) else NextCloseStep
        case Selecting => SelectStep
        case _ => ReadPipeStep;
    }
  }

  ghost predicate Leads(s: State, steps: seq<Step>, last: State)
    decreases |steps|
  {
    if steps == [] then last == s else Enabled(s, steps[0]) && Leads(Take(s, steps[0]), steps[1..], last)
  }

  /** When no runnable is left all threads stop: every step brings them nearer to it, and until then there is one. */
  lemma {:induction false} AllStop(s: State) returns (steps: seq<Step>, last: State)
    requires InOrder(s) && s.count == 0
    ensures Leads(s, steps, last) && Finished(last) && |steps| <= Rank(s)
    decreases Rank(s)
  {
    RankNonNegative(s);
    if Finished(s) {
      steps, last := [], s;
    } else {
      var t := SomeoneMoves(s);
      RankDrops(s, t);
      StepInOrder(s, t);
      ZeroStaysZero(s, t);
      RankNonNegative(Take(s, t));
      var rest;
      rest, last := AllStop(Take(s, t));
      steps := [t] + rest;
    }
  }

  // ---------------------------------------------------------------- the close that hangs

  /** Every thread waits and the I/O thread is about to. */
  ghost predicate Doomed(s: State) {
    && |s.poppers| == |s.queues| && |s.pending| == 3
    && s.count == 0 && s.registered == 0 && s.wakeup == 0
    && (forall i: nat | i < |s.poppers| :: s.poppers[i].Popping? && s.queues[i] == [])
    && (forall k: nat | k < |s.pending| :: s.pending[k] == 0)
    && (s.io.Closing? || s.io.Selecting?)
  }

  /** A close that drops the last runnables while all others wait leaves nobody to notice; these are the only
      steps after which that is so. */
  lemma HangsExactly(s: State, t: Step)
    requires InOrder(s) && Enabled(s, t)
    ensures Hangs(s, t) ==> Doomed(Take(s, t))
    ensures !Hangs(s, t) ==> InOrder(Take(s, t)) && !Stuck(Take(s, t))
  {
    if Hangs(s, t) {
      NoneLeft(s);
      OnlyRegistered(s);
      forall i: nat | i < |s.poppers|
        ensures s.queues[i] == []
      {
        assert PopperOk(s, i);
        SomethingIn(s.queues[i]);
      }
    } else {
      StepInOrder(s, t);
      NoDeadlock(Take(s, t));
    }
  }

  lemma SomethingIn(q: seq<bool>)
    ensures q != [] ==> true in q || false in q
  {
    if q != [] {
      assert q[0] in q;
      assert q[0] == true || q[0] == false;
    }
  }

  /** From then on the I/O thread goes to wait too, and every thread waits for ever. */
  lemma {:induction false} DoomedGetsStuck(s: State) returns (steps: seq<Step>, last: State)
    requires Doomed(s)
    ensures Leads(s, steps, last) && Stuck(last)
    decreases if s.io.Closing? then s.closes + 1 else 0
  {
    if s.io.Selecting? {
      steps, last := [], s;
    } else {
      var t := if s.closes > 0 then CloseStep(0) else NextCloseStep;
      var rest;
      rest, last := DoomedGetsStuck(Take(s, t));
      steps := [t] + rest;
    }
  }

  lemma DoomedStaysDoomed(s: State, t: Step)
    requires Doomed(s) && Enabled(s, t)
    ensures Doomed(Take(s, t))
  {}

  // ---------------------------------------------------------------- ... is reachable

  /** Two threads besides the I/O thread.  A worker's action closes a descriptor for which a read is registered:
      the I/O thread is woken for the close when the worker already waits, and drops the last runnable. */
  function Script(i: nat): Step {
    match i
    case 0 => IoCheckStep
    case 1 => NextListStep
    case 2 => DrainStep(true)
    case 3 => NextListStep
    case 4 => NextListStep
    case 5 => NextCloseStep
    case 6 => CheckStep(0)
    case 7 => CheckStep(1)
    case 8 => PopStep(1)
    case 9 => CloseRequestStep(1)
    case 10 => WakeStep(1)
    case 11 => FinishStep(1)
    case 12 => CheckStep(1)
    case 13 => SelectStep
    case 14 => ReadPipeStep
    case 15 => IoCheckStep
    case _ => NextListStep
  }

  function Stage(i: nat): State {
    match i
    case 0 => Before([Check, Check], [[], [true]], IoCheck, [0, 1, 0], 0)
    case 1 => Before([Check, Check], [[], [true]], Draining(0), [0, 1, 0], 0)
    case 2 => Before([Check, Check], [[], [true]], Draining(1), [0, 1, 0], 0)
    case 3 => Before([Check, Check], [[], [true]], Draining(1), [0, 0, 0], 1)
    case 4 => Before([Check, Check], [[], [true]], Draining(2), [0, 0, 0], 1)
    case 5 => Before([Check, Check], [[], [true]], Closing, [0, 0, 0], 1)
    case 6 => Before([Check, Check], [[], [true]], Selecting, [0, 0, 0], 1)
    case 7 => Before([Popping, Check], [[], [true]], Selecting, [0, 0, 0], 1)
    case 8 => Before([Popping, Popping], [[], [true]], Selecting, [0, 0, 0], 1)
    case 9 => Before([Popping, Executing(false)], [[], []], Selecting, [0, 0, 0], 1)
    case 10 => Closed(Executing(true), Selecting, 1, 2)
    case 11 => Closed(Executing(false), Selecting, 2, 2)
    case 12 => Closed(Check, Selecting, 2, 1)
    case 13 => Closed(Popping, Selecting, 2, 1)
    case 14 => Closed(Popping, Firing(true), 2, 1)
    case 15 => Closed(Popping, IoCheck, 0, 1)
    case 16 => Closed(Popping, Draining(0), 0, 1)
    case 17 => Closed(Popping, Draining(1), 0, 1)
    case 18 => Closed(Popping, Draining(2), 0, 1)
    case _ => Closed(Popping, Closing, 0, 1)
  }

  /** Before the close is requested, and after. */
  function Before(poppers: seq<Popper>, queues: seq<seq<bool>>, io: Io, pending: seq<nat>, registered: nat): State {
    State(queues, poppers, io, pending, 0, registered, 1, 2, 0, false)
  }

  function Closed(worker: Popper, io: Io, wakeup: nat, count: nat): State {
    State([[], []], [Popping, worker], io, [0, 0, 0], 1, 1, wakeup, count, 0, false)
  }

  ghost predicate StageGoes(i: nat) {
    Enabled(Stage(i), Script(i)) && Take(Stage(i), Script(i)) == Stage(i + 1) && !Script(i).CloseStep?
  }

  lemma IoTakesOver(i: nat)
    requires i < 6
    ensures StageGoes(i)
  {
    assert [0, 1, 0][1 := 0] == [0, 0, 0];
  }

  lemma WorkerCloses(i: nat)
    requires 6 <= i < 13
    ensures StageGoes(i)
  {
    if i == 8 {
      assert [true][1..] == [];
      assert [[], [true]][1 := []] == [[], []];
    }
    assert [Check, Check][0 := Popping] == [Popping, Check];
    forall p: Popper, q: Popper
      ensures [Popping, p][1 := q] == [Popping, q]
    {
    }
  }

  lemma IoReturns(i: nat)
    requires 13 <= i < 19
    ensures StageGoes(i)
  {}

  function Steps(n: nat): (steps: seq<Step>)
    ensures |steps| == n
  {
    if n == 0 then [] else Steps(n - 1) + [Script(n - 1)]
  }

  lemma AllStagesGo(i: nat)
    requires i < 19
    ensures StageGoes(i)
  {
    if i < 6 {
      IoTakesOver(i);
    } else if i < 13 {
      WorkerCloses(i);
    } else {
      IoReturns(i);
    }
  }

  lemma OneMoreStep(start: State, steps: seq<Step>, s: State, t: Step)
    requires IsRun(start, steps) && After(start, steps) == s && Enabled(s, t) && !Hangs(s, t)
    ensures IsRun(start, steps + [t]) && After(start, steps + [t]) == Take(s, t)
  {
    assert (steps + [t])[..|steps + [t]| - 1] == steps;
  }

  lemma {:induction false} ReachStage(n: nat)
    requires n <= 19
    ensures IsRun(Stage(0), Steps(n)) && After(Stage(0), Steps(n)) == Stage(n)
  {
    if n > 0 {
      ReachStage(n - 1);
      AllStagesGo(n - 1);
      OneMoreStep(Stage(0), Steps(n - 1), Stage(n - 1), Script(n - 1));
    }
  }

  lemma StartConserved()
    ensures Conserved(Stage(0))
  {
    var s := Stage(0);
    assert Queued(s) == [0, 1] && Running(s) == [0, 0] && Listed(s) == [0, 1, 0];
    SumAtMost([0, 0], 0);
    SumAtLeast([0, 0], 0);
    SumUpdate([0, 0], 1, 1);
    assert [0, 0][1 := 1] == [0, 1];
    assert Sum([0, 1, 0]) == 0 + Sum([1, 0]) by {
      assert [0, 1, 0][1..] == [1, 0];
    }
    assert Sum([1, 0]) == 1 + Sum([0]) by {
      assert [1, 0][1..] == [0];
    }
    assert Sum([0]) == 0;
  }

  /** A reachable state in which a close hangs the scheduler. */
  lemma HangReachable()
    ensures Initial(Stage(0)) && IsRun(Stage(0), Steps(19))
    ensures var s := After(Stage(0), Steps(19));
            Enabled(s, CloseStep(1)) && Hangs(s, CloseStep(1))
  {
    StartConserved();
    ReachStage(19);
  }
}
