/**
 How the threads of the multi-threaded scheduler stop (lib/simple_scheduler.cpp): the thread of the system queue,
 the workers and the I/O thread go on while a runnable exists; who finds none pushes a sentinel to every
 queue and wakes the I/O thread, because the others may be about to block.
 */
module SchedulerShutdown {
  import opened Common

  /** Where a thread that pops a queue is: the system queue's thread is number 0, the workers follow.
      Pushing(n) has pushed n sentinels; Executing holds a runnable, and may have yet to write to the
      wake-up pipe. */
  datatype Popper = Check | Pushing(n: nat) | Popping | Executing(owes: bool) | Done

  /** Where the I/O thread is; Draining(k) takes over the registrations of list k (timer, read, write), and
      Firing(r) remembers whether select found the wake-up pipe readable. */
  datatype Io = IoCheck | IoPushing(n: nat) | Draining(k: nat) | Closing | Selecting | Firing(readable: bool) | IoDone

  /** A queue holds runnables (true) and sentinels (false).  pending counts the registrations of the three lists,
      registered those the I/O thread has taken over, closes the descriptors to be closed, wakeup the bytes
      in the pipe; released and woken record what any thread has pushed and written at shutdown. */
  datatype State = State(queues: seq<seq<bool>>, poppers: seq<Popper>, io: Io, pending: seq<nat>, closes: nat,
                         registered: nat, wakeup: nat, count: nat, released: nat, woken: bool)

  /** FireStep hands over the runnable of a timer or a descriptor.  The queue is searched for an equal one first,
      under a lock that is given back before the push or the deletion; so duplicate says what the search found,
      and says nothing about the queue as it is by then. */
  datatype Step =
    CheckStep(i: nat) | PushStep(i: nat) | PopStep(i: nat) | SpawnStep(i: nat, j: nat) | RegisterStep(i: nat, k: nat)
  | CloseRequestStep(i: nat) | WakeStep(i: nat) | FinishStep(i: nat)
  | IoCheckStep | IoPushStep | DrainStep(keep: bool) | NextListStep | CloseStep(removed: nat) | NextCloseStep
  | SelectStep | FireStep(j: nat, duplicate: bool) | ReadPipeStep

  predicate Enabled(s: State, t: Step) {
    match t
    case CheckStep(i) => i < |s.poppers| && s.poppers[i].Check?
    case PushStep(i) => i < |s.poppers| && s.poppers[i].Pushing?
    case PopStep(i) => i < |s.poppers| && i < |s.queues| && s.poppers[i].Popping? && s.queues[i] != []
    case SpawnStep(i, j) => i < |s.poppers| && s.poppers[i] == Executing(false) && j < |s.queues|
    case RegisterStep(i, k) => i < |s.poppers| && s.poppers[i] == Executing(false) && k < |s.pending|
    case CloseRequestStep(i) => i < |s.poppers| && s.poppers[i] == Executing(false)
    case WakeStep(i) => i < |s.poppers| && s.poppers[i] == Executing(true)
    case FinishStep(i) => i < |s.poppers| && s.poppers[i] == Executing(false) && s.count > 0
    case IoCheckStep => s.io.IoCheck?
    case IoPushStep => s.io.IoPushing?
    // A registration that is not kept loses to one that is registered for the same action or descriptor.
    case DrainStep(keep) => s.io.Draining? && s.io.k < |s.pending| && s.pending[s.io.k] > 0
                            && (keep || (s.registered > 0 && s.count > 0))
    case NextListStep => s.io.Draining? && (s.io.k >= |s.pending| || s.pending[s.io.k] == 0)
    case CloseStep(removed) => s.io.Closing? && s.closes > 0 && removed <= 2 && removed <= s.registered && removed <= s.count
    case NextCloseStep => s.io.Closing? && s.closes == 0
    // With something registered, a timer may expire or a descriptor become ready at any time.
    case SelectStep => s.io.Selecting? && (s.wakeup > 0 || s.registered > 0)
    case FireStep(j, duplicate) => s.io.Firing? && s.registered > 0 && j < |s.queues|
                                   && (duplicate ==> s.count > 0)
    case ReadPipeStep => s.io.Firing?
  }

  function Max(a: nat, b: nat): nat {
    if a < b then b else a
  }

  /** One push of a thread that found no runnable: n sentinels so far, then the wake-up. */
  function PushedState(s: State, n: nat): State {
    if n < |s.queues|
    then s.(queues := s.queues[n := s.queues[n] + [false]], released := Max(s.released, n + 1))
    else s.(wakeup := s.wakeup + 1, woken := true)
  }

  function Take(s: State, t: Step): State
    requires Enabled(s, t)
  {
    match t
    case CheckStep(i) => s.(poppers := s.poppers[i := if s.count != 0 then Popping else Pushing(0)])
    case PushStep(i) =>
      var n := s.poppers[i].n;
      PushedState(s, n).(poppers := s.poppers[i := if n < |s.queues| then Pushing(n + 1) else Done])
    case PopStep(i) =>
      s.(queues := s.queues[i := s.queues[i][1..]], poppers := s.poppers[i := if s.queues[i][0] then Executing(false) else Check])
    case SpawnStep(i, j) => s.(queues := s.queues[j := s.queues[j] + [true]], count := s.count + 1)
    case RegisterStep(i, k) =>
      s.(pending := s.pending[k := s.pending[k] + 1], count := s.count + 1,
         poppers := s.poppers[i := Executing(s.pending[k] == 0)])
    case CloseRequestStep(i) => s.(closes := s.closes + 1, poppers := s.poppers[i := Executing(s.closes == 0)])
    case WakeStep(i) => s.(wakeup := s.wakeup + 1, poppers := s.poppers[i := Executing(false)])
    case FinishStep(i) => s.(count := s.count - 1, poppers := s.poppers[i := Check])
    case IoCheckStep => s.(io := if s.count != 0 then Draining(0) else IoPushing(0))
    case IoPushStep =>
      var n := s.io.n;
      PushedState(s, n).(io := if n < |s.queues| then IoPushing(n + 1) else IoDone)
    case DrainStep(keep) =>
      var rest := s.(pending := s.pending[s.io.k := s.pending[s.io.k] - 1]);
      if keep then rest.(registered := s.registered + 1) else rest.(count := s.count - 1)
    case NextListStep => s.(io := if s.io.k + 1 < |s.pending| then Draining(s.io.k + 1) else Closing)
    case CloseStep(removed) =>
      s.(closes := s.closes - 1, registered := s.registered - removed, count := s.count - removed)
    case NextCloseStep => s.(io := Selecting)
    case SelectStep => s.(io := Firing(s.wakeup > 0))
    case FireStep(j, duplicate) =>
      if duplicate then s.(registered := s.registered - 1, count := s.count - 1)
      else s.(registered := s.registered - 1, queues := s.queues[j := s.queues[j] + [true]])
    case ReadPipeStep =>
      s.(io := IoCheck, wakeup := if !s.io.readable then s.wakeup else if s.wakeup > 3 then s.wakeup - 3 else 0)
  }

  // ---------------------------------------------------------------- counting runnables

  function Reals(q: seq<bool>): nat {
    if q == [] then 0 else (if q[0] then 1 else 0) + Reals(q[1..])
  }

  lemma {:induction false} RealsPush(q: seq<bool>, x: bool)
    ensures Reals(q + [x]) == Reals(q) + if x then 1 else 0
  {
    if q == [] {
      assert q + [x] == [x];
    } else {
      assert (q + [x])[1..] == q[1..] + [x];
      RealsPush(q[1..], x);
    }
  }

  lemma {:induction false} RealsIn(q: seq<bool>)
    ensures true in q <==> Reals(q) > 0
  {
    if q != [] {
      RealsIn(q[1..]);
      assert q == [q[0]] + q[1..];
    }
  }

  function Queued(s: State): (r: seq<int>)
    ensures |r| == |s.queues| && forall j | 0 <= j < |r| :: r[j] == Reals(s.queues[j])
  {
    seq(|s.queues|, j requires 0 <= j < |s.queues| => Reals(s.queues[j]))
  }

  function Running(s: State): (r: seq<int>)
    ensures |r| == |s.poppers| && forall i | 0 <= i < |r| :: r[i] == if s.poppers[i].Executing? then 1 else 0
  {
    seq(|s.poppers|, i requires 0 <= i < |s.poppers| => if s.poppers[i].Executing? then 1 else 0)
  }

  function Listed(s: State): (r: seq<int>)
    ensures |r| == |s.pending| && forall k | 0 <= k < |r| :: r[k] == s.pending[k]
  {
    seq(|s.pending|, k requires 0 <= k < |s.pending| => s.pending[k])
  }

  /** Every runnable is queued, executing, waiting to be registered, or registered. */
  predicate Conserved(s: State) {
    s.count == Sum(Queued(s)) + Sum(Running(s)) + Sum(Listed(s)) + s.registered
  }

  // ---------------------------------------------------------------- the invariant

  ghost predicate PopperOk(s: State, i: nat) {
    && i < |s.poppers| == |s.queues|
    && (s.poppers[i].Pushing? ==> s.count == 0 && s.poppers[i].n <= s.released)
    && (s.poppers[i].Done? ==> s.woken)
    && (s.poppers[i].Popping? && i < s.released ==> s.queues[i] != [])
    && (false in s.queues[i] ==> i < s.released)
  }

  ghost predicate PoppersOk(s: State) {
    && |s.poppers| == |s.queues|
    && forall i: nat {:trigger PopperOk(s, i)} | i < |s.poppers| :: PopperOk(s, i)
  }

  /** In its loop, on the way to select. */
  predicate Selectward(io: Io) {
    io.Draining? || io.Closing? || io.Selecting?
  }

  ghost predicate IoOk(s: State) {
    && (s.io.IoPushing? ==> s.count == 0 && s.io.n <= s.released)
    && (s.io.IoDone? ==> s.woken)
    && (s.io.Draining? ==> s.io.k < |s.pending|)
    && (Selectward(s.io) && s.woken ==> s.wakeup > 0)
  }

  /** Shutdown begins only when no runnable is left. */
  ghost predicate ReleaseOk(s: State) {
    && s.released <= |s.queues| && (s.woken ==> s.released == |s.queues|)
    && (s.released > 0 || s.woken ==> s.count == 0)
  }

  predicate Owes(s: State, i: nat) {
    i < |s.poppers| && s.poppers[i] == Executing(true)
  }

  /** The I/O thread has passed list k. */
  predicate Passed(io: Io, k: nat) {
    io.Closing? || io.Selecting? || (io.Draining? && io.k > k)
  }

  /** A registration that the I/O thread has passed by is announced in the pipe, or about to be. */
  ghost predicate ListOk(s: State, k: nat) {
    k < |s.pending| && s.pending[k] > 0 && Passed(s.io, k) ==> s.wakeup > 0 || exists i: nat :: Owes(s, i)
  }

  ghost predicate ListsOk(s: State) {
    |s.pending| == 3 && forall k: nat {:trigger ListOk(s, k)} :: ListOk(s, k)
  }

  predicate Looks(s: State, i: nat) {
    i < |s.poppers| && (s.poppers[i].Check? || s.poppers[i].Pushing?)
  }

  /** Some thread has seen that no runnable is left, or is about to look. */
  ghost predicate Noticed(s: State) {
    s.woken || IoLooks(s) || exists i: nat :: Looks(s, i)
  }

  predicate IoLooks(s: State) {
    s.io.IoCheck? || s.io.IoPushing? || s.io.Firing? || (Selectward(s.io) && s.wakeup > 0)
  }

  ghost predicate InOrder(s: State) {
    && Conserved(s) && PoppersOk(s) && IoOk(s) && ReleaseOk(s) && ListsOk(s)
    && (s.count == 0 ==> Noticed(s))
  }

  // ---------------------------------------------------------------- conservation

  lemma ConservedPop(s: State, i: nat)
    requires Enabled(s, PopStep(i)) && Conserved(s)
    ensures Conserved(Take(s, PopStep(i)))
  {
    var s' := Take(s, PopStep(i));
    SumChange(Queued(s), Queued(s'), i);
    SumChange(Running(s), Running(s'), i);
  }

  lemma ConservedPush(s: State, s': State, j: nat, x: bool)
    requires j < |s.queues| && s'.queues == s.queues[j := s.queues[j] + [x]]
    ensures Sum(Queued(s')) == Sum(Queued(s)) + if x then 1 else 0
  {
    RealsPush(s.queues[j], x);
    SumChange(Queued(s), Queued(s'), j);
  }

  lemma ConservedPopper(s: State, s': State, i: nat)
    requires i < |s.poppers| && |s'.poppers| == |s.poppers|
    requires forall k | 0 <= k < |s.poppers| && k != i :: s'.poppers[k] == s.poppers[k]
    ensures Sum(Running(s')) == Sum(Running(s))
            + (if s'.poppers[i].Executing? then 1 else 0) - (if s.poppers[i].Executing? then 1 else 0)
  {
    SumChange(Running(s), Running(s'), i);
  }

  lemma ConservedList(s: State, s': State, k: nat)
    requires k < |s.pending| && |s'.pending| == |s.pending|
    requires forall l | 0 <= l < |s.pending| && l != k :: s'.pending[l] == s.pending[l]
    ensures Sum(Listed(s')) == Sum(Listed(s)) + s'.pending[k] - s.pending[k]
  {
    SumChange(Listed(s), Listed(s'), k);
  }

  lemma SameSums(s: State, s': State)
    ensures s'.queues == s.queues ==> Sum(Queued(s')) == Sum(Queued(s))
    ensures s'.poppers == s.poppers ==> Sum(Running(s')) == Sum(Running(s))
    ensures s'.pending == s.pending ==> Sum(Listed(s')) == Sum(Listed(s))
  {
    if s'.queues == s.queues {
      assert Queued(s') == Queued(s);
    }
    if s'.poppers == s.poppers {
      assert Running(s') == Running(s);
    }
    if s'.pending == s.pending {
      assert Listed(s') == Listed(s);
    }
  }

  lemma ConservedPushStep(s: State, i: nat)
    requires Enabled(s, PushStep(i)) && Conserved(s)
    ensures Conserved(Take(s, PushStep(i)))
  {
    var s' := Take(s, PushStep(i));
    SameSums(s, s');
    ConservedPopper(s, s', i);
    if s.poppers[i].n < |s.queues| {
      ConservedPush(s, s', s.poppers[i].n, false);
    }
  }

  lemma ConservedSpawn(s: State, i: nat, j: nat)
    requires Enabled(s, SpawnStep(i, j)) && Conserved(s)
    ensures Conserved(Take(s, SpawnStep(i, j)))
  {
    SameSums(s, Take(s, SpawnStep(i, j)));
    ConservedPush(s, Take(s, SpawnStep(i, j)), j, true);
  }

  lemma ConservedRegister(s: State, i: nat, k: nat)
    requires Enabled(s, RegisterStep(i, k)) && Conserved(s)
    ensures Conserved(Take(s, RegisterStep(i, k)))
  {
    var s' := Take(s, RegisterStep(i, k));
    SameSums(s, s');
    ConservedPopper(s, s', i);
    ConservedList(s, s', k);
  }

  predicate PopperStep(t: Step) {
    t.CheckStep? || t.PushStep? || t.PopStep? || t.SpawnStep? || t.RegisterStep? || t.CloseRequestStep? || t.WakeStep?
    || t.FinishStep?
  }

  lemma ConservedPopperStep(s: State, t: Step)
    requires Enabled(s, t) && Conserved(s) && PopperStep(t)
    ensures Conserved(Take(s, t))
  {
    if t.PushStep? {
      ConservedPushStep(s, t.i);
    } else if t.PopStep? {
      ConservedPop(s, t.i);
    } else if t.SpawnStep? {
      ConservedSpawn(s, t.i, t.j);
    } else if t.RegisterStep? {
      ConservedRegister(s, t.i, t.k);
    } else {
      SameSums(s, Take(s, t));
      ConservedPopper(s, Take(s, t), t.i);
    }
  }

  lemma ConservedIoPush(s: State)
    requires Enabled(s, IoPushStep) && Conserved(s)
    ensures Conserved(Take(s, IoPushStep))
  {
    SameSums(s, Take(s, IoPushStep));
    if s.io.n < |s.queues| {
      ConservedPush(s, Take(s, IoPushStep), s.io.n, false);
    }
  }

  lemma ConservedFire(s: State, j: nat, duplicate: bool)
    requires Enabled(s, FireStep(j, duplicate)) && Conserved(s)
    ensures Conserved(Take(s, FireStep(j, duplicate)))
  {
    SameSums(s, Take(s, FireStep(j, duplicate)));
    if !duplicate {
      ConservedPush(s, Take(s, FireStep(j, duplicate)), j, true);
    }
  }

  lemma ConservedDrain(s: State, keep: bool)
    requires Enabled(s, DrainStep(keep)) && Conserved(s)
    ensures Conserved(Take(s, DrainStep(keep)))
  {
    SameSums(s, Take(s, DrainStep(keep)));
    ConservedList(s, Take(s, DrainStep(keep)), s.io.k);
  }

  lemma ConservedStep(s: State, t: Step)
    requires Enabled(s, t) && Conserved(s)
    ensures Conserved(Take(s, t))
  {
    if PopperStep(t) {
      ConservedPopperStep(s, t);
    } else if t.IoPushStep? {
      ConservedIoPush(s);
    } else if t.DrainStep? {
      ConservedDrain(s, t.keep);
    } else if t.FireStep? {
      ConservedFire(s, t.j, t.duplicate);
    } else {
      SameSums(s, Take(s, t));
    }
  }

  lemma SumsPositive(s: State)
    ensures Sum(Queued(s)) >= 0 && Sum(Running(s)) >= 0 && Sum(Listed(s)) >= 0
    ensures forall j: nat | j < |s.queues| && Reals(s.queues[j]) > 0 :: Sum(Queued(s)) > 0
    ensures forall i: nat | i < |s.poppers| && s.poppers[i].Executing? :: Sum(Running(s)) > 0
    ensures forall k: nat | k < |s.pending| && s.pending[k] > 0 :: Sum(Listed(s)) > 0
  {
    SumAtLeast(Queued(s), 0);
    SumAtLeast(Running(s), 0);
    SumAtLeast(Listed(s), 0);
    forall j: nat | j < |s.queues| && Reals(s.queues[j]) > 0
      ensures Sum(Queued(s)) > 0
    {
      SumElementAtMost(Queued(s), j);
    }
    forall i: nat | i < |s.poppers| && s.poppers[i].Executing?
      ensures Sum(Running(s)) > 0
    {
      SumElementAtMost(Running(s), i);
    }
    forall k: nat | k < |s.pending| && s.pending[k] > 0
      ensures Sum(Listed(s)) > 0
    {
      SumElementAtMost(Listed(s), k);
    }
  }

  /** With no runnable left nothing is queued, executing, or registered. */
  lemma NoneLeft(s: State)
    requires Conserved(s)
    ensures s.registered <= s.count
    ensures s.count == 0 ==> s.registered == 0
    ensures s.count == 0 ==> forall i: nat | i < |s.poppers| :: !s.poppers[i].Executing?
    ensures s.count == 0 ==> forall k: nat | k < |s.pending| :: s.pending[k] == 0
    ensures s.count == 0 ==> forall j: nat | j < |s.queues| :: true !in s.queues[j]
  {
    SumsPositive(s);
    forall j: nat | j < |s.queues|
      ensures true in s.queues[j] <==> Reals(s.queues[j]) > 0
    {
      RealsIn(s.queues[j]);
    }
  }

  /** And with none of these there is no runnable left. */
  lemma SomeLeft(s: State)
    requires Conserved(s) && s.registered == 0
    requires forall j: nat | j < |s.queues| :: s.queues[j] == []
    requires forall i: nat | i < |s.poppers| :: !s.poppers[i].Executing?
    requires forall k: nat | k < |s.pending| :: s.pending[k] == 0
    ensures s.count == 0
  {
    SumAtMost(Queued(s), 0);
    SumAtMost(Running(s), 0);
    SumAtMost(Listed(s), 0);
  }

  // ---------------------------------------------------------------- every step keeps the invariant

  /** The I/O thread closes descriptors and with them drops the last runnables there are, when every other
      thread is already waiting and nothing is in the pipe. */
  ghost predicate Hangs(s: State, t: Step) {
    && t.CloseStep? && t.removed == s.count > 0 && s.wakeup == 0
    && forall i: nat | i < |s.poppers| :: s.poppers[i].Popping?
  }

  /** No runnable comes from nowhere. */
  lemma ZeroStaysZero(s: State, t: Step)
    requires Conserved(s) && Enabled(s, t) && s.count == 0
    ensures Take(s, t).count == 0
  {
    NoneLeft(s);
  }

  lemma PopperMovesOk(s: State, t: Step, i: nat)
    requires InOrder(s) && Enabled(s, t) && i < |s.poppers| && PopperStep(t)
    ensures PopperOk(Take(s, t), i)
  {
    assert PopperOk(s, i) && PopperOk(s, t.i);
    NoneLeft(s);
  }

  lemma IoMovesOk(s: State, t: Step, i: nat)
    requires InOrder(s) && Enabled(s, t) && i < |s.poppers| && !PopperStep(t)
    ensures PopperOk(Take(s, t), i)
  {
    assert PopperOk(s, i);
    NoneLeft(s);
  }

  lemma PoppersStep(s: State, t: Step)
    requires InOrder(s) && Enabled(s, t)
    ensures PoppersOk(Take(s, t))
  {
    forall i: nat | i < |s.poppers|
      ensures PopperOk(Take(s, t), i)
    {
      if PopperStep(t) {
        PopperMovesOk(s, t, i);
      } else {
        IoMovesOk(s, t, i);
      }
    }
  }

  lemma IoStepOk(s: State, t: Step)
    requires InOrder(s) && Enabled(s, t)
    ensures IoOk(Take(s, t)) && ReleaseOk(Take(s, t))
  {
    NoneLeft(s);
    if PopperStep(t) {
      assert PopperOk(s, t.i);
    }
  }

  lemma StillOwes(s: State, t: Step, i: nat)
    requires Enabled(s, t) && Owes(s, i) && t != WakeStep(i)
    ensures Owes(Take(s, t), i)
  {}

  lemma ListStepOk(s: State, t: Step, k: nat)
    requires InOrder(s) && Enabled(s, t)
    ensures ListOk(Take(s, t), k)
  {
    var s' := Take(s, t);
    assert ListOk(s, k);
    if k < |s.pending| && s'.pending[k] > 0 && Passed(s'.io, k) {
      if t.RegisterStep? && t.k == k && s.pending[k] == 0 {
        assert Owes(s', t.i);
      } else if s.wakeup == 0 && !t.WakeStep? && Passed(s.io, k) {
        var i: nat :| Owes(s, i);
        StillOwes(s, t, i);
      }
    }
  }

  lemma ListsStep(s: State, t: Step)
    requires InOrder(s) && Enabled(s, t)
    ensures ListsOk(Take(s, t))
  {
    forall k: nat
      ensures ListOk(Take(s, t), k)
    {
      ListStepOk(s, t, k);
    }
  }

  lemma StillLooks(s: State, t: Step, i: nat)
    requires Enabled(s, t) && Looks(s, i) && Take(s, t).count == 0
    requires PopperOk(s, i) && (s.count == 0 || t.CloseStep?)
    ensures Looks(Take(s, t), i) || Take(s, t).woken
  {}

  lemma IoStillLooks(s: State, t: Step)
    requires Enabled(s, t) && IoLooks(s) && s.count == 0 && (s.io.IoPushing? ==> s.io.n <= |s.queues|)
    ensures IoLooks(Take(s, t)) || Take(s, t).woken
  {}

  lemma NoticedStep(s: State, t: Step)
    requires InOrder(s) && Enabled(s, t) && !Hangs(s, t)
    ensures Take(s, t).count == 0 ==> Noticed(Take(s, t))
  {
    var s' := Take(s, t);
    if s'.count == 0 {
      if t.FinishStep? {
        assert Looks(s', t.i);
      } else if s.count > 0 {
        if t.CloseStep? {
          LastDropped(s, t);
        } else if t.FireStep? {
          assert IoLooks(s');
        } else {
          NotLast(s, t);
        }
      } else if IoLooks(s) {
        IoStillLooks(s, t);
      } else if !s.woken {
        var i: nat :| Looks(s, i);
        assert PopperOk(s, i);
        StillLooks(s, t, i);
      }
    }
  }

  /** A registration is dropped for another runnable that stays. */
  lemma NotLast(s: State, t: Step)
    requires Conserved(s) && Enabled(s, t) && s.count > 0 && !t.FinishStep? && !t.CloseStep? && !t.FireStep?
    ensures Take(s, t).count > 0
  {
    SumsPositive(s);
  }

  /** When a close drops the last runnables, either a thread is about to look, or the pipe wakes the I/O thread. */
  lemma LastDropped(s: State, t: Step)
    requires InOrder(s) && Enabled(s, t) && !Hangs(s, t) && t.CloseStep? && s.count > 0 && Take(s, t).count == 0
    ensures Noticed(Take(s, t))
  {
    NoneLeft(s);
    if s.wakeup == 0 {
      var i: nat :| i < |s.poppers| && !s.poppers[i].Popping?;
      assert PopperOk(s, i);
      OnlyRegistered(s);
      assert Looks(Take(s, t), i);
    }
  }

  /** When what is registered is all there is, nobody executes and no runnable is queued. */
  lemma OnlyRegistered(s: State)
    requires Conserved(s) && s.count == s.registered
    ensures forall i: nat | i < |s.poppers| :: !s.poppers[i].Executing?
    ensures forall k: nat | k < |s.pending| :: s.pending[k] == 0
    ensures forall j: nat | j < |s.queues| :: true !in s.queues[j]
  {
    SumsPositive(s);
    forall j: nat | j < |s.queues|
      ensures true !in s.queues[j]
    {
      RealsIn(s.queues[j]);
    }
  }

  lemma StepInOrder(s: State, t: Step)
    requires InOrder(s) && Enabled(s, t) && !Hangs(s, t)
    ensures InOrder(Take(s, t))
  {
    ConservedStep(s, t);
    PoppersStep(s, t);
    IoStepOk(s, t);
    ListsStep(s, t);
    NoticedStep(s, t);
  }

  // ---------------------------------------------------------------- queues and pipe, step by step

  /** The sentinel or runnable that a step pushes on queue j, if any. */
  function PushedOn(s: State, t: Step, j: nat): seq<bool>
    requires Enabled(s, t)
  {
    match t
    case PushStep(i) => if s.poppers[i].n == j then [false] else []
    case IoPushStep => if s.io.n == j then [false] else []
    case SpawnStep(_, k) => if k == j then [true] else []
    case FireStep(k, duplicate) => if k == j && !duplicate then [true] else []
    case _ => []
  }

  /** Each queue is first in, first out, and is popped by its own thread only. */
  lemma QueuesAreFifo(s: State, t: Step, j: nat)
    requires Enabled(s, t) && j < |s.queues|
    ensures |Take(s, t).queues| == |s.queues|
    ensures (if t == PopStep(j) then [s.queues[j][0]] else []) + Take(s, t).queues[j] == s.queues[j] + PushedOn(s, t, j)
    ensures t == PopStep(j) && j < |Take(s, t).poppers| ==>
              Take(s, t).poppers[j] == if s.queues[j][0] then Executing(false) else Check
  {
    if t == PopStep(j) {
      assert s.queues[j] == [s.queues[j][0]] + s.queues[j][1..];
    }
  }

  /** Who finds no runnable pushes one sentinel on each queue in turn, and then writes to the pipe and stops. */
  lemma SentinelsInTurn(s: State, i: nat)
    requires Enabled(s, PushStep(i)) && s.poppers[i].n <= |s.queues|
    ensures var n, s' := s.poppers[i].n, Take(s, PushStep(i));
            if n < |s.queues| then s'.poppers[i] == Pushing(n + 1) && s'.queues[n] == s.queues[n] + [false]
                                   && s'.wakeup == s.wakeup
            else s'.poppers[i] == Done && s'.queues == s.queues && s'.wakeup == s.wakeup + 1
  {}

  /** A registration is counted in its list, and the thread owes a byte exactly if the list was empty; so with the
      request to close a descriptor. */
  lemma OwesIfEmpty(s: State, i: nat, k: nat)
    requires Enabled(s, RegisterStep(i, k))
    ensures Owes(Take(s, RegisterStep(i, k)), i) <==> s.pending[k] == 0
    ensures Owes(Take(s, CloseRequestStep(i)), i) <==> s.closes == 0
    ensures Take(s, RegisterStep(i, k)).pending[k] == s.pending[k] + 1
    ensures Take(s, CloseRequestStep(i)).closes == s.closes + 1
  {}

  /** The bytes in the pipe: a thread that owes one writes one, and so does one that has pushed all its sentinels; the
      I/O thread reads at most three, if select found some. */
  lemma PipeBytes(s: State, t: Step)
    requires Enabled(s, t)
    ensures var read := if t.ReadPipeStep? && s.io.readable then Min(3, s.wakeup) else 0;
            var written := if t.WakeStep? || (t.PushStep? && s.poppers[t.i].n >= |s.queues|)
                              || (t.IoPushStep? && s.io.n >= |s.queues|) then 1 else 0;
            Take(s, t).wakeup == s.wakeup + written - read
    ensures t.SelectStep? ==> (Take(s, t).io == Firing(s.wakeup > 0))
  {}

  function Min(a: nat, b: nat): nat {
    if a < b then a else b
  }
}
