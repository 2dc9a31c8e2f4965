/**
 Threads that each lock the automata of one execution in ascending order, execute, and unlock in the order of
 a second walk over the same automata (include/ioa/action_executor.hpp, lock_in_order and unlock_in_order).  Any
 number of threads, any lock sets.
 */
module OrderedLocking {
  import opened Common
  import opened Bindings
  import opened AscendingSets
  import opened OutputCore

  /** n counts the locks already taken, or already released. */
  datatype Thread = Idle | Acquiring(order: seq<Aid>, n: nat) | Releasing(order: seq<Aid>, n: nat)

  type Threads = seq<Thread>

  datatype Step = Begin(i: nat, order: seq<Aid>) | Acquire(i: nat) | Execute(i: nat, release: seq<Aid>)
                | Release(i: nat) | End(i: nat)

  function Held(t: Thread): seq<Aid> {
    match t
    case Idle => []
    case Acquiring(order, n) => if n <= |order| then order[..n] else []
    case Releasing(order, n) => if n <= |order| then order[n..] else []
  }

  predicate Free(ts: Threads, a: Aid) {
    forall j | 0 <= j < |ts| :: a !in Held(ts[j])
  }

  predicate Enabled(ts: Threads, s: Step) {
    && s.i < |ts|
    && match s
       case Begin(i, order) => ts[i].Idle? && Ascending(order)
       case Acquire(i) => ts[i].Acquiring? && ts[i].n < |ts[i].order| && Free(ts, ts[i].order[ts[i].n])
       case Execute(i, release) =>
         && ts[i].Acquiring? && ts[i].n == |ts[i].order|
         && Ascending(release) && Members(release) == Members(ts[i].order)
       case Release(i) => ts[i].Releasing? && ts[i].n < |ts[i].order|
       case End(i) => ts[i].Releasing? && ts[i].n == |ts[i].order|
  }

  function Moved(t: Thread, s: Step): Thread {
    match s
    case Begin(_, order) => Acquiring(order, 0)
    case Acquire(_) => if t.Idle? then t else t.(n := t.n + 1)
    case Execute(_, release) => if t.Idle? then t else Releasing(release, 0)
    case Release(_) => if t.Idle? then t else t.(n := t.n + 1)
    case End(_) => Idle
  }

  function Take(ts: Threads, s: Step): Threads
    requires Enabled(ts, s)
  {
    ts[s.i := Moved(ts[s.i], s)]
  }

  ghost predicate ThreadOk(t: Thread) {
    !t.Idle? ==> Ascending(t.order) && t.n <= |t.order|
  }

  predicate Apart(ts: Threads, i: nat, j: nat) {
    i < |ts| && j < |ts| && forall a | a in Held(ts[i]) :: a !in Held(ts[j])
  }

  /** Locks are taken in order, and no lock is held twice. */
  ghost predicate Inv(ts: Threads) {
    && (forall i {:trigger ThreadOk(ts[i])} | 0 <= i < |ts| :: ThreadOk(ts[i]))
    && (forall i: nat, j: nat {:trigger Apart(ts, i, j)} | i < |ts| && j < |ts| && i != j :: Apart(ts, i, j))
  }

  lemma HeldAfter(t: Thread, s: Step, a: Aid)
    requires ThreadOk(t) && (s.Begin? ==> t.Idle?)
    requires s.Acquire? ==> t.Acquiring? && t.n < |t.order|
    requires s.Execute? ==> t.Acquiring? && t.n == |t.order| && Members(s.release) == Members(t.order)
    requires s.Release? ==> t.Releasing? && t.n < |t.order|
    requires a in Held(Moved(t, s))
    ensures a in Held(t) || (s.Acquire? && a == t.order[t.n])
  {
    if s.Release? {
      assert t.order[t.n..] == [t.order[t.n]] + t.order[t.n + 1..];
    }
    if s.Execute? {
      assert a in Members(s.release);
    }
  }

  lemma StepInv(ts: Threads, s: Step)
    requires Inv(ts) && Enabled(ts, s)
    ensures Inv(Take(ts, s))
  {
    var ts' := Take(ts, s);
    assert ThreadOk(ts[s.i]);
    forall i | 0 <= i < |ts'|
      ensures ThreadOk(ts'[i])
    {
      assert ThreadOk(ts[i]);
    }
    forall i: nat, j: nat | i < |ts'| && j < |ts'| && i != j
      ensures Apart(ts', i, j)
    {
      assert Apart(ts, i, j) && Apart(ts, j, i);
      forall a | a in Held(ts'[i])
        ensures a !in Held(ts'[j])
      {
        if i == s.i {
          HeldAfter(ts[i], s, a);
        } else if j == s.i && a in Held(ts'[j]) {
          HeldAfter(ts[j], s, a);
        }
      }
    }
  }

  ghost predicate IsRun(n: nat, steps: seq<Step>)
    decreases |steps|, 0
  {
    steps == [] ||
    (IsRun(n, steps[..|steps| - 1]) && Enabled(After(n, steps[..|steps| - 1]), steps[|steps| - 1]))
  }

  ghost function After(n: nat, steps: seq<Step>): Threads
    requires IsRun(n, steps)
    decreases |steps|, 1
  {
    if steps == [] then seq(n, i => Idle) else Take(After(n, steps[..|steps| - 1]), steps[|steps| - 1])
  }

  lemma {:induction false} RunInv(n: nat, steps: seq<Step>)
    requires IsRun(n, steps)
    ensures Inv(After(n, steps))
    decreases |steps|
  {
    if steps != [] {
      RunInv(n, steps[..|steps| - 1]);
      StepInv(After(n, steps[..|steps| - 1]), steps[|steps| - 1]);
    }
  }

  // ---------------------------------------------------------------- no cyclic wait

  predicate Wants(ts: Threads, i: nat) {
    i < |ts| && ts[i].Acquiring? && ts[i].n < |ts[i].order|
  }

  function Wanted(ts: Threads, i: nat): Aid
    requires Wants(ts, i)
  {
    ts[i].order[ts[i].n]
  }

  /** Thread i wants a lock that thread j holds. */
  predicate WaitsFor(ts: Threads, i: nat, j: nat) {
    Wants(ts, i) && j < |ts| && Wanted(ts, i) in Held(ts[j])
  }

  /** What a thread waits for lies below what the holder of it waits for. */
  lemma WaitingAscends(ts: Threads, i: nat, j: nat)
    requires Inv(ts) && WaitsFor(ts, i, j) && Wants(ts, j)
    ensures Wanted(ts, i) < Wanted(ts, j)
  {
    assert ThreadOk(ts[j]);
    var l :| 0 <= l < ts[j].n && ts[j].order[l] == Wanted(ts, i);
  }

  predicate Link(ts: Threads, chain: seq<nat>, l: nat) {
    l + 1 < |chain| && WaitsFor(ts, chain[l], chain[l + 1])
  }

  /** Each thread of the sequence waits for the next. */
  ghost predicate WaitingChain(ts: Threads, chain: seq<nat>) {
    forall l: nat {:trigger Link(ts, chain, l)} | l < |chain| - 1 :: Link(ts, chain, l)
  }

  lemma {:induction false} ChainAscends(ts: Threads, chain: seq<nat>)
    requires Inv(ts) && |chain| >= 2 && WaitingChain(ts, chain) && Wants(ts, chain[|chain| - 1])
    ensures Wants(ts, chain[0]) && Wanted(ts, chain[0]) < Wanted(ts, chain[|chain| - 1])
    decreases |chain|
  {
    assert Link(ts, chain, 0);
    if |chain| == 2 {
      WaitingAscends(ts, chain[0], chain[1]);
    } else {
      var rest := chain[1..];
      forall l: nat | l < |rest| - 1
        ensures Link(ts, rest, l)
      {
        assert Link(ts, chain, l + 1);
      }
      ChainAscends(ts, rest);
      WaitingAscends(ts, chain[0], chain[1]);
    }
  }

  /** No thread is in a chain of waiting that comes back to it: there is no cyclic wait, of any length. */
  lemma NoCyclicWait(n: nat, steps: seq<Step>, cycle: seq<nat>)
    requires IsRun(n, steps) && |cycle| >= 2 && cycle[0] == cycle[|cycle| - 1]
    ensures !WaitingChain(After(n, steps), cycle)
  {
    RunInv(n, steps);
    var ts := After(n, steps);
    if WaitingChain(ts, cycle) {
      assert Link(ts, cycle, 0);
      ChainAscends(ts, cycle);
    }
  }

  // ---------------------------------------------------------------- everybody finishes

  ghost function AllWanted(ts: Threads, above: int): set<Aid> {
    set i | 0 <= i < |ts| && Wants(ts, i) && above < Wanted(ts, i) :: Wanted(ts, i)
  }

  /** Whoever is in the middle of an execution, some thread can go on: following the locks upwards ends. */
  lemma {:induction false} SomeoneMoves(ts: Threads, i: nat) returns (s: Step)
    requires Inv(ts) && i < |ts| && !ts[i].Idle?
    ensures Enabled(ts, s) && !s.Begin?
    decreases if Wants(ts, i) then 1 + |AllWanted(ts, Wanted(ts, i))| else 0
  {
    assert ThreadOk(ts[i]);
    match ts[i]
    case Releasing(order, n) =>
      s := if n < |order| then Release(i) else End(i);
    case Acquiring(order, n) =>
      if n == |order| {
        s := Execute(i, order);
      } else if Free(ts, order[n]) {
        s := Acquire(i);
      } else {
        var j: nat :| j < |ts| && order[n] in Held(ts[j]);
        if Wants(ts, j) {
          WaitingAscends(ts, i, j);
          FewerAbove(ts, i, j);
        }
        s := SomeoneMoves(ts, j);
      }
  }

  lemma FewerAbove(ts: Threads, i: nat, j: nat)
    requires Wants(ts, i) && Wants(ts, j) && Wanted(ts, i) < Wanted(ts, j)
    ensures |AllWanted(ts, Wanted(ts, j))| < |AllWanted(ts, Wanted(ts, i))|
  {
    var a, b := AllWanted(ts, Wanted(ts, j)), AllWanted(ts, Wanted(ts, i));
    SubsetSize(a, b);
    assert Wanted(ts, j) in b && Wanted(ts, j) !in a;
  }

  /** The moves a thread still has to make to be idle. */
  function Remaining(t: Thread): int {
    match t
    case Idle => 0
    case Acquiring(order, n) => 2 * |order| - n + 2
    case Releasing(order, n) => |order| - n + 1
  }

  function AllRemaining(ts: Threads): (r: seq<int>)
    ensures |r| == |ts| && forall i | 0 <= i < |ts| :: r[i] == Remaining(ts[i])
  {
    seq(|ts|, i requires 0 <= i < |ts| => Remaining(ts[i]))
  }

  /** Every move but a new beginning brings the threads one step nearer to being idle; with SomeoneMoves, the
      executions under way all finish, whatever the order of the moves. */
  lemma MoveCounts(ts: Threads, s: Step)
    requires Inv(ts) && Enabled(ts, s) && !s.Begin?
    ensures Sum(AllRemaining(Take(ts, s))) == Sum(AllRemaining(ts)) - 1
  {
    assert ThreadOk(ts[s.i]);
    if s.Execute? {
      AscendingUnique(s.release, ts[s.i].order);
    }
    SumChange(AllRemaining(ts), AllRemaining(Take(ts, s)), s.i);
  }

  lemma AllIdle(ts: Threads)
    requires Inv(ts)
    ensures 0 <= Sum(AllRemaining(ts))
    ensures (forall i | 0 <= i < |ts| :: ts[i].Idle?) ==> Sum(AllRemaining(ts)) == 0
  {
    forall i | 0 <= i < |ts|
      ensures 0 <= AllRemaining(ts)[i]
    {
      assert ThreadOk(ts[i]);
    }
    SumAtLeast(AllRemaining(ts), 0);
    if forall i | 0 <= i < |ts| :: ts[i].Idle? {
      SumAtMost(AllRemaining(ts), 0);
    }
  }

  /** A sequence of moves without a new beginning. */
  ghost predicate Leads(ts: Threads, steps: seq<Step>, last: Threads)
    decreases |steps|
  {
    if steps == [] then last == ts
    else Enabled(ts, steps[0]) && !steps[0].Begin? && Leads(Take(ts, steps[0]), steps[1..], last)
  }

  /** From any reachable state the executions under way can be finished, and are after exactly the moves they
      have left. */
  lemma {:induction false} Finish(ts: Threads) returns (steps: seq<Step>, last: Threads)
    requires Inv(ts)
    ensures Leads(ts, steps, last) && |steps| == Sum(AllRemaining(ts))
    ensures |last| == |ts| && forall i | 0 <= i < |last| :: last[i].Idle?
    decreases Sum(AllRemaining(ts))
  {
    AllIdle(ts);
    if forall i | 0 <= i < |ts| :: ts[i].Idle? {
      steps, last := [], ts;
    } else {
      var i: nat :| i < |ts| && !ts[i].Idle?;
      var s := SomeoneMoves(ts, i);
      MoveCounts(ts, s);
      StepInv(ts, s);
      AllIdle(Take(ts, s));
      var rest;
      rest, last := Finish(Take(ts, s));
      steps := [s] + rest;
    }
  }

  // ---------------------------------------------------------------- executions at the same time

  /** Two threads can both hold all the locks of their executions, and so execute at the same time. */
  ghost predicate CanOverlap(a: seq<Aid>, b: seq<Aid>) {
    exists steps :: IsRun(2, steps) && After(2, steps) == [Acquiring(a, |a|), Acquiring(b, |b|)]
  }

  /** A run that takes k locks of the one execution and l of the other. */
  lemma {:induction false} TakesBoth(a: seq<Aid>, b: seq<Aid>, k: nat, l: nat) returns (steps: seq<Step>)
    requires Ascending(a) && Ascending(b) && Members(a) !! Members(b) && k <= |a| && l <= |b|
    ensures IsRun(2, steps) && After(2, steps) == [Acquiring(a, k), Acquiring(b, l)]
    decreases k + l
  {
    if k == 0 && l == 0 {
      BothBegin(a, b);
      steps := [Begin(0, a), Begin(1, b)];
    } else {
      var before := TakesBoth(a, b, if l == 0 then k - 1 else k, if l == 0 then 0 else l - 1);
      var s := Acquire(if l == 0 then 0 else 1);
      NoneInTheWay(a, b, if l == 0 then k - 1 else k, if l == 0 then 0 else l - 1);
      steps := before + [s];
      assert steps[..|steps| - 1] == before;
    }
  }

  lemma NoneInTheWay(a: seq<Aid>, b: seq<Aid>, k: nat, l: nat)
    requires Ascending(a) && Ascending(b) && Members(a) !! Members(b) && k <= |a| && l <= |b|
    ensures var ts := [Acquiring(a, k), Acquiring(b, l)];
            && (k < |a| ==> Enabled(ts, Acquire(0)) && Take(ts, Acquire(0)) == [Acquiring(a, k + 1), Acquiring(b, l)])
            && (l < |b| ==> Enabled(ts, Acquire(1)) && Take(ts, Acquire(1)) == [Acquiring(a, k), Acquiring(b, l + 1)])
  {
    if k < |a| {
      NotTaken(a, b, k, l);
    }
    if l < |b| {
      NotTaken(b, a, l, k);
    }
  }

  lemma NotTaken(a: seq<Aid>, b: seq<Aid>, k: nat, l: nat)
    requires Ascending(a) && Members(a) !! Members(b) && k < |a| && l <= |b|
    ensures a[k] !in a[..k] && a[k] !in b[..l]
  {
    assert a[k] in Members(a);
    assert forall x | x in b[..l] :: x in Members(b);
  }

  lemma BothBegin(a: seq<Aid>, b: seq<Aid>)
    requires Ascending(a) && Ascending(b)
    ensures IsRun(2, [Begin(0, a), Begin(1, b)])
    ensures After(2, [Begin(0, a), Begin(1, b)]) == [Acquiring(a, 0), Acquiring(b, 0)]
  {
    var first, both := [Begin(0, a)], [Begin(0, a), Begin(1, b)];
    assert first[..0] == [] && both[..1] == first;
    assert IsRun(2, []) && IsRun(2, first);
  }

  lemma OverlapIff(a: seq<Aid>, b: seq<Aid>)
    requires Ascending(a) && Ascending(b)
    ensures CanOverlap(a, b) <==> Members(a) !! Members(b)
  {
    if steps :| IsRun(2, steps) && After(2, steps) == [Acquiring(a, |a|), Acquiring(b, |b|)] {
      RunInv(2, steps);
      var ts := After(2, steps);
      assert Apart(ts, 0, 1) && Held(ts[0]) == a && Held(ts[1]) == b;
      assert forall x | x in Members(a) :: x in Held(ts[0]);
      assert forall x | x in Members(b) :: x in Held(ts[1]);
    }
    if Members(a) !! Members(b) {
      var steps := TakesBoth(a, b, |a|, |b|);
    }
  }

  /** An output of one automaton is not always kept apart from an input to it: it can be executed while another
      output, of automaton other, hands a value to own, exactly when none of its inputs has a larger identifier
      than own and the two executions have no other automaton in common. */
  lemma OutputDuringInput(own: Aid, ins: set<Aid>, other: Aid, jns: set<Aid>, a: seq<Aid>, b: seq<Aid>)
    requires own !in ins && other !in jns && own in jns
    requires Ascending(a) && Members(a) == Locked(own, ins) && Ascending(b) && Members(b) == Locked(other, jns)
    ensures CanOverlap(a, b) <==> !HasLarger(own, ins) && ins !! Members(b)
  {
    OverlapIff(a, b);
    assert own in Members(b);
    assert HasLarger(own, ins) ==> own in Members(a);
    assert forall x | x in ins :: x in Members(a);
  }
}
