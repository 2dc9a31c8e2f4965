/** What holds at the head of the run loop, and that every queued action has its turn. */
module FifoSchedulerTheorems {
  import opened AscendingSets
  import opened Timers
  import opened FifoScheduler

  /** Everything that the containers hold. */
  function Held(s: Sched): nat {
    |s.configq| + |s.userq| + |s.timerq| + |s.readq| + |s.writeq| + |s.times| + |s.reading| + |s.writing|
  }

  predicate Apart(q: seq<Action>, i: int, j: int) {
    0 <= i < j < |q| ==> q[i] != q[j]
  }

  ghost predicate NoDuplicates(q: seq<Action>) {
    forall i, j {:trigger Apart(q, i, j)} :: Apart(q, i, j)
  }

  ghost predicate Inv(s: Sched) {
    NoDuplicates(s.userq) && Agree(s.entries, s.times) && s.count == Held(s)
  }

  // ---------------------------------------------------------------- the user queue

  lemma PushKeeps(q: seq<Action>, a: Action)
    requires NoDuplicates(q)
    ensures NoDuplicates(PushUser(q, a)) && q <= PushUser(q, a)
  {
    forall i, j
      ensures Apart(PushUser(q, a), i, j)
    {
      assert Apart(q, i, j);
    }
  }

  lemma {:induction false} PushAllKeeps(q: seq<Action>, xs: seq<Action>)
    ensures NoDuplicates(q) ==> NoDuplicates(PushAll(q, xs))
    ensures q <= PushAll(q, xs)
    ensures forall a :: a in PushAll(q, xs) <==> a in q || a in xs
    decreases |xs|
  {
    if xs != [] {
      if NoDuplicates(q) {
        PushKeeps(q, xs[0]);
      }
      PushAllKeeps(PushUser(q, xs[0]), xs[1..]);
      assert xs == [xs[0]] + xs[1..];
    }
  }

  // ---------------------------------------------------------------- every stage keeps the invariant

  lemma HandKeeps(s: Sched, xs: seq<Action>)
    requires NoDuplicates(s.userq)
    ensures NoDuplicates(Hand(s, xs).userq) && s.userq <= Hand(s, xs).userq
    ensures Hand(s, xs).count - Held(Hand(s, xs)) == s.count - |xs| - Held(s)
  {
    PushAllKeeps(s.userq, xs);
  }

  lemma {:induction false} EntriesAgree(ts: seq<Timer>, m: map<Action, Time>, xs: seq<Timer>)
    requires Agree(ts, m)
    ensures Agree(EntriesAll(ts, m, xs), EarlierAll(m, xs))
    decreases |xs|
  {
    if xs != [] {
      RegisteredAgrees(ts, m, xs[0]);
      EntriesAgree(Registered(ts, m, xs[0]), Earlier(m, xs[0]), xs[1..]);
    }
  }

  lemma RegisterKeeps(s: Sched)
    requires Inv(s)
    ensures Inv(Register(s)) && Register(s).userq == s.userq
  {
    EntriesAgree(s.entries, s.times, s.timerq);
  }

  lemma NoEntryNoTime(ts: seq<Timer>, m: map<Action, Time>)
    requires Agree(ts, m)
    ensures |m| > 0 ==> ts != []
  {
    if |m| > 0 {
      var a :| a in m.Keys;
      assert Has(ts, Timer(m[a], a));
    }
  }

  lemma {:induction false} EntriesSize(ts: seq<Timer>, m: map<Action, Time>)
    requires Agree(ts, m)
    ensures |ts| == |m|
    decreases |ts|
  {
    if ts == [] {
      NoEntryNoTime(ts, m);
    } else {
      var a := ts[0].action;
      FirstEntryGone(ts, m);
      EntriesSize(ts[1..], m - {a});
      assert Has(ts, ts[0]);
      assert m.Keys == (m - {a}).Keys + {a};
    }
  }

  lemma FireTimersKeeps(s: Sched, now: Time)
    requires Inv(s)
    ensures Inv(FireTimers(s, now)) && s.userq <= FireTimers(s, now).userq
  {
    var n := Due(s.entries, now);
    FiredAgrees(s.entries, s.times, now);
    EntriesSize(s.entries, s.times);
    EntriesSize(s.entries[n..], Later(s.times, now));
    HandKeeps(s.(entries := s.entries[n..], times := Later(s.times, now)), ActionsOf(s.entries[..n]));
  }

  lemma OrderSize(m: map<Fd, Action>, ready: set<Fd>)
    ensures |m - ready| + |Order(m, ready)| == |m|
  {
    var fds := Order(m, ready);
    AscendingSize(fds);
    assert m.Keys == (m - ready).Keys + Members(fds);
    assert (m - ready).Keys !! Members(fds);
    assert |m| == |m.Keys| && |m - ready| == |(m - ready).Keys|;
  }

  lemma FireReadsKeeps(s: Sched, ready: set<Fd>)
    requires Inv(s)
    ensures Inv(FireReads(s, ready)) && s.userq <= FireReads(s, ready).userq
  {
    OrderSize(s.reading, ready);
    HandKeeps(s.(reading := s.reading - ready), Lookup(s.reading, Order(s.reading, ready)));
  }

  lemma FireWritesKeeps(s: Sched, ready: set<Fd>)
    requires Inv(s)
    ensures Inv(FireWrites(s, ready)) && s.userq <= FireWrites(s, ready).userq
  {
    OrderSize(s.writing, ready);
    HandKeeps(s.(writing := s.writing - ready), Lookup(s.writing, Order(s.writing, ready)));
  }

  lemma ApplyKeeps(s: Sched, c: Call)
    requires NoDuplicates(s.userq)
    ensures NoDuplicates(Apply(s, c).userq) && s.userq <= Apply(s, c).userq && s.configq <= Apply(s, c).configq
    ensures Apply(s, c).count - Held(Apply(s, c)) == s.count - Held(s)
  {
    if c.UserCall? {
      HandKeeps(s.(count := s.count + 1), [c.a]);
    }
  }

  /** Scheduling keeps what there is; s may be in the middle of an execution. */
  lemma {:induction false} CallsKeep(s: Sched, cs: seq<Call>)
    requires NoDuplicates(s.userq)
    ensures NoDuplicates(ApplyAll(s, cs).userq) && s.userq <= ApplyAll(s, cs).userq && s.configq <= ApplyAll(s, cs).configq
    ensures ApplyAll(s, cs).count - Held(ApplyAll(s, cs)) == s.count - Held(s)
    decreases |cs|
  {
    if cs != [] {
      ApplyKeeps(s, cs[0]);
      CallsKeep(Apply(s, cs[0]), cs[1..]);
    }
  }

  lemma RunConfigKeeps(s: Sched, cs: seq<Call>)
    requires Inv(s)
    ensures Inv(RunConfig(s, cs)) && s.userq <= RunConfig(s, cs).userq
  {
    RunsKeepTimers(s, cs);
    if s.configq != [] {
      CallsKeep(s.(configq := s.configq[1..]), cs);
    }
  }

  lemma RunUserKeeps(s: Sched, cs: seq<Call>)
    requires Inv(s)
    ensures Inv(RunUser(s, cs))
    ensures s.userq != [] ==> s.userq[1..] <= RunUser(s, cs).userq
  {
    RunsKeepTimers(s, cs);
    if s.userq != [] {
      var rest := s.userq[1..];
      forall i, j
        ensures Apart(rest, i, j)
      {
        assert Apart(s.userq, i + 1, j + 1);
      }
      CallsKeep(s.(userq := rest), cs);
    }
  }

  lemma ReadyKeeps(s: Sched, t: Turn)
    requires Inv(s)
    ensures Inv(Ready(s, t)) && s.userq <= Ready(s, t).userq
  {
    var s1 := Register(s);
    var s2 := FireTimers(s1, t.now);
    var s3 := FireReads(s2, t.readable);
    var s4 := FireWrites(s3, t.writable);
    RegisterKeeps(s);
    FireTimersKeeps(s1, t.now);
    FireReadsKeeps(s2, t.readable);
    FireWritesKeeps(s3, t.writable);
    RunConfigKeeps(s4, t.configCalls);
  }

  lemma IterateKeeps(s: Sched, t: Turn)
    requires Inv(s)
    ensures Inv(Iterate(s, t))
  {
    ReadyKeeps(s, t);
    RunUserKeeps(Ready(s, t), t.userCalls);
  }

  /** The loop goes on while a runnable exists, and then one of the containers holds one: it ends exactly when all
      are empty. */
  lemma ExitsWhenEmpty(s: Sched)
    requires Inv(s)
    ensures s.count == 0 <==> s == IDLE
  {
    EntriesSize(s.entries, s.times);
  }

  // ---------------------------------------------------------------- runs of the loop

  /** The state at the head of the loop after some turns, next being one turn. */
  ghost function After(next: (Sched, Turn) -> Sched, s: Sched, ts: seq<Turn>): Sched
    decreases |ts|
  {
    if ts == [] then s else After(next, next(s, ts[0]), ts[1..])
  }

  ghost function OneTurn(): (Sched, Turn) -> Sched {
    (s, t) => Iterate(s, t)
  }

  lemma {:induction false} RunInv(s: Sched, ts: seq<Turn>)
    requires Inv(s)
    ensures Inv(After(OneTurn(), s, ts))
    decreases |ts|
  {
    if ts != [] {
      IterateKeeps(s, ts[0]);
      RunInv(Iterate(s, ts[0]), ts[1..]);
    }
  }

  /** a has k actions before it in the user queue. */
  ghost predicate Waiting(s: Sched, k: nat, a: Action) {
    Inv(s) && k < |s.userq| && s.userq[k] == a
  }

  lemma OneUp(s: Sched, t: Turn, k: nat, a: Action)
    requires Waiting(s, k, a) && k > 0
    ensures Waiting(Iterate(s, t), k - 1, a)
  {
    ReadyKeeps(s, t);
    IterateKeeps(s, t);
    RunUserKeeps(Ready(s, t), t.userCalls);
    var q, q' := Ready(s, t).userq, Iterate(s, t).userq;
    assert q[1..][k - 1] == q[k] == s.userq[k];
    assert q'[k - 1] == q[1..][k - 1];
  }

  /** A turn moves every action up one place. */
  ghost predicate MovesUp(next: (Sched, Turn) -> Sched) {
    forall s, t, k: nat, a {:trigger next(s, t), Waiting(s, k, a)} :: Waiting(s, k, a) && k > 0 ==> Waiting(next(s, t), k - 1, a)
  }

  lemma TurnMovesUp()
    ensures MovesUp(OneTurn())
  {
    forall s, t, k: nat, a | Waiting(s, k, a) && k > 0
      ensures Waiting(OneTurn()(s, t), k - 1, a)
    {
      OneUp(s, t, k, a);
    }
  }

  lemma {:induction false} AllMoveUp(next: (Sched, Turn) -> Sched, s: Sched, ts: seq<Turn>, k: nat, a: Action)
    requires MovesUp(next) && Waiting(s, k, a) && |ts| <= k
    ensures Waiting(After(next, s, ts), k - |ts|, a)
    decreases |ts|
  {
    if ts != [] {
      AllMoveUp(next, next(s, ts[0]), ts[1..], k - 1, a);
    }
  }

  lemma NotEmpty(s: Sched, k: nat, a: Action)
    requires Waiting(s, k, a)
    ensures s.count != 0
  {}

  lemma HeadExecuted(s: Sched, t: Turn, a: Action)
    requires Waiting(s, 0, a)
    ensures Executed(s, t) == [a]
  {
    ReadyKeeps(s, t);
  }

  lemma InTurn(next: (Sched, Turn) -> Sched, s: Sched, ts: seq<Turn>, k: nat, a: Action)
    requires MovesUp(next) && Waiting(s, k, a) && |ts| == k
    ensures forall n: nat | n <= k :: After(next, s, ts[..n]).count != 0
    ensures Waiting(After(next, s, ts), 0, a)
  {
    forall n: nat | n <= k
      ensures After(next, s, ts[..n]).count != 0
    {
      AllMoveUp(next, s, ts[..n], k, a);
      NotEmpty(After(next, s, ts[..n]), k - n, a);
    }
    AllMoveUp(next, s, ts, k, a);
  }

  /** Whatever else happens, the action at position k is executed k + 1 turns later: nothing overtakes it, and the
      loop does not end before. */
  lemma ExecutedInTurn(s: Sched, ts: seq<Turn>, t: Turn, k: nat)
    requires Inv(s) && |ts| == k < |s.userq|
    ensures forall n: nat | n <= k :: After(OneTurn(), s, ts[..n]).count != 0
    ensures Executed(After(OneTurn(), s, ts), t) == [s.userq[k]]
  {
    var next := OneTurn();
    TurnMovesUp();
    InTurn(next, s, ts, k, s.userq[k]);
    HeadExecuted(After(next, s, ts), t, s.userq[k]);
  }

  /** A timer fires in the first turn whose clock is later than the earliest time registered for its action. */
  lemma TimerFires(s: Sched, t: Turn, a: Action)
    requires Inv(s) && a in Register(s).times
    ensures IsEarliest(s.times, s.timerq, a, Register(s).times[a])
    ensures var fired := FireTimers(Register(s), t.now);
            if Register(s).times[a] < t.now then a !in fired.times && a in fired.userq
            else a in fired.times && fired.times[a] == Register(s).times[a]
  {
    EarliestWins(s.times, s.timerq, a);
    RegisterKeeps(s);
    var r := Register(s);
    FiredAgrees(r.entries, r.times, t.now);
    var n := Due(r.entries, t.now);
    PushAllKeeps(r.userq, ActionsOf(r.entries[..n]));
    if r.times[a] < t.now {
      assert Has(r.entries[..n], Timer(r.times[a], a));
      var i :| 0 <= i < n && r.entries[i] == Timer(r.times[a], a);
      assert ActionsOf(r.entries[..n])[i] == a;
    }
  }
}
