/**
 What a turn of the run loop hands to the user queue: the registrations it takes over, and the timers and
 descriptors that fire.  The configuration queue is served in order.
 */
module FifoSchedulerEvents {
  import opened AscendingSets
  import opened Timers
  import opened FifoScheduler
  import opened FifoSchedulerTheorems

  // ---------------------------------------------------------------- registrations

  /** The action that the first registration of a descriptor in a list names. */
  ghost predicate IsFirstFor(xs: seq<FdAction>, fd: Fd, a: Action) {
    exists k: nat :: k < |xs| && xs[k] == FdAction(fd, a) && forall l: nat | l < k :: xs[l].fd != fd
  }

  /** m' is m with the registrations of xs: a descriptor keeps the action it has, otherwise its first registration
      counts. */
  ghost predicate FirstWins(m: map<Fd, Action>, xs: seq<FdAction>, m': map<Fd, Action>) {
    && (forall fd :: fd in m' <==> fd in m || exists x :: x in xs && x.fd == fd)
    && (forall fd | fd in m :: m'[fd] == m[fd])
    && (forall fd | fd in m' && fd !in m :: IsFirstFor(xs, fd, m'[fd]))
  }

  lemma {:induction false} AddedFirstWins(m: map<Fd, Action>, xs: seq<FdAction>)
    ensures FirstWins(m, xs, AddFds(m, xs))
    decreases |xs|
  {
    if xs != [] {
      var x, rest, m1 := xs[0], xs[1..], AddFd(m, xs[0]);
      var m' := AddFds(m1, rest);
      AddedFirstWins(m1, rest);
      assert xs == [x] + rest;
      forall fd
        ensures fd in m' <==> fd in m || exists y :: y in xs && y.fd == fd
      {
        assert fd in m' <==> fd in m1 || exists y :: y in rest && y.fd == fd;
      }
      forall fd | fd in m' && fd !in m
        ensures IsFirstFor(xs, fd, m'[fd])
      {
        if fd == x.fd {
          assert xs[0] == FdAction(fd, m'[fd]);
        } else {
          FirstForTail(xs, fd, m'[fd]);
        }
      }
    }
  }

  lemma FirstForTail(xs: seq<FdAction>, fd: Fd, a: Action)
    requires xs != [] && xs[0].fd != fd && IsFirstFor(xs[1..], fd, a)
    ensures IsFirstFor(xs, fd, a)
  {
    var k: nat :| k < |xs[1..]| && xs[1..][k] == FdAction(fd, a) && forall l: nat | l < k :: xs[1..][l].fd != fd;
    assert xs[k + 1] == FdAction(fd, a);
    forall l: nat | l < k + 1
      ensures xs[l].fd != fd
    {
      assert l > 0 ==> xs[l] == xs[1..][l - 1];
    }
  }

  /** Taking over the registrations: of two for one descriptor the first wins; nothing fires. */
  lemma RegistersExactly(s: Sched)
    ensures FirstWins(s.reading, s.readq, Register(s).reading) && FirstWins(s.writing, s.writeq, Register(s).writing)
    ensures Register(s).userq == s.userq && Register(s).configq == s.configq
    ensures Register(s).timerq == [] && Register(s).readq == [] && Register(s).writeq == []
  {
    AddedFirstWins(s.reading, s.readq);
    AddedFirstWins(s.writing, s.writeq);
  }

  // ---------------------------------------------------------------- what fires

  /** Of the actions of m exactly those of the ready descriptors go, the others stay. */
  predicate Released(m: map<Fd, Action>, ready: set<Fd>, m': map<Fd, Action>) {
    && (forall fd | fd in m :: if fd in ready then fd !in m' else fd in m' && m'[fd] == m[fd])
    && (forall fd | fd in m' :: fd in m)
  }

  predicate IsReady(m: map<Fd, Action>, ready: set<Fd>, a: Action) {
    exists fd :: fd in m && fd in ready && m[fd] == a
  }

  lemma ReadyActions(m: map<Fd, Action>, ready: set<Fd>, a: Action)
    ensures a in Lookup(m, Order(m, ready)) <==> IsReady(m, ready, a)
  {
    var fds := Order(m, ready);
    if a in Lookup(m, fds) {
      var i :| 0 <= i < |fds| && Lookup(m, fds)[i] == a;
      assert fds[i] in fds;
    }
    if fd :| fd in m && fd in ready && m[fd] == a {
      assert fd in fds;
      var i :| 0 <= i < |fds| && fds[i] == fd;
      assert Lookup(m, fds)[i] == a;
    }
  }

  predicate IsDue(m: map<Action, Time>, now: Time, a: Action) {
    a in m && m[a] < now
  }

  lemma DueActions(s: Sched, now: Time, a: Action)
    requires Inv(s)
    ensures a in ActionsOf(s.entries[..Due(s.entries, now)]) <==> IsDue(s.times, now, a)
  {
    var n := Due(s.entries, now);
    FiredAgrees(s.entries, s.times, now);
    if a in ActionsOf(s.entries[..n]) {
      var i :| 0 <= i < n && s.entries[i].action == a;
      assert s.entries[..n][i] == s.entries[i] && Has(s.entries[..n], s.entries[i]);
    }
    if IsDue(s.times, now, a) {
      assert Has(s.entries[..n], Timer(s.times[a], a));
      var i :| 0 <= i < n && s.entries[..n][i] == Timer(s.times[a], a);
      assert ActionsOf(s.entries[..n])[i] == a;
    }
  }

  /** What is handed over, in this order: the due timers by time, then the readable and the writable descriptors. */
  ghost function Fired(s: Sched, t: Turn): seq<Action> {
    ActionsOf(s.entries[..Due(s.entries, t.now)]) + Lookup(s.reading, Order(s.reading, t.readable))
    + Lookup(s.writing, Order(s.writing, t.writable))
  }

  lemma EventsInOrder(s: Sched, t: Turn)
    ensures Events(s, t).userq == PushAll(s.userq, Fired(s, t))
  {
    var a, b, c := ActionsOf(s.entries[..Due(s.entries, t.now)]), Lookup(s.reading, Order(s.reading, t.readable)),
                   Lookup(s.writing, Order(s.writing, t.writable));
    PushAllConcat(s.userq, a, b);
    PushAllConcat(s.userq, a + b, c);
  }

  /** After select an action is queued exactly if it was before, or its timer is due, or it is registered for
      reading at a readable descriptor, or for writing at a writable one; what has fired is registered no
      longer, and all else stays registered. */
  lemma EventsExactly(s: Sched, t: Turn)
    requires Inv(s)
    ensures var e := Events(s, t);
            && (forall a :: a in e.userq <==>
                  a in s.userq || IsDue(s.times, t.now, a) || IsReady(s.reading, t.readable, a)
                  || IsReady(s.writing, t.writable, a))
            && s.userq <= e.userq && NoDuplicates(e.userq) && e.configq == s.configq
            && Released(s.reading, t.readable, e.reading) && Released(s.writing, t.writable, e.writing)
            && (forall a | a in s.times :: if s.times[a] < t.now then a !in e.times else a in e.times && e.times[a] == s.times[a])
            && (forall a | a in e.times :: a in s.times)
  {
    EventsInOrder(s, t);
    PushAllKeeps(s.userq, Fired(s, t));
    forall a
      ensures a in Fired(s, t) <==>
              IsDue(s.times, t.now, a) || IsReady(s.reading, t.readable, a) || IsReady(s.writing, t.writable, a)
    {
      DueActions(s, t.now, a);
      ReadyActions(s.reading, t.readable, a);
      ReadyActions(s.writing, t.writable, a);
    }
  }

  // ---------------------------------------------------------------- the order in the user queue

  /** ys without some of its elements. */
  predicate Subsequence(xs: seq<Action>, ys: seq<Action>)
    decreases |ys|
  {
    if xs == [] then true
    else if ys == [] then false
    else if xs[0] == ys[0] then Subsequence(xs[1..], ys[1..])
    else Subsequence(xs, ys[1..])
  }

  /** Actions handed over keep their order; only duplicates are left out. */
  lemma {:induction false} PushedInOrder(q: seq<Action>, xs: seq<Action>)
    ensures q <= PushAll(q, xs) && Subsequence(PushAll(q, xs)[|q|..], xs)
    decreases |xs|
  {
    if xs != [] {
      var q' := PushUser(q, xs[0]);
      PushedInOrder(q', xs[1..]);
      var rest := PushAll(q', xs[1..])[|q'|..];
      if xs[0] in q {
        PushAllKeepsApart(q, xs[1..]);
        if rest != [] {
          assert rest[0] != xs[0];
        }
      } else {
        assert PushAll(q, xs)[|q|..] == [xs[0]] + rest;
      }
    }
  }

  /** What is appended was not there before. */
  lemma {:induction false} PushAllKeepsApart(q: seq<Action>, xs: seq<Action>)
    ensures q <= PushAll(q, xs) && forall a | a in PushAll(q, xs)[|q|..] :: a !in q
    decreases |xs|
  {
    if xs != [] {
      var q' := PushUser(q, xs[0]);
      PushAllKeepsApart(q', xs[1..]);
      if xs[0] !in q {
        assert PushAll(q, xs)[|q|..] == [xs[0]] + PushAll(q', xs[1..])[|q'|..];
        assert forall a | a in q :: a in q';
      }
    }
  }

  // ---------------------------------------------------------------- from the registration to the event

  lemma {:induction false} CallsAppend(s: Sched, cs: seq<Call>)
    ensures ApplyAll(s, cs).reading == s.reading && ApplyAll(s, cs).writing == s.writing
    ensures s.readq <= ApplyAll(s, cs).readq && s.writeq <= ApplyAll(s, cs).writeq
    decreases |cs|
  {
    if cs != [] {
      CallsAppend(Apply(s, cs[0]), cs[1..]);
    }
  }

  predicate Unregistered(m: map<Fd, Action>, xs: seq<FdAction>, fd: Fd) {
    fd !in m && forall x | x in xs :: x.fd != fd
  }

  lemma FirstOfItsFd(xs: seq<FdAction>, x: FdAction, ys: seq<FdAction>, m: map<Fd, Action>, m': map<Fd, Action>)
    requires Unregistered(m, xs, x.fd) && xs + [x] <= ys && FirstWins(m, ys, m')
    ensures x.fd in m' && m'[x.fd] == x.action
  {
    var n := |xs|;
    assert ys[n] == x && forall l: nat | l < n :: ys[l] == xs[l];
    assert forall l: nat | l < n :: xs[l] in xs;
  }

  lemma ReadRegistered(s: Sched, x: FdAction, cs: seq<Call>)
    requires Unregistered(s.reading, s.readq, x.fd)
    ensures var r := Register(ApplyAll(Apply(s, ReadCall(x)), cs));
            x.fd in r.reading && r.reading[x.fd] == x.action
  {
    var s1 := Apply(s, ReadCall(x));
    CallsAppend(s1, cs);
    RegistersExactly(ApplyAll(s1, cs));
    FirstOfItsFd(s.readq, x, ApplyAll(s1, cs).readq, s.reading, Register(ApplyAll(s1, cs)).reading);
  }

  lemma ReadFiresNow(r: Sched, x: FdAction, t: Turn)
    requires Inv(r) && x.fd in r.reading && r.reading[x.fd] == x.action
    ensures var e := Events(r, t);
            if x.fd in t.readable then x.action in e.userq && x.fd !in e.reading
            else x.fd in e.reading && e.reading[x.fd] == x.action
  {
    EventsExactly(r, t);
    assert x.fd in t.readable ==> IsReady(r.reading, t.readable, x.action);
  }

  lemma WriteRegistered(s: Sched, x: FdAction, cs: seq<Call>)
    requires Unregistered(s.writing, s.writeq, x.fd)
    ensures var r := Register(ApplyAll(Apply(s, WriteCall(x)), cs));
            x.fd in r.writing && r.writing[x.fd] == x.action
  {
    var s1 := Apply(s, WriteCall(x));
    CallsAppend(s1, cs);
    RegistersExactly(ApplyAll(s1, cs));
    FirstOfItsFd(s.writeq, x, ApplyAll(s1, cs).writeq, s.writing, Register(ApplyAll(s1, cs)).writing);
  }

  lemma WriteFiresNow(r: Sched, x: FdAction, t: Turn)
    requires Inv(r) && x.fd in r.writing && r.writing[x.fd] == x.action
    ensures var e := Events(r, t);
            if x.fd in t.writable then x.action in e.userq && x.fd !in e.writing
            else x.fd in e.writing && e.writing[x.fd] == x.action
  {
    EventsExactly(r, t);
    assert x.fd in t.writable ==> IsReady(r.writing, t.writable, x.action);
  }

  /** A read registration of a descriptor that has none is the action that fires when the descriptor is readable,
      whatever else is scheduled with it; until then it stays registered. */
  lemma ReadFires(s: Sched, x: FdAction, cs: seq<Call>, t: Turn)
    requires Inv(s) && Unregistered(s.reading, s.readq, x.fd)
    ensures var e := Events(Register(ApplyAll(Apply(s, ReadCall(x)), cs)), t);
            if x.fd in t.readable then x.action in e.userq && x.fd !in e.reading
            else x.fd in e.reading && e.reading[x.fd] == x.action
  {
    var r := Register(ApplyAll(Apply(s, ReadCall(x)), cs));
    Scheduled(s, ReadCall(x), cs);
    RegisterKeeps(ApplyAll(Apply(s, ReadCall(x)), cs));
    ReadRegistered(s, x, cs);
    ReadFiresNow(r, x, t);
  }

  /** The same for writing. */
  lemma WriteFires(s: Sched, x: FdAction, cs: seq<Call>, t: Turn)
    requires Inv(s) && Unregistered(s.writing, s.writeq, x.fd)
    ensures var e := Events(Register(ApplyAll(Apply(s, WriteCall(x)), cs)), t);
            if x.fd in t.writable then x.action in e.userq && x.fd !in e.writing
            else x.fd in e.writing && e.writing[x.fd] == x.action
  {
    var r := Register(ApplyAll(Apply(s, WriteCall(x)), cs));
    Scheduled(s, WriteCall(x), cs);
    RegisterKeeps(ApplyAll(Apply(s, WriteCall(x)), cs));
    WriteRegistered(s, x, cs);
    WriteFiresNow(r, x, t);
  }

  lemma Scheduled(s: Sched, c: Call, cs: seq<Call>)
    requires Inv(s)
    ensures Inv(ApplyAll(Apply(s, c), cs))
  {
    ApplyKeeps(s, c);
    CallsKeep(Apply(s, c), cs);
    CallsKeepTimers(Apply(s, c), cs);
  }

  // ---------------------------------------------------------------- the configuration queue

  ghost predicate WaitingConfig(s: Sched, k: nat, c: Config) {
    Inv(s) && k < |s.configq| && s.configq[k] == c
  }

  lemma ConfigOneUp(s: Sched, t: Turn, k: nat, c: Config)
    requires WaitingConfig(s, k, c) && k > 0
    ensures WaitingConfig(Iterate(s, t), k - 1, c)
  {
    IterateKeeps(s, t);
    ConfigShrinks(s, t);
    assert s.configq[1..][k - 1] == c;
  }

  /** A turn takes the head of the configuration queue and appends to it. */
  lemma ConfigShrinks(s: Sched, t: Turn)
    requires Inv(s) && s.configq != []
    ensures s.configq[1..] <= Iterate(s, t).configq
  {
    var r := Register(s);
    RegisterKeeps(s);
    RegistersExactly(s);
    EventsExactly(r, t);
    ReadyKeeps(s, t);
    var e := Events(r, t);
    CallsKeep(e.(configq := e.configq[1..]), t.configCalls);
    var q := Ready(s, t);
    if q.userq != [] {
      TailDistinct(q.userq);
      CallsKeep(q.(userq := q.userq[1..]), t.userCalls);
    }
  }

  lemma TailDistinct(q: seq<Action>)
    requires NoDuplicates(q) && q != []
    ensures NoDuplicates(q[1..])
  {
    forall i, j
      ensures Apart(q[1..], i, j)
    {
      assert Apart(q, i + 1, j + 1);
    }
  }

  ghost predicate ConfigMovesUp(next: (Sched, Turn) -> Sched) {
    forall s, t, k: nat, c {:trigger next(s, t), WaitingConfig(s, k, c)} ::
      WaitingConfig(s, k, c) && k > 0 ==> WaitingConfig(next(s, t), k - 1, c)
  }

  lemma TurnMovesConfigUp()
    ensures ConfigMovesUp(OneTurn())
  {
    forall s, t, k: nat, c | WaitingConfig(s, k, c) && k > 0
      ensures WaitingConfig(OneTurn()(s, t), k - 1, c)
    {
      ConfigOneUp(s, t, k, c);
    }
  }

  lemma {:induction false} ConfigsMoveUp(next: (Sched, Turn) -> Sched, s: Sched, ts: seq<Turn>, k: nat, c: Config)
    requires ConfigMovesUp(next) && WaitingConfig(s, k, c) && |ts| <= k
    ensures WaitingConfig(After(next, s, ts), k - |ts|, c)
    decreases |ts|
  {
    if ts != [] {
      ConfigsMoveUp(next, next(s, ts[0]), ts[1..], k - 1, c);
    }
  }

  /** The configuration queue is first in, first out: the runnable at position k is run k + 1 turns later, and the
      loop does not end before. */
  lemma ConfiguredInTurn(s: Sched, ts: seq<Turn>, k: nat)
    requires Inv(s) && |ts| == k < |s.configq|
    ensures forall n: nat | n <= k :: After(OneTurn(), s, ts[..n]).count != 0
    ensures Configured(After(OneTurn(), s, ts)) == [s.configq[k]]
  {
    TurnMovesConfigUp();
    forall n: nat | n <= k
      ensures After(OneTurn(), s, ts[..n]).count != 0
    {
      ConfigsMoveUp(OneTurn(), s, ts[..n], k, s.configq[k]);
    }
    ConfigsMoveUp(OneTurn(), s, ts, k, s.configq[k]);
  }
}
