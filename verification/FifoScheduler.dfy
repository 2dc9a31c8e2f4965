/**
 The single-threaded scheduler (lib/global_fifo_scheduler.cpp): the queues, the timer indexes, the registered
 descriptors, and the body of its run loop.  What select finds, the clock, and what the user's actions schedule
 are parameters.
 */
module FifoScheduler {
  import opened AscendingSets
  import opened Timers

  type Config = nat
  type Fd = nat

  datatype FdAction = FdAction(fd: Fd, action: Action)

  /** A runnable that is created and scheduled. */
  datatype Call = ConfigCall(c: Config) | UserCall(a: Action) | TimerCall(t: Timer) | ReadCall(r: FdAction) | WriteCall(w: FdAction)

  /** count is the number of runnables in existence. */
  datatype Sched = Sched(configq: seq<Config>, userq: seq<Action>, timerq: seq<Timer>, readq: seq<FdAction>,
                         writeq: seq<FdAction>, entries: seq<Timer>, times: map<Action, Time>,
                         reading: map<Fd, Action>, writing: map<Fd, Action>, count: int)

  const IDLE := Sched([], [], [], [], [], [], map[], map[], map[], 0)

  /** What one turn of the loop meets. */
  datatype Turn = Turn(now: Time, readable: set<Fd>, writable: set<Fd>, configCalls: seq<Call>, userCalls: seq<Call>)

  // ---------------------------------------------------------------- what the stages of the loop do

  function PushUser(q: seq<Action>, a: Action): seq<Action> {
    if a in q then q else q + [a]
  }

  function PushAll(q: seq<Action>, xs: seq<Action>): seq<Action>
    decreases |xs|
  {
    if xs == [] then q else PushAll(PushUser(q, xs[0]), xs[1..])
  }

  function ActionsOf(ts: seq<Timer>): (r: seq<Action>)
    ensures |r| == |ts| && forall i | 0 <= i < |ts| :: r[i] == ts[i].action
  {
    seq(|ts|, i requires 0 <= i < |ts| => ts[i].action)
  }

  function Lookup(m: map<Fd, Action>, fds: seq<Fd>): (r: seq<Action>)
    requires forall fd | fd in fds :: fd in m
    ensures |r| == |fds| && forall i | 0 <= i < |fds| :: r[i] == m[fds[i]]
  {
    seq(|fds|, i requires 0 <= i < |fds| => m[fds[i]])
  }

  function AddFd(m: map<Fd, Action>, x: FdAction): map<Fd, Action> {
    if x.fd in m then m else m[x.fd := x.action]
  }

  function AddFds(m: map<Fd, Action>, xs: seq<FdAction>): map<Fd, Action>
    decreases |xs|
  {
    if xs == [] then m else AddFds(AddFd(m, xs[0]), xs[1..])
  }

  /** Actions are handed to the user queue; the duplicates among them are deleted. */
  function Hand(s: Sched, xs: seq<Action>): Sched {
    var q := PushAll(s.userq, xs);
    s.(userq := q, count := s.count - |xs| + (|q| - |s.userq|))
  }

  function EntriesAll(ts: seq<Timer>, m: map<Action, Time>, xs: seq<Timer>): seq<Timer>
    decreases |xs|
  {
    if xs == [] then ts else EntriesAll(Registered(ts, m, xs[0]), Earlier(m, xs[0]), xs[1..])
  }

  /** All registrations are taken over; those that lose are deleted. */
  function Register(s: Sched): Sched {
    var times, reading, writing := EarlierAll(s.times, s.timerq), AddFds(s.reading, s.readq), AddFds(s.writing, s.writeq);
    s.(timerq := [], readq := [], writeq := [], entries := EntriesAll(s.entries, s.times, s.timerq), times := times,
       reading := reading, writing := writing,
       count := s.count - (|s.timerq| + |s.times| - |times|) - (|s.readq| + |s.reading| - |reading|)
                - (|s.writeq| + |s.writing| - |writing|))
  }

  function FireTimers(s: Sched, now: Time): Sched {
    var n := Due(s.entries, now);
    Hand(s.(entries := s.entries[n..], times := Later(s.times, now)), ActionsOf(s.entries[..n]))
  }

  ghost function Order(m: map<Fd, Action>, ready: set<Fd>): (fds: seq<Fd>)
    ensures Ascending(fds) && Members(fds) == m.Keys * ready && forall fd :: fd in fds <==> fd in m && fd in ready
  {
    var fds := AscendingKeys(m.Keys * ready);
    assert forall fd :: fd in fds <==> fd in Members(fds);
    fds
  }

  ghost function FireReads(s: Sched, ready: set<Fd>): Sched {
    Hand(s.(reading := s.reading - ready), Lookup(s.reading, Order(s.reading, ready)))
  }

  ghost function FireWrites(s: Sched, ready: set<Fd>): Sched {
    Hand(s.(writing := s.writing - ready), Lookup(s.writing, Order(s.writing, ready)))
  }

  function Apply(s: Sched, c: Call): Sched {
    match c
    case ConfigCall(x) => s.(configq := s.configq + [x], count := s.count + 1)
    case UserCall(a) => Hand(s.(count := s.count + 1), [a])
    case TimerCall(t) => s.(timerq := s.timerq + [t], count := s.count + 1)
    case ReadCall(x) => s.(readq := s.readq + [x], count := s.count + 1)
    case WriteCall(x) => s.(writeq := s.writeq + [x], count := s.count + 1)
  }

  function ApplyAll(s: Sched, cs: seq<Call>): Sched
    decreases |cs|
  {
    if cs == [] then s else ApplyAll(Apply(s, cs[0]), cs[1..])
  }

  function RunConfig(s: Sched, cs: seq<Call>): Sched {
    if s.configq == [] then s
    else var s' := ApplyAll(s.(configq := s.configq[1..]), cs); s'.(count := s'.count - 1)
  }

  function RunUser(s: Sched, cs: seq<Call>): Sched {
    if s.userq == [] then s
    else var s' := ApplyAll(s.(userq := s.userq[1..]), cs); s'.(count := s'.count - 1)
  }

  /** What follows select. */
  ghost function Events(s: Sched, t: Turn): Sched {
    FireWrites(FireReads(FireTimers(s, t.now), t.readable), t.writable)
  }

  /** One turn of the run loop up to the point where the user action is taken. */
  ghost function Ready(s: Sched, t: Turn): Sched {
    RunConfig(Events(Register(s), t), t.configCalls)
  }

  ghost function Iterate(s: Sched, t: Turn): Sched {
    RunUser(Ready(s, t), t.userCalls)
  }

  // ---------------------------------------------------------------- the scheduler

  class GlobalFifoScheduler {
    var configq: seq<Config>
    var userq: seq<Action>
    var timerq: seq<Timer>
    var readq: seq<FdAction>
    var writeq: seq<FdAction>
    var timeToAction: seq<Timer>
    var actionToTime: map<Action, Time>
    var readActions: map<Fd, Action>
    var writeActions: map<Fd, Action>
    var count: int

    ghost function State(): Sched
      reads this
    {
      Sched(configq, userq, timerq, readq, writeq, timeToAction, actionToTime, readActions, writeActions, count)
    }

    constructor ()
      ensures State() == IDLE
    {
      configq, userq, timerq, readq, writeq := [], [], [], [], [];
      timeToAction, actionToTime, readActions, writeActions, count := [], map[], map[], map[], 0;
    }

    method ScheduleUserq(a: Action)
      modifies this
      ensures State() == Hand(old(State()), [a])
      ensures userq == (if a in old(userq) then old(userq) else old(userq) + [a])
      ensures count == old(count) - if a in old(userq) then 1 else 0
      ensures configq == old(configq) && timerq == old(timerq) && readq == old(readq) && writeq == old(writeq)
      ensures timeToAction == old(timeToAction) && actionToTime == old(actionToTime)
      ensures readActions == old(readActions) && writeActions == old(writeActions)
    {
      PushOne(userq, a);
      if a !in userq {
        userq := userq + [a];
      } else {
        count := count - 1;
      }
    }

    /** An executing action creates a runnable and schedules it. */
    method Schedule(c: Call)
      modifies this
      ensures State() == Apply(old(State()), c)
      ensures configq == old(configq) + if c.ConfigCall? then [c.c] else []
      ensures userq == old(userq) + if c.UserCall? && c.a !in old(userq) then [c.a] else []
      ensures timerq == old(timerq) + if c.TimerCall? then [c.t] else []
      ensures readq == old(readq) + if c.ReadCall? then [c.r] else []
      ensures writeq == old(writeq) + if c.WriteCall? then [c.w] else []
      ensures count == old(count) + if c.UserCall? && c.a in old(userq) then 0 else 1
      ensures timeToAction == old(timeToAction) && actionToTime == old(actionToTime)
      ensures readActions == old(readActions) && writeActions == old(writeActions)
    {
      count := count + 1;
      match c
      case ConfigCall(x) => configq := configq + [x];
      case UserCall(a) => ScheduleUserq(a);
      case TimerCall(t) => timerq := timerq + [t];
      case ReadCall(x) => readq := readq + [x];
      case WriteCall(x) => writeq := writeq + [x];
    }

    method ScheduleAll(cs: seq<Call>)
      modifies this
      ensures State() == ApplyAll(old(State()), cs)
    {
      var i := 0;
      while i < |cs|
        invariant i <= |cs| && ApplyAll(State(), cs[i..]) == ApplyAll(old(State()), cs)
      {
        assert cs[i..][1..] == cs[i + 1..];
        Schedule(cs[i]);
        i := i + 1;
      }
    }

    /** multimap::find: the first entry of a time. */
    method FindTime(time: Time) returns (pos: nat)
      ensures pos <= |timeToAction| && forall i | 0 <= i < pos :: timeToAction[i].time != time
      ensures pos < |timeToAction| ==> timeToAction[pos].time == time
    {
      pos := 0;
      while pos < |timeToAction| && timeToAction[pos].time != time
        invariant pos <= |timeToAction| && forall i | 0 <= i < pos :: timeToAction[i].time != time
      {
        pos := pos + 1;
      }
    }

    /** multimap::erase of the entry with a time and an action, found by walking on from the first entry of that time;
        the walk does not leave the entries of that time. */
    method EraseEntry(x: Timer)
      requires Sorted(timeToAction) && Has(timeToAction, x)
      modifies `timeToAction
      ensures timeToAction == Without(old(timeToAction), x)
      ensures exists pos: nat :: pos < |old(timeToAction)| && old(timeToAction)[pos] == x
                                 && timeToAction == old(timeToAction)[..pos] + old(timeToAction)[pos + 1..]
    {
      var pos := FindTime(x.time);
      NotBefore(timeToAction, pos, x);
      while timeToAction[pos].action != x.action
        invariant timeToAction == old(timeToAction) && pos < |timeToAction| && Has(timeToAction[pos..], x)
        invariant timeToAction[pos].time == x.time
        invariant timeToAction[..pos] + Without(timeToAction[pos..], x) == Without(timeToAction, x)
        decreases |timeToAction| - pos
      {
        WithoutFirst(timeToAction, pos, x);
        SameTime(timeToAction, pos, x);
        pos := pos + 1;
      }
      assert timeToAction[pos..][0] == x && timeToAction[pos..][1..] == timeToAction[pos + 1..];
      assert Without(timeToAction[pos..], x) == timeToAction[pos + 1..];
      timeToAction := timeToAction[..pos] + timeToAction[pos + 1..];
    }

    method RegisterTimers()
      requires Agree(timeToAction, actionToTime)
      modifies this
      ensures Agree(timeToAction, actionToTime)
      ensures State() == old(State()).(timerq := [], entries := EntriesAll(old(timeToAction), old(actionToTime), old(timerq)),
                                       times := EarlierAll(old(actionToTime), old(timerq)),
                                       count := old(count) - Dropped(old(actionToTime), old(timerq)))
    {
      while timerq != []
        invariant Agree(timeToAction, actionToTime)
        invariant EntriesAll(timeToAction, actionToTime, timerq) == EntriesAll(old(timeToAction), old(actionToTime), old(timerq))
        invariant EarlierAll(actionToTime, timerq) == EarlierAll(old(actionToTime), old(timerq))
        invariant count - Dropped(actionToTime, timerq) == old(count) - Dropped(old(actionToTime), old(timerq))
        invariant State() == old(State()).(timerq := timerq, entries := timeToAction, times := actionToTime, count := count)
        decreases |timerq|
      {
        var a := timerq[0];
        timerq := timerq[1..];
        RegisterTimer(a);
      }
    }

    /** One registration: an earlier time replaces the one there is, a later one is dropped. */
    method RegisterTimer(a: Timer)
      requires Agree(timeToAction, actionToTime)
      modifies `timeToAction, `actionToTime, `count
      ensures Agree(timeToAction, actionToTime)
      ensures timeToAction == Registered(old(timeToAction), old(actionToTime), a)
      ensures actionToTime == Earlier(old(actionToTime), a)
      ensures count == old(count) - if a.action in old(actionToTime) then 1 else 0
    {
      RegisteredAgrees(timeToAction, actionToTime, a);
      if a.action !in actionToTime {
        timeToAction := Insert(timeToAction, a);
        actionToTime := actionToTime[a.action := a.time];
      } else if a.time < actionToTime[a.action] {
        count := count - 1;
        assert Has(timeToAction, Timer(actionToTime[a.action], a.action));
        EraseEntry(Timer(actionToTime[a.action], a.action));
        timeToAction := Insert(timeToAction, a);
        actionToTime := actionToTime[a.action := a.time];
      } else {
        count := count - 1;
      }
    }

    /** The registrations of a list of descriptors: a descriptor that has an action keeps it. */
    method TakeOver(q: seq<FdAction>, m: map<Fd, Action>) returns (m': map<Fd, Action>)
      modifies `count
      ensures m' == AddFds(m, q) && count == old(count) - (|q| + |m| - |m'|)
    {
      m' := m;
      var i := 0;
      while i < |q|
        invariant i <= |q| && AddFds(m', q[i..]) == AddFds(m, q)
        invariant count == old(count) - (i + |m| - |m'|)
      {
        assert q[i..][1..] == q[i + 1..];
        AddFdSize(m', q[i]);
        if q[i].fd !in m' {
          m' := m'[q[i].fd := q[i].action];
        } else {
          count := count - 1;
        }
        i := i + 1;
      }
    }

    /** Processes all registrations. */
    method RegisterAll()
      requires Agree(timeToAction, actionToTime)
      modifies this
      ensures Agree(timeToAction, actionToTime) && State() == Register(old(State()))
    {
      DroppedCounts(actionToTime, timerq);
      RegisterTimers();
      readActions := TakeOver(readq, readActions);
      readq := [];
      writeActions := TakeOver(writeq, writeActions);
      writeq := [];
    }

    /** Fires the timers that are earlier than now, from the front of the multimap. */
    method ProcessTimers(now: Time)
      requires Agree(timeToAction, actionToTime)
      modifies this
      ensures Agree(timeToAction, actionToTime) && State() == FireTimers(old(State()), now)
    {
      while timeToAction != [] && timeToAction[0].time < now
        invariant Agree(timeToAction, actionToTime)
        invariant FireTimers(State(), now) == FireTimers(old(State()), now)
        decreases |timeToAction|
      {
        var a := timeToAction[0].action;
        FireFirst(State(), now);
        timeToAction := timeToAction[1..];
        actionToTime := actionToTime - {a};
        ScheduleUserq(a);
      }
      NothingDue(State(), now);
    }

    /** Hands over the actions of the descriptors that are ready, in the order of the map. */
    method ProcessReady(m: map<Fd, Action>, ready: set<Fd>) returns (m': map<Fd, Action>)
      modifies this
      ensures m' == m - ready
      ensures State() == Hand(old(State()), Lookup(m, Order(m, ready)))
    {
      m' := m;
      var rest := m.Keys;
      ghost var left := Order(m, ready);
      while rest != {}
        invariant rest <= m.Keys && Ascending(left) && Members(left) == rest * ready
        invariant forall fd | fd in left :: fd in m
        invariant m' == m - (ready - rest)
        invariant Hand(State(), Lookup(m, left)) == Hand(old(State()), Lookup(m, Order(m, ready)))
        decreases rest
      {
        var pos := Smallest(rest);
        if pos in ready {
          SmallestFirst(left, pos);
          HandFirst(State(), m, left);
          ScheduleUserq(m[pos]);
          m' := m' - {pos};
          left := left[1..];
        }
        rest := rest - {pos};
      }
      NoMembers(left);
      assert left == [] && m' == m - ready;
    }

    /** What follows select: timers, then readable, then writable descriptors. */
    method ProcessEvents(t: Turn)
      requires Agree(timeToAction, actionToTime)
      modifies this
      ensures Agree(timeToAction, actionToTime)
      ensures State() == Events(old(State()), t)
      ensures readActions == old(readActions) - t.readable && writeActions == old(writeActions) - t.writable
    {
      ProcessTimers(t.now);
      var reading := ProcessReady(readActions, t.readable);
      readActions := reading;
      var writing := ProcessReady(writeActions, t.writable);
      writeActions := writing;
    }

    method ProcessConfig(calls: seq<Call>) returns (configured: seq<Config>)
      modifies this
      ensures State() == RunConfig(old(State()), calls)
      ensures configured == if old(configq) == [] then [] else [old(configq)[0]]
    {
      configured := [];
      if configq != [] {
        configured := [configq[0]];
        configq := configq[1..];
        ScheduleAll(calls);
        count := count - 1;
      }
    }

    method ProcessUser(calls: seq<Call>) returns (executed: seq<Action>)
      modifies this
      ensures State() == RunUser(old(State()), calls)
      ensures executed == if old(userq) == [] then [] else [old(userq)[0]]
    {
      executed := [];
      if userq != [] {
        executed := [userq[0]];
        userq := userq[1..];
        ScheduleAll(calls);
        count := count - 1;
      }
    }

    /** One turn of the run loop; configured and executed are the configuration runnable that was run and the user
        action that was executed, if any. */
    method RunOnce(t: Turn) returns (configured: seq<Config>, executed: seq<Action>)
      requires Agree(timeToAction, actionToTime)
      modifies this
      ensures Agree(timeToAction, actionToTime) && State() == Iterate(old(State()), t)
      ensures configured == Configured(old(State())) && executed == Executed(old(State()), t)
    {
      RegisterAll();
      ProcessEvents(t);
      RunsKeepTimers(State(), t.configCalls);
      configured := ProcessConfig(t.configCalls);
      RunsKeepTimers(State(), t.userCalls);
      executed := ProcessUser(t.userCalls);
    }
  }

  lemma RunsKeepTimers(s: Sched, cs: seq<Call>)
    ensures RunConfig(s, cs).entries == s.entries && RunConfig(s, cs).times == s.times
    ensures RunUser(s, cs).entries == s.entries && RunUser(s, cs).times == s.times
  {
    if s.configq != [] {
      CallsKeepTimers(s.(configq := s.configq[1..]), cs);
    }
    if s.userq != [] {
      CallsKeepTimers(s.(userq := s.userq[1..]), cs);
    }
  }

  /** The configuration runnable that a turn runs: what comes before it in the turn leaves the queue as it is. */
  function Configured(s: Sched): seq<Config> {
    if s.configq == [] then [] else [s.configq[0]]
  }

  /** The user action that a turn executes. */
  ghost function Executed(s: Sched, t: Turn): seq<Action> {
    var q := Ready(s, t).userq;
    if q == [] then [] else [q[0]]
  }

  lemma {:induction false} CallsKeepTimers(s: Sched, cs: seq<Call>)
    ensures ApplyAll(s, cs).entries == s.entries && ApplyAll(s, cs).times == s.times
    decreases |cs|
  {
    if cs != [] {
      CallsKeepTimers(Apply(s, cs[0]), cs[1..]);
    }
  }

  lemma AddFdSize(m: map<Fd, Action>, x: FdAction)
    ensures |AddFd(m, x)| == |m| + if x.fd in m then 0 else 1
  {
    if x.fd !in m {
      assert m[x.fd := x.action].Keys == m.Keys + {x.fd};
      assert |m| == |m.Keys| && |m[x.fd := x.action]| == |m[x.fd := x.action].Keys|;
    }
  }

  lemma {:induction false} PushAllConcat(q: seq<Action>, xs: seq<Action>, ys: seq<Action>)
    ensures PushAll(q, xs + ys) == PushAll(PushAll(q, xs), ys)
    decreases |xs|
  {
    if xs == [] {
      assert xs + ys == ys;
    } else {
      assert (xs + ys)[1..] == xs[1..] + ys;
      PushAllConcat(PushUser(q, xs[0]), xs[1..], ys);
    }
  }

  lemma HandTwice(s: Sched, xs: seq<Action>, ys: seq<Action>)
    ensures Hand(Hand(s, xs), ys) == Hand(s, xs + ys)
  {
    PushAllConcat(s.userq, xs, ys);
  }

  lemma HandFirst(s: Sched, m: map<Fd, Action>, left: seq<Fd>)
    requires left != [] && forall fd | fd in left :: fd in m
    ensures Hand(Hand(s, [m[left[0]]]), Lookup(m, left[1..])) == Hand(s, Lookup(m, left))
  {
    HandTwice(s, [m[left[0]]], Lookup(m, left[1..]));
    assert [m[left[0]]] + Lookup(m, left[1..]) == Lookup(m, left);
  }

  lemma FireFirst(s: Sched, now: Time)
    requires Agree(s.entries, s.times) && s.entries != [] && s.entries[0].time < now
    ensures var a := s.entries[0].action;
            && Agree(s.entries[1..], s.times - {a})
            && FireTimers(Hand(s.(entries := s.entries[1..], times := s.times - {a}), [a]), now) == FireTimers(s, now)
  {
    var ts, a := s.entries, s.entries[0].action;
    var n := Due(ts[1..], now);
    FirstEntryGone(ts, s.times);
    assert ts[1..][n..] == ts[n + 1..];
    assert [a] + ActionsOf(ts[1..][..n]) == ActionsOf(ts[..n + 1]);
    assert Has(ts, ts[0]);
    assert Later(s.times - {a}, now) == Later(s.times, now);
    HandTwice(s.(entries := ts[n + 1..], times := Later(s.times, now)), [a], ActionsOf(ts[1..][..n]));
  }

  lemma FirstEntryGone(ts: seq<Timer>, m: map<Action, Time>)
    requires Agree(ts, m) && ts != []
    ensures Agree(ts[1..], m - {ts[0].action})
  {
    DistinctTail(ts);
    forall x
      ensures Has(ts[1..], x) <==> x.action in m - {ts[0].action} && (m - {ts[0].action})[x.action] == x.time
    {
      assert ts == [ts[0]] + ts[1..];
      assert Has(ts, x) <==> x.action in m && m[x.action] == x.time;
      assert Has(ts, ts[0]);
    }
  }

  lemma NothingDue(s: Sched, now: Time)
    requires Agree(s.entries, s.times) && (s.entries == [] || s.entries[0].time >= now)
    ensures FireTimers(s, now) == s
  {
    forall a | a in s.times
      ensures s.times[a] >= now
    {
      assert Has(s.entries, Timer(s.times[a], a));
      var i :| 0 <= i < |s.entries| && s.entries[i] == Timer(s.times[a], a);
    }
    assert Later(s.times, now) == s.times;
    assert s.entries[0..] == s.entries;
    assert ActionsOf(s.entries[..0]) == [];
  }

  lemma PushOne(q: seq<Action>, a: Action)
    ensures PushAll(q, [a]) == PushUser(q, a)
  {
    assert [a][1..] == [];
  }

  lemma WithoutFirst(ts: seq<Timer>, pos: nat, x: Timer)
    requires pos < |ts| && ts[pos] != x && Has(ts[pos..], x)
    ensures pos + 1 < |ts| && Has(ts[pos + 1..], x)
    ensures ts[..pos] + Without(ts[pos..], x) == ts[..pos + 1] + Without(ts[pos + 1..], x)
  {
    assert ts[pos..] == [ts[pos]] + ts[pos + 1..];
    assert ts[..pos + 1] == ts[..pos] + [ts[pos]];
  }

  /** What comes before the first entry of its time is not the entry looked for. */
  lemma {:induction false} NotBefore(ts: seq<Timer>, pos: nat, x: Timer)
    requires Has(ts, x) && pos <= |ts| && forall i | 0 <= i < pos :: ts[i].time != x.time
    ensures pos < |ts| && Has(ts[pos..], x)
    ensures ts[..pos] + Without(ts[pos..], x) == Without(ts, x)
    decreases pos
  {
    if pos == 0 {
      assert ts[0..] == ts && ts[..0] == [];
    } else {
      NotBefore(ts, pos - 1, x);
      WithoutFirst(ts, pos - 1, x);
    }
  }

  /** Among sorted entries, those between two of one time have that time too. */
  lemma SameTime(ts: seq<Timer>, pos: nat, x: Timer)
    requires Sorted(ts) && pos < |ts| && ts[pos].time == x.time && ts[pos] != x && Has(ts[pos..], x)
    ensures pos + 1 < |ts| && ts[pos + 1].time == x.time
  {
    var i :| 0 <= i < |ts[pos..]| && ts[pos..][i] == x;
    assert ts[pos + i] == x && i > 0;
  }
}
