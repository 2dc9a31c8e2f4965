/**
 The two timer indexes of a scheduler (lib/global_fifo_scheduler.cpp): a multimap from time to action, kept
 here as the sequence of its entries in order, and a map from action to time.
 */
module Timers {

  type Action = nat
  type Time = int

  datatype Timer = Timer(time: Time, action: Action)

  predicate Sorted(ts: seq<Timer>) {
    forall i, j | 0 <= i < j < |ts| :: ts[i].time <= ts[j].time
  }

  predicate Has(ts: seq<Timer>, x: Timer) {
    x in ts
  }

  predicate Distinct(ts: seq<Timer>, i: int, j: int) {
    0 <= i < j < |ts| ==> ts[i].action != ts[j].action
  }

  /** Each action has one timer, and the two indexes say the same. */
  ghost predicate Agree(ts: seq<Timer>, m: map<Action, Time>) {
    && Sorted(ts)
    && (forall i, j {:trigger Distinct(ts, i, j)} :: Distinct(ts, i, j))
    && (forall x {:trigger Has(ts, x)} :: Has(ts, x) <==> x.action in m && m[x.action] == x.time)
  }

  /** multimap::insert: after the entries that are not later. */
  function Insert(ts: seq<Timer>, x: Timer): seq<Timer> {
    if ts == [] then [x]
    else if ts[0].time <= x.time then [ts[0]] + Insert(ts[1..], x)
    else [x] + ts
  }

  function Without(ts: seq<Timer>, x: Timer): seq<Timer> {
    if ts == [] then [] else if ts[0] == x then ts[1..] else [ts[0]] + Without(ts[1..], x)
  }

  /** How many entries a new one is put after. */
  function Place(ts: seq<Timer>, x: Timer): (n: nat)
    ensures n <= |ts|
  {
    if ts != [] && ts[0].time <= x.time then 1 + Place(ts[1..], x) else 0
  }

  /** A new entry comes after all entries that are not later and before all that are: entries of one time keep the
      order in which they were entered. */
  lemma {:induction false} InsertPlace(ts: seq<Timer>, x: Timer)
    ensures Insert(ts, x) == ts[..Place(ts, x)] + [x] + ts[Place(ts, x)..]
  {
    if ts != [] && ts[0].time <= x.time {
      var n := Place(ts[1..], x);
      InsertPlace(ts[1..], x);
      assert ts[..1 + n] == [ts[0]] + ts[1..][..n] && ts[1 + n..] == ts[1..][n..];
    }
  }

  lemma {:induction false} PlaceExactly(ts: seq<Timer>, x: Timer, i: nat)
    requires Sorted(ts) && i < |ts|
    ensures i < Place(ts, x) <==> ts[i].time <= x.time
  {
    if i > 0 && ts[0].time <= x.time {
      PlaceExactly(ts[1..], x, i - 1);
    }
  }

  lemma {:induction false} InsertHas(ts: seq<Timer>, x: Timer, y: Timer)
    ensures Has(Insert(ts, x), y) <==> Has(ts, y) || y == x
    ensures |Insert(ts, x)| == |ts| + 1
  {
    if ts != [] && ts[0].time <= x.time {
      InsertHas(ts[1..], x, y);
      assert ts == [ts[0]] + ts[1..];
    }
  }

  lemma {:induction false} InsertSorted(ts: seq<Timer>, x: Timer)
    requires Sorted(ts)
    ensures Sorted(Insert(ts, x))
  {
    if ts != [] && ts[0].time <= x.time {
      var rest := Insert(ts[1..], x);
      InsertSorted(ts[1..], x);
      forall j | 0 <= j < |rest|
        ensures ts[0].time <= rest[j].time
      {
        InsertHas(ts[1..], x, rest[j]);
        assert Has(rest, rest[j]);
      }
    }
  }

  ghost predicate AllDistinct(ts: seq<Timer>) {
    forall i, j {:trigger Distinct(ts, i, j)} :: Distinct(ts, i, j)
  }

  lemma DistinctTail(ts: seq<Timer>)
    requires AllDistinct(ts) && ts != []
    ensures AllDistinct(ts[1..]) && forall y | y in ts[1..] :: y.action != ts[0].action
  {
    forall i, j
      ensures Distinct(ts[1..], i, j)
    {
      assert Distinct(ts, i + 1, j + 1);
    }
    forall y | y in ts[1..]
      ensures y.action != ts[0].action
    {
      var j :| 0 <= j < |ts[1..]| && ts[1..][j] == y;
      assert Distinct(ts, 0, j + 1);
    }
  }

  lemma DistinctPush(x: Timer, ts: seq<Timer>)
    requires AllDistinct(ts) && forall y | y in ts :: y.action != x.action
    ensures AllDistinct([x] + ts)
  {
    forall i, j
      ensures Distinct([x] + ts, i, j)
    {
      assert Distinct(ts, i - 1, j - 1);
    }
  }

  lemma {:induction false} InsertDistinct(ts: seq<Timer>, x: Timer)
    requires AllDistinct(ts) && forall y | y in ts :: y.action != x.action
    ensures AllDistinct(Insert(ts, x))
  {
    if ts != [] && ts[0].time <= x.time {
      DistinctTail(ts);
      InsertDistinct(ts[1..], x);
      forall y | y in Insert(ts[1..], x)
        ensures y.action != ts[0].action
      {
        InsertHas(ts[1..], x, y);
        assert Has(Insert(ts[1..], x), y);
      }
      DistinctPush(ts[0], Insert(ts[1..], x));
    } else {
      DistinctPush(x, ts);
    }
  }

  lemma {:induction false} WithoutHas(ts: seq<Timer>, x: Timer, y: Timer)
    requires AllDistinct(ts)
    ensures Has(Without(ts, x), y) <==> Has(ts, y) && y != x
    ensures |Without(ts, x)| == |ts| - if Has(ts, x) then 1 else 0
  {
    if ts != [] {
      DistinctTail(ts);
      assert ts == [ts[0]] + ts[1..];
      WithoutHas(ts[1..], x, y);
    }
  }

  lemma {:induction false} WithoutOk(ts: seq<Timer>, x: Timer)
    requires Sorted(ts) && AllDistinct(ts)
    ensures Sorted(Without(ts, x)) && AllDistinct(Without(ts, x))
  {
    if ts != [] {
      DistinctTail(ts);
      if ts[0] != x {
        WithoutOk(ts[1..], x);
        var rest := Without(ts[1..], x);
        forall j | 0 <= j < |rest|
          ensures rest[j] in ts[1..]
        {
          WithoutHas(ts[1..], x, rest[j]);
          assert Has(rest, rest[j]);
        }
        DistinctPush(ts[0], rest);
      }
    }
  }

  // ---------------------------------------------------------------- registration

  function Earlier(m: map<Action, Time>, x: Timer): map<Action, Time> {
    if x.action in m && m[x.action] <= x.time then m else m[x.action := x.time]
  }

  /** What registering does to the multimap: an earlier time replaces the one there is. */
  function Registered(ts: seq<Timer>, m: map<Action, Time>, x: Timer): seq<Timer> {
    if x.action !in m then Insert(ts, x)
    else if x.time < m[x.action] then Insert(Without(ts, Timer(m[x.action], x.action)), x)
    else ts
  }

  lemma RegisteredAgrees(ts: seq<Timer>, m: map<Action, Time>, x: Timer)
    requires Agree(ts, m)
    ensures Agree(Registered(ts, m, x), Earlier(m, x))
  {
    var ts', m' := Registered(ts, m, x), Earlier(m, x);
    if x.action !in m {
      NewTimer(ts, m, x);
    } else if x.time < m[x.action] {
      var was := Timer(m[x.action], x.action);
      WithoutOk(ts, was);
      var left, rest := Without(ts, was), m - {x.action};
      forall y
        ensures Has(left, y) <==> y.action in rest && rest[y.action] == y.time
      {
        WithoutHas(ts, was, y);
        assert Has(ts, y) <==> y.action in m && m[y.action] == y.time;
      }
      NewTimer(left, rest, x);
      assert rest[x.action := x.time] == m';
    }
  }

  lemma NewTimer(ts: seq<Timer>, m: map<Action, Time>, x: Timer)
    requires Agree(ts, m) && x.action !in m
    ensures Agree(Insert(ts, x), m[x.action := x.time])
  {
    InsertSorted(ts, x);
    forall y | y in ts
      ensures y.action != x.action
    {
      assert Has(ts, y);
    }
    InsertDistinct(ts, x);
    forall y
      ensures Has(Insert(ts, x), y) <==> y.action in m[x.action := x.time] && m[x.action := x.time][y.action] == y.time
    {
      InsertHas(ts, x, y);
      assert Has(ts, y) <==> y.action in m && m[y.action] == y.time;
    }
  }

  /** A queue of registrations, taken one after the other. */
  function EarlierAll(m: map<Action, Time>, xs: seq<Timer>): map<Action, Time>
    decreases |xs|
  {
    if xs == [] then m else EarlierAll(Earlier(m, xs[0]), xs[1..])
  }

  /** t is the earliest of the times in m and xs for a. */
  ghost predicate IsEarliest(m: map<Action, Time>, xs: seq<Timer>, a: Action, t: Time) {
    && ((a in m && m[a] == t) || Timer(t, a) in xs)
    && (a in m ==> t <= m[a])
    && forall x | x in xs && x.action == a :: t <= x.time
  }

  /** Whatever the order of the registrations, an action ends up with the earliest of its times. */
  lemma {:induction false} EarliestWins(m: map<Action, Time>, xs: seq<Timer>, a: Action)
    ensures a in EarlierAll(m, xs) <==> a in m || exists x :: x in xs && x.action == a
    ensures a in EarlierAll(m, xs) ==> IsEarliest(m, xs, a, EarlierAll(m, xs)[a])
    decreases |xs|
  {
    if xs != [] {
      EarliestWins(Earlier(m, xs[0]), xs[1..], a);
      assert xs == [xs[0]] + xs[1..];
    }
  }

  /** How many registrations of a queue find an earlier time, or replace a later one: one timer is dropped for each. */
  function Dropped(m: map<Action, Time>, xs: seq<Timer>): nat
    decreases |xs|
  {
    if xs == [] then 0 else (if xs[0].action in m then 1 else 0) + Dropped(Earlier(m, xs[0]), xs[1..])
  }

  lemma {:induction false} DroppedCounts(m: map<Action, Time>, xs: seq<Timer>)
    ensures |EarlierAll(m, xs)| + Dropped(m, xs) == |m| + |xs|
    decreases |xs|
  {
    if xs != [] {
      DroppedCounts(Earlier(m, xs[0]), xs[1..]);
      EarlierSize(m, xs[0]);
    }
  }

  lemma EarlierSize(m: map<Action, Time>, x: Timer)
    ensures |Earlier(m, x)| == |m| + if x.action in m then 0 else 1
  {
    assert m[x.action := x.time].Keys == m.Keys + {x.action};
    if x.action in m {
      assert m.Keys + {x.action} == m.Keys;
    }
    assert |m| == |m.Keys| && |m[x.action := x.time]| == |m[x.action := x.time].Keys|;
  }

  // ---------------------------------------------------------------- firing

  /** The number of entries at the front of the multimap that are earlier than now. */
  function Due(ts: seq<Timer>, now: Time): (n: nat)
    ensures n <= |ts|
  {
    if ts == [] || ts[0].time >= now then 0 else 1 + Due(ts[1..], now)
  }

  function Later(m: map<Action, Time>, now: Time): map<Action, Time> {
    map a | a in m && m[a] >= now :: m[a]
  }

  lemma {:induction false} DueExactly(ts: seq<Timer>, now: Time, i: nat)
    requires Sorted(ts) && i < |ts|
    ensures i < Due(ts, now) <==> ts[i].time < now
  {
    if ts[0].time < now && i > 0 {
      assert ts[1..][i - 1] == ts[i];
      DueExactly(ts[1..], now, i - 1);
    }
  }

  lemma HasAt(ts: seq<Timer>, now: Time, x: Timer) returns (i: nat)
    requires Sorted(ts) && Has(ts, x)
    ensures i < |ts| && ts[i] == x && (i < Due(ts, now) <==> x.time < now)
  {
    i :| i < |ts| && ts[i] == x;
    DueExactly(ts, now, i);
  }

  lemma LeftHas(ts: seq<Timer>, now: Time, x: Timer)
    requires Sorted(ts)
    ensures Has(ts[Due(ts, now)..], x) <==> Has(ts, x) && x.time >= now
  {
    var n := Due(ts, now);
    if Has(ts[n..], x) {
      LeftIsLater(ts, now, x);
    }
    if Has(ts, x) && x.time >= now {
      LaterIsLeft(ts, now, x);
    }
  }

  lemma LaterIsLeft(ts: seq<Timer>, now: Time, x: Timer)
    requires Sorted(ts) && Has(ts, x) && x.time >= now
    ensures Has(ts[Due(ts, now)..], x)
  {
    var i := HasAt(ts, now, x);
    assert ts[Due(ts, now)..][i - Due(ts, now)] == x;
  }

  lemma LeftIsLater(ts: seq<Timer>, now: Time, x: Timer)
    requires Sorted(ts) && Has(ts[Due(ts, now)..], x)
    ensures Has(ts, x) && x.time >= now
  {
    var n := Due(ts, now);
    var j: nat :| j < |ts[n..]| && ts[n..][j] == x;
    DueExactly(ts, now, j + n);
    assert ts[j + n] == x;
  }

  lemma FiredHas(ts: seq<Timer>, now: Time, x: Timer)
    requires Sorted(ts)
    ensures Has(ts[..Due(ts, now)], x) <==> Has(ts, x) && x.time < now
  {
    var n := Due(ts, now);
    if Has(ts[..n], x) {
      var j: nat :| j < n && ts[..n][j] == x;
      DueExactly(ts, now, j);
      assert ts[j] == x;
    }
    if Has(ts, x) && x.time < now {
      var i := HasAt(ts, now, x);
      assert ts[..n][i] == x;
    }
  }

  /** Taking entries from the front while they are earlier than now removes exactly those that are. */
  lemma FiredAgrees(ts: seq<Timer>, m: map<Action, Time>, now: Time)
    requires Agree(ts, m)
    ensures Agree(ts[Due(ts, now)..], Later(m, now))
    ensures forall x :: Has(ts[..Due(ts, now)], x) <==> x.action in m && m[x.action] == x.time && x.time < now
  {
    var n := Due(ts, now);
    forall i, j
      ensures Distinct(ts[n..], i, j)
    {
      assert Distinct(ts, i + n, j + n);
    }
    forall x
      ensures Has(ts[n..], x) <==> x.action in Later(m, now) && Later(m, now)[x.action] == x.time
      ensures Has(ts[..n], x) <==> x.action in m && m[x.action] == x.time && x.time < now
    {
      assert Has(ts, x) <==> x.action in m && m[x.action] == x.time;
      LeftHas(ts, now, x);
      FiredHas(ts, now, x);
    }
  }
}
