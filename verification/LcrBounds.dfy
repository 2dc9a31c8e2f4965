/** How many messages LCR sends, and that its runs end. */
module LcrBounds {
  import opened Common
  import opened LcrAutomaton
  import opened LcrRing

  // ---------------------------------------------------------------- the sends an identifier still causes

  /** v is to be sent by node i, and m links lead from there to its origin. */
  function Hops(us: seq<Uid>, v: Uid, i: nat, m: nat): nat
    requires i < |us|
    decreases m
  {
    if m == 0 then 0
    else 1 + if us[Next(i, |us|)] >= v then 0 else Hops(us, v, Next(i, |us|), m - 1)
  }

  /** The sends that v, queued to be sent by node i, still causes. */
  ghost function Sends(us: seq<Uid>, i: nat, v: Uid): nat {
    if d: nat :| Travelled(us, i, v, d) then Hops(us, v, i, |us| - d) else 0
  }

  lemma OneOrigin(us: seq<Uid>, i: nat, v: Uid, d: nat)
    requires ValidUids(us) && Travelled(us, i, v, d)
    ensures Sends(us, i, v) == Hops(us, v, i, |us| - d)
  {
    var e: nat :| Travelled(us, i, v, e) && Sends(us, i, v) == Hops(us, v, i, |us| - e);
    var n := |us|;
    assert us[Back(i, d, n)] == us[Back(i, e, n)];
    assert Back(i, d, n) == Back(i, e, n);
  }

  /** Sent on once, v causes one send less; where it is not passed on it causes none any more. */
  lemma SendsDrop(us: seq<Uid>, i: nat, v: Uid)
    requires ValidUids(us) && i < |us| && Comes(us, i, v)
    ensures Sends(us, i, v) == 1 + if us[Next(i, |us|)] < v then Sends(us, Next(i, |us|), v) else 0
  {
    var d: nat :| Travelled(us, i, v, d);
    OneOrigin(us, i, v, d);
    if us[Next(i, |us|)] < v {
      FurtherOn(us, i, v, d);
      OneOrigin(us, Next(i, |us|), v, d + 1);
    }
  }

  ghost function Load(us: seq<Uid>, i: nat, q: seq<Uid>): nat {
    if q == [] then 0 else Sends(us, i, q[0]) + Load(us, i, q[1..])
  }

  lemma {:induction false} LoadPush(us: seq<Uid>, i: nat, q: seq<Uid>, v: Uid)
    ensures Load(us, i, q + [v]) == Load(us, i, q) + Sends(us, i, v)
  {
    if q == [] {
      assert q + [v] == [v];
    } else {
      assert (q + [v])[1..] == q[1..] + [v];
      LoadPush(us, i, q[1..], v);
    }
  }

  /** What is queued at a node, and on the link behind it, where one send is done. */
  ghost function Owed(us: seq<Uid>, r: Ring, i: nat): int
    requires i < |r.nodes| == |r.channels|
  {
    Load(us, i, r.nodes[i].send) + Load(us, i, r.channels[i]) - |r.channels[i]|
  }

  ghost function AllOwed(us: seq<Uid>, r: Ring): (s: seq<int>)
    requires |r.nodes| == |r.channels|
    ensures |s| == |r.nodes| && forall i | 0 <= i < |s| :: s[i] == Owed(us, r, i)
  {
    seq(|r.nodes|, i requires 0 <= i < |r.nodes| => Owed(us, r, i))
  }

  ghost function Potential(us: seq<Uid>, r: Ring): int
    requires |r.nodes| == |r.channels|
  {
    Sum(AllOwed(us, r))
  }

  // ---------------------------------------------------------------- steps

  lemma SendPays(us: seq<Uid>, r: Ring, i: nat)
    requires Inv(us, r) && Enabled(r, SendStep(i))
    ensures Potential(us, Take(r, SendStep(i))) == Potential(us, r) - 1
  {
    var r', v := Take(r, SendStep(i)), r.nodes[i].send[0];
    LoadPush(us, i, r.channels[i], v);
    assert Owed(us, r', i) == Owed(us, r, i) - 1;
    SumChange(AllOwed(us, r), AllOwed(us, r'), i);
  }

  /** The link behind node i loses the message ... */
  lemma LinkLoses(us: seq<Uid>, r: Ring, i: nat)
    requires Inv(us, r) && Enabled(r, DeliverStep(i))
    ensures var r' := r.(channels := r.channels[i := r.channels[i][1..]]);
            Potential(us, r') == Potential(us, r) - Sends(us, i, r.channels[i][0]) + 1
  {
    var r' := r.(channels := r.channels[i := r.channels[i][1..]]);
    assert Owed(us, r', i) == Owed(us, r, i) - Sends(us, i, r.channels[i][0]) + 1;
    SumChange(AllOwed(us, r), AllOwed(us, r'), i);
  }

  /** ... and the next node may queue it. */
  lemma NodeGains(us: seq<Uid>, r: Ring, j: nat, v: Uid)
    requires |r.nodes| == |r.channels| && j < |r.nodes|
    ensures var r' := r.(nodes := r.nodes[j := Receive(r.nodes[j], v)]);
            Potential(us, r') == Potential(us, r) + if v > r.nodes[j].u then Sends(us, j, v) else 0
  {
    var r' := r.(nodes := r.nodes[j := Receive(r.nodes[j], v)]);
    LoadPush(us, j, r.nodes[j].send, v);
    SumChange(AllOwed(us, r), AllOwed(us, r'), j);
  }

  lemma DeliverKeeps(us: seq<Uid>, r: Ring, i: nat)
    requires Inv(us, r) && Enabled(r, DeliverStep(i))
    ensures Potential(us, Take(r, DeliverStep(i))) == Potential(us, r)
  {
    var j, v := Next(i, |us|), r.channels[i][0];
    assert LinkOk(us, i, r.channels[i]) && NodeOk(us, j, r.nodes[j]);
    ComesTail(us, i, r.channels[i]);
    SendsDrop(us, i, v);
    LinkLoses(us, r, i);
    NodeGains(us, r.(channels := r.channels[i := r.channels[i][1..]]), j, v);
  }

  lemma ReportKeeps(us: seq<Uid>, r: Ring, i: nat)
    requires Inv(us, r) && Enabled(r, LeaderStep(i))
    ensures Potential(us, Take(r, LeaderStep(i))) == Potential(us, r)
  {
    SumChange(AllOwed(us, r), AllOwed(us, Take(r, LeaderStep(i))), i);
  }

  lemma InitAdds(us: seq<Uid>, r: Ring, i: nat)
    requires Inv(us, r) && Enabled(r, InitStep(i))
    ensures Potential(us, Take(r, InitStep(i))) <= Potential(us, r) + |us|
  {
    assert NodeOk(us, i, r.nodes[i]);
    LoadPush(us, i, r.nodes[i].send, us[i]);
    OwnSends(us, i);
    SumChange(AllOwed(us, r), AllOwed(us, Take(r, InitStep(i))), i);
  }

  lemma {:induction false} HopsAtMost(us: seq<Uid>, v: Uid, i: nat, m: nat)
    requires i < |us|
    ensures Hops(us, v, i, m) <= m
    decreases m
  {
    if m > 0 {
      HopsAtMost(us, v, Next(i, |us|), m - 1);
    }
  }

  lemma OwnSends(us: seq<Uid>, i: nat)
    requires ValidUids(us) && i < |us|
    ensures Sends(us, i, us[i]) == Hops(us, us[i], i, |us|) <= |us|
  {
    assert Travelled(us, i, us[i], 0);
    OneOrigin(us, i, us[i], 0);
    HopsAtMost(us, us[i], i, |us|);
  }

  // ---------------------------------------------------------------- the sum of the ranks

  /** How many of the identifiers are smaller than v. */
  function Smaller(us: seq<Uid>, v: Uid): nat {
    if us == [] then 0 else Smaller(us[..|us| - 1], v) + if us[|us| - 1] < v then 1 else 0
  }

  function Ranks(us: seq<Uid>): (s: seq<int>)
    ensures |s| == |us| && forall i | 0 <= i < |us| :: s[i] == Smaller(us, us[i]) + 1
  {
    seq(|us|, i requires 0 <= i < |us| => Smaller(us, us[i]) + 1)
  }

  /** Bits that say which identifiers are larger than x. */
  function Above(us: seq<Uid>, x: Uid): (s: seq<int>)
    ensures |s| == |us| && forall i | 0 <= i < |us| :: s[i] == if x < us[i] then 1 else 0
  {
    seq(|us|, i requires 0 <= i < |us| => if x < us[i] then 1 else 0)
  }

  lemma {:induction false} AboveAndBelow(us: seq<Uid>, x: Uid)
    requires x !in us
    ensures Sum(Above(us, x)) + Smaller(us, x) == |us|
  {
    if us != [] {
      var front, last := us[..|us| - 1], us[|us| - 1];
      AboveAndBelow(front, x);
      assert Above(us, x) == Above(front, x) + [if x < last then 1 else 0];
      SumConcat(Above(front, x), [if x < last then 1 else 0]);
      SumOne(if x < last then 1 else 0);
    }
  }

  lemma SumOne(x: int)
    ensures Sum([x]) == x
  {
    assert [x][1..] == [];
  }

  /** 1 + 2 + ... + n */
  function Triangle(n: nat): nat {
    if n == 0 then 0 else n + Triangle(n - 1)
  }

  lemma {:induction false} TriangleIs(n: nat)
    ensures 2 * Triangle(n) == n * (n + 1)
  {
    if n > 0 {
      TriangleIs(n - 1);
    }
  }

  /** Distinct identifiers have the ranks 1 to n, in some order. */
  lemma {:induction false} RanksSum(us: seq<Uid>)
    requires forall i, j | 0 <= i < j < |us| :: us[i] != us[j]
    ensures Sum(Ranks(us)) == Triangle(|us|)
  {
    if us != [] {
      var front, last := us[..|us| - 1], us[|us| - 1];
      RanksSum(front);
      AboveAndBelow(front, last);
      var most := Ranks(us)[..|us| - 1];
      forall i | 0 <= i < |front|
        ensures most[i] == Ranks(front)[i] + Above(front, last)[i]
      {
        assert us[i] == front[i];
      }
      SumPlus(Ranks(front), Above(front, last), most);
      assert Ranks(us) == most + [Smaller(front, last) + 1];
      SumConcat(most, [Smaller(front, last) + 1]);
      SumOne(Smaller(front, last) + 1);
    }
  }

  // ---------------------------------------------------------------- an identifier passes smaller ones only

  /** The m nodes after node i. */
  function After(i: nat, m: nat, n: nat): (s: set<nat>)
    requires i < n && m <= n
    decreases m
  {
    if m == 0 then {} else {Next(i, n)} + After(Next(i, n), m - 1, n)
  }

  lemma {:induction false} AfterMembers(i: nat, m: nat, n: nat, k: nat)
    requires i < n && m <= n
    ensures k in After(i, m, n) <==> k < n && (if k > i then k - i <= m else k + n - i <= m)
    decreases m
  {
    if m > 0 {
      AfterMembers(Next(i, n), m - 1, n, k);
    }
  }

  ghost function SmallerSet(us: seq<Uid>, v: Uid): set<nat> {
    set k: nat | k < |us| && us[k] < v
  }

  lemma OneMoreSmaller(s: set<nat>, j: nat, smaller: set<nat>)
    requires j in smaller && j !in s
    ensures |({j} + s) * smaller| == |s * smaller| + 1
  {
    assert ({j} + s) * smaller == s * smaller + {j};
  }

  lemma {:induction false} HopsPassSmaller(us: seq<Uid>, v: Uid, i: nat, m: nat)
    requires i < |us| && 1 <= m <= |us|
    ensures Hops(us, v, i, m) <= 1 + |After(i, m, |us|) * SmallerSet(us, v)|
    decreases m
  {
    var n, j, smaller := |us|, Next(i, |us|), SmallerSet(us, v);
    if us[j] < v && m > 1 {
      HopsPassSmaller(us, v, j, m - 1);
      AfterMembers(j, m - 1, n, j);
      OneMoreSmaller(After(j, m - 1, n), j, smaller);
    }
  }

  lemma {:induction false} SmallerSize(us: seq<Uid>, v: Uid)
    ensures |SmallerSet(us, v)| == Smaller(us, v)
  {
    if us != [] {
      var front, last := us[..|us| - 1], us[|us| - 1];
      SmallerSize(front, v);
      assert SmallerSet(us, v) == SmallerSet(front, v) + if last < v then {|us| - 1} else {};
    }
  }

  lemma HopsRank(us: seq<Uid>, i: nat)
    requires i < |us|
    ensures Hops(us, us[i], i, |us|) <= Ranks(us)[i]
  {
    HopsPassSmaller(us, us[i], i, |us|);
    SubsetSize(After(i, |us|, |us|) * SmallerSet(us, us[i]), SmallerSet(us, us[i]));
    SmallerSize(us, us[i]);
  }

  lemma InitialOwed(us: seq<Uid>, i: nat)
    requires ValidUids(us) && i < |us|
    ensures AllOwed(us, InitialRing(us))[i] <= Ranks(us)[i]
  {
    LoadPush(us, i, [], us[i]);
    assert [] + [us[i]] == [us[i]];
    OwnSends(us, i);
    HopsRank(us, i);
  }

  lemma InitialPotential(us: seq<Uid>)
    requires ValidUids(us)
    ensures Potential(us, InitialRing(us)) <= Triangle(|us|)
  {
    var r := InitialRing(us);
    forall i | 0 <= i < |us|
      ensures AllOwed(us, r)[i] <= Ranks(us)[i]
    {
      InitialOwed(us, i);
    }
    SumMonotone(AllOwed(us, r), Ranks(us));
    RanksSum(us);
  }

  lemma {:induction false} LoadAtLeast(us: seq<Uid>, i: nat, q: seq<Uid>)
    requires ValidUids(us) && i < |us| && AllCome(us, i, q)
    ensures Load(us, i, q) >= |q|
  {
    if q != [] {
      ComesTail(us, i, q);
      SendsDrop(us, i, q[0]);
      LoadAtLeast(us, i, q[1..]);
    }
  }

  lemma PotentialNonNegative(us: seq<Uid>, r: Ring)
    requires Inv(us, r)
    ensures 0 <= Potential(us, r)
  {
    forall i | 0 <= i < |us|
      ensures 0 <= AllOwed(us, r)[i]
    {
      assert LinkOk(us, i, r.channels[i]);
      LoadAtLeast(us, i, r.channels[i]);
    }
    SumAtLeast(AllOwed(us, r), 0);
  }

  // ---------------------------------------------------------------- runs

  function IsSend(s: Step): nat { if s.SendStep? then 1 else 0 }

  function IsDelivery(s: Step): nat { if s.DeliverStep? then 1 else 0 }

  function IsReport(s: Step): nat { if s.LeaderStep? then 1 else 0 }

  function IsInit(s: Step): nat { if s.InitStep? then 1 else 0 }

  /** How many steps of a run are of some kind. */
  function Count(steps: seq<Step>, kind: Step -> nat): nat {
    if steps == [] then 0 else Count(steps[..|steps| - 1], kind) + kind(steps[|steps| - 1])
  }

  lemma StepPays(us: seq<Uid>, r: Ring, s: Step)
    requires Inv(us, r) && Enabled(r, s)
    ensures Potential(us, Take(r, s)) + IsSend(s) <= Potential(us, r) + |us| * IsInit(s)
  {
    match s
    case SendStep(i) => SendPays(us, r, i);
    case DeliverStep(i) => DeliverKeeps(us, r, i);
    case LeaderStep(i) => ReportKeeps(us, r, i);
    case InitStep(i) => InitAdds(us, r, i);
  }

  lemma {:induction false} RunPays(us: seq<Uid>, steps: seq<Step>)
    requires ValidUids(us) && IsRun(us, steps)
    ensures Potential(us, LcrRing.After(us, steps)) + Count(steps, IsSend)
            <= Triangle(|us|) + |us| * Count(steps, IsInit)
    decreases |steps|
  {
    if steps == [] {
      InitialPotential(us);
    } else {
      var before, s := steps[..|steps| - 1], steps[|steps| - 1];
      RunPays(us, before);
      RunInv(us, before);
      StepPays(us, LcrRing.After(us, before), s);
      InitBudget(|us|, Count(before, IsInit), IsInit(s));
    }
  }

  lemma InitBudget(n: nat, a: nat, b: nat)
    ensures n * a + n * b == n * (a + b)
  {}

  /** At most n (n + 1) / 2 messages are sent, and at most n more for every initialisation. */
  lemma SendBound(us: seq<Uid>, steps: seq<Step>)
    requires ValidUids(us) && IsRun(us, steps)
    ensures 2 * Count(steps, IsSend) <= |us| * (|us| + 1) + 2 * |us| * Count(steps, IsInit)
  {
    RunPays(us, steps);
    RunInv(us, steps);
    PotentialNonNegative(us, LcrRing.After(us, steps));
    TriangleIs(|us|);
    TwiceBudget(Count(steps, IsSend), Triangle(|us|), |us|, Count(steps, IsInit));
  }

  lemma TwiceBudget(sends: nat, t: nat, n: nat, inits: nat)
    requires sends <= t + n * inits
    ensures 2 * sends <= 2 * t + 2 * n * inits
  {}

  function Queued(r: Ring): (s: seq<int>)
    ensures |s| == |r.channels| && forall i | 0 <= i < |s| :: s[i] == |r.channels[i]|
  {
    seq(|r.channels|, i requires 0 <= i < |r.channels| => |r.channels[i]|)
  }

  function Reports(r: Ring): (s: seq<int>)
    ensures |s| == |r.nodes| && forall i | 0 <= i < |s| :: s[i] == if r.nodes[i].report then 1 else 0
  {
    seq(|r.nodes|, i requires 0 <= i < |r.nodes| => if r.nodes[i].report then 1 else 0)
  }

  lemma StepCounts(r: Ring, s: Step)
    requires Enabled(r, s)
    ensures Sum(Queued(Take(r, s))) == Sum(Queued(r)) + IsSend(s) - IsDelivery(s)
    ensures Sum(Reports(Take(r, s))) <= Sum(Reports(r)) + IsDelivery(s) - IsReport(s)
  {
    var r' := Take(r, s);
    SumChange(Queued(r), Queued(r'), s.i);
    var k := if s.DeliverStep? then Next(s.i, |r.nodes|) else s.i;
    SumChange(Reports(r), Reports(r'), k);
  }

  lemma {:induction false} RunCounts(us: seq<Uid>, steps: seq<Step>)
    requires ValidUids(us) && IsRun(us, steps)
    ensures Count(steps, IsDelivery) + Sum(Queued(LcrRing.After(us, steps))) == Count(steps, IsSend)
    ensures Count(steps, IsReport) + Sum(Reports(LcrRing.After(us, steps))) <= Count(steps, IsDelivery)
    ensures |steps| == Count(steps, IsSend) + Count(steps, IsDelivery) + Count(steps, IsReport) + Count(steps, IsInit)
    decreases |steps|
  {
    if steps == [] {
      SumAtMost(Queued(InitialRing(us)), 0);
      SumAtLeast(Queued(InitialRing(us)), 0);
      SumAtMost(Reports(InitialRing(us)), 0);
    } else {
      RunCounts(us, steps[..|steps| - 1]);
      StepCounts(LcrRing.After(us, steps[..|steps| - 1]), steps[|steps| - 1]);
    }
  }

  lemma NoInits(us: seq<Uid>, steps: seq<Step>)
    requires ValidUids(us) && IsRun(us, steps) && Count(steps, IsInit) == 0
    ensures Count(steps, IsSend) <= Triangle(|us|)
  {
    RunPays(us, steps);
    RunInv(us, steps);
    PotentialNonNegative(us, LcrRing.After(us, steps));
  }

  lemma StepsPerSend(us: seq<Uid>, steps: seq<Step>)
    requires ValidUids(us) && IsRun(us, steps) && Count(steps, IsInit) == 0
    ensures |steps| <= 3 * Count(steps, IsSend)
  {
    RunCounts(us, steps);
    SumAtLeast(Queued(LcrRing.After(us, steps)), 0);
    SumAtLeast(Reports(LcrRing.After(us, steps)), 0);
  }

  /** Without initialisations every run ends: it has at most three steps for each message. */
  lemma RunLengthBound(us: seq<Uid>, steps: seq<Step>)
    requires ValidUids(us) && IsRun(us, steps) && Count(steps, IsInit) == 0
    ensures 2 * |steps| <= 3 * (|us| * (|us| + 1))
  {
    NoInits(us, steps);
    StepsPerSend(us, steps);
    TriangleIs(|us|);
  }
}
