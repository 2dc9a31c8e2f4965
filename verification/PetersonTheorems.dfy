/** What every run of the Peterson ring guarantees: safety, message bound, termination, election. */
module PetersonTheorems {
  import opened Common
  import opened PetersonPhases
  import opened PetersonAutomaton
  import opened PetersonRing

  // ---------------------------------------------------------------- safety

  /** A node that knows it is the leader has completed, or is in, the phase in which it is alone. */
  lemma LeaderRound(us: seq<Uid>, r: Ring, h: seq<Counter>, i: nat)
    requires Inv(us, r, h) && i < |us| && r.nodes[i].status != Unknown
    ensures Sole(Round(us, h[i].phase), i)
    ensures h[i].popped >= 2 * h[i].phase + 1
  {
    assert NodeOk(us, i, r.nodes[i], h[i]);
    ElectedIsSole(us, h[i].phase, i);
  }

  /** A node that is out of round k but has pushed that round's identifiers has become a relay. */
  lemma OutOfRound(us: seq<Uid>, j: nat, p: Node, c: Counter, k: nat)
    requires j < |us| && NodeOk(us, j, p, c)
    requires Round(us, k)[j].None? && c.pushed >= 2 * k + 1
    ensures p.mode == Relaying && c.popped == c.pushed
  {
    if k <= c.phase {
      RoundsShrink(us, j, k, c.phase);
    }
  }

  /** The identifier the leader received went all the way round, so everybody it passed is a relay. */
  lemma {:induction false} RelayBehindLeader(us: seq<Uid>, r: Ring, h: seq<Counter>, i: nat, d: nat)
    requires Inv(us, r, h) && i < |us| && r.nodes[i].status != Unknown && 1 <= d < |us|
    ensures var j := Back(i, d, |us|);
            r.nodes[j].mode == Relaying && h[j].pushed >= 2 * h[i].phase + 1 && h[j].popped == h[j].pushed
    decreases d
  {
    var j, k := Back(i, d, |us|), h[i].phase;
    LeaderRound(us, r, h, i);
    if d > 1 {
      RelayBehindLeader(us, r, h, i, d - 1);
    }
    assert Next(j, |us|) == Back(i, d - 1, |us|);
    assert LinkOk(us, j, r, h);
    assert h[j].pushed >= h[Next(j, |us|)].popped >= 2 * k + 1;
    OutOfRound(us, j, r.nodes[j], h[j], k);
  }

  /** At any time at most one node knows it is the leader; then it alone may still be active. */
  lemma LeaderIsAlone(us: seq<Uid>, steps: seq<Step>, i: nat)
    requires ValidUids(us) && IsRun(us, steps) && i < |us|
    requires After(us, steps).nodes[i].status != Unknown
    ensures forall j: nat | j < |us| && j != i ::
              After(us, steps).nodes[j].mode == Relaying && After(us, steps).nodes[j].status == Unknown
    ensures Largest(us, After(us, steps).nodes[i].uid0)
  {
    var r, h := After(us, steps), Counters(|us|, steps);
    RunInv(us, steps);
    LeaderRound(us, r, h, i);
    forall j: nat | j < |us| && j != i
      ensures r.nodes[j].mode == Relaying && r.nodes[j].status == Unknown
    {
      var d: nat := if j <= i then i - j else i + |us| - j;
      assert Back(i, d, |us|) == j;
      RelayBehindLeader(us, r, h, i, d);
      if r.nodes[j].status != Unknown {
        LeaderRound(us, r, h, j);
        if h[i].phase <= h[j].phase {
          SoleUnique(us, h[i].phase, i, h[j].phase, j);
        } else {
          SoleUnique(us, h[j].phase, j, h[i].phase, i);
        }
        assert false;
      }
    }
    SoleIsLargest(us, h[i].phase, i);
    assert NodeOk(us, i, r.nodes[i], h[i]);
  }

  lemma SoleIsLargest(us: seq<Uid>, k: nat, i: nat)
    requires ValidUids(us) && Sole(Round(us, k), i)
    ensures Largest(us, Round(us, k)[i].value)
  {
    var m := RoundMaximum(us, k, i);
    assert m == i;
  }

  function LeaderOutputs(steps: seq<Step>): nat {
    if steps == [] then 0
    else LeaderOutputs(steps[..|steps| - 1]) + Bit(steps[|steps| - 1].LeaderStep?)
  }

  /** Only the leader output makes a node REPORTED, and a REPORTED node stays so. */
  lemma ReportedStep(us: seq<Uid>, r: Ring, h: seq<Counter>, s: Step, i: nat)
    requires Inv(us, r, h) && Enabled(r, s) && i < |us|
    ensures Take(r, s).nodes[i].status == Reported <==>
            r.nodes[i].status == Reported || (s.LeaderStep? && s.i == i)
  {
    assert NodeOk(us, s.i, r.nodes[s.i], h[s.i]);
  }

  ghost predicate SomeoneReported(r: Ring) {
    exists i: nat :: i < |r.nodes| && r.nodes[i].status == Reported
  }

  /** The leader output happens at most once in a run, and has happened iff some node is REPORTED. */
  lemma {:induction false} LeaderAtMostOnce(us: seq<Uid>, steps: seq<Step>)
    requires ValidUids(us) && IsRun(us, steps)
    ensures LeaderOutputs(steps) <= 1
    ensures LeaderOutputs(steps) == 1 <==> SomeoneReported(After(us, steps))
    decreases |steps|
  {
    if steps != [] {
      var before, s := steps[..|steps| - 1], steps[|steps| - 1];
      LeaderAtMostOnce(us, before);
      RunInv(us, before);
      var r, r' := After(us, before), After(us, steps);
      forall i: nat | i < |us|
        ensures r'.nodes[i].status == Reported <==> r.nodes[i].status == Reported || (s.LeaderStep? && s.i == i)
      {
        ReportedStep(us, r, Counters(|us|, before), s, i);
      }
      if s.LeaderStep? {
        LeaderIsAlone(us, before, s.i);
        assert r'.nodes[s.i].status == Reported;
      }
    }
  }

  // ---------------------------------------------------------------- bounds

  lemma LastPushedRound(us: seq<Uid>, r: Ring, h: seq<Counter>, i: nat)
    requires Inv(us, r, h) && i < |us|
    ensures h[i].pushed >= 1 && (h[i].pushed - 1) / 2 <= Log2(|us|)
  {
    assert LinkOk(us, i, r, h);
    assert StreamOf(us, i)(h[i].pushed - 1).Some?;
    StreamNonEmpty(us, i, h[i].pushed - 1);
    RoundBound(us, (h[i].pushed - 1) / 2);
  }

  lemma PhaseBound(us: seq<Uid>, i: nat, p: Node, c: Counter)
    requires ValidUids(us) && i < |us| && NodeOk(us, i, p, c)
    ensures c.phase <= Log2(|us|)
  {
    assert Round(us, c.phase)[i].Some?;
    RoundBound(us, c.phase);
  }

  lemma FlowCounts(us: seq<Uid>, r: Ring, h: seq<Counter>, i: nat)
    requires Inv(us, r, h) && i < |us|
    ensures h[Next(i, |us|)].popped <= h[i].delivered <= h[i].sent <= h[i].pushed
  {
    assert LinkOk(us, i, r, h) && NodeOk(us, i, r.nodes[i], h[i]);
  }

  /** No node pushes more than two identifiers for each of the floor(log2 n) + 1 rounds. */
  lemma PushedBound(us: seq<Uid>, r: Ring, h: seq<Counter>, i: nat)
    requires Inv(us, r, h) && i < |us|
    ensures h[i].pushed <= 2 * (Log2(|us|) + 1)
    ensures h[i].phase <= Log2(|us|)
    ensures h[Next(i, |us|)].popped <= h[i].delivered <= h[i].sent <= h[i].pushed
  {
    LastPushedRound(us, r, h, i);
    PhaseBound(us, i, r.nodes[i], h[i]);
    FlowCounts(us, r, h, i);
  }

  function Sends(steps: seq<Step>): nat {
    if steps == [] then 0
    else Sends(steps[..|steps| - 1]) + Bit(steps[|steps| - 1].SendStep?)
  }

  function SentBy(h: seq<Counter>): (s: seq<int>)
    ensures |s| == |h| && forall i | 0 <= i < |h| :: s[i] == h[i].sent
  {
    seq(|h|, i requires 0 <= i < |h| => h[i].sent)
  }

  lemma {:induction false} SendsCounted(us: seq<Uid>, steps: seq<Step>)
    requires us != [] && IsRun(us, steps)
    ensures Sends(steps) == Sum(SentBy(Counters(|us|, steps)))
    decreases |steps|
  {
    var h := Counters(|us|, steps);
    if steps == [] {
      SumAtMost(SentBy(h), 0);
      SumAtLeast(SentBy(h), 0);
    } else {
      var before, s := steps[..|steps| - 1], steps[|steps| - 1];
      SendsCounted(us, before);
      SumChange(SentBy(Counters(|us|, before)), SentBy(h), s.i);
    }
  }

  /** A run sends at most 2 n (floor(log2 n) + 1) identifiers over the channels. */
  lemma SendBound(us: seq<Uid>, steps: seq<Step>)
    requires ValidUids(us) && IsRun(us, steps)
    ensures Sends(steps) <= |us| * (2 * (Log2(|us|) + 1))
  {
    RunInv(us, steps);
    SendsCounted(us, steps);
    var h := Counters(|us|, steps);
    forall i: nat | i < |us|
      ensures h[i].sent <= 2 * (Log2(|us|) + 1)
    {
      PushedBound(us, After(us, steps), h, i);
    }
    SumAtMost(SentBy(h), 2 * (Log2(|us|) + 1));
  }

  /** Everything a node has done, one unit for each of its steps. */
  function Work(p: Node, c: Counter): nat {
    c.sent + c.delivered + c.popped + c.phase + Bit(p.mode == Relaying) + Bit(p.status == Reported)
  }

  ghost function Works(us: seq<Uid>, steps: seq<Step>): (w: seq<int>)
    requires IsRun(us, steps)
    ensures |w| == |us|
    ensures forall i: nat | i < |us| :: w[i] == Work(After(us, steps).nodes[i], Counters(|us|, steps)[i])
  {
    seq(|us|, i requires 0 <= i < |us| => Work(After(us, steps).nodes[i], Counters(|us|, steps)[i]))
  }

  lemma WorkStep(us: seq<Uid>, r: Ring, h: seq<Counter>, s: Step, i: nat)
    requires Inv(us, r, h) && Enabled(r, s) && i < |us|
    ensures Work(Take(r, s).nodes[i], h[s.i := Bump(h[s.i], s)][i]) == Work(r.nodes[i], h[i]) + Bit(i == s.i)
  {
    assert NodeOk(us, s.i, r.nodes[s.i], h[s.i]);
  }

  lemma {:induction false} StepsCounted(us: seq<Uid>, steps: seq<Step>)
    requires ValidUids(us) && IsRun(us, steps)
    ensures |steps| == Sum(Works(us, steps))
    decreases |steps|
  {
    if steps == [] {
      SumAtMost(Works(us, steps), 0);
      SumAtLeast(Works(us, steps), 0);
    } else {
      var before, s := steps[..|steps| - 1], steps[|steps| - 1];
      StepsCounted(us, before);
      RunInv(us, before);
      forall i: nat | i < |us|
        ensures Works(us, steps)[i] == Works(us, before)[i] + Bit(i == s.i)
      {
        WorkStep(us, After(us, before), Counters(|us|, before), s, i);
      }
      SumChange(Works(us, before), Works(us, steps), s.i);
    }
  }

  lemma WorkBound(us: seq<Uid>, r: Ring, h: seq<Counter>, i: nat)
    requires Inv(us, r, h) && i < |us|
    ensures Work(r.nodes[i], h[i]) <= 7 * (Log2(|us|) + 1) + 1
  {
    PushedBound(us, r, h, i);
    PushedBound(us, r, h, Prev(i, |us|));
    assert Next(Prev(i, |us|), |us|) == i;
  }

  /** Every run is finite: it has at most n (7 (floor(log2 n) + 1) + 1) steps. */
  lemma RunLengthBound(us: seq<Uid>, steps: seq<Step>)
    requires ValidUids(us) && IsRun(us, steps)
    ensures |steps| <= |us| * (7 * (Log2(|us|) + 1) + 1)
  {
    var n, h := |us|, Counters(|us|, steps);
    RunInv(us, steps);
    StepsCounted(us, steps);
    forall i: nat | i < n
      ensures Works(us, steps)[i] <= 7 * (Log2(n) + 1) + 1
    {
      WorkBound(us, After(us, steps), h, i);
    }
    SumAtMost(Works(us, steps), 7 * (Log2(n) + 1) + 1);
  }

  // ---------------------------------------------------------------- election

  predicate Quiescent(r: Ring) {
    |r.nodes| == |r.channels| &&
    forall i: nat | i < |r.nodes| ::
      && !CanSend(r.nodes[i]) && r.channels[i] == [] && !CanLead(r.nodes[i])
      && !CanGetSecond(r.nodes[i]) && !CanGetThird(r.nodes[i])
      && !CanAdvance(r.nodes[i]) && !CanBecomeRelay(r.nodes[i]) && !CanRelay(r.nodes[i])
  }

  lemma QuiescentIff(r: Ring)
    requires |r.nodes| == |r.channels|
    ensures Quiescent(r) <==> !exists s :: Enabled(r, s)
  {
    if !Quiescent(r) {
      var i: nat :| i < |r.nodes|
        && !(&& !CanSend(r.nodes[i]) && r.channels[i] == [] && !CanLead(r.nodes[i])
             && !CanGetSecond(r.nodes[i]) && !CanGetThird(r.nodes[i])
             && !CanAdvance(r.nodes[i]) && !CanBecomeRelay(r.nodes[i]) && !CanRelay(r.nodes[i]));
      assert Enabled(r, SendStep(i)) || Enabled(r, DeliverStep(i)) || Enabled(r, LeaderStep(i))
          || Enabled(r, GetSecondStep(i)) || Enabled(r, GetThirdStep(i)) || Enabled(r, AdvanceStep(i))
          || Enabled(r, BecomeRelayStep(i)) || Enabled(r, RelayStep(i));
    }
  }

  lemma QuiescentNode(us: seq<Uid>, r: Ring, h: seq<Counter>, i: nat)
    requires Inv(us, r, h) && Quiescent(r) && i < |us|
    ensures h[Next(i, |us|)].popped == h[i].popped + Bit(r.nodes[i].mode == Active)
  {
    assert LinkOk(us, i, r, h) && NodeOk(us, i, r.nodes[i], h[i]);
    assert Pipe(r, i) == [];
  }

  lemma {:induction false} PoppedGrows(us: seq<Uid>, r: Ring, h: seq<Counter>, i: nat, d: nat)
    requires Inv(us, r, h) && Quiescent(r) && i < |us| && 1 <= d <= |us|
    ensures h[Ahead(i, d, |us|)].popped >= h[i].popped + Bit(r.nodes[i].mode == Active)
    decreases d
  {
    var j := Ahead(i, d - 1, |us|);
    QuiescentNode(us, r, h, j);
    assert Ahead(i, d, |us|) == Next(j, |us|);
    if d > 1 {
      PoppedGrows(us, r, h, i, d - 1);
    }
  }

  lemma QuiescentRelays(us: seq<Uid>, r: Ring, h: seq<Counter>, i: nat)
    requires Inv(us, r, h) && Quiescent(r) && i < |us|
    ensures r.nodes[i].mode == Relaying
  {
    PoppedGrows(us, r, h, i, |us|);
  }

  /** A relay stopped competing in exactly the last round it was in. */
  lemma RelayPhase(us: seq<Uid>, i: nat, p: Node, c: Counter, k: nat)
    requires i < |us| && NodeOk(us, i, p, c) && p.mode == Relaying
    requires Round(us, k)[i].Some? && Round(us, k + 1)[i].None?
    ensures c.phase == k
  {
    if c.phase < k {
      RoundsShrink(us, i, c.phase + 1, k);
    } else if k < c.phase {
      RoundsShrink(us, i, k + 1, c.phase);
    }
  }

  /** A run that cannot be extended has elected exactly one leader, which holds the largest
      identifier and has announced itself exactly once; everybody is a relay and nothing is in transit. */
  lemma MaximalRunElects(us: seq<Uid>, steps: seq<Step>) returns (leader: nat)
    requires ValidUids(us) && IsRun(us, steps)
    requires !exists s :: Enabled(After(us, steps), s)
    ensures leader < |us| && LeaderOutputs(steps) == 1
    ensures Largest(us, After(us, steps).nodes[leader].uid0)
    ensures forall j: nat | j < |us| :: After(us, steps).nodes[j].mode == Relaying
              && After(us, steps).nodes[j].status == if j == leader then Reported else Unknown
    ensures forall j: nat | j < |us| :: After(us, steps).channels[j] == []
              && After(us, steps).nodes[j].send == [] && After(us, steps).nodes[j].receive == []
  {
    var r, h := After(us, steps), Counters(|us|, steps);
    QuiescentIff(r);
    RunInv(us, steps);
    forall j: nat | j < |us|
      ensures r.nodes[j].mode == Relaying
    {
      QuiescentRelays(us, r, h, j);
    }
    var k;
    k, leader := LastRound(us);
    ElectedIsSole(us, k, leader);
    assert NodeOk(us, leader, r.nodes[leader], h[leader]);
    RelayPhase(us, leader, r.nodes[leader], h[leader], k);
    assert r.nodes[leader].status == Reported;
    LeaderIsAlone(us, steps, leader);
    LeaderAtMostOnce(us, steps);
  }

  /** A node in phase k competes in round k with exactly that round's identifier, and a relay dropped out there. */
  ghost predicate FollowsRounds(us: seq<Uid>, i: nat, p: Node, k: nat)
    requires i < |us|
  {
    && k <= Log2(|us|) && Round(us, k)[i] == Some(p.uid0)
    && (p.uid1 != NULL_UID ==> First(Round(us, k), Prev(i, |us|)) == Some(p.uid1))
    && (p.uid2 != NULL_UID ==> Second(Round(us, k), Prev(i, |us|)) == Some(p.uid2))
    && (p.mode == Relaying ==> Round(us, k + 1)[i].None?)
  }

  lemma PhaseFacts(us: seq<Uid>, i: nat, p: Node, c: Counter)
    requires ValidUids(us) && i < |us| && NodeOk(us, i, p, c)
    ensures FollowsRounds(us, i, p, c.phase)
  {
    PhaseBound(us, i, p, c);
  }

  /** The asynchronous ring computes the synchronous rounds. */
  lemma PhasesFollowRounds(us: seq<Uid>, steps: seq<Step>, i: nat)
    requires ValidUids(us) && IsRun(us, steps) && i < |us|
    ensures FollowsRounds(us, i, After(us, steps).nodes[i], Counters(|us|, steps)[i].phase)
  {
    RunInv(us, steps);
    RoundsFollowed(us, After(us, steps), Counters(|us|, steps), i);
  }

  lemma RoundsFollowed(us: seq<Uid>, r: Ring, h: seq<Counter>, i: nat)
    requires Inv(us, r, h) && i < |us|
    ensures FollowsRounds(us, i, r.nodes[i], h[i].phase)
  {
    assert NodeOk(us, i, r.nodes[i], h[i]);
    PhaseFacts(us, i, r.nodes[i], h[i]);
  }
}
