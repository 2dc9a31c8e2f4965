/**
 The unidirectional ring of LCR processes (examples/unidirectional_ring_leader_election.hpp) in any interleaving,
 with any number of re-initialisations: who can be leader, how many messages are sent, and how a run ends.
 */
module LcrRing {
  import opened Common
  import opened LcrAutomaton

  datatype Ring = Ring(nodes: seq<Node>, channels: seq<seq<Uid>>)

  datatype Step = SendStep(i: nat) | DeliverStep(i: nat) | LeaderStep(i: nat) | InitStep(i: nat)

  ghost predicate ValidUids(us: seq<Uid>) {
    us != [] && forall i, j | 0 <= i < j < |us| :: us[i] != us[j]
  }

  function InitialRing(us: seq<Uid>): (r: Ring)
    ensures |r.nodes| == |r.channels| == |us|
    ensures forall i | 0 <= i < |us| :: r.nodes[i] == Initial(us[i]) && r.channels[i] == []
  {
    Ring(seq(|us|, i requires 0 <= i < |us| => Initial(us[i])), seq(|us|, i => []))
  }

  predicate Enabled(r: Ring, s: Step) {
    && |r.nodes| == |r.channels| && s.i < |r.nodes|
    && match s
       case SendStep(i) => r.nodes[i].send != []
       case DeliverStep(i) => r.channels[i] != []
       case LeaderStep(i) => r.nodes[i].report
       case InitStep(i) => true
  }

  function Take(r: Ring, s: Step): (r': Ring)
    requires Enabled(r, s)
    ensures |r'.nodes| == |r.nodes| && |r'.channels| == |r.channels|
  {
    match s
    case SendStep(i) =>
      Ring(r.nodes[i := Send(r.nodes[i])], r.channels[i := r.channels[i] + [r.nodes[i].send[0]]])
    case DeliverStep(i) =>
      var j := Next(i, |r.nodes|);
      Ring(r.nodes[j := Receive(r.nodes[j], r.channels[i][0])], r.channels[i := r.channels[i][1..]])
    case LeaderStep(i) => r.(nodes := r.nodes[i := Report(r.nodes[i])])
    case InitStep(i) => r.(nodes := r.nodes[i := Reset(r.nodes[i])])
  }

  ghost predicate IsRun(us: seq<Uid>, steps: seq<Step>)
    decreases |steps|, 0
  {
    steps == [] ||
    (IsRun(us, steps[..|steps| - 1]) && Enabled(After(us, steps[..|steps| - 1]), steps[|steps| - 1]))
  }

  ghost function After(us: seq<Uid>, steps: seq<Step>): (r: Ring)
    requires IsRun(us, steps)
    ensures |r.nodes| == |r.channels| == |us|
    decreases |steps|, 1
  {
    if steps == [] then InitialRing(us) else Take(After(us, steps[..|steps| - 1]), steps[|steps| - 1])
  }

  // ---------------------------------------------------------------- where an identifier can be

  /** Identifier v, queued at node i, comes from the node d places back and has passed only smaller ones. */
  ghost predicate Travelled(us: seq<Uid>, i: nat, v: Uid, d: nat) {
    && i < |us| && d < |us| && v == us[Back(i, d, |us|)]
    && forall e: nat | e < d :: us[Back(i, e, |us|)] < v
  }

  ghost predicate Comes(us: seq<Uid>, i: nat, v: Uid) {
    exists d: nat :: Travelled(us, i, v, d)
  }

  ghost predicate AllCome(us: seq<Uid>, i: nat, q: seq<Uid>) {
    forall v {:trigger Comes(us, i, v)} | v in q :: Comes(us, i, v)
  }

  ghost predicate IsMax(us: seq<Uid>, i: nat) {
    i < |us| && forall k | 0 <= k < |us| :: us[k] <= us[i]
  }

  ghost predicate NodeOk(us: seq<Uid>, i: nat, p: Node) {
    i < |us| && p.u == us[i] && AllCome(us, i, p.send) && (p.leader ==> IsMax(us, i))
  }

  ghost predicate LinkOk(us: seq<Uid>, i: nat, q: seq<Uid>) {
    AllCome(us, i, q)
  }

  ghost predicate Inv(us: seq<Uid>, r: Ring) {
    && ValidUids(us) && |r.nodes| == |r.channels| == |us|
    && (forall i: nat {:trigger NodeOk(us, i, r.nodes[i])} | i < |us| :: NodeOk(us, i, r.nodes[i]))
    && (forall i: nat {:trigger LinkOk(us, i, r.channels[i])} | i < |us| :: LinkOk(us, i, r.channels[i]))
  }

  lemma OwnComes(us: seq<Uid>, i: nat)
    requires i < |us|
    ensures Comes(us, i, us[i])
  {
    assert Travelled(us, i, us[i], 0);
  }

  lemma BackNext(i: nat, d: nat, n: nat)
    requires i < n && d < n
    ensures Back(Next(i, n), d + 1, n) == Back(i, d, n)
  {}

  /** A larger identifier is passed on; one that comes back to its origin has passed all others. */
  lemma OneFurther(us: seq<Uid>, i: nat, v: Uid)
    requires ValidUids(us) && i < |us| && Comes(us, i, v)
    ensures var j := Next(i, |us|);
            && (us[j] < v ==> Comes(us, j, v))
            && (us[j] == v ==> IsMax(us, j))
  {
    var n := |us|;
    var j := Next(i, n);
    var d: nat :| Travelled(us, i, v, d);
    if us[j] < v {
      FurtherOn(us, i, v, d);
    } else if us[j] == v {
      BackHome(us, i, v, d);
    }
  }

  lemma FurtherOn(us: seq<Uid>, i: nat, v: Uid, d: nat)
    requires Travelled(us, i, v, d) && us[Next(i, |us|)] < v
    ensures Travelled(us, Next(i, |us|), v, d + 1)
  {
    var n, j := |us|, Next(i, |us|);
    BackNext(i, d, n);
    assert Back(i, n - 1, n) == j;
    forall e: nat | e < d + 1
      ensures us[Back(j, e, n)] < v
    {
      if e > 0 {
        BackNext(i, e - 1, n);
      }
    }
  }

  lemma BackHome(us: seq<Uid>, i: nat, v: Uid, d: nat)
    requires ValidUids(us) && Travelled(us, i, v, d) && us[Next(i, |us|)] == v
    ensures IsMax(us, Next(i, |us|))
  {
    var n, j := |us|, Next(i, |us|);
    assert Back(i, d, n) == j;
    assert d == n - 1;
    forall k | 0 <= k < n
      ensures us[k] <= us[j]
    {
      var e := if k <= i then i - k else i + n - k;
      assert Back(i, e, n) == k;
    }
  }

  lemma ComesTail(us: seq<Uid>, i: nat, q: seq<Uid>)
    requires AllCome(us, i, q) && q != []
    ensures AllCome(us, i, q[1..]) && Comes(us, i, q[0])
  {
    assert forall v | v in q[1..] :: v in q;
    assert q[0] in q;
  }

  lemma StepInv(us: seq<Uid>, r: Ring, s: Step)
    requires Inv(us, r) && Enabled(r, s)
    ensures Inv(us, Take(r, s))
  {
    var r', n := Take(r, s), |us|;
    forall k: nat | k < n
      ensures NodeOk(us, k, r'.nodes[k])
    {
      assert NodeOk(us, k, r.nodes[k]);
      NodeStep(us, r, s, k);
    }
    forall k: nat | k < n
      ensures LinkOk(us, k, r'.channels[k])
    {
      assert LinkOk(us, k, r.channels[k]) && NodeOk(us, k, r.nodes[k]);
      LinkStep(us, r, s, k);
    }
  }

  lemma NodeStep(us: seq<Uid>, r: Ring, s: Step, k: nat)
    requires Inv(us, r) && Enabled(r, s) && k < |us| && NodeOk(us, k, r.nodes[k])
    ensures NodeOk(us, k, Take(r, s).nodes[k])
  {
    match s
    case SendStep(i) =>
      if i == k {
        ComesTail(us, i, r.nodes[i].send);
      }
    case DeliverStep(i) =>
      if Next(i, |us|) == k {
        assert LinkOk(us, i, r.channels[i]);
        ComesTail(us, i, r.channels[i]);
        OneFurther(us, i, r.channels[i][0]);
      }
    case LeaderStep(i) =>
    case InitStep(i) => OwnComes(us, k);
  }

  lemma LinkStep(us: seq<Uid>, r: Ring, s: Step, k: nat)
    requires Enabled(r, s) && k < |us| == |r.nodes| && NodeOk(us, k, r.nodes[k]) && LinkOk(us, k, r.channels[k])
    ensures LinkOk(us, k, Take(r, s).channels[k])
  {
    if s == SendStep(k) {
      ComesTail(us, k, r.nodes[k].send);
    } else if s == DeliverStep(k) {
      ComesTail(us, k, r.channels[k]);
    }
  }

  lemma InitialInv(us: seq<Uid>)
    requires ValidUids(us)
    ensures Inv(us, InitialRing(us))
  {
    forall i: nat | i < |us|
      ensures NodeOk(us, i, InitialRing(us).nodes[i])
    {
      OwnComes(us, i);
    }
  }

  lemma {:induction false} RunInv(us: seq<Uid>, steps: seq<Step>)
    requires ValidUids(us) && IsRun(us, steps)
    ensures Inv(us, After(us, steps))
    decreases |steps|
  {
    if steps == [] {
      InitialInv(us);
    } else {
      RunInv(us, steps[..|steps| - 1]);
      StepInv(us, After(us, steps[..|steps| - 1]), steps[|steps| - 1]);
    }
  }

  /** Whoever is leader, at any time and with any initialisations, has the largest identifier; and so has whoever
      reports itself leader. */
  lemma LeaderIsMax(us: seq<Uid>, steps: seq<Step>, i: nat)
    requires ValidUids(us) && IsRun(us, steps) && i < |us| && After(us, steps).nodes[i].leader
    ensures IsMax(us, i)
  {
    RunInv(us, steps);
    assert NodeOk(us, i, After(us, steps).nodes[i]);
  }

  // ---------------------------------------------------------------- how a run ends

  /** The largest identifier is under way, or its node is leader. */
  ghost predicate MaxLives(us: seq<Uid>, r: Ring, m: nat) {
    && m < |us| == |r.nodes| == |r.channels|
    && (r.nodes[m].leader || exists i: nat :: HasToken(r, i, us[m]))
  }

  predicate HasToken(r: Ring, i: nat, v: Uid) {
    i < |r.nodes| && i < |r.channels| && (v in r.nodes[i].send || v in r.channels[i])
  }

  lemma TokenSent(q: seq<Uid>, v: Uid)
    requires q != [] && v in q
    ensures v == q[0] || v in q[1..]
  {
    assert q == [q[0]] + q[1..];
  }

  lemma TokenMoves(us: seq<Uid>, r: Ring, s: Step, i: nat, m: nat)
    requires Inv(us, r) && Enabled(r, s) && IsMax(us, m) && HasToken(r, i, us[m])
    ensures MaxLives(us, Take(r, s), m)
  {
    var r', v := Take(r, s), us[m];
    match s
    case SendStep(k) =>
      if k == i && v in r.nodes[i].send {
        TokenSent(r.nodes[i].send, v);
      }
      assert HasToken(r', i, v);
    case DeliverStep(k) =>
      var j := Next(k, |us|);
      assert NodeOk(us, j, r.nodes[j]);
      if k == i && v in r.channels[i] {
        TokenSent(r.channels[i], v);
        if v == r.channels[i][0] {
          assert us[j] <= v;
          assert us[j] < v ==> HasToken(r', j, v);
          assert us[j] == v ==> j == m && r'.nodes[m].leader;
        } else {
          assert HasToken(r', i, v);
        }
      } else {
        assert HasToken(r', i, v);
      }
    case LeaderStep(_) => assert HasToken(r', i, v);
    case InitStep(_) => assert HasToken(r', i, v);
  }

  lemma MaxStep(us: seq<Uid>, r: Ring, s: Step, m: nat)
    requires Inv(us, r) && Enabled(r, s) && IsMax(us, m) && MaxLives(us, r, m)
    ensures MaxLives(us, Take(r, s), m)
  {
    if r.nodes[m].leader {
      LeaderStays(us, r, s, m);
    } else {
      var i: nat :| HasToken(r, i, us[m]);
      TokenMoves(us, r, s, i, m);
    }
  }

  lemma LeaderStays(us: seq<Uid>, r: Ring, s: Step, m: nat)
    requires Inv(us, r) && Enabled(r, s) && IsMax(us, m) && r.nodes[m].leader
    ensures MaxLives(us, Take(r, s), m)
  {
    assert NodeOk(us, m, r.nodes[m]);
    if s == InitStep(m) {
      assert HasToken(Take(r, s), m, us[m]);
    } else if s.DeliverStep? && Next(s.i, |us|) == m {
      assert LinkOk(us, s.i, r.channels[s.i]);
      ComesTail(us, s.i, r.channels[s.i]);
      var d: nat :| Travelled(us, s.i, r.channels[s.i][0], d);
    }
  }

  lemma {:induction false} MaxRun(us: seq<Uid>, steps: seq<Step>, m: nat)
    requires ValidUids(us) && IsRun(us, steps) && IsMax(us, m)
    ensures MaxLives(us, After(us, steps), m)
    decreases |steps|
  {
    if steps == [] {
      assert HasToken(InitialRing(us), m, us[m]);
    } else {
      var before := steps[..|steps| - 1];
      MaxRun(us, before, m);
      RunInv(us, before);
      MaxStep(us, After(us, before), steps[|steps| - 1], m);
    }
  }

  /** Nothing is left to do; initialisations come from outside. */
  ghost predicate Quiescent(r: Ring) {
    forall s: Step :: !s.InitStep? ==> !Enabled(r, s)
  }

  // ---------------------------------------------------------------- what has been reported

  /** The value of the last leader output of process i in a run, if it has made one. */
  ghost function LastReport(us: seq<Uid>, steps: seq<Step>, i: nat): Option<bool>
    requires IsRun(us, steps) && i < |us|
    decreases |steps|
  {
    if steps == [] then None
    else
      var before, s := steps[..|steps| - 1], steps[|steps| - 1];
      if s == LeaderStep(i) then Some(After(us, before).nodes[i].leader) else LastReport(us, before, i)
  }

  /** p has told what there is to tell: a leader that has nothing to report has said last that it is leader; a
      process that cannot be leader never says anything. */
  ghost predicate HasTold(us: seq<Uid>, i: nat, p: Node, last: Option<bool>) {
    && (p.leader && !p.report ==> last == Some(true))
    && (!IsMax(us, i) ==> !p.report && last == None)
  }

  lemma {:induction false} ToldRun(us: seq<Uid>, steps: seq<Step>, i: nat)
    requires ValidUids(us) && IsRun(us, steps) && i < |us|
    ensures HasTold(us, i, After(us, steps).nodes[i], LastReport(us, steps, i))
    decreases |steps|
  {
    if steps != [] {
      var before, s := steps[..|steps| - 1], steps[|steps| - 1];
      ToldRun(us, before, i);
      RunInv(us, before);
      RunInv(us, steps);
      ToldStep(us, After(us, before), s, i, LastReport(us, before, i));
    }
  }

  lemma ToldStep(us: seq<Uid>, r: Ring, s: Step, i: nat, last: Option<bool>)
    requires Inv(us, r) && Enabled(r, s) && Inv(us, Take(r, s)) && i < |us| && HasTold(us, i, r.nodes[i], last)
    ensures HasTold(us, i, Take(r, s).nodes[i], if s == LeaderStep(i) then Some(r.nodes[i].leader) else last)
  {
    assert NodeOk(us, i, r.nodes[i]) && NodeOk(us, i, Take(r, s).nodes[i]);
  }

  /** However a run got there, when nothing is left to do the process with the largest identifier is leader and has
      said so in its last leader output; no other is, and none has made a leader output. */
  lemma QuiescentLeader(us: seq<Uid>, steps: seq<Step>, i: nat)
    requires ValidUids(us) && IsRun(us, steps) && Quiescent(After(us, steps)) && i < |us|
    ensures After(us, steps).nodes[i].leader <==> IsMax(us, i)
    ensures !After(us, steps).nodes[i].report
    ensures LastReport(us, steps, i) == if IsMax(us, i) then Some(true) else None
  {
    var r := After(us, steps);
    ToldRun(us, steps, i);
    assert !Enabled(r, LeaderStep(i));
    if r.nodes[i].leader {
      LeaderIsMax(us, steps, i);
    }
    if IsMax(us, i) {
      MaxRun(us, steps, i);
      forall k: nat
        ensures !HasToken(r, k, us[i])
      {
        QuietNode(r, k, us[i]);
      }
    }
  }

  lemma QuietNode(r: Ring, k: nat, v: Uid)
    requires Quiescent(r) && |r.nodes| == |r.channels|
    ensures !HasToken(r, k, v)
  {
    assert !Enabled(r, SendStep(k)) && !Enabled(r, DeliverStep(k));
  }

  // ---------------------------------------------------------------- initialisation

  /** An initialisation, whatever the state of the process: it is not leader, has nothing to report, and sends its
      identifier again, after what is queued; nothing else changes. */
  lemma InitRestarts(us: seq<Uid>, r: Ring, i: nat)
    requires Inv(us, r) && Enabled(r, InitStep(i))
    ensures var r' := Take(r, InitStep(i));
            && !r'.nodes[i].leader && !r'.nodes[i].report
            && r'.nodes[i].u == us[i] && r'.nodes[i].send == r.nodes[i].send + [us[i]]
            && r'.channels == r.channels && forall k | 0 <= k < |us| && k != i :: r'.nodes[k] == r.nodes[k]
  {
    assert NodeOk(us, i, r.nodes[i]);
  }

  function Copies(q: seq<Uid>, v: Uid): nat {
    if q == [] then 0 else (if q[0] == v then 1 else 0) + Copies(q[1..], v)
  }

  lemma {:induction false} CopiesPush(q: seq<Uid>, v: Uid, x: Uid)
    ensures Copies(q + [x], v) == Copies(q, v) + if x == v then 1 else 0
  {
    if q == [] {
      assert q + [x] == [x] && [x][1..] == [];
    } else {
      assert (q + [x])[1..] == q[1..] + [x];
      CopiesPush(q[1..], v, x);
    }
  }

  /** How often process i has sent its own identifier in a run, ... */
  ghost function OwnSent(us: seq<Uid>, steps: seq<Step>, i: nat): nat
    requires IsRun(us, steps) && i < |us|
    decreases |steps|
  {
    if steps == [] then 0
    else
      var before, s := steps[..|steps| - 1], steps[|steps| - 1];
      OwnSent(us, before, i) + if s == SendStep(i) && After(us, before).nodes[i].send[0] == us[i] then 1 else 0
  }

  /** ... and how often it was initialised. */
  function Inits(steps: seq<Step>, i: nat): nat {
    if steps == [] then 0 else Inits(steps[..|steps| - 1], i) + if steps[|steps| - 1] == InitStep(i) then 1 else 0
  }

  /** A process sends its identifier once for its creation and once for each initialisation, and never otherwise:
      what has been sent and what is still queued come to that. */
  lemma {:induction false} EveryInitSends(us: seq<Uid>, steps: seq<Step>, i: nat)
    requires ValidUids(us) && IsRun(us, steps) && i < |us|
    ensures OwnSent(us, steps, i) + Copies(After(us, steps).nodes[i].send, us[i]) == 1 + Inits(steps, i)
    decreases |steps|
  {
    if steps == [] {
      assert [us[i]][1..] == [];
    } else {
      var before, s := steps[..|steps| - 1], steps[|steps| - 1];
      EveryInitSends(us, before, i);
      RunInv(us, before);
      OwnCopiesStep(us, After(us, before), s, i);
    }
  }

  lemma OwnCopiesStep(us: seq<Uid>, r: Ring, s: Step, i: nat)
    requires Inv(us, r) && Enabled(r, s) && i < |us|
    ensures Copies(Take(r, s).nodes[i].send, us[i])
            == Copies(r.nodes[i].send, us[i]) + (if s == InitStep(i) then 1 else 0)
               - (if s == SendStep(i) && r.nodes[i].send[0] == us[i] then 1 else 0)
  {
    assert NodeOk(us, i, r.nodes[i]);
    match s
    case SendStep(_) =>
    case LeaderStep(_) =>
    case InitStep(k) =>
      if k == i {
        CopiesPush(r.nodes[i].send, us[i], us[i]);
      }
    case DeliverStep(k) =>
      if Next(k, |us|) == i {
        CopiesPush(r.nodes[i].send, us[i], r.channels[k][0]);
      }
  }

  // ---------------------------------------------------------------- the channels

  /** What process i has sent in a run, oldest first, ... */
  ghost function SentBy(us: seq<Uid>, steps: seq<Step>, i: nat): seq<Uid>
    requires IsRun(us, steps) && i < |us|
    decreases |steps|
  {
    if steps == [] then []
    else
      var before, s := steps[..|steps| - 1], steps[|steps| - 1];
      SentBy(us, before, i) + if s == SendStep(i) then [After(us, before).nodes[i].send[0]] else []
  }

  /** ... and what was delivered to its neighbour. */
  ghost function DeliveredFrom(us: seq<Uid>, steps: seq<Step>, i: nat): seq<Uid>
    requires IsRun(us, steps) && i < |us|
    decreases |steps|
  {
    if steps == [] then []
    else
      var before, s := steps[..|steps| - 1], steps[|steps| - 1];
      DeliveredFrom(us, before, i) + if s == DeliverStep(i) then [After(us, before).channels[i][0]] else []
  }

  /** Nothing is lost, made up or overtaken on the way from a process to its neighbour. */
  lemma {:induction false} ChannelIsFifo(us: seq<Uid>, steps: seq<Step>, i: nat)
    requires IsRun(us, steps) && i < |us|
    ensures SentBy(us, steps, i) == DeliveredFrom(us, steps, i) + After(us, steps).channels[i]
    decreases |steps|
  {
    if steps != [] {
      var before, s := steps[..|steps| - 1], steps[|steps| - 1];
      ChannelIsFifo(us, before, i);
      if s == DeliverStep(i) {
        var q := After(us, before).channels[i];
        assert q == [q[0]] + q[1..];
      }
    }
  }

  /** A delivery takes the oldest identifier off channel i and gives it to the next process of the ring. */
  lemma DeliversToNext(r: Ring, i: nat)
    requires Enabled(r, DeliverStep(i))
    ensures var r', j := Take(r, DeliverStep(i)), (i + 1) % |r.nodes|;
            && r'.nodes[j] == Receive(r.nodes[j], r.channels[i][0])
            && (forall k | 0 <= k < |r.nodes| && k != j :: r'.nodes[k] == r.nodes[k])
            && r'.channels == r.channels[i := r.channels[i][1..]]
  {
    NextIsModular(i, |r.nodes|);
  }
}
