/**
 The unidirectional ring of Peterson automata joined by FIFO channels: every interleaving of
 sends, deliveries and internal actions, and what holds in all of its runs.

 The proof treats each link as a stream.  The l-th identifier node i ever pushes onto its send
 queue does not depend on the interleaving: it is Stream(us, i, l), read off the synchronous
 rounds.  Counters folded over the run say which part of the stream is in transit.
 */
module PetersonRing {
  import opened Common
  import opened PetersonPhases
  import opened PetersonAutomaton

  /** channels[i] carries identifiers from node i to node Next(i). */
  datatype Ring = Ring(nodes: seq<Node>, channels: seq<seq<Uid>>)

  datatype Step =
    | SendStep(i: nat)
    | DeliverStep(i: nat)
    | LeaderStep(i: nat)
    | GetSecondStep(i: nat)
    | GetThirdStep(i: nat)
    | AdvanceStep(i: nat)
    | BecomeRelayStep(i: nat)
    | RelayStep(i: nat)

  function InitialRing(us: seq<Uid>): (r: Ring)
    ensures |r.nodes| == |r.channels| == |us|
    ensures forall i | 0 <= i < |us| :: r.nodes[i] == Initial(us[i]) && r.channels[i] == []
  {
    Ring(seq(|us|, i requires 0 <= i < |us| => Initial(us[i])), seq(|us|, i => []))
  }

  predicate Enabled(r: Ring, s: Step) {
    && |r.nodes| == |r.channels|
    && s.i < |r.nodes|
    && var p := r.nodes[s.i];
       match s
       case SendStep(i) => CanSend(p)
       case DeliverStep(i) => r.channels[i] != []
       case LeaderStep(i) => CanLead(p)
       case GetSecondStep(i) => CanGetSecond(p)
       case GetThirdStep(i) => CanGetThird(p)
       case AdvanceStep(i) => CanAdvance(p)
       case BecomeRelayStep(i) => CanBecomeRelay(p)
       case RelayStep(i) => CanRelay(p)
  }

  function Take(r: Ring, s: Step): (r': Ring)
    requires Enabled(r, s)
    ensures |r'.nodes| == |r.nodes| && |r'.channels| == |r.channels|
  {
    var p := r.nodes[s.i];
    match s
    case SendStep(i) =>
      Ring(r.nodes[i := Send(p)], r.channels[i := r.channels[i] + [p.send[0]]])
    case DeliverStep(i) =>
      var j := Next(i, |r.nodes|);
      Ring(r.nodes[j := Receive(r.nodes[j], r.channels[i][0])], r.channels[i := r.channels[i][1..]])
    case LeaderStep(i) => r.(nodes := r.nodes[i := Lead(p)])
    case GetSecondStep(i) => r.(nodes := r.nodes[i := GetSecond(p)])
    case GetThirdStep(i) => r.(nodes := r.nodes[i := GetThird(p)])
    case AdvanceStep(i) => r.(nodes := r.nodes[i := Advance(p)])
    case BecomeRelayStep(i) => r.(nodes := r.nodes[i := BecomeRelay(p)])
    case RelayStep(i) => r.(nodes := r.nodes[i := Relay(p)])
  }

  /** steps is a run of the ring from its initial state. */
  ghost predicate IsRun(us: seq<Uid>, steps: seq<Step>)
    decreases |steps|, 0
  {
    steps == [] ||
    (IsRun(us, steps[..|steps| - 1]) && Enabled(After(us, steps[..|steps| - 1]), steps[|steps| - 1]))
  }

  ghost function After(us: seq<Uid>, steps: seq<Step>): (r: Ring)
    requires IsRun(us, steps)
    ensures |r.nodes| == |r.channels| == |us|
    decreases |steps|, 1
  {
    if steps == [] then InitialRing(us) else Take(After(us, steps[..|steps| - 1]), steps[|steps| - 1])
  }

  // ---------------------------------------------------------------- counters of a run

  /** How much a node has done: identifiers sent, delivered out of its channel, popped from its
      receive queue, pushed onto its send queue, and phases completed. */
  datatype Counter = Counter(sent: nat, delivered: nat, popped: nat, pushed: nat, phase: nat)

  function Bump(c: Counter, s: Step): Counter {
    match s
    case SendStep(_) => c.(sent := c.sent + 1)
    case DeliverStep(_) => c.(delivered := c.delivered + 1)
    case LeaderStep(_) => c
    case GetSecondStep(_) => c.(popped := c.popped + 1, pushed := c.pushed + 1)
    case GetThirdStep(_) => c.(popped := c.popped + 1)
    case AdvanceStep(_) => c.(pushed := c.pushed + 1, phase := c.phase + 1)
    case BecomeRelayStep(_) => c
    case RelayStep(_) => c.(popped := c.popped + 1, pushed := c.pushed + 1)
  }

  ghost function Counters(n: nat, steps: seq<Step>): (h: seq<Counter>)
    ensures |h| == n
  {
    if steps == [] then seq(n, i => Counter(0, 0, 0, 1, 0))
    else
      var h := Counters(n, steps[..|steps| - 1]);
      var s := steps[|steps| - 1];
      if s.i < n then h[s.i := Bump(h[s.i], s)] else h
  }

  // ---------------------------------------------------------------- the invariant

  /** The l-th identifier that node i ever pushes onto its send queue. */
  ghost function Stream(us: seq<Uid>, i: nat, l: nat): Option<Uid>
    requires i < |us|
  {
    if l % 2 == 0 then First(Round(us, l / 2), i) else Second(Round(us, l / 2), i)
  }

  function Bit(b: bool): nat {
    if b then 1 else 0
  }

  /** What node i knows in terms of the synchronous round it has reached. */
  ghost predicate NodeOk(us: seq<Uid>, i: nat, p: Node, c: Counter)
    requires i < |us|
  {
    var n := |us|;
    var now := Round(us, c.phase);
    && now[i].Some?
    && c.sent + |p.send| == c.pushed
    && (p.status != Unknown <==> p.uid1 != NULL_UID && Elected(us, c.phase, i))
    && (p.uid1 != NULL_UID ==> First(now, Prev(i, n)) == Some(p.uid1))
    && (p.uid2 != NULL_UID ==> p.uid1 != NULL_UID && Second(now, Prev(i, n)) == Some(p.uid2))
    && p.uid0 == now[i].value
    && match p.mode
       case Active =>
         && c.popped == 2 * c.phase + Bit(p.uid1 != NULL_UID) + Bit(p.uid2 != NULL_UID)
         && c.pushed == 2 * c.phase + 1 + Bit(p.uid1 != NULL_UID)
       case Relaying =>
         && p.uid1 != NULL_UID
         && Round(us, c.phase + 1)[i].None?
         && c.popped == c.pushed >= 2 * c.phase + 2
  }

  /** Everything between node i's pushes and its successor's pops, oldest first. */
  function Pipe(r: Ring, i: nat): seq<Uid>
    requires i < |r.nodes| == |r.channels|
  {
    r.nodes[Next(i, |r.nodes|)].receive + r.channels[i] + r.nodes[i].send
  }

  ghost function StreamOf(us: seq<Uid>, i: nat): nat -> Option<Uid>
    requires i < |us|
  {
    (l: nat) => Stream(us, i, l)
  }

  /** A pipe holds exactly the part of its stream that has been pushed and not popped. */
  ghost predicate Carries(pipe: seq<Uid>, stream: nat -> Option<Uid>, popped: nat, pushed: nat) {
    && popped + |pipe| == pushed
    && (forall t: nat | t < |pipe| :: stream(popped + t) == Some(pipe[t]))
    && pushed >= 1 && stream(pushed - 1).Some?
  }

  ghost predicate Inv(us: seq<Uid>, r: Ring, h: seq<Counter>) {
    && ValidUids(us)
    && |r.nodes| == |r.channels| == |h| == |us|
    && (forall i: nat {:trigger NodeOk(us, i, r.nodes[i], h[i])} | i < |us| :: NodeOk(us, i, r.nodes[i], h[i]))
    && (forall i: nat {:trigger LinkOk(us, i, r, h)} | i < |us| :: LinkOk(us, i, r, h))
  }

  ghost predicate LinkOk(us: seq<Uid>, i: nat, r: Ring, h: seq<Counter>)
    requires i < |r.nodes| == |r.channels| == |h| == |us|
  {
    && Carries(Pipe(r, i), StreamOf(us, i), h[Next(i, |us|)].popped, h[i].pushed)
    && h[i].delivered + |r.channels[i]| == h[i].sent
    && h[Next(i, |us|)].popped + |r.nodes[Next(i, |us|)].receive| == h[i].delivered
  }

  lemma StreamNonEmpty(us: seq<Uid>, i: nat, l: nat)
    requires i < |us| && Stream(us, i, l).Some?
    ensures NonEmpty(Round(us, l / 2))
  {
    var c := Round(us, l / 2);
    if l % 2 == 0 {
      assert c[Nearest(c, i)].Some?;
    } else {
      assert c[Nearest(c, Prev(Nearest(c, i), |us|))].Some?;
    }
  }

  lemma StreamNotNull(us: seq<Uid>, i: nat, l: nat)
    requires ValidUids(us) && i < |us|
    ensures Stream(us, i, l) != Some(NULL_UID)
  {
    RoundDistinct(us, l / 2);
  }

  lemma CarriesHead(pipe: seq<Uid>, stream: nat -> Option<Uid>, popped: nat, pushed: nat)
    requires Carries(pipe, stream, popped, pushed) && pipe != []
    ensures stream(popped) == Some(pipe[0])
  {
    assert stream(popped + 0) == Some(pipe[0]);
  }

  /** The reader may pop the head and the writer push the next element of the stream. */
  lemma CarriesOn(pipe: seq<Uid>, stream: nat -> Option<Uid>, popped: nat, pushed: nat, pops: bool, out: seq<Uid>,
                  pipe': seq<Uid>, popped': nat, pushed': nat)
    requires Carries(pipe, stream, popped, pushed)
    requires pops ==> pipe != []
    requires |out| <= 1 && (out != [] ==> stream(pushed) == Some(out[0]))
    requires pipe' == (if pops then pipe[1..] else pipe) + out
    requires popped' == popped + Bit(pops) && pushed' == pushed + |out|
    ensures Carries(pipe', stream, popped', pushed')
  {
    forall t: nat | t < |pipe'|
      ensures stream(popped' + t) == Some(pipe'[t])
    {
      if t + Bit(pops) < |pipe| {
        assert stream(popped + (t + Bit(pops))) == Some(pipe[t + Bit(pops)]);
      }
    }
  }

  /** How a step changes the pipe out of node j: the reader pops its head, the writer pushes at its tail. */
  predicate Pops(s: Step) {
    s.GetSecondStep? || s.GetThirdStep? || s.RelayStep?
  }

  function Pushed(p: Node, s: Step): seq<Uid>
    requires s.GetSecondStep? || s.RelayStep? ==> p.receive != []
  {
    match s
    case GetSecondStep(_) => [p.receive[0]]
    case RelayStep(_) => [p.receive[0]]
    case AdvanceStep(_) => [p.uid1]
    case _ => []
  }

  lemma QueueChange(r: Ring, s: Step, j: nat)
    requires Enabled(r, s) && j < |r.nodes| && !s.SendStep? && !s.DeliverStep?
    ensures var p, p' := r.nodes[j], Take(r, s).nodes[j];
            && p'.send == p.send + (if j == s.i then Pushed(r.nodes[s.i], s) else [])
            && p'.receive == (if j == s.i && Pops(s) then p.receive[1..] else p.receive)
    ensures Take(r, s).channels == r.channels
  {
    assert r.nodes[j].send + [] == r.nodes[j].send;
  }

  lemma PipeAlgebra(a: seq<Uid>, b: seq<Uid>, c: seq<Uid>, out: seq<Uid>)
    ensures a + b + (c + out) == (a + b + c) + out
    ensures a != [] ==> a[1..] + b + (c + out) == (a + b + c)[1..] + out
  {}

  lemma PipeChange(r: Ring, s: Step, j: nat)
    requires Enabled(r, s) && j < |r.nodes|
    ensures Pops(s) && j == Prev(s.i, |r.nodes|) ==> Pipe(r, j) != []
    ensures Pipe(Take(r, s), j) == (if Pops(s) && j == Prev(s.i, |r.nodes|) then Pipe(r, j)[1..] else Pipe(r, j))
                                   + (if j == s.i then Pushed(r.nodes[s.i], s) else [])
  {
    var n := |r.nodes|;
    var k := Next(j, n);
    assert Next(Prev(s.i, n), n) == s.i;
    if s.SendStep? {
      SendPipe(r, s.i, j);
    } else if s.DeliverStep? {
      DeliverPipe(r, s.i, j);
    } else {
      QueueChange(r, s, j);
      QueueChange(r, s, k);
      PipeAlgebra(r.nodes[k].receive, r.channels[j], r.nodes[j].send, if j == s.i then Pushed(r.nodes[s.i], s) else []);
    }
  }

  lemma SendPipe(r: Ring, i: nat, j: nat)
    requires Enabled(r, SendStep(i)) && j < |r.nodes|
    ensures Pipe(Take(r, SendStep(i)), j) == Pipe(r, j) + []
  {}

  lemma DeliverPipe(r: Ring, i: nat, j: nat)
    requires Enabled(r, DeliverStep(i)) && j < |r.nodes|
    ensures Pipe(Take(r, DeliverStep(i)), j) == Pipe(r, j) + []
  {}

  // ---------------------------------------------------------------- every step keeps the invariant

  lemma InitialInv(us: seq<Uid>)
    requires ValidUids(us)
    ensures Inv(us, InitialRing(us), Counters(|us|, []))
  {
    var r, h := InitialRing(us), Counters(|us|, []);
    forall i: nat | i < |us|
      ensures NodeOk(us, i, r.nodes[i], h[i])
      ensures LinkOk(us, i, r, h)
    {
      InitialNode(us, i);
      InitialLink(us, i);
    }
  }

  lemma InitialNode(us: seq<Uid>, i: nat)
    requires ValidUids(us) && i < |us|
    ensures NodeOk(us, i, InitialRing(us).nodes[i], Counters(|us|, [])[i])
  {
    assert Round(us, 0)[i] == Some(us[i]);
  }

  lemma InitialLink(us: seq<Uid>, i: nat)
    requires ValidUids(us) && i < |us|
    ensures LinkOk(us, i, InitialRing(us), Counters(|us|, []))
  {
    assert Pipe(InitialRing(us), i) == [us[i]];
    assert Round(us, 0)[i] == Some(us[i]);
    assert Stream(us, i, 0) == Some(us[i]);
  }

  /** The head of a receive queue is the next identifier of the upstream node's stream. */
  lemma ReceiveHead(us: seq<Uid>, r: Ring, h: seq<Counter>, i: nat)
    requires Inv(us, r, h) && i < |us| && r.nodes[i].receive != []
    ensures Stream(us, Prev(i, |us|), h[i].popped) == Some(r.nodes[i].receive[0])
    ensures r.nodes[i].receive[0] != NULL_UID
  {
    var j := Prev(i, |us|);
    assert LinkOk(us, j, r, h) && Next(j, |us|) == i;
    assert Pipe(r, j)[0] == r.nodes[i].receive[0];
    CarriesHead(Pipe(r, j), StreamOf(us, j), h[i].popped, h[j].pushed);
    StreamNotNull(us, j, h[i].popped);
  }

  lemma GetSecondNode(us: seq<Uid>, i: nat, p: Node, c: Counter)
    requires i < |us| && NodeOk(us, i, p, c) && CanGetSecond(p)
    requires Stream(us, Prev(i, |us|), c.popped) == Some(p.receive[0]) && p.receive[0] != NULL_UID
    ensures NodeOk(us, i, GetSecond(p), Bump(c, GetSecondStep(i)))
    ensures Stream(us, i, c.pushed) == Some(p.receive[0])
  {
    assert (2 * c.phase) / 2 == c.phase && (2 * c.phase + 1) / 2 == c.phase;
  }

  lemma GetThirdNode(us: seq<Uid>, i: nat, p: Node, c: Counter)
    requires i < |us| && NodeOk(us, i, p, c) && CanGetThird(p)
    requires Stream(us, Prev(i, |us|), c.popped) == Some(p.receive[0]) && p.receive[0] != NULL_UID
    ensures NodeOk(us, i, GetThird(p), Bump(c, GetThirdStep(i)))
  {
    assert (2 * c.phase + 1) / 2 == c.phase;
  }

  lemma AdvanceNode(us: seq<Uid>, i: nat, p: Node, c: Counter)
    requires i < |us| && NodeOk(us, i, p, c) && CanAdvance(p)
    ensures NodeOk(us, i, Advance(p), Bump(c, AdvanceStep(i)))
    ensures Stream(us, i, c.pushed) == Some(p.uid1)
  {
    NextRoundAt(Round(us, c.phase));
    assert Round(us, c.phase + 1)[i] == Some(p.uid1);
    assert (2 * (c.phase + 1)) / 2 == c.phase + 1;
  }

  lemma BecomeRelayNode(us: seq<Uid>, i: nat, p: Node, c: Counter)
    requires i < |us| && NodeOk(us, i, p, c) && CanBecomeRelay(p)
    ensures NodeOk(us, i, BecomeRelay(p), c)
  {
    NextRoundAt(Round(us, c.phase));
  }

  /** Past its last phase a node is transparent for the stream that flows through it. */
  lemma RelayNode(us: seq<Uid>, i: nat, p: Node, c: Counter)
    requires i < |us| && NodeOk(us, i, p, c) && CanRelay(p)
    requires Stream(us, Prev(i, |us|), c.popped) == Some(p.receive[0])
    ensures NodeOk(us, i, Relay(p), Bump(c, RelayStep(i)))
    ensures Stream(us, i, c.pushed) == Some(p.receive[0])
  {
    var l := c.popped;
    StreamNonEmpty(us, Prev(i, |us|), l);
    RoundsShrink(us, i, c.phase + 1, l / 2);
    RelayTransparent(Round(us, l / 2), i);
  }

  /** The stepping node: it stays in line with its round, and pushes what its stream prescribes. */
  lemma NodeStep(us: seq<Uid>, r: Ring, h: seq<Counter>, s: Step)
    requires Inv(us, r, h) && Enabled(r, s) && !s.DeliverStep?
    ensures NodeOk(us, s.i, Take(r, s).nodes[s.i], Bump(h[s.i], s))
    ensures Pushed(r.nodes[s.i], s) != [] ==> Stream(us, s.i, h[s.i].pushed) == Some(Pushed(r.nodes[s.i], s)[0])
  {
    var i := s.i;
    var p, c := r.nodes[i], h[i];
    assert NodeOk(us, i, p, c);
    if Pops(s) {
      ReceiveHead(us, r, h, i);
    }
    match s
    case SendStep(_) =>
    case LeaderStep(_) =>
    case GetSecondStep(_) => GetSecondNode(us, i, p, c);
    case GetThirdStep(_) => GetThirdNode(us, i, p, c);
    case AdvanceStep(_) => AdvanceNode(us, i, p, c);
    case BecomeRelayStep(_) => BecomeRelayNode(us, i, p, c);
    case RelayStep(_) => RelayNode(us, i, p, c);
  }

  /** What a step pushes continues the stream of its node. */
  lemma PushesNext(us: seq<Uid>, r: Ring, h: seq<Counter>, s: Step)
    requires Inv(us, r, h) && Enabled(r, s)
    ensures var out := Pushed(r.nodes[s.i], s);
            |out| <= 1 && (out != [] ==> StreamOf(us, s.i)(h[s.i].pushed) == Some(out[0]))
  {
    if !s.DeliverStep? {
      NodeStep(us, r, h, s);
    }
  }

  lemma PipeStep(us: seq<Uid>, r: Ring, h: seq<Counter>, s: Step, j: nat)
    requires Inv(us, r, h) && Enabled(r, s) && j < |us|
    ensures var h' := h[s.i := Bump(h[s.i], s)];
            Carries(Pipe(Take(r, s), j), StreamOf(us, j), h'[Next(j, |us|)].popped, h'[j].pushed)
  {
    var k, h' := Next(j, |us|), h[s.i := Bump(h[s.i], s)];
    var pops := Pops(s) && j == Prev(s.i, |us|);
    var out := if j == s.i then Pushed(r.nodes[s.i], s) else [];
    var pipe, pipe' := Pipe(r, j), Pipe(Take(r, s), j);
    assert LinkOk(us, j, r, h);
    assert |out| <= 1 && (out != [] ==> StreamOf(us, j)(h[j].pushed) == Some(out[0])) by {
      if j == s.i {
        PushesNext(us, r, h, s);
      }
    }
    assert (pops ==> pipe != []) && pipe' == (if pops then pipe[1..] else pipe) + out by {
      PipeChange(r, s, j);
    }
    assert h'[k].popped == h[k].popped + Bit(pops) && h'[j].pushed == h[j].pushed + |out| by {
      CounterStep(h, s, j);
    }
    CarriesOn(pipe, StreamOf(us, j), h[k].popped, h[j].pushed, pops, out, pipe', h'[k].popped, h'[j].pushed);
  }

  lemma CounterStep(h: seq<Counter>, s: Step, j: nat)
    requires s.i < |h| && j < |h|
    ensures var h' := h[s.i := Bump(h[s.i], s)];
            && h'[Next(j, |h|)].popped == h[Next(j, |h|)].popped + Bit(Pops(s) && j == Prev(s.i, |h|))
            && h'[j].pushed == h[j].pushed + Bit(j == s.i && (s.GetSecondStep? || s.AdvanceStep? || s.RelayStep?))
  {
    assert Next(Prev(s.i, |h|), |h|) == s.i;
  }

  lemma LinkStep(us: seq<Uid>, r: Ring, h: seq<Counter>, s: Step, j: nat)
    requires Inv(us, r, h) && Enabled(r, s) && j < |us|
    ensures LinkOk(us, j, Take(r, s), h[s.i := Bump(h[s.i], s)])
  {
    assert LinkOk(us, j, r, h);
    assert Next(Prev(s.i, |us|), |us|) == s.i;
    PipeStep(us, r, h, s, j);
  }

  lemma StepInv(us: seq<Uid>, r: Ring, h: seq<Counter>, s: Step)
    requires Inv(us, r, h) && Enabled(r, s)
    ensures Inv(us, Take(r, s), h[s.i := Bump(h[s.i], s)])
  {
    var r', h' := Take(r, s), h[s.i := Bump(h[s.i], s)];
    forall j: nat | j < |us|
      ensures NodeOk(us, j, r'.nodes[j], h'[j])
    {
      assert NodeOk(us, j, r.nodes[j], h[j]);
      if j == s.i && !s.DeliverStep? {
        NodeStep(us, r, h, s);
      }
    }
    forall j: nat | j < |us|
      ensures LinkOk(us, j, r', h')
    {
      LinkStep(us, r, h, s, j);
    }
  }

  lemma {:induction false} RunInv(us: seq<Uid>, steps: seq<Step>)
    requires ValidUids(us) && IsRun(us, steps)
    ensures Inv(us, After(us, steps), Counters(|us|, steps))
    decreases |steps|
  {
    if steps == [] {
      InitialInv(us);
    } else {
      var before := steps[..|steps| - 1];
      RunInv(us, before);
      StepInv(us, After(us, before), Counters(|us|, before), steps[|steps| - 1]);
    }
  }

  /** A delivery takes the oldest identifier off channel i and gives it to the next process of the ring. */
  lemma DeliversToNext(r: Ring, i: nat)
    requires Enabled(r, DeliverStep(i))
    ensures var r', j := Take(r, DeliverStep(i)), (i + 1) % |r.nodes|;
            && r'.nodes[j] == r.nodes[j].(receive := r.nodes[j].receive + [r.channels[i][0]])
            && (forall k | 0 <= k < |r.nodes| && k != j :: r'.nodes[k] == r.nodes[k])
            && r'.channels == r.channels[i := r.channels[i][1..]]
  {
    NextIsModular(i, |r.nodes|);
  }
}
