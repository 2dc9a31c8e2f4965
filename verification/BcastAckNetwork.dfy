/**
 The network of broadcast / acknowledge automata over a symmetric graph with one FIFO channel per
 directed link, its runs, and its invariant.

 The heart of the invariant is a conservation law: for every directed link, a broadcast that was
 queued is, at any time, in exactly one place: under way, held by a child that has not reported,
 on its way back as an acknowledgement, or recorded in the sender's acked set.
 */
module BcastAckNetwork {
  import opened Common
  import opened Networks
  import opened BcastAckAutomaton

  datatype Net = Net(nodes: seq<Node>, channel: Channels<Message>)

  datatype Step = SendStep(i: nat, j: nat) | DeliverStep(i: nat, j: nat) | ReportStep(i: nat)

  function InitialNet(g: Graph, w: nat): (net: Net)
    ensures |net.nodes| == |g.nbrs|
    ensures forall i: nat | i < |g.nbrs| :: net.nodes[i] == Initial(i, g.root, g.nbrs[i], w)
  {
    Net(seq(|g.nbrs|, i requires 0 <= i < |g.nbrs| => Initial(i, g.root, g.nbrs[i], w)), (i, j) => [])
  }

  predicate Enabled(net: Net, s: Step) {
    match s
    case SendStep(i, j) => i < |net.nodes| && CanSend(net.nodes[i], j)
    case DeliverStep(i, j) => j < |net.nodes| && net.channel(i, j) != []
    case ReportStep(i) => i < |net.nodes| && CanReport(net.nodes[i])
  }

  function Take(net: Net, s: Step): (net': Net)
    requires Enabled(net, s)
    ensures |net'.nodes| == |net.nodes|
  {
    match s
    case SendStep(i, j) =>
      var p := net.nodes[i];
      Net(net.nodes[i := Send(p, j)], SetChannel(net.channel, i, j, net.channel(i, j) + [p.send[j][0]]))
    case DeliverStep(i, j) =>
      var q := net.channel(i, j);
      Net(net.nodes[j := Receive(net.nodes[j], q[0], i)], SetChannel(net.channel, i, j, q[1..]))
    case ReportStep(i) =>
      net.(nodes := net.nodes[i := Report(net.nodes[i])])
  }

  ghost predicate IsRun(g: Graph, w: nat, steps: seq<Step>)
    decreases |steps|, 0
  {
    steps == [] ||
    (IsRun(g, w, steps[..|steps| - 1]) && Enabled(After(g, w, steps[..|steps| - 1]), steps[|steps| - 1]))
  }

  ghost function After(g: Graph, w: nat, steps: seq<Step>): (net: Net)
    requires IsRun(g, w, steps)
    ensures |net.nodes| == |g.nbrs|
    decreases |steps|, 1
  {
    if steps == [] then InitialNet(g, w) else Take(After(g, w, steps[..|steps| - 1]), steps[|steps| - 1])
  }

  /** joined[i] is the number of steps after which node i first held a value; the root is at 0. */
  ghost function JoinTimes(g: Graph, w: nat, steps: seq<Step>): (t: seq<nat>)
    requires IsRun(g, w, steps)
    ensures |t| == |g.nbrs|
  {
    if steps == [] then seq(|g.nbrs|, i => 0)
    else
      var before := steps[..|steps| - 1];
      Joining(After(g, w, before), JoinTimes(g, w, before), steps[|steps| - 1], |steps|)
  }

  /** A delivery that gives node j its value makes j join now. */
  ghost function Joining(net: Net, t: seq<nat>, s: Step, now: nat): (t': seq<nat>)
    requires Enabled(net, s) && |t| == |net.nodes|
    ensures |t'| == |t|
  {
    if s.DeliverStep? && net.nodes[s.j].val == NONE && net.channel(s.i, s.j)[0].Bcast? then t[s.j := now] else t
  }

  // ---------------------------------------------------------------- counting messages

  function Count(q: seq<Message>, bcast: bool): nat {
    if q == [] then 0 else (if q[0].Bcast? == bcast then 1 else 0) + Count(q[1..], bcast)
  }

  lemma {:induction false} CountPush(q: seq<Message>, m: Message, bcast: bool)
    ensures Count(q + [m], bcast) == Count(q, bcast) + (if m.Bcast? == bcast then 1 else 0)
  {
    if q == [] {
      assert q + [m] == [m];
    } else {
      assert (q + [m])[1..] == q[1..] + [m];
      CountPush(q[1..], m, bcast);
    }
  }

  lemma {:induction false} CountIn(q: seq<Message>, m: Message)
    requires m in q
    ensures Count(q, m.Bcast?) >= 1
  {
    if q[0] != m {
      CountIn(q[1..], m);
    }
  }

  function Bit(b: bool): nat {
    if b then 1 else 0
  }

  // ---------------------------------------------------------------- the invariant

  predicate Joined(p: Node) {
    p.val != NONE
  }

  /** The side a node shows to one neighbour: its flags, whether it has that neighbour's
      acknowledgement, and its queue for that neighbour. */
  datatype End = End(isRoot: bool, joined: bool, parent: nat, reported: bool, acked: bool, out: seq<Message>)

  function Facing(p: Node, j: nat): End
    requires j in p.send
  {
    End(p.i == p.root, Joined(p), p.parent, p.reported, j in p.acked, p.send[j])
  }

  /** e has queued its broadcast for neighbour j. */
  predicate Offers(e: End, j: nat) {
    e.joined && e.parent != j
  }

  /** e has taken neighbour i as its parent. */
  predicate Adopted(e: End, i: nat) {
    e.joined && !e.isRoot && e.parent == i
  }

  /** Where the broadcast from end e to end f (of node j) is: queued, in the channel, held by f,
      or as an acknowledgement in f's queue, in the channel back, or recorded. */
  function Places(e: End, f: End, i: nat, ef: seq<Message>, fe: seq<Message>): nat {
    Count(e.out, true) + Count(ef, true) + Bit(Adopted(f, i) && !f.reported)
    + Count(f.out, false) + Count(fe, false) + Bit(e.acked)
  }

  /** The link from node i to node j; ef and fe are the channels of the two directions. */
  ghost predicate LinkOk(e: End, f: End, i: nat, j: nat, ef: seq<Message>, fe: seq<Message>) {
    && i != j
    && Places(e, f, i, ef, fe) == Bit(Offers(e, j))
    && (Count(f.out, false) + Count(fe, false) + Bit(e.acked) > 0 ==> f.joined)
    && (Adopted(f, i) ==> Offers(e, j) && Count(e.out, true) + Count(ef, true) == 0)
  }

  ghost predicate EdgeOk(net: Net, i: nat, j: nat) {
    && i < |net.nodes| && j < |net.nodes|
    && net.nodes[i].i == i && net.nodes[j].i == j
    && j in net.nodes[i].send && i in net.nodes[j].send
    && LinkOk(Facing(net.nodes[i], j), Facing(net.nodes[j], i), i, j, net.channel(i, j), net.channel(j, i))
  }

  ghost predicate Carries(q: seq<Message>, w: nat) {
    forall m {:trigger m in q} | m in q :: m.Bcast? ==> m.value == w
  }

  ghost predicate NodeOk(g: Graph, w: nat, i: nat, p: Node, t: seq<nat>)
    requires i < |g.nbrs| == |t|
  {
    && p.i == i && p.root == g.root && p.nbrs == g.nbrs[i] && p.send.Keys == p.nbrs
    && p.acked <= p.nbrs
    && (p.val == NONE || p.val == w)
    && (i == g.root ==> Joined(p) && p.parent == NONE)
    && (!Joined(p) ==> p.parent == NONE && !p.reported && p.acked == {})
    && (Joined(p) && i != g.root ==> p.parent in g.nbrs[i] && p.parent < |t| && t[p.parent] < t[i])
    && (p.reported ==> p.acked == p.nbrs - {p.parent})
    && (forall j {:trigger p.send[j]} | j in p.send :: Carries(p.send[j], w))
  }

  ghost predicate NodesOk(g: Graph, w: nat, net: Net, t: seq<nat>) {
    && |net.nodes| == |t| == |g.nbrs|
    && forall i: nat {:trigger NodeOk(g, w, i, net.nodes[i], t)} | i < |g.nbrs| :: NodeOk(g, w, i, net.nodes[i], t)
  }

  ghost predicate EdgesOk(g: Graph, net: Net) {
    forall i: nat, j: nat {:trigger EdgeOk(net, i, j)} | (i, j) in Links(g) :: EdgeOk(net, i, j)
  }

  ghost predicate ChannelsOk(g: Graph, w: nat, net: Net) {
    forall i: nat, j: nat :: Carries(net.channel(i, j), w) && (net.channel(i, j) != [] ==> (i, j) in Links(g))
  }

  ghost predicate TimesOk(t: seq<nat>, now: nat) {
    forall i: nat | i < |t| :: t[i] <= now
  }

  ghost predicate Inv(g: Graph, w: nat, net: Net, t: seq<nat>, now: nat) {
    && ValidGraph(g) && w != NONE
    && NodesOk(g, w, net, t) && EdgesOk(g, net) && ChannelsOk(g, w, net) && TimesOk(t, now)
  }

  // ---------------------------------------------------------------- one link, one step

  lemma CountPushBoth(q: seq<Message>, m: Message)
    ensures Count(q + [m], true) == Count(q, true) + Bit(m.Bcast?)
    ensures Count(q + [m], false) == Count(q, false) + Bit(m.Ack?)
  {
    CountPush(q, m, true);
    CountPush(q, m, false);
  }

  /** A step at node i changes the side it shows to neighbour j in one of these ways. */
  function SendEnd(e: End): End
    requires e.out != []
  {
    e.(out := e.out[1..])
  }

  function ReceiveEnd(e: End, m: Message, j: nat): End {
    match m
    case Bcast(_) => if e.joined then e.(out := e.out + [Ack]) else e.(joined := true, parent := j)
    case Ack => e.(acked := true)
  }

  function ReceiveElsewhereEnd(e: End, m: Message, k: nat): End {
    if m.Bcast? && !e.joined then e.(joined := true, parent := k, out := e.out + [m]) else e
  }

  function ReportEnd(e: End, j: nat): End {
    e.(reported := true, out := if !e.isRoot && e.parent == j then e.out + [Ack] else e.out)
  }

  ghost predicate BothWays(e: End, f: End, i: nat, j: nat, ef: seq<Message>, fe: seq<Message>) {
    LinkOk(e, f, i, j, ef, fe) && LinkOk(f, e, j, i, fe, ef)
  }

  lemma LinkSend(e: End, f: End, i: nat, j: nat, ef: seq<Message>, fe: seq<Message>)
    requires BothWays(e, f, i, j, ef, fe) && e.out != []
    ensures BothWays(SendEnd(e), f, i, j, ef + [e.out[0]], fe)
  {
    CountPushBoth(ef, e.out[0]);
  }

  lemma LinkDeliver(e: End, f: End, i: nat, j: nat, ef: seq<Message>, fe: seq<Message>)
    requires BothWays(e, f, i, j, ef, fe) && ef != []
    requires !f.joined ==> !f.isRoot && !f.reported
    ensures BothWays(e, ReceiveEnd(f, ef[0], i), i, j, ef[1..], fe)
  {
    CountPushBoth(f.out, Ack);
  }

  lemma LinkReceiveElsewhere(e: End, f: End, i: nat, j: nat, ef: seq<Message>, fe: seq<Message>, m: Message, k: nat)
    requires BothWays(e, f, i, j, ef, fe) && k != i
    ensures BothWays(e, ReceiveElsewhereEnd(f, m, k), i, j, ef, fe)
  {
    CountPushBoth(f.out, m);
  }

  lemma LinkReport(e: End, f: End, i: nat, j: nat, ef: seq<Message>, fe: seq<Message>)
    requires BothWays(e, f, i, j, ef, fe) && !f.reported
    requires !f.isRoot ==> f.joined
    ensures BothWays(e, ReportEnd(f, i), i, j, ef, fe)
  {
    CountPushBoth(f.out, Ack);
  }

  lemma FacingSend(p: Node, j: nat, k: nat)
    requires CanSend(p, j) && k in p.send
    ensures Facing(Send(p, j), k) == if k == j then SendEnd(Facing(p, k)) else Facing(p, k)
  {}

  lemma FacingReceive(p: Node, m: Message, j: nat, k: nat)
    requires p.send.Keys == p.nbrs && k in p.send && (m.Bcast? ==> m.value != NONE)
    ensures k in Receive(p, m, j).send
    ensures Facing(Receive(p, m, j), k) ==
            if k == j then ReceiveEnd(Facing(p, k), m, j) else ReceiveElsewhereEnd(Facing(p, k), m, j)
  {}

  lemma FacingReport(p: Node, k: nat)
    requires k in p.send
    ensures Facing(Report(p), k) == ReportEnd(Facing(p, k), k)
  {}

  // ---------------------------------------------------------------- one node, one step

  lemma CarriesTail(q: seq<Message>, w: nat)
    requires Carries(q, w)
    ensures q != [] ==> Carries(q[1..], w)
  {
    assert forall m | q != [] && m in q[1..] :: m in q;
  }

  lemma NodeSend(g: Graph, w: nat, i: nat, p: Node, t: seq<nat>, j: nat)
    requires i < |g.nbrs| == |t| && NodeOk(g, w, i, p, t) && CanSend(p, j)
    ensures NodeOk(g, w, i, Send(p, j), t)
  {
    CarriesTail(p.send[j], w);
  }

  lemma NodeReceive(g: Graph, w: nat, i: nat, p: Node, t: seq<nat>, m: Message, j: nat, now: nat)
    requires ValidGraph(g) && w != NONE && i < |g.nbrs| == |t| && NodeOk(g, w, i, p, t) && j in g.nbrs[i]
    requires m.Bcast? ==> m.value == w
    requires m.Ack? ==> Offers(Facing(p, j), j) && j !in p.acked
    requires t[j] < now
    ensures NodeOk(g, w, i, Receive(p, m, j), if m.Bcast? && !Joined(p) then t[i := now] else t)
  {}

  lemma NodeReport(g: Graph, w: nat, i: nat, p: Node, t: seq<nat>)
    requires ValidGraph(g) && i < |g.nbrs| == |t| && NodeOk(g, w, i, p, t) && CanReport(p)
    ensures NodeOk(g, w, i, Report(p), t)
  {
    ReportMeansAllAcked(g, w, i, p, t);
  }

  /** The size test of report_precondition says exactly that everyone but the parent acknowledged. */
  lemma ReportMeansAllAcked(g: Graph, w: nat, i: nat, p: Node, t: seq<nat>)
    requires ValidGraph(g) && i < |g.nbrs| == |t| && NodeOk(g, w, i, p, t)
    ensures CanReport(p) <==> Joined(p) && !p.reported && p.acked == p.nbrs - {p.parent}
  {
    assert NONE !in g.nbrs[i];
    if i == g.root {
      assert p.nbrs - {p.parent} == p.nbrs;
      SubsetSize(p.acked, p.nbrs);
    } else if Joined(p) {
      assert |p.nbrs - {p.parent}| == |p.nbrs| - 1;
      if p.parent !in p.acked {
        SubsetSize(p.acked, p.nbrs - {p.parent});
      }
    }
  }

  // ---------------------------------------------------------------- every step keeps the invariant

  /** The node whose fields a step updates. */
  function Mover(s: Step): nat {
    match s
    case SendStep(i, j) => i
    case DeliverStep(i, j) => j
    case ReportStep(i) => i
  }

  ghost predicate EdgesBothWays(net: Net, a: nat, b: nat) {
    EdgeOk(net, a, b) && EdgeOk(net, b, a)
  }

  /** The links of the node that moves: b is the mover, a its neighbour. */
  lemma SenderEdge(net: Net, j: nat, a: nat, b: nat)
    requires EdgesBothWays(net, a, b) && Enabled(net, SendStep(b, j))
    ensures EdgesBothWays(Take(net, SendStep(b, j)), a, b)
  {
    FacingSend(net.nodes[b], j, a);
    if j == a {
      LinkSend(Facing(net.nodes[b], a), Facing(net.nodes[a], b), b, a, net.channel(b, a), net.channel(a, b));
    }
  }

  lemma ReceiverEdge(g: Graph, w: nat, t: seq<nat>, net: Net, i: nat, a: nat, b: nat)
    requires EdgesBothWays(net, a, b) && Enabled(net, DeliverStep(i, b))
    requires b < |g.nbrs| == |t| && NodeOk(g, w, b, net.nodes[b], t) && w != NONE && Carries(net.channel(i, b), w)
    ensures EdgesBothWays(Take(net, DeliverStep(i, b)), a, b)
  {
    var e, f := Facing(net.nodes[a], b), Facing(net.nodes[b], a);
    var ef, fe := net.channel(a, b), net.channel(b, a);
    var m := net.channel(i, b)[0];
    assert m in net.channel(i, b);
    FacingReceive(net.nodes[b], m, i, a);
    if i == a {
      LinkDeliver(e, f, a, b, ef, fe);
    } else {
      LinkReceiveElsewhere(e, f, a, b, ef, fe, m, i);
    }
  }

  lemma ReporterEdge(net: Net, a: nat, b: nat)
    requires EdgesBothWays(net, a, b) && Enabled(net, ReportStep(b))
    requires !net.nodes[b].reported && Joined(net.nodes[b])
    ensures EdgesBothWays(Take(net, ReportStep(b)), a, b)
  {
    FacingReport(net.nodes[b], a);
    LinkReport(Facing(net.nodes[a], b), Facing(net.nodes[b], a), a, b, net.channel(a, b), net.channel(b, a));
  }

  lemma MoverEdge(g: Graph, w: nat, net: Net, t: seq<nat>, now: nat, s: Step, a: nat, b: nat)
    requires Inv(g, w, net, t, now) && Enabled(net, s) && (a, b) in Links(g) && b == Mover(s)
    ensures EdgesBothWays(Take(net, s), a, b)
  {
    LinkEnds(g, a, b);
    assert EdgesBothWays(net, a, b);
    assert NodeOk(g, w, b, net.nodes[b], t);
    match s
    case SendStep(i, j) => SenderEdge(net, j, a, b);
    case DeliverStep(i, j) => ReceiverEdge(g, w, t, net, i, a, b);
    case ReportStep(i) =>
      ReportMeansAllAcked(g, w, b, net.nodes[b], t);
      ReporterEdge(net, a, b);
  }

  lemma EdgeStep(g: Graph, w: nat, net: Net, t: seq<nat>, now: nat, s: Step, a: nat, b: nat)
    requires Inv(g, w, net, t, now) && Enabled(net, s) && (a, b) in Links(g)
    ensures EdgeOk(Take(net, s), a, b)
  {
    LinkEnds(g, a, b);
    if b == Mover(s) {
      MoverEdge(g, w, net, t, now, s, a, b);
    } else if a == Mover(s) {
      MoverEdge(g, w, net, t, now, s, b, a);
    } else {
      StillEdge(net, s, a, b);
    }
  }

  lemma StillEdge(net: Net, s: Step, a: nat, b: nat)
    requires EdgeOk(net, a, b) && Enabled(net, s) && a != Mover(s) && b != Mover(s)
    ensures EdgeOk(Take(net, s), a, b)
  {}

  lemma DeliveredAck(net: Net, i: nat, j: nat)
    requires EdgeOk(net, j, i) && net.channel(i, j) != [] && net.channel(i, j)[0].Ack?
    ensures Offers(Facing(net.nodes[j], i), i) && i !in net.nodes[j].acked
  {
    CountIn(net.channel(i, j), net.channel(i, j)[0]);
  }

  lemma ReceiverNode(g: Graph, w: nat, net: Net, t: seq<nat>, now: nat, i: nat, j: nat)
    requires Inv(g, w, net, t, now) && Enabled(net, DeliverStep(i, j))
    ensures j < |g.nbrs|
    ensures NodeOk(g, w, j, Take(net, DeliverStep(i, j)).nodes[j], Joining(net, t, DeliverStep(i, j), now + 1))
  {
    LinkEnds(g, i, j);
    var m := net.channel(i, j)[0];
    assert m in net.channel(i, j);
    assert NodeOk(g, w, j, net.nodes[j], t);
    if m.Ack? {
      DeliveredAck(net, i, j);
    }
    assert t[i] <= now;
    NodeReceive(g, w, j, net.nodes[j], t, m, i, now + 1);
  }

  lemma MoverNode(g: Graph, w: nat, net: Net, t: seq<nat>, now: nat, s: Step)
    requires Inv(g, w, net, t, now) && Enabled(net, s)
    ensures Mover(s) < |g.nbrs|
    ensures NodeOk(g, w, Mover(s), Take(net, s).nodes[Mover(s)], Joining(net, t, s, now + 1))
  {
    match s
    case SendStep(i, j) => SenderNode(g, w, net, t, i, j);
    case DeliverStep(i, j) => ReceiverNode(g, w, net, t, now, i, j);
    case ReportStep(i) => ReporterNode(g, w, net, t, i);
  }

  lemma SenderNode(g: Graph, w: nat, net: Net, t: seq<nat>, i: nat, j: nat)
    requires NodesOk(g, w, net, t) && Enabled(net, SendStep(i, j))
    ensures NodeOk(g, w, i, Take(net, SendStep(i, j)).nodes[i], t)
  {
    NodeSend(g, w, i, net.nodes[i], t, j);
  }

  lemma ReporterNode(g: Graph, w: nat, net: Net, t: seq<nat>, i: nat)
    requires ValidGraph(g) && NodesOk(g, w, net, t) && Enabled(net, ReportStep(i))
    ensures NodeOk(g, w, i, Take(net, ReportStep(i)).nodes[i], t)
  {
    NodeReport(g, w, i, net.nodes[i], t);
  }

  lemma ParentJoined(net: Net, i: nat, k: nat)
    requires EdgeOk(net, i, k) && Adopted(Facing(net.nodes[k], i), i)
    ensures Joined(net.nodes[i])
  {}

  lemma NodeFrame(g: Graph, w: nat, k: nat, p: Node, t: seq<nat>, x: nat, now: nat)
    requires k < |g.nbrs| == |t| && NodeOk(g, w, k, p, t) && x < |t| && x != k
    requires Joined(p) && k != g.root ==> p.parent != x
    ensures NodeOk(g, w, k, p, t[x := now])
  {}

  /** A node that joins now is nobody's parent yet, so the others keep their place in time. */
  lemma OtherNode(g: Graph, w: nat, net: Net, t: seq<nat>, now: nat, s: Step, k: nat)
    requires Inv(g, w, net, t, now) && Enabled(net, s) && k < |g.nbrs| && k != Mover(s)
    ensures NodeOk(g, w, k, Take(net, s).nodes[k], Joining(net, t, s, now + 1))
  {
    var x := Mover(s);
    assert Take(net, s).nodes[k] == net.nodes[k];
    if s.DeliverStep? && !Joined(net.nodes[x]) {
      NotYetParent(g, w, net, t, now, k, x);
      NodeFrame(g, w, k, net.nodes[k], t, x, now + 1);
    }
  }

  lemma NotYetParent(g: Graph, w: nat, net: Net, t: seq<nat>, now: nat, k: nat, x: nat)
    requires Inv(g, w, net, t, now) && k < |g.nbrs| && x < |g.nbrs| && !Joined(net.nodes[x])
    ensures Joined(net.nodes[k]) && k != g.root ==> net.nodes[k].parent != x
  {
    var p := net.nodes[k];
    assert NodeOk(g, w, k, p, t);
    if Joined(p) && k != g.root && p.parent == x {
      LinkEnds(g, k, x);
      ParentJoined(net, x, k);
    }
  }

  lemma ChannelStep(g: Graph, w: nat, net: Net, t: seq<nat>, s: Step, i: nat, j: nat)
    requires ValidGraph(g) && NodesOk(g, w, net, t) && ChannelsOk(g, w, net) && Enabled(net, s)
    ensures Carries(Take(net, s).channel(i, j), w) && (Take(net, s).channel(i, j) != [] ==> (i, j) in Links(g))
  {
    CarriesTail(net.channel(i, j), w);
    if s == SendStep(i, j) {
      assert NodeOk(g, w, i, net.nodes[i], t);
      CarriesPush(net.channel(i, j), net.nodes[i].send[j], w);
    }
  }

  lemma CarriesPush(q: seq<Message>, out: seq<Message>, w: nat)
    requires Carries(q, w) && Carries(out, w) && out != []
    ensures Carries(q + [out[0]], w)
  {
    assert out[0] in out;
  }

  lemma NodesStep(g: Graph, w: nat, net: Net, t: seq<nat>, now: nat, s: Step)
    requires Inv(g, w, net, t, now) && Enabled(net, s)
    ensures NodesOk(g, w, Take(net, s), Joining(net, t, s, now + 1))
  {
    forall i: nat | i < |g.nbrs|
      ensures NodeOk(g, w, i, Take(net, s).nodes[i], Joining(net, t, s, now + 1))
    {
      if i == Mover(s) {
        MoverNode(g, w, net, t, now, s);
      } else {
        OtherNode(g, w, net, t, now, s, i);
      }
    }
  }

  lemma EdgesStep(g: Graph, w: nat, net: Net, t: seq<nat>, now: nat, s: Step)
    requires Inv(g, w, net, t, now) && Enabled(net, s)
    ensures EdgesOk(g, Take(net, s))
  {
    forall a: nat, b: nat | (a, b) in Links(g)
      ensures EdgeOk(Take(net, s), a, b)
    {
      EdgeStep(g, w, net, t, now, s, a, b);
    }
  }

  lemma ChannelsStep(g: Graph, w: nat, net: Net, t: seq<nat>, now: nat, s: Step)
    requires Inv(g, w, net, t, now) && Enabled(net, s)
    ensures ChannelsOk(g, w, Take(net, s))
  {
    forall i: nat, j: nat
      ensures Carries(Take(net, s).channel(i, j), w) && (Take(net, s).channel(i, j) != [] ==> (i, j) in Links(g))
    {
      ChannelStep(g, w, net, t, s, i, j);
    }
  }

  lemma StepInv(g: Graph, w: nat, net: Net, t: seq<nat>, now: nat, s: Step)
    requires Inv(g, w, net, t, now) && Enabled(net, s)
    ensures Inv(g, w, Take(net, s), Joining(net, t, s, now + 1), now + 1)
  {
    NodesStep(g, w, net, t, now, s);
    EdgesStep(g, w, net, t, now, s);
    ChannelsStep(g, w, net, t, now, s);
    TimesStep(net, t, now, s);
  }

  lemma TimesStep(net: Net, t: seq<nat>, now: nat, s: Step)
    requires TimesOk(t, now) && |t| == |net.nodes| && Enabled(net, s)
    ensures TimesOk(Joining(net, t, s, now + 1), now + 1)
  {}

  lemma CountNone(q: seq<Message>)
    ensures q == [] ==> Count(q, true) == 0 == Count(q, false)
    ensures |q| == 1 ==> Count(q, true) == Bit(q[0].Bcast?) && Count(q, false) == Bit(q[0].Ack?)
  {
    if |q| == 1 {
      assert q[1..] == [];
    }
  }

  function InitialEnd(isRoot: bool, w: nat): End {
    End(isRoot, isRoot, NONE, false, false, if isRoot then [Bcast(w)] else [])
  }

  lemma FacingInitial(i: nat, root: nat, nbrs: set<nat>, w: nat, j: nat)
    requires j in nbrs && w != NONE
    ensures Facing(Initial(i, root, nbrs, w), j) == InitialEnd(i == root, w)
  {
    assert [] + [Bcast(w)] == [Bcast(w)];
  }

  lemma LinkInitial(aIsRoot: bool, bIsRoot: bool, w: nat, a: nat, b: nat)
    requires a != b && a < NONE && b < NONE && !(aIsRoot && bIsRoot)
    ensures LinkOk(InitialEnd(aIsRoot, w), InitialEnd(bIsRoot, w), a, b, [], [])
  {
    CountNone(InitialEnd(aIsRoot, w).out);
    CountNone(InitialEnd(bIsRoot, w).out);
    CountNone([]);
  }

  lemma InitialEdge(g: Graph, w: nat, a: nat, b: nat)
    requires ValidGraph(g) && w != NONE && (a, b) in Links(g)
    ensures EdgeOk(InitialNet(g, w), a, b)
  {
    LinkEnds(g, a, b);
    FacingInitial(a, g.root, g.nbrs[a], w, b);
    FacingInitial(b, g.root, g.nbrs[b], w, a);
    LinkInitial(a == g.root, b == g.root, w, a, b);
  }

  lemma InitialNode(g: Graph, w: nat, i: nat, t: seq<nat>)
    requires ValidGraph(g) && w != NONE && i < |g.nbrs| == |t|
    ensures NodeOk(g, w, i, InitialNet(g, w).nodes[i], t)
  {
    InitialSend(i, g.root, g.nbrs[i], w);
  }

  lemma InitialSend(i: nat, root: nat, nbrs: set<nat>, w: nat)
    ensures Initial(i, root, nbrs, w).send.Keys == nbrs
    ensures forall j | j in nbrs :: Initial(i, root, nbrs, w).send[j] == if i == root then [Bcast(w)] else []
  {}

  lemma InitialInv(g: Graph, w: nat)
    requires ValidGraph(g) && w != NONE
    ensures Inv(g, w, InitialNet(g, w), JoinTimes(g, w, []), 0)
  {
    var net, t := InitialNet(g, w), JoinTimes(g, w, []);
    assert EdgesOk(g, net) by {
      forall a: nat, b: nat | (a, b) in Links(g)
        ensures EdgeOk(net, a, b)
      {
        InitialEdge(g, w, a, b);
      }
    }
    assert NodesOk(g, w, net, t) by {
      forall i: nat | i < |g.nbrs|
        ensures NodeOk(g, w, i, net.nodes[i], t)
      {
        InitialNode(g, w, i, t);
      }
    }
  }

  lemma AfterStep(g: Graph, w: nat, before: seq<Step>, s: Step)
    requires IsRun(g, w, before) && Enabled(After(g, w, before), s)
    requires Inv(g, w, After(g, w, before), JoinTimes(g, w, before), |before|)
    ensures IsRun(g, w, before + [s])
    ensures Inv(g, w, After(g, w, before + [s]), JoinTimes(g, w, before + [s]), |before + [s]|)
  {
    var steps := before + [s];
    assert steps[..|steps| - 1] == before && steps[|steps| - 1] == s;
    StepInv(g, w, After(g, w, before), JoinTimes(g, w, before), |before|, s);
  }

  lemma {:induction false} RunInv(g: Graph, w: nat, steps: seq<Step>)
    requires ValidGraph(g) && w != NONE && IsRun(g, w, steps)
    ensures Inv(g, w, After(g, w, steps), JoinTimes(g, w, steps), |steps|)
    decreases |steps|
  {
    if steps == [] {
      InitialInv(g, w);
    } else {
      var before, s := steps[..|steps| - 1], steps[|steps| - 1];
      RunInv(g, w, before);
      AfterStep(g, w, before, s);
      assert before + [s] == steps;
    }
  }
}
