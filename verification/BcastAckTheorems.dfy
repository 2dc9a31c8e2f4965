/** Termination, completeness and the spanning tree of broadcast / acknowledge. */
module BcastAckTheorems {
  import opened Common
  import opened Networks
  import opened BcastAckAutomaton
  import opened BcastAckNetwork

  // ---------------------------------------------------------------- termination

  /** Steps still owed by the broadcast from e to f: queueing (counted with the first send), sending,
      delivering, sending the acknowledgement, delivering it. */
  function Owed(e: End, f: End, i: nat, ef: seq<Message>, fe: seq<Message>): nat {
    if !e.joined then 4
    else 4 * Count(e.out, true) + 3 * Count(ef, true) + 2 * Bit(Adopted(f, i) && !f.reported)
         + 2 * Count(f.out, false) + Count(fe, false)
  }

  /** What a step at f's node does to both directions of a link: neither grows. */
  ghost predicate NoGrowth(e: End, f: End, f': End, i: nat, j: nat,
                           ef: seq<Message>, fe: seq<Message>, ef': seq<Message>, fe': seq<Message>) {
    && Owed(e, f', i, ef', fe') <= Owed(e, f, i, ef, fe)
    && Owed(f', e, j, fe', ef') <= Owed(f, e, j, fe, ef)
  }

  ghost predicate Shrinks(e: End, f: End, f': End, i: nat, j: nat,
                          ef: seq<Message>, fe: seq<Message>, ef': seq<Message>, fe': seq<Message>) {
    && NoGrowth(e, f, f', i, j, ef, fe, ef', fe')
    && (|| Owed(e, f', i, ef', fe') < Owed(e, f, i, ef, fe)
        || Owed(f', e, j, fe', ef') < Owed(f, e, j, fe, ef))
  }

  lemma SendShrinks(e: End, f: End, i: nat, j: nat, ef: seq<Message>, fe: seq<Message>)
    requires BothWays(e, f, i, j, ef, fe) && f.out != []
    ensures Shrinks(e, f, SendEnd(f), i, j, ef, fe, ef, fe + [f.out[0]])
  {
    CountPushBoth(fe, f.out[0]);
  }

  lemma DeliverShrinks(e: End, f: End, i: nat, j: nat, ef: seq<Message>, fe: seq<Message>)
    requires BothWays(e, f, i, j, ef, fe) && ef != []
    requires !f.joined ==> !f.isRoot && !f.reported
    ensures Shrinks(e, f, ReceiveEnd(f, ef[0], i), i, j, ef, fe, ef[1..], fe)
  {
    CountPushBoth(f.out, Ack);
    LinkDeliver(e, f, i, j, ef, fe);
  }

  lemma ElsewhereShrinks(e: End, f: End, i: nat, j: nat, ef: seq<Message>, fe: seq<Message>, m: Message, k: nat)
    requires BothWays(e, f, i, j, ef, fe) && k != i
    ensures NoGrowth(e, f, ReceiveElsewhereEnd(f, m, k), i, j, ef, fe, ef, fe)
  {
    CountPushBoth(f.out, m);
    LinkReceiveElsewhere(e, f, i, j, ef, fe, m, k);
  }

  lemma ReportShrinks(e: End, f: End, i: nat, j: nat, ef: seq<Message>, fe: seq<Message>)
    requires BothWays(e, f, i, j, ef, fe) && !f.reported && f.joined
    ensures NoGrowth(e, f, ReportEnd(f, i), i, j, ef, fe, ef, fe)
  {
    CountPushBoth(f.out, Ack);
  }

  ghost function LinkOwed(g: Graph, net: Net, a: nat, b: nat): nat {
    if (a, b) in Links(g) && a < |net.nodes| && b < |net.nodes| && b in net.nodes[a].send && a in net.nodes[b].send
    then Owed(Facing(net.nodes[a], b), Facing(net.nodes[b], a), a, net.channel(a, b), net.channel(b, a))
    else 0
  }

  ghost function OwedMatrix(g: Graph, net: Net): (m: Matrix)
    ensures |m| == |g.nbrs|
    ensures forall a: nat | a < |g.nbrs| :: |m[a]| == |g.nbrs| && forall b: nat | b < |g.nbrs| :: m[a][b] == LinkOwed(g, net, a, b)
  {
    seq(|g.nbrs|, a requires 0 <= a < |g.nbrs| => seq(|g.nbrs|, b requires 0 <= b < |g.nbrs| => LinkOwed(g, net, a, b)))
  }

  function Unreported(net: Net): (s: seq<int>)
    ensures |s| == |net.nodes| && forall i: nat | i < |s| :: s[i] == Bit(!net.nodes[i].reported)
  {
    seq(|net.nodes|, i requires 0 <= i < |net.nodes| => Bit(!net.nodes[i].reported))
  }

  /** Everything still to be done. */
  ghost function Measure(g: Graph, net: Net): int {
    Total(OwedMatrix(g, net)) + Sum(Unreported(net))
  }

  /** What a step does to one link seen from the two sides; b is the node that moves. */
  ghost predicate LinkNoGrowth(g: Graph, net: Net, net': Net, a: nat, b: nat) {
    LinkOwed(g, net', a, b) <= LinkOwed(g, net, a, b) && LinkOwed(g, net', b, a) <= LinkOwed(g, net, b, a)
  }

  ghost predicate LinkShrinks(g: Graph, net: Net, net': Net, a: nat, b: nat) {
    && LinkNoGrowth(g, net, net', a, b)
    && (LinkOwed(g, net', a, b) < LinkOwed(g, net, a, b) || LinkOwed(g, net', b, a) < LinkOwed(g, net, b, a))
  }

  lemma SenderOwed(g: Graph, net: Net, j: nat, a: nat, b: nat)
    requires ValidGraph(g) && (a, b) in Links(g)
    requires EdgesBothWays(net, a, b) && Enabled(net, SendStep(b, j))
    ensures LinkNoGrowth(g, net, Take(net, SendStep(b, j)), a, b)
    ensures a == j ==> LinkShrinks(g, net, Take(net, SendStep(b, j)), a, b)
  {
    LinkEnds(g, a, b);
    FacingSend(net.nodes[b], j, a);
    if j == a {
      SendShrinks(Facing(net.nodes[a], b), Facing(net.nodes[b], a), a, b, net.channel(a, b), net.channel(b, a));
    }
  }

  lemma ReceiverOwed(g: Graph, w: nat, t: seq<nat>, net: Net, i: nat, a: nat, b: nat)
    requires ValidGraph(g) && (a, b) in Links(g)
    requires EdgesBothWays(net, a, b) && Enabled(net, DeliverStep(i, b))
    requires b < |g.nbrs| == |t| && NodeOk(g, w, b, net.nodes[b], t) && w != NONE && Carries(net.channel(i, b), w)
    ensures LinkNoGrowth(g, net, Take(net, DeliverStep(i, b)), a, b)
    ensures a == i ==> LinkShrinks(g, net, Take(net, DeliverStep(i, b)), a, b)
  {
    LinkEnds(g, a, b);
    var e, f := Facing(net.nodes[a], b), Facing(net.nodes[b], a);
    var m := net.channel(i, b)[0];
    assert m in net.channel(i, b);
    FacingReceive(net.nodes[b], m, i, a);
    if i == a {
      DeliverShrinks(e, f, a, b, net.channel(a, b), net.channel(b, a));
    } else {
      ElsewhereShrinks(e, f, a, b, net.channel(a, b), net.channel(b, a), m, i);
    }
  }

  lemma ReporterOwed(g: Graph, net: Net, a: nat, b: nat)
    requires ValidGraph(g) && (a, b) in Links(g)
    requires EdgesBothWays(net, a, b) && Enabled(net, ReportStep(b))
    requires !net.nodes[b].reported && Joined(net.nodes[b])
    ensures LinkNoGrowth(g, net, Take(net, ReportStep(b)), a, b)
  {
    LinkEnds(g, a, b);
    FacingReport(net.nodes[b], a);
    ReportShrinks(Facing(net.nodes[a], b), Facing(net.nodes[b], a), a, b, net.channel(a, b), net.channel(b, a));
  }

  /** The link a send or delivery uses. */
  ghost predicate Uses(s: Step, a: nat, b: nat) {
    match s
    case SendStep(i, j) => a == j && b == i
    case DeliverStep(i, j) => a == i && b == j
    case ReportStep(_) => false
  }

  lemma MoverOwed(g: Graph, w: nat, net: Net, t: seq<nat>, now: nat, s: Step, a: nat, b: nat)
    requires Inv(g, w, net, t, now) && Enabled(net, s) && (a, b) in Links(g) && b == Mover(s)
    ensures LinkNoGrowth(g, net, Take(net, s), a, b)
    ensures Uses(s, a, b) ==> LinkShrinks(g, net, Take(net, s), a, b)
  {
    LinkEnds(g, a, b);
    assert EdgesBothWays(net, a, b);
    assert NodeOk(g, w, b, net.nodes[b], t);
    match s
    case SendStep(i, j) => SenderOwed(g, net, j, a, b);
    case DeliverStep(i, j) => ReceiverOwed(g, w, t, net, i, a, b);
    case ReportStep(i) =>
      ReportMeansAllAcked(g, w, b, net.nodes[b], t);
      ReporterOwed(g, net, a, b);
  }

  lemma LinkOwedStep(g: Graph, w: nat, net: Net, t: seq<nat>, now: nat, s: Step, a: nat, b: nat)
    requires Inv(g, w, net, t, now) && Enabled(net, s)
    ensures LinkOwed(g, Take(net, s), a, b) <= LinkOwed(g, net, a, b)
  {
    if (a, b) in Links(g) {
      LinkEnds(g, a, b);
      if b == Mover(s) {
        MoverOwed(g, w, net, t, now, s, a, b);
      } else if a == Mover(s) {
        MoverOwed(g, w, net, t, now, s, b, a);
      } else {
        StillOwed(g, net, s, a, b);
      }
    }
  }

  lemma StillOwed(g: Graph, net: Net, s: Step, a: nat, b: nat)
    requires a < |net.nodes| && b < |net.nodes| && Enabled(net, s) && a != Mover(s) && b != Mover(s)
    ensures LinkOwed(g, Take(net, s), a, b) == LinkOwed(g, net, a, b)
  {}

  /** The link a step uses, from the side of its other end. */
  lemma UsedLink(g: Graph, w: nat, net: Net, t: seq<nat>, now: nat, s: Step) returns (a: nat)
    requires Inv(g, w, net, t, now) && Enabled(net, s) && !s.ReportStep?
    ensures (a, Mover(s)) in Links(g) && Uses(s, a, Mover(s))
  {
    match s {
      case SendStep(i, j) =>
        a := j;
        assert NodeOk(g, w, i, net.nodes[i], t);
        LinkEnds(g, i, j);
      case DeliverStep(i, j) =>
        a := i;
    }
  }

  /** The matrix of owed steps never grows, and shrinks unless the step is a report. */
  lemma MatrixStep(g: Graph, w: nat, net: Net, t: seq<nat>, now: nat, s: Step)
    requires Inv(g, w, net, t, now) && Enabled(net, s)
    ensures AtMost(OwedMatrix(g, Take(net, s)), OwedMatrix(g, net))
  {
    forall a: nat, b: nat
      ensures LinkOwed(g, Take(net, s), a, b) <= LinkOwed(g, net, a, b)
    {
      LinkOwedStep(g, w, net, t, now, s, a, b);
    }
    MatrixAtMost(g, net, Take(net, s));
  }

  lemma MatrixAtMost(g: Graph, net: Net, net': Net)
    requires forall a: nat, b: nat :: LinkOwed(g, net', a, b) <= LinkOwed(g, net, a, b)
    ensures AtMost(OwedMatrix(g, net'), OwedMatrix(g, net))
  {}

  lemma MatrixShrinks(g: Graph, net: Net, net': Net, a: nat, b: nat)
    requires a < |g.nbrs| && b < |g.nbrs| && AtMost(OwedMatrix(g, net'), OwedMatrix(g, net))
    requires LinkShrinks(g, net, net', a, b)
    ensures Total(OwedMatrix(g, net')) < Total(OwedMatrix(g, net))
  {
    if LinkOwed(g, net', a, b) < LinkOwed(g, net, a, b) {
      TotalStrict(OwedMatrix(g, net'), OwedMatrix(g, net), a, b);
    } else {
      TotalStrict(OwedMatrix(g, net'), OwedMatrix(g, net), b, a);
    }
  }

  lemma UnreportedStep(net: Net, s: Step)
    requires Enabled(net, s)
    ensures Sum(Unreported(Take(net, s))) <= Sum(Unreported(net))
    ensures s.ReportStep? ==> Sum(Unreported(Take(net, s))) < Sum(Unreported(net))
  {
    var u, u' := Unreported(net), Unreported(Take(net, s));
    assert forall i: nat | i < |u| :: u'[i] <= u[i];
    SumMonotone(u', u);
    if s.ReportStep? {
      SumStrict(u', u, s.i);
    }
  }

  lemma MeasureStep(g: Graph, w: nat, net: Net, t: seq<nat>, now: nat, s: Step)
    requires Inv(g, w, net, t, now) && Enabled(net, s)
    ensures Measure(g, Take(net, s)) < Measure(g, net)
  {
    MatrixStep(g, w, net, t, now, s);
    TotalMonotone(OwedMatrix(g, Take(net, s)), OwedMatrix(g, net));
    if !s.ReportStep? {
      var a := UsedLink(g, w, net, t, now, s);
      LinkEnds(g, a, Mover(s));
      MoverOwed(g, w, net, t, now, s, a, Mover(s));
      MatrixShrinks(g, net, Take(net, s), a, Mover(s));
    }
    UnreportedStep(net, s);
  }

  lemma {:induction false} MeasureRun(g: Graph, w: nat, steps: seq<Step>)
    requires ValidGraph(g) && w != NONE && IsRun(g, w, steps)
    ensures |steps| + Measure(g, After(g, w, steps)) <= Measure(g, InitialNet(g, w))
    decreases |steps|
  {
    if steps != [] {
      var before, s := steps[..|steps| - 1], steps[|steps| - 1];
      MeasureRun(g, w, before);
      RunInv(g, w, before);
      MeasureStep(g, w, After(g, w, before), JoinTimes(g, w, before), |before|, s);
    }
  }

  /** Number of directed links. */
  function Degrees(g: Graph): (d: seq<int>)
    ensures |d| == |g.nbrs| && forall i: nat | i < |d| :: d[i] == |g.nbrs[i]|
  {
    seq(|g.nbrs|, i requires 0 <= i < |g.nbrs| => |g.nbrs[i]|)
  }

  lemma {:induction false} RowBound(row: seq<int>, nbrs: set<nat>)
    requires forall j: nat | j < |row| :: row[j] <= if j in nbrs then 4 else 0
    requires forall j | j in nbrs :: j < |row|
    ensures Sum(row) <= 4 * |nbrs|
  {
    if row == [] {
      assert nbrs == {};
    } else {
      var last := |row| - 1;
      SumConcat(row[..last], [row[last]]);
      assert row[..last] + [row[last]] == row;
      assert Sum([row[last]]) == row[last];
      RowBound(row[..last], nbrs - {last});
    }
  }

  lemma {:induction false} SumScaled(a: seq<int>, b: seq<int>, k: int)
    requires |a| == |b| && forall j | 0 <= j < |a| :: a[j] <= k * b[j]
    ensures Sum(a) <= k * Sum(b)
  {
    if a != [] {
      SumScaled(a[1..], b[1..], k);
    }
  }

  /** Every run is finite: at most four steps per directed link and one report per node. */
  lemma RunLengthBound(g: Graph, w: nat, steps: seq<Step>)
    requires ValidGraph(g) && w != NONE && IsRun(g, w, steps)
    ensures |steps| <= 4 * Sum(Degrees(g)) + |g.nbrs|
  {
    var net0, net := InitialNet(g, w), After(g, w, steps);
    MeasureRun(g, w, steps);
    MeasureNonNegative(g, net);
    var m := OwedMatrix(g, net0);
    forall a: nat | a < |g.nbrs|
      ensures Sum(m[a]) <= 4 * |g.nbrs[a]|
    {
      forall b: nat | b < |g.nbrs|
        ensures m[a][b] <= if b in g.nbrs[a] then 4 else 0
      {
        InitialOwed(g, w, a, b);
      }
      RowBound(m[a], g.nbrs[a]);
    }
    SumScaled(RowSums(m), Degrees(g), 4);
    SumAtMost(Unreported(net0), 1);
  }

  lemma InitialOwed(g: Graph, w: nat, a: nat, b: nat)
    requires ValidGraph(g) && w != NONE && a < |g.nbrs| && b < |g.nbrs|
    ensures LinkOwed(g, InitialNet(g, w), a, b) <= if b in g.nbrs[a] then 4 else 0
  {
    if (a, b) in Links(g) {
      LinkEnds(g, a, b);
      FacingInitial(a, g.root, g.nbrs[a], w, b);
      FacingInitial(b, g.root, g.nbrs[b], w, a);
      CountNone([]);
      CountNone([Bcast(w)]);
    }
  }

  lemma MeasureNonNegative(g: Graph, net: Net)
    requires |net.nodes| == |g.nbrs|
    ensures Measure(g, net) >= 0
  {
    var m := OwedMatrix(g, net);
    forall a: nat | a < |m|
      ensures Sum(m[a]) >= 0
    {
      SumAtLeast(m[a], 0);
    }
    SumAtLeast(RowSums(m), 0);
    SumAtLeast(Unreported(net), 0);
  }

  // ---------------------------------------------------------------- completion

  lemma AckedChild(net: Net, i: nat, j: nat)
    requires EdgeOk(net, i, j) && j in net.nodes[i].acked
    ensures Joined(net.nodes[j])
    ensures Adopted(Facing(net.nodes[j], i), i) ==> net.nodes[j].reported
  {}

  /** If the root has reported, every node that joined has reported: its parent, which joined earlier,
      has reported, hence has its acknowledgement. */
  lemma {:induction false} JoinedReported(g: Graph, w: nat, net: Net, t: seq<nat>, now: nat, j: nat)
    requires Inv(g, w, net, t, now) && net.nodes[g.root].reported
    requires j < |g.nbrs| && Joined(net.nodes[j])
    ensures net.nodes[j].reported
    decreases t[j]
  {
    assert NodeOk(g, w, j, net.nodes[j], t);
    if j != g.root {
      var i := net.nodes[j].parent;
      LinkEnds(g, j, i);
      ParentJoined(net, i, j);
      JoinedReported(g, w, net, t, now, i);
      assert NodeOk(g, w, i, net.nodes[i], t);
      ParentOffers(net, i, j);
      AckedChild(net, i, j);
    }
  }

  lemma ParentOffers(net: Net, i: nat, j: nat)
    requires EdgeOk(net, i, j) && Adopted(Facing(net.nodes[j], i), i)
    ensures net.nodes[i].parent != j
  {}

  /** When the root has reported, the broadcast is complete along every path from the root. */
  lemma {:induction false} PathComplete(g: Graph, w: nat, net: Net, t: seq<nat>, now: nat, path: seq<nat>)
    requires Inv(g, w, net, t, now) && net.nodes[g.root].reported && RootPath(g, path)
    ensures var j := path[|path| - 1];
            j < |g.nbrs| && net.nodes[j].val == w && net.nodes[j].reported
    decreases |path|
  {
    var j := path[|path| - 1];
    if |path| == 1 {
      assert NodeOk(g, w, j, net.nodes[j], t);
    } else {
      var front := path[..|path| - 1];
      var i := front[|front| - 1];
      PathComplete(g, w, net, t, now, front);
      assert path[|path| - 2] == i;
      LinkEnds(g, i, j);
      assert NodeOk(g, w, i, net.nodes[i], t) && NodeOk(g, w, j, net.nodes[j], t);
      if j == net.nodes[i].parent {
        if i != g.root {
          ParentJoined(net, j, i);
        }
      } else {
        AckedChild(net, i, j);
      }
      JoinedReported(g, w, net, t, now, j);
    }
  }

  /** The parent pointers of a node that joined lead back to the root along graph edges. */
  ghost function ParentPath(g: Graph, w: nat, net: Net, t: seq<nat>, now: nat, j: nat): (path: seq<nat>)
    requires Inv(g, w, net, t, now) && j < |g.nbrs| && Joined(net.nodes[j])
    ensures RootPath(g, path) && path[|path| - 1] == j
    decreases t[j]
  {
    if j == g.root then [j]
    else
      ParentFacts(g, w, net, t, now, j);
      var path := ParentPath(g, w, net, t, now, net.nodes[j].parent);
      ExtendPath(g, path, j);
      path + [j]
  }

  lemma ParentFacts(g: Graph, w: nat, net: Net, t: seq<nat>, now: nat, j: nat)
    requires Inv(g, w, net, t, now) && j < |g.nbrs| && Joined(net.nodes[j])
    ensures var i := net.nodes[j].parent;
            if j == g.root then i == NONE
            else i < |g.nbrs| && j in g.nbrs[i] && Joined(net.nodes[i]) && t[i] < t[j]
  {
    assert NodeOk(g, w, j, net.nodes[j], t);
    if j != g.root {
      LinkEnds(g, j, net.nodes[j].parent);
      ParentJoined(net, net.nodes[j].parent, j);
    }
  }

  /** Once the root reports, a node is connected to it exactly if it holds the value, and exactly if it has
      reported itself; the others hold nothing. */
  lemma RootReportMeansDone(g: Graph, w: nat, steps: seq<Step>)
    requires ValidGraph(g) && w != NONE && IsRun(g, w, steps)
    requires After(g, w, steps).nodes[g.root].reported
    ensures var net := After(g, w, steps);
            forall j: nat | j < |g.nbrs| ::
              && ((exists path :: RootPath(g, path) && path[|path| - 1] == j) <==> net.nodes[j].val == w)
              && (net.nodes[j].val == w <==> net.nodes[j].reported)
              && (net.nodes[j].val == w || net.nodes[j].val == NONE)
  {
    var net, t := After(g, w, steps), JoinTimes(g, w, steps);
    RunInv(g, w, steps);
    forall j: nat | j < |g.nbrs|
      ensures ((exists path :: RootPath(g, path) && path[|path| - 1] == j) <==> net.nodes[j].val == w)
      ensures net.nodes[j].val == w <==> net.nodes[j].reported
      ensures net.nodes[j].val == w || net.nodes[j].val == NONE
    {
      assert NodeOk(g, w, j, net.nodes[j], t);
      if path :| RootPath(g, path) && path[|path| - 1] == j {
        PathComplete(g, w, net, t, |steps|, path);
      }
      if Joined(net.nodes[j]) {
        var path := ParentPath(g, w, net, t, |steps|, j);
        JoinedReported(g, w, net, t, |steps|, j);
      }
    }
  }

  /** At any time the parent pointers form a tree: each node that joined has a parent that joined
      strictly earlier, across an edge, and only the root has none. */
  lemma ParentsFormATree(g: Graph, w: nat, steps: seq<Step>, j: nat)
    requires ValidGraph(g) && w != NONE && IsRun(g, w, steps) && j < |g.nbrs|
    requires Joined(After(g, w, steps).nodes[j])
    ensures var net, t := After(g, w, steps), JoinTimes(g, w, steps);
            var i := net.nodes[j].parent;
            if j == g.root then i == NONE
            else i < |g.nbrs| && j in g.nbrs[i] && Joined(net.nodes[i]) && t[i] < t[j]
  {
    RunInv(g, w, steps);
    ParentFacts(g, w, After(g, w, steps), JoinTimes(g, w, steps), |steps|, j);
  }

  // ---------------------------------------------------------------- no deadlock

  ghost predicate Quiescent(net: Net) {
    forall s :: !Enabled(net, s)
  }

  lemma QuietLink(g: Graph, w: nat, net: Net, t: seq<nat>, now: nat, i: nat, j: nat)
    requires Inv(g, w, net, t, now) && Quiescent(net) && (i, j) in Links(g)
    ensures EdgeOk(net, i, j)
    ensures Offers(Facing(net.nodes[i], j), j) ==>
            j in net.nodes[i].acked || (Adopted(Facing(net.nodes[j], i), i) && !net.nodes[j].reported)
  {
    LinkEnds(g, i, j);
    assert EdgeOk(net, i, j);
    QuietQueues(net, i, j);
    QuietQueues(net, j, i);
    QuietEdge(net, i, j);
  }

  lemma QuietQueues(net: Net, i: nat, j: nat)
    requires Quiescent(net) && i < |net.nodes| && j < |net.nodes| && j in net.nodes[i].send
    ensures net.nodes[i].send[j] == [] && net.channel(i, j) == []
  {
    assert !Enabled(net, SendStep(i, j)) && !Enabled(net, DeliverStep(i, j));
  }

  lemma QuietEdge(net: Net, i: nat, j: nat)
    requires EdgeOk(net, i, j)
    requires net.nodes[i].send[j] == [] == net.nodes[j].send[i] && net.channel(i, j) == [] == net.channel(j, i)
    ensures Offers(Facing(net.nodes[i], j), j) ==>
            j in net.nodes[i].acked || (Adopted(Facing(net.nodes[j], i), i) && !net.nodes[j].reported)
  {
    CountNone([]);
  }

  /** In a quiescent state everybody who joined has reported: the last to join first. */
  lemma {:induction false} QuiescentReported(g: Graph, w: nat, net: Net, t: seq<nat>, now: nat, i: nat)
    requires Inv(g, w, net, t, now) && Quiescent(net) && i < |g.nbrs| && Joined(net.nodes[i])
    ensures net.nodes[i].reported
    decreases now - t[i]
  {
    var p := net.nodes[i];
    assert NodeOk(g, w, i, p, t) && t[i] <= now;
    forall j | j in p.nbrs && j != p.parent
      ensures j in p.acked
    {
      LinkEnds(g, i, j);
      QuietLink(g, w, net, t, now, i, j);
      if j !in p.acked {
        assert NodeOk(g, w, j, net.nodes[j], t) && t[j] <= now;
        QuiescentReported(g, w, net, t, now, j);
      }
    }
    QuiescentAcks(g, w, net, t, now, i);
  }

  lemma QuiescentAcks(g: Graph, w: nat, net: Net, t: seq<nat>, now: nat, i: nat)
    requires Inv(g, w, net, t, now) && Quiescent(net) && i < |g.nbrs| && Joined(net.nodes[i])
    requires forall j | j in net.nodes[i].nbrs && j != net.nodes[i].parent :: j in net.nodes[i].acked
    ensures net.nodes[i].reported
  {
    var p := net.nodes[i];
    assert NodeOk(g, w, i, p, t);
    assert !Enabled(net, ReportStep(i));
    ReportMeansAllAcked(g, w, i, p, t);
    forall j | j in p.acked
      ensures j != p.parent
    {
      LinkEnds(g, i, j);
      AckedOffered(net, i, j);
    }
    assert p.acked == p.nbrs - {p.parent};
  }

  lemma AckedOffered(net: Net, i: nat, j: nat)
    requires EdgeOk(net, i, j) && j in net.nodes[i].acked
    ensures net.nodes[i].parent != j
  {}

  /** A run that cannot be extended has made the root report, with nothing left in any queue. */
  lemma MaximalRunReports(g: Graph, w: nat, steps: seq<Step>)
    requires ValidGraph(g) && w != NONE && IsRun(g, w, steps)
    requires Quiescent(After(g, w, steps))
    ensures After(g, w, steps).nodes[g.root].reported
    ensures forall i: nat, j | i < |g.nbrs| && j in After(g, w, steps).nodes[i].send ::
              After(g, w, steps).nodes[i].send[j] == [] && After(g, w, steps).channel(i, j) == []
  {
    RunInv(g, w, steps);
    var net, t := After(g, w, steps), JoinTimes(g, w, steps);
    assert NodeOk(g, w, g.root, net.nodes[g.root], t);
    QuiescentReported(g, w, net, t, |steps|, g.root);
    forall i: nat, j | i < |g.nbrs| && j in net.nodes[i].send
      ensures net.nodes[i].send[j] == [] && net.channel(i, j) == []
    {
      assert NodeOk(g, w, i, net.nodes[i], t);
      assert (i, j) in Links(g);
      LinkEnds(g, i, j);
      QuietQueues(net, i, j);
    }
  }

  /** In every reachable state a node may report exactly when it has joined, has not reported, and everyone but
      its parent has acknowledged: that is what the comparison of sizes comes to. */
  lemma ReportExactly(g: Graph, w: nat, steps: seq<Step>, i: nat)
    requires ValidGraph(g) && w != NONE && IsRun(g, w, steps) && i < |g.nbrs|
    ensures var p := After(g, w, steps).nodes[i];
            CanReport(p) <==> Joined(p) && !p.reported && p.acked == g.nbrs[i] - {p.parent}
  {
    RunInv(g, w, steps);
    assert NodeOk(g, w, i, After(g, w, steps).nodes[i], JoinTimes(g, w, steps));
    ReportMeansAllAcked(g, w, i, After(g, w, steps).nodes[i], JoinTimes(g, w, steps));
  }

  // ---------------------------------------------------------------- traffic

  /** How many broadcasts (or acknowledgements) node i has sent towards j in a run. */
  ghost function Sent(g: Graph, w: nat, steps: seq<Step>, i: nat, j: nat, bcast: bool): nat
    requires IsRun(g, w, steps)
  {
    if steps == [] then 0
    else
      var before, s := steps[..|steps| - 1], steps[|steps| - 1];
      Sent(g, w, before, i, j, bcast) + SendsNow(After(g, w, before), s, i, j, bcast)
  }

  ghost function SendsNow(net: Net, s: Step, i: nat, j: nat, bcast: bool): nat
    requires Enabled(net, s)
  {
    if s == SendStep(i, j) then Bit(net.nodes[i].send[j][0].Bcast? == bcast) else 0
  }

  /** The broadcasts still queued, and the acknowledgements no longer queued, on the link from i to j. */
  ghost function BcastsLeft(net: Net, i: nat, j: nat): int
    requires i < |net.nodes| && j in net.nodes[i].send
  {
    Bit(Offers(Facing(net.nodes[i], j), j)) - Count(net.nodes[i].send[j], true)
  }

  ghost function AcksOut(net: Net, i: nat, j: nat): nat
    requires j < |net.nodes|
  {
    Count(net.channel(i, j), false) + Bit(i in net.nodes[j].acked)
  }

  lemma BcastTraffic(net: Net, s: Step, i: nat, j: nat, w: nat)
    requires Enabled(net, s) && i < |net.nodes| && j in net.nodes[i].nbrs && net.nodes[i].send.Keys == net.nodes[i].nbrs
    requires w != NONE && forall k: nat :: Carries(net.channel(k, i), w)
    ensures j in Take(net, s).nodes[i].send
    ensures BcastsLeft(Take(net, s), i, j) == BcastsLeft(net, i, j) + SendsNow(net, s, i, j, true)
  {
    if i == Mover(s) {
      match s
      case SendStep(_, k) => FacingSend(net.nodes[i], k, j);
      case DeliverStep(k, _) => BcastTrafficDeliver(net, k, i, j, w);
      case ReportStep(_) =>
        FacingReport(net.nodes[i], j);
        CountPushBoth(net.nodes[i].send[j], Ack);
    }
  }

  lemma BcastTrafficDeliver(net: Net, k: nat, i: nat, j: nat, w: nat)
    requires Enabled(net, DeliverStep(k, i)) && j in net.nodes[i].nbrs && net.nodes[i].send.Keys == net.nodes[i].nbrs
    requires w != NONE && Carries(net.channel(k, i), w)
    ensures j in Take(net, DeliverStep(k, i)).nodes[i].send
    ensures BcastsLeft(Take(net, DeliverStep(k, i)), i, j) == BcastsLeft(net, i, j)
  {
    var p, m := net.nodes[i], net.channel(k, i)[0];
    assert m in net.channel(k, i);
    FacingReceive(p, m, k, j);
    BcastReceive(Facing(p, j), m, k, j);
  }

  lemma BcastReceive(e: End, m: Message, k: nat, j: nat)
    ensures var e' := if k == j then ReceiveEnd(e, m, k) else ReceiveElsewhereEnd(e, m, k);
            Bit(Offers(e', j)) - Count(e'.out, true) == Bit(Offers(e, j)) - Count(e.out, true)
  {
    CountPushBoth(e.out, m);
    CountPushBoth(e.out, Ack);
  }

  lemma AckTraffic(net: Net, s: Step, i: nat, j: nat)
    requires Enabled(net, s) && i != j && EdgeOk(net, j, i)
    ensures AcksOut(Take(net, s), i, j) == AcksOut(net, i, j) + SendsNow(net, s, i, j, false)
  {
    match s
    case SendStep(a, b) =>
      if a == i && b == j {
        CountPushBoth(net.channel(i, j), net.nodes[i].send[j][0]);
      }
    case DeliverStep(a, b) =>
      if a == i && b == j && net.channel(i, j)[0].Ack? {
        DeliveredAck(net, i, j);
      }
    case ReportStep(_) =>
  }

  lemma TrafficStep(g: Graph, w: nat, net: Net, t: seq<nat>, now: nat, s: Step, i: nat, j: nat)
    requires Inv(g, w, net, t, now) && Enabled(net, s) && (i, j) in Links(g)
    ensures i < |g.nbrs| && j < |g.nbrs| && j in net.nodes[i].send && j in Take(net, s).nodes[i].send
    ensures BcastsLeft(Take(net, s), i, j) == BcastsLeft(net, i, j) + SendsNow(net, s, i, j, true)
    ensures AcksOut(Take(net, s), i, j) == AcksOut(net, i, j) + SendsNow(net, s, i, j, false)
  {
    LinkEnds(g, i, j);
    assert NodeOk(g, w, i, net.nodes[i], t);
    BcastTraffic(net, s, i, j, w);
    AckTraffic(net, s, i, j);
  }

  lemma {:induction false} TrafficCounted(g: Graph, w: nat, steps: seq<Step>, i: nat, j: nat)
    requires ValidGraph(g) && w != NONE && IsRun(g, w, steps) && (i, j) in Links(g)
    ensures i < |g.nbrs| && j < |g.nbrs| && j in After(g, w, steps).nodes[i].send
    ensures Sent(g, w, steps, i, j, true) == BcastsLeft(After(g, w, steps), i, j)
    ensures Sent(g, w, steps, i, j, false) == AcksOut(After(g, w, steps), i, j)
    decreases |steps|
  {
    if steps == [] {
      TrafficInitially(g, w, i, j);
    } else {
      var before, s := steps[..|steps| - 1], steps[|steps| - 1];
      TrafficCounted(g, w, before, i, j);
      TrafficAfter(g, w, before, s, i, j);
      assert before + [s] == steps;
    }
  }

  lemma TrafficAfter(g: Graph, w: nat, before: seq<Step>, s: Step, i: nat, j: nat)
    requires ValidGraph(g) && w != NONE && IsRun(g, w, before) && (i, j) in Links(g)
    requires Enabled(After(g, w, before), s)
    ensures IsRun(g, w, before + [s]) && i < |g.nbrs| && j < |g.nbrs|
    ensures j in After(g, w, before).nodes[i].send && j in After(g, w, before + [s]).nodes[i].send
    ensures Sent(g, w, before + [s], i, j, true) - Sent(g, w, before, i, j, true)
            == BcastsLeft(After(g, w, before + [s]), i, j) - BcastsLeft(After(g, w, before), i, j)
    ensures Sent(g, w, before + [s], i, j, false) - Sent(g, w, before, i, j, false)
            == AcksOut(After(g, w, before + [s]), i, j) - AcksOut(After(g, w, before), i, j)
  {
    var steps, net := before + [s], After(g, w, before);
    assert steps[..|steps| - 1] == before && steps[|steps| - 1] == s;
    RunInv(g, w, before);
    TrafficStep(g, w, net, JoinTimes(g, w, before), |before|, s, i, j);
    assert After(g, w, steps) == Take(net, s);
  }

  lemma TrafficInitially(g: Graph, w: nat, i: nat, j: nat)
    requires ValidGraph(g) && w != NONE && (i, j) in Links(g)
    ensures i < |g.nbrs| && j < |g.nbrs| && j in InitialNet(g, w).nodes[i].send
    ensures BcastsLeft(InitialNet(g, w), i, j) == 0 == AcksOut(InitialNet(g, w), i, j)
  {
    LinkEnds(g, i, j);
    FacingInitial(i, g.root, g.nbrs[i], w, j);
    CountNone([]);
    CountNone([Bcast(w)]);
  }

  /** At most one broadcast ever crosses a directed link, at most one acknowledgement crosses back and
      never before the broadcast; in a run that cannot be extended each was answered exactly once. */
  lemma OneBcastOneAck(g: Graph, w: nat, steps: seq<Step>, i: nat, j: nat)
    requires ValidGraph(g) && w != NONE && IsRun(g, w, steps) && (i, j) in Links(g)
    ensures Sent(g, w, steps, j, i, false) <= Sent(g, w, steps, i, j, true) <= 1
    ensures Quiescent(After(g, w, steps)) ==> Sent(g, w, steps, j, i, false) == Sent(g, w, steps, i, j, true)
  {
    LinkEnds(g, i, j);
    TrafficCounted(g, w, steps, i, j);
    TrafficCounted(g, w, steps, j, i);
    RunInv(g, w, steps);
    var net, t := After(g, w, steps), JoinTimes(g, w, steps);
    AckAfterBcast(net, i, j);
    if Quiescent(net) {
      QuietLink(g, w, net, t, |steps|, i, j);
      assert !Enabled(net, SendStep(i, j)) && !Enabled(net, DeliverStep(j, i));
      assert NodeOk(g, w, j, net.nodes[j], t);
      if Joined(net.nodes[j]) {
        QuiescentReported(g, w, net, t, |steps|, j);
      }
      CountNone([]);
    }
  }

  lemma AckAfterBcast(net: Net, i: nat, j: nat)
    requires EdgeOk(net, i, j)
    ensures 0 <= AcksOut(net, j, i) <= BcastsLeft(net, i, j) <= 1
    ensures AcksOut(net, j, i) > 0 ==> Offers(Facing(net.nodes[i], j), j)
  {}

  // ---------------------------------------------------------------- the channels

  /** The messages sent from i to j in a run, oldest first, ... */
  ghost function SentOn(g: Graph, w: nat, steps: seq<Step>, i: nat, j: nat): seq<Message>
    requires IsRun(g, w, steps)
    decreases |steps|
  {
    if steps == [] then []
    else
      var before, s := steps[..|steps| - 1], steps[|steps| - 1];
      SentOn(g, w, before, i, j) + if s == SendStep(i, j) then [After(g, w, before).nodes[i].send[j][0]] else []
  }

  /** ... and delivered. */
  ghost function DeliveredOn(g: Graph, w: nat, steps: seq<Step>, i: nat, j: nat): seq<Message>
    requires IsRun(g, w, steps)
    decreases |steps|
  {
    if steps == [] then []
    else
      var before, s := steps[..|steps| - 1], steps[|steps| - 1];
      DeliveredOn(g, w, before, i, j) + if s == DeliverStep(i, j) then [After(g, w, before).channel(i, j)[0]] else []
  }

  /** Nothing is lost, made up or overtaken on the way from one node to another. */
  lemma {:induction false} ChannelIsFifo(g: Graph, w: nat, steps: seq<Step>, i: nat, j: nat)
    requires IsRun(g, w, steps)
    ensures SentOn(g, w, steps, i, j) == DeliveredOn(g, w, steps, i, j) + After(g, w, steps).channel(i, j)
    decreases |steps|
  {
    if steps != [] {
      var before, s := steps[..|steps| - 1], steps[|steps| - 1];
      ChannelIsFifo(g, w, before, i, j);
      if s == DeliverStep(i, j) {
        var q := After(g, w, before).channel(i, j);
        assert q == [q[0]] + q[1..];
      }
    }
  }
}
