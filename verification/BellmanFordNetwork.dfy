/**
 The network of Bellman-Ford automata over a symmetric graph with non-negative link weights, its
 runs and its invariant: every distance a node holds, or has in transit, is the weight of a simple
 path along which nobody is further away than the path says.
 */
module BellmanFordNetwork {
  import opened Common
  import opened Networks
  import opened BellmanFordAutomaton

  datatype Weighted = Weighted(g: Graph, weights: seq<map<nat, nat>>, maxWeight: nat)

  /** The links have symmetric weights, and a path through all nodes plus one link fits a size_t. */
  ghost predicate ValidWeighted(wg: Weighted) {
    && ValidGraph(wg.g)
    && |wg.weights| == |wg.g.nbrs|
    && (forall i: nat, j: nat {:trigger j in wg.g.nbrs[i]} | i < |wg.g.nbrs| && j in wg.g.nbrs[i] ::
          j in wg.weights[i] && Weight(wg, i, j) == Weight(wg, j, i) <= wg.maxWeight)
    && |wg.g.nbrs| * wg.maxWeight < NONE
  }

  function Weight(wg: Weighted, i: nat, j: nat): nat {
    if i < |wg.weights| && j in wg.weights[i] then wg.weights[i][j] else 0
  }

  datatype Net = Net(nodes: seq<Node>, channel: Channels<nat>)

  datatype Step = SendStep(i: nat, j: nat) | DeliverStep(i: nat, j: nat)

  function InitialNet(wg: Weighted): (net: Net)
    requires |wg.weights| == |wg.g.nbrs|
    ensures |net.nodes| == |wg.g.nbrs|
    ensures forall i: nat | i < |wg.g.nbrs| ::
              net.nodes[i] == Initial(i, wg.g.root, wg.g.nbrs[i], wg.weights[i])
  {
    Net(seq(|wg.g.nbrs|, i requires 0 <= i < |wg.g.nbrs| =>
              Initial(i, wg.g.root, wg.g.nbrs[i], wg.weights[i])), (i, j) => [])
  }

  predicate Enabled(net: Net, s: Step) {
    match s
    case SendStep(i, j) => i < |net.nodes| && CanSend(net.nodes[i], j)
    case DeliverStep(i, j) => j < |net.nodes| && net.channel(i, j) != [] && i in net.nodes[j].weight
  }

  function Take(net: Net, s: Step): (net': Net)
    requires Enabled(net, s)
    ensures |net'.nodes| == |net.nodes|
  {
    match s
    case SendStep(i, j) =>
      var p := net.nodes[i];
      Net(net.nodes[i := Send(p, j)], SetChannel(net.channel, i, j, net.channel(i, j) + [p.send[j][0]]))
    case DeliverStep(i, j) =>
      var q := net.channel(i, j);
      Net(net.nodes[j := Receive(net.nodes[j], q[0], i)], SetChannel(net.channel, i, j, q[1..]))
  }

  ghost predicate IsRun(wg: Weighted, steps: seq<Step>)
    requires |wg.weights| == |wg.g.nbrs|
    decreases |steps|, 0
  {
    steps == [] ||
    (IsRun(wg, steps[..|steps| - 1]) && Enabled(After(wg, steps[..|steps| - 1]), steps[|steps| - 1]))
  }

  ghost function After(wg: Weighted, steps: seq<Step>): (net: Net)
    requires |wg.weights| == |wg.g.nbrs| && IsRun(wg, steps)
    ensures |net.nodes| == |wg.g.nbrs|
    decreases |steps|, 1
  {
    if steps == [] then InitialNet(wg) else Take(After(wg, steps[..|steps| - 1]), steps[|steps| - 1])
  }

  /** The step at which each node last improved its distance. */
  ghost function UpdateTimes(wg: Weighted, steps: seq<Step>): (t: seq<nat>)
    requires |wg.weights| == |wg.g.nbrs| && IsRun(wg, steps)
    ensures |t| == |wg.g.nbrs|
  {
    if steps == [] then seq(|wg.g.nbrs|, i => 0)
    else
      var before := steps[..|steps| - 1];
      Updating(After(wg, before), UpdateTimes(wg, before), steps[|steps| - 1], |steps|)
  }

  predicate Improves(p: Node, d: nat, j: nat) {
    j in p.weight && AddSize(d, p.weight[j]) < p.dist
  }

  ghost function Updating(net: Net, t: seq<nat>, s: Step, now: nat): (t': seq<nat>)
    requires Enabled(net, s) && |t| == |net.nodes|
    ensures |t'| == |t|
  {
    if s.DeliverStep? && Improves(net.nodes[s.j], net.channel(s.i, s.j)[0], s.i) then t[s.j := now] else t
  }

  // ---------------------------------------------------------------- paths

  function PathWeight(wg: Weighted, path: seq<nat>): nat {
    if |path| < 2 then 0
    else PathWeight(wg, path[..|path| - 1]) + Weight(wg, path[|path| - 2], path[|path| - 1])
  }

  ghost predicate Simple(path: seq<nat>) {
    forall k, l | 0 <= k < l < |path| :: path[k] != path[l]
  }

  /** The k-th node of the path is at most as far away as the path says. */
  ghost predicate AtMostSaid(wg: Weighted, dists: seq<nat>, path: seq<nat>, k: nat) {
    k < |path| && path[k] < |dists| && dists[path[k]] <= PathWeight(wg, path[..k + 1])
  }

  /** d is the weight of a simple path from the root to i along which every node is at most as far
      away as the path says. */
  ghost predicate Witness(wg: Weighted, dists: seq<nat>, i: nat, d: nat, path: seq<nat>) {
    && RootPath(wg.g, path) && Simple(path) && path[|path| - 1] == i && PathWeight(wg, path) == d
    && forall k: nat {:trigger AtMostSaid(wg, dists, path, k)} | k < |path| :: AtMostSaid(wg, dists, path, k)
  }

  ghost predicate Reached(wg: Weighted, dists: seq<nat>, i: nat, d: nat) {
    exists path :: Witness(wg, dists, i, d, path)
  }

  lemma {:induction false} PathWeightBound(wg: Weighted, path: seq<nat>)
    requires ValidWeighted(wg) && RootPath(wg.g, path)
    ensures PathWeight(wg, path) <= (|path| - 1) * wg.maxWeight
    decreases |path|
  {
    if |path| >= 2 {
      var front := path[..|path| - 1];
      PathWeightBound(wg, front);
      var i, j := path[|path| - 2], path[|path| - 1];
      assert j in wg.g.nbrs[i];
      assert (|path| - 1) * wg.maxWeight == (|front| - 1) * wg.maxWeight + wg.maxWeight;
    }
  }

  /** A simple path has at most n - 1 links, so a witnessed distance plus one more weight does not wrap. */
  lemma WitnessBound(wg: Weighted, dists: seq<nat>, i: nat, d: nat, path: seq<nat>)
    requires ValidWeighted(wg) && |dists| == |wg.g.nbrs| && Witness(wg, dists, i, d, path)
    ensures d + wg.maxWeight <= |wg.g.nbrs| * wg.maxWeight
  {
    PathWeightBound(wg, path);
    BelowSize(|dists|);
    DistinctSize(path, Below(|dists|));
    PathBudget(|path|, |dists|, wg.maxWeight);
  }

  lemma PathBudget(len: nat, n: nat, w: nat)
    requires 1 <= len <= n
    ensures (len - 1) * w + w <= n * w
  {
    assert len * w <= n * w;
  }

  /** Shorter distances keep every witness. */
  lemma WitnessMonotone(wg: Weighted, dists: seq<nat>, dists': seq<nat>, i: nat, d: nat)
    requires |dists| == |dists'| && forall k: nat | k < |dists| :: dists'[k] <= dists[k]
    requires Reached(wg, dists, i, d)
    ensures Reached(wg, dists', i, d)
  {
    var path :| Witness(wg, dists, i, d, path);
    forall k: nat | k < |path|
      ensures AtMostSaid(wg, dists', path, k)
    {
      assert AtMostSaid(wg, dists, path, k);
    }
    assert Witness(wg, dists', i, d, path);
  }

  lemma ReachedIsUpper(wg: Weighted, dists: seq<nat>, i: nat, d: nat)
    requires Reached(wg, dists, i, d)
    ensures i < |dists| && dists[i] <= d
  {
    var path :| Witness(wg, dists, i, d, path);
    assert AtMostSaid(wg, dists, path, |path| - 1);
    assert path[..|path| - 1 + 1] == path;
  }

  /** A node that is further away than the path's weight is not on the path. */
  lemma WitnessAvoids(wg: Weighted, dists: seq<nat>, i: nat, d: nat, path: seq<nat>, j: nat, k: nat)
    requires Witness(wg, dists, i, d, path) && j < |dists| && d < dists[j] && k < |path|
    ensures path[k] != j
  {
    PrefixWeight(wg, path, k + 1);
    assert AtMostSaid(wg, dists, path, k);
  }

  lemma SimpleExtends(path: seq<nat>, j: nat)
    requires Simple(path) && j !in path
    ensures Simple(path + [j])
  {}

  /** Appending the link to a node that is further away keeps the path simple. */
  lemma WitnessExtends(wg: Weighted, dists: seq<nat>, i: nat, d: nat, path: seq<nat>, j: nat, e: nat)
    requires ValidWeighted(wg) && |dists| == |wg.g.nbrs| && Witness(wg, dists, i, d, path)
    requires i < |dists| && j in wg.g.nbrs[i] && e == d + Weight(wg, i, j) && e < dists[j]
    ensures Witness(wg, dists[j := e], j, e, path + [j])
  {
    var dists', path' := dists[j := e], path + [j];
    forall k: nat | k < |path|
      ensures path[k] != j
    {
      WitnessAvoids(wg, dists, i, d, path, j, k);
    }
    SimpleExtends(path, j);
    ExtendPath(wg.g, path, j);
    assert PathWeight(wg, path') == e by {
      assert path'[..|path'| - 1] == path;
    }
    forall k: nat | k < |path'|
      ensures AtMostSaid(wg, dists', path', k)
    {
      PrefixExtends(wg, dists, i, d, path, j, e, k);
    }
  }

  lemma PrefixExtends(wg: Weighted, dists: seq<nat>, i: nat, d: nat, path: seq<nat>, j: nat, e: nat, k: nat)
    requires Witness(wg, dists, i, d, path) && j < |dists| && j !in path && k <= |path|
    requires PathWeight(wg, path + [j]) == e
    ensures AtMostSaid(wg, dists[j := e], path + [j], k)
  {
    if k < |path| {
      assert AtMostSaid(wg, dists, path, k);
      assert (path + [j])[..k + 1] == path[..k + 1];
    } else {
      assert (path + [j])[..k + 1] == path + [j];
    }
  }

  lemma ReachedExtends(wg: Weighted, dists: seq<nat>, i: nat, d: nat, j: nat, e: nat)
    requires ValidWeighted(wg) && |dists| == |wg.g.nbrs| && i < |dists| && Reached(wg, dists, i, d)
    requires j in wg.g.nbrs[i] && e == d + Weight(wg, i, j) && e < dists[j]
    ensures Reached(wg, dists[j := e], j, e)
  {
    var path :| Witness(wg, dists, i, d, path);
    WitnessExtends(wg, dists, i, d, path, j, e);
  }

  lemma {:induction false} PrefixWeight(wg: Weighted, path: seq<nat>, k: nat)
    requires k <= |path|
    ensures PathWeight(wg, path[..k]) <= PathWeight(wg, path)
    decreases |path|
  {
    if k < |path| {
      var front := path[..|path| - 1];
      PrefixWeight(wg, front, k);
      assert front[..k] == path[..k];
    } else {
      assert path[..k] == path;
    }
  }

  // ---------------------------------------------------------------- the invariant

  function Dists(net: Net): (d: seq<nat>)
    ensures |d| == |net.nodes| && forall i: nat | i < |d| :: d[i] == net.nodes[i].dist
  {
    seq(|net.nodes|, i requires 0 <= i < |net.nodes| => net.nodes[i].dist)
  }

  ghost predicate NodeOk(wg: Weighted, i: nat, p: Node, dists: seq<nat>, t: seq<nat>) {
    var g := wg.g;
    && i < |g.nbrs| == |wg.weights| == |dists| == |t|
    && p.i == i && p.root == g.root && p.nbrs == g.nbrs[i] && p.weight == wg.weights[i] && p.send.Keys == p.nbrs
    && p.dist == dists[i] <= NONE
    && (i == g.root ==> p.dist == 0 && p.parent == NONE)
    && (p.dist == NONE ==> p.parent == NONE)
    && (p.dist < NONE ==> Reached(wg, dists, i, p.dist))
    && (p.dist < NONE && i != g.root ==>
          && p.parent in g.nbrs[i] && p.parent < |t|
          && dists[p.parent] + Weight(wg, p.parent, i) <= p.dist
          && (dists[p.parent] < p.dist || t[p.parent] < t[i]))
  }

  /** Distances of node i on their way to node j, oldest first. */
  function Transit(net: Net, i: nat, j: nat): seq<nat>
    requires i < |net.nodes| && j in net.nodes[i].send
  {
    net.channel(i, j) + net.nodes[i].send[j]
  }

  /** Everything in transit is witnessed, and node j either knows the benefit of i or will learn it. */
  ghost predicate LinkOk(wg: Weighted, dists: seq<nat>, i: nat, j: nat, transit: seq<nat>) {
    && i < |dists| && j < |dists|
    && (forall v {:trigger Reached(wg, dists, i, v)} | v in transit :: Reached(wg, dists, i, v))
    && (dists[i] == NONE || dists[i] in transit || dists[j] <= dists[i] + Weight(wg, i, j))
  }

  ghost predicate EdgeOk(wg: Weighted, net: Net, i: nat, j: nat) {
    i < |net.nodes| && j in net.nodes[i].send && LinkOk(wg, Dists(net), i, j, Transit(net, i, j))
  }

  ghost predicate NodesOk(wg: Weighted, net: Net, t: seq<nat>) {
    && |net.nodes| == |t| == |wg.g.nbrs|
    && forall i: nat {:trigger NodeOk(wg, i, net.nodes[i], Dists(net), t)} | i < |t| ::
         NodeOk(wg, i, net.nodes[i], Dists(net), t)
  }

  ghost predicate EdgesOk(wg: Weighted, net: Net) {
    forall i: nat, j: nat {:trigger EdgeOk(wg, net, i, j)} | (i, j) in Links(wg.g) :: EdgeOk(wg, net, i, j)
  }

  ghost predicate ChannelsOk(wg: Weighted, net: Net) {
    forall i: nat, j: nat {:trigger net.channel(i, j)} :: net.channel(i, j) != [] ==> (i, j) in Links(wg.g)
  }

  ghost predicate TimesOk(t: seq<nat>, now: nat) {
    forall i: nat | i < |t| :: t[i] <= now
  }

  ghost predicate Inv(wg: Weighted, net: Net, t: seq<nat>, now: nat) {
    ValidWeighted(wg) && NodesOk(wg, net, t) && EdgesOk(wg, net) && ChannelsOk(wg, net) && TimesOk(t, now)
  }

  // ---------------------------------------------------------------- one link, one step

  /** A delivered distance d from i to j, and what becomes of j's distance. */
  function NewDist(wg: Weighted, dists: seq<nat>, i: nat, j: nat, d: nat): nat
    requires j < |dists|
  {
    if d + Weight(wg, i, j) < dists[j] then d + Weight(wg, i, j) else dists[j]
  }

  lemma ReachedKept(wg: Weighted, dists: seq<nat>, j: nat, e: nat, i: nat, v: nat)
    requires j < |dists| && e <= dists[j] && Reached(wg, dists, i, v)
    ensures Reached(wg, dists[j := e], i, v)
  {
    WitnessMonotone(wg, dists, dists[j := e], i, v);
  }

  /** The link the message came through. */
  lemma LinkDelivered(wg: Weighted, dists: seq<nat>, i: nat, j: nat, transit: seq<nat>)
    requires LinkOk(wg, dists, i, j, transit) && transit != [] && i != j
    ensures LinkOk(wg, dists[j := NewDist(wg, dists, i, j, transit[0])], i, j, transit[1..])
  {
    var dists' := dists[j := NewDist(wg, dists, i, j, transit[0])];
    assert transit[0] in transit;
    forall v | v in transit[1..]
      ensures Reached(wg, dists', i, v)
    {
      assert v in transit;
      ReachedKept(wg, dists, j, dists'[j], i, v);
    }
  }

  /** The links out of the improved node: its new distance is queued, except towards where it came from. */
  lemma LinkBack(wg: Weighted, dists: seq<nat>, i: nat, j: nat, d: nat, transit: seq<nat>)
    requires LinkOk(wg, dists, j, i, transit) && Reached(wg, dists, i, d) && Weight(wg, i, j) == Weight(wg, j, i)
    requires d + Weight(wg, i, j) < dists[j] && j != i
    ensures LinkOk(wg, dists[j := d + Weight(wg, i, j)], j, i, transit)
  {
    var e := d + Weight(wg, i, j);
    forall v | v in transit
      ensures Reached(wg, dists[j := e], j, v)
    {
      ReachedKept(wg, dists, j, e, j, v);
    }
    ReachedIsUpper(wg, dists, i, d);
  }

  lemma LinkOut(wg: Weighted, dists: seq<nat>, j: nat, e: nat, k: nat, transit: seq<nat>)
    requires LinkOk(wg, dists, j, k, transit) && e < dists[j] && Reached(wg, dists[j := e], j, e)
    ensures LinkOk(wg, dists[j := e], j, k, transit + [e])
  {
    var dists', transit' := dists[j := e], transit + [e];
    forall v | v in transit'
      ensures Reached(wg, dists', j, v)
    {
      if v in transit {
        ReachedKept(wg, dists, j, e, j, v);
      }
    }
    assert transit'[|transit|] == e;
  }

  /** Any other link: the distance at its far end may have improved. */
  lemma LinkElsewhere(wg: Weighted, dists: seq<nat>, j: nat, e: nat, a: nat, b: nat, transit: seq<nat>)
    requires LinkOk(wg, dists, a, b, transit) && j < |dists| && e <= dists[j] && a != j
    ensures LinkOk(wg, dists[j := e], a, b, transit)
  {
    forall v | v in transit
      ensures Reached(wg, dists[j := e], a, v)
    {
      ReachedKept(wg, dists, j, e, a, v);
    }
  }

  // ---------------------------------------------------------------- every step keeps the invariant

  /** d is at the head of the channel from i to its neighbour j, and adding the weight does not wrap. */
  ghost predicate Arrives(wg: Weighted, net: Net, i: nat, j: nat, d: nat) {
    && i < |net.nodes| && j < |net.nodes| && i != j
    && net.channel(i, j) != [] && net.channel(i, j)[0] == d
    && i in net.nodes[j].weight && net.nodes[j].weight[i] == Weight(wg, i, j)
    && net.nodes[j].send.Keys == net.nodes[j].nbrs
    && AddSize(d, net.nodes[j].weight[i]) == d + Weight(wg, i, j) < NONE
  }

  /** The addition at a delivery never wraps, and stays below the value that means "no distance". */
  lemma NoWrap(wg: Weighted, net: Net, t: seq<nat>, now: nat, i: nat, j: nat)
    requires Inv(wg, net, t, now) && Enabled(net, DeliverStep(i, j))
    ensures i < |t| && j < |t| && (i, j) in Links(wg.g) && (j, i) in Links(wg.g)
    ensures Arrives(wg, net, i, j, net.channel(i, j)[0])
    ensures Reached(wg, Dists(net), i, net.channel(i, j)[0])
    ensures Weight(wg, i, j) == Weight(wg, j, i)
  {
    assert net.channel(i, j) != [];
    LinkEnds(wg.g, i, j);
    var d := net.channel(i, j)[0];
    assert Reached(wg, Dists(net), i, d) by {
      assert EdgeOk(wg, net, i, j);
      assert d == Transit(net, i, j)[0];
      assert d in Transit(net, i, j);
    }
    assert NodeOk(wg, j, net.nodes[j], Dists(net), t);
    assert i in wg.g.nbrs[j];
    var path :| Witness(wg, Dists(net), i, d, path);
    WitnessBound(wg, Dists(net), i, d, path);
  }

  /** The state after a delivery in terms of the distances. */
  lemma Delivered(wg: Weighted, net: Net, i: nat, j: nat, d: nat)
    requires Arrives(wg, net, i, j, d)
    ensures var net' := Take(net, DeliverStep(i, j));
            var e := NewDist(wg, Dists(net), i, j, d);
            && Dists(net') == Dists(net)[j := e]
            && (if d + Weight(wg, i, j) < net.nodes[j].dist
                then net'.nodes[j] == net.nodes[j].(dist := e, parent := i,
                                                     send := QueueFor(net.nodes[j].send, net.nodes[j].nbrs - {i}, e))
                else net'.nodes[j] == net.nodes[j])
            && (forall k: nat | k < |net.nodes| && k != j :: net'.nodes[k] == net.nodes[k])
  {}

  lemma DeliveredTime(wg: Weighted, net: Net, t: seq<nat>, i: nat, j: nat, d: nat, now: nat)
    requires Arrives(wg, net, i, j, d) && |t| == |net.nodes|
    ensures Updating(net, t, DeliverStep(i, j), now)
            == (if d + Weight(wg, i, j) < net.nodes[j].dist then t[j := now] else t)
  {}

  lemma SendDists(net: Net, i: nat, j: nat)
    requires Enabled(net, SendStep(i, j))
    ensures Dists(Take(net, SendStep(i, j))) == Dists(net)
  {}

  lemma SendTransit(net: Net, i: nat, j: nat, a: nat, b: nat)
    requires Enabled(net, SendStep(i, j)) && a < |net.nodes| && b in net.nodes[a].send
    ensures b in Take(net, SendStep(i, j)).nodes[a].send
    ensures Transit(Take(net, SendStep(i, j)), a, b) == Transit(net, a, b)
  {}

  /** What node p has queued for b after a delivery. */
  lemma ReceiveQueue(p: Node, d: nat, i: nat, b: nat)
    requires i in p.weight && p.send.Keys == p.nbrs && b in p.send
    ensures b in Receive(p, d, i).send
    ensures Receive(p, d, i).send[b]
            == if b != i && AddSize(d, p.weight[i]) < p.dist then p.send[b] + [AddSize(d, p.weight[i])] else p.send[b]
  {}

  /** What is in transit on a link after a delivery from i to j. */
  lemma DeliverTransit(wg: Weighted, net: Net, i: nat, j: nat, d: nat, a: nat, b: nat)
    requires Arrives(wg, net, i, j, d) && a < |net.nodes| && b in net.nodes[a].send
    ensures b in Take(net, DeliverStep(i, j)).nodes[a].send
    ensures var improves := d + Weight(wg, i, j) < net.nodes[j].dist;
            Transit(Take(net, DeliverStep(i, j)), a, b)
            == if a == i && b == j then Transit(net, a, b)[1..]
               else if a == j && b != i && improves then Transit(net, a, b) + [d + Weight(wg, i, j)]
               else Transit(net, a, b)
  {
    if a == j {
      ReceiveQueue(net.nodes[j], d, i, b);
    }
  }

  lemma DeliverLink(wg: Weighted, dists: seq<nat>, i: nat, j: nat, d: nat, e: nat, a: nat, b: nat, q: seq<nat>)
    requires LinkOk(wg, dists, a, b, q) && Reached(wg, dists, i, d) && a != b && i != j && j < |dists|
    requires e == NewDist(wg, dists, i, j, d) && Weight(wg, i, j) == Weight(wg, j, i)
    requires e < dists[j] ==> Reached(wg, dists[j := e], j, e)
    requires a == i && b == j ==> q != [] && q[0] == d
    ensures LinkOk(wg, dists[j := e], a, b,
                   if a == i && b == j then q[1..] else if a == j && b != i && e < dists[j] then q + [e] else q)
  {
    if a == i && b == j {
      LinkDelivered(wg, dists, i, j, q);
    } else if a != j {
      LinkElsewhere(wg, dists, j, e, a, b, q);
    } else if e == dists[j] {
      assert dists[j := e] == dists;
    } else if b == i {
      LinkBack(wg, dists, i, j, d, q);
    } else {
      LinkOut(wg, dists, j, e, b, q);
    }
  }

  lemma DeliverEdge(wg: Weighted, net: Net, i: nat, j: nat, d: nat, a: nat, b: nat)
    requires Arrives(wg, net, i, j, d) && Reached(wg, Dists(net), i, d) && EdgeOk(wg, net, a, b) && a != b
    requires var e := NewDist(wg, Dists(net), i, j, d);
             e < Dists(net)[j] ==> Reached(wg, Dists(net)[j := e], j, e)
    requires Weight(wg, i, j) == Weight(wg, j, i)
    ensures EdgeOk(wg, Take(net, DeliverStep(i, j)), a, b)
  {
    Delivered(wg, net, i, j, d);
    DeliverTransit(wg, net, i, j, d, a, b);
    DeliverLink(wg, Dists(net), i, j, d, NewDist(wg, Dists(net), i, j, d), a, b, Transit(net, a, b));
  }

  /** The distance a node computes at a delivery is witnessed again. */
  lemma NewDistReached(wg: Weighted, net: Net, i: nat, j: nat, d: nat)
    requires ValidWeighted(wg) && |net.nodes| == |wg.g.nbrs| && i < |net.nodes| && j < |net.nodes|
    requires Reached(wg, Dists(net), i, d) && j in wg.g.nbrs[i]
    ensures var e := NewDist(wg, Dists(net), i, j, d);
            e < Dists(net)[j] ==> Reached(wg, Dists(net)[j := e], j, e)
  {
    var e := NewDist(wg, Dists(net), i, j, d);
    if e < Dists(net)[j] {
      ReachedExtends(wg, Dists(net), i, d, j, e);
    }
  }

  lemma SendEdge(wg: Weighted, net: Net, i: nat, j: nat, a: nat, b: nat)
    requires Enabled(net, SendStep(i, j)) && EdgeOk(wg, net, a, b)
    ensures EdgeOk(wg, Take(net, SendStep(i, j)), a, b)
  {
    SendDists(net, i, j);
    SendTransit(net, i, j, a, b);
  }

  lemma EdgesStep(wg: Weighted, net: Net, t: seq<nat>, now: nat, s: Step)
    requires Inv(wg, net, t, now) && Enabled(net, s)
    ensures EdgesOk(wg, Take(net, s))
  {
    if s.DeliverStep? {
      NoWrap(wg, net, t, now, s.i, s.j);
      LinkEnds(wg.g, s.i, s.j);
      NewDistReached(wg, net, s.i, s.j, net.channel(s.i, s.j)[0]);
    }
    forall a: nat, b: nat | (a, b) in Links(wg.g)
      ensures EdgeOk(wg, Take(net, s), a, b)
    {
      LinkEnds(wg.g, a, b);
      assert EdgeOk(wg, net, a, b);
      match s
      case SendStep(i, j) => SendEdge(wg, net, i, j, a, b);
      case DeliverStep(i, j) => DeliverEdge(wg, net, i, j, net.channel(i, j)[0], a, b);
    }
  }

  /** Another node: the improved distance may be its parent's, which only makes the gap larger. */
  lemma OtherNode(wg: Weighted, k: nat, p: Node, dists: seq<nat>, t: seq<nat>, j: nat, e: nat, now: nat)
    requires NodeOk(wg, k, p, dists, t) && j < |dists| && j != k && e < dists[j]
    ensures NodeOk(wg, k, p, dists[j := e], t[j := now])
  {
    if p.dist < NONE {
      ReachedKept(wg, dists, j, e, k, p.dist);
    }
  }

  /** The improved node: its new parent is no further away and was last updated earlier. */
  lemma ImprovedNode(wg: Weighted, i: nat, j: nat, p: Node, p': Node, dists: seq<nat>, t: seq<nat>, d: nat, e: nat, now: nat)
    requires ValidWeighted(wg) && NodeOk(wg, j, p, dists, t) && Reached(wg, dists, i, d)
    requires i in wg.g.nbrs[j] && j in wg.g.nbrs[i] && i < |dists| && i != j
    requires e == d + Weight(wg, i, j) < p.dist && t[i] < now
    requires p' == p.(dist := e, parent := i, send := QueueFor(p.send, p.nbrs - {i}, e))
    ensures NodeOk(wg, j, p', dists[j := e], t[j := now])
  {
    ReachedIsUpper(wg, dists, i, d);
    ReachedExtends(wg, dists, i, d, j, e);
  }

  lemma DeliverNode(wg: Weighted, net: Net, t: seq<nat>, i: nat, j: nat, d: nat, now: nat, k: nat)
    requires ValidWeighted(wg) && |net.nodes| == |wg.g.nbrs| == |t| && k < |t|
    requires Arrives(wg, net, i, j, d) && Reached(wg, Dists(net), i, d) && NodeOk(wg, k, net.nodes[k], Dists(net), t)
    requires i in wg.g.nbrs[j] && j in wg.g.nbrs[i] && t[i] < now
    ensures var net' := Take(net, DeliverStep(i, j));
            NodeOk(wg, k, net'.nodes[k], Dists(net'), Updating(net, t, DeliverStep(i, j), now))
  {
    var dists, e, net' := Dists(net), NewDist(wg, Dists(net), i, j, d), Take(net, DeliverStep(i, j));
    Delivered(wg, net, i, j, d);
    DeliveredTime(wg, net, t, i, j, d, now);
    if e == dists[j] {
      assert dists[j := e] == dists;
    } else if k == j {
      ImprovedNode(wg, i, j, net.nodes[j], net'.nodes[j], dists, t, d, e, now);
    } else {
      OtherNode(wg, k, net.nodes[k], dists, t, j, e, now);
    }
  }

  lemma SendNode(wg: Weighted, net: Net, t: seq<nat>, i: nat, j: nat, k: nat)
    requires Enabled(net, SendStep(i, j)) && k < |net.nodes| && NodeOk(wg, k, net.nodes[k], Dists(net), t)
    ensures var net' := Take(net, SendStep(i, j));
            NodeOk(wg, k, net'.nodes[k], Dists(net'), t)
  {
    SendDists(net, i, j);
  }

  lemma NodesStep(wg: Weighted, net: Net, t: seq<nat>, now: nat, s: Step)
    requires Inv(wg, net, t, now) && Enabled(net, s)
    ensures NodesOk(wg, Take(net, s), Updating(net, t, s, now + 1))
  {
    if s.DeliverStep? {
      NoWrap(wg, net, t, now, s.i, s.j);
      LinkEnds(wg.g, s.i, s.j);
      assert t[s.i] <= now;
    }
    forall k: nat | k < |t|
      ensures NodeOk(wg, k, Take(net, s).nodes[k], Dists(Take(net, s)), Updating(net, t, s, now + 1))
    {
      assert NodeOk(wg, k, net.nodes[k], Dists(net), t);
      match s
      case SendStep(i, j) => SendNode(wg, net, t, i, j, k);
      case DeliverStep(i, j) => DeliverNode(wg, net, t, i, j, net.channel(i, j)[0], now + 1, k);
    }
  }

  lemma ChannelsStep(wg: Weighted, net: Net, t: seq<nat>, s: Step)
    requires NodesOk(wg, net, t) && ChannelsOk(wg, net) && Enabled(net, s)
    ensures ChannelsOk(wg, Take(net, s))
  {
    if s.SendStep? {
      assert NodeOk(wg, s.i, net.nodes[s.i], Dists(net), t);
    }
  }

  lemma TimesStep(net: Net, t: seq<nat>, now: nat, s: Step)
    requires TimesOk(t, now) && |t| == |net.nodes| && Enabled(net, s)
    ensures TimesOk(Updating(net, t, s, now + 1), now + 1)
  {}

  lemma StepInv(wg: Weighted, net: Net, t: seq<nat>, now: nat, s: Step)
    requires Inv(wg, net, t, now) && Enabled(net, s)
    ensures Inv(wg, Take(net, s), Updating(net, t, s, now + 1), now + 1)
  {
    NodesStep(wg, net, t, now, s);
    EdgesStep(wg, net, t, now, s);
    ChannelsStep(wg, net, t, s);
    TimesStep(net, t, now, s);
  }

  lemma RootReached(wg: Weighted, dists: seq<nat>)
    requires ValidWeighted(wg) && |dists| == |wg.g.nbrs| && dists[wg.g.root] == 0
    ensures Reached(wg, dists, wg.g.root, 0)
  {
    var path := [wg.g.root];
    assert path[..1] == path;
    assert AtMostSaid(wg, dists, path, 0);
    assert Witness(wg, dists, wg.g.root, 0, path);
  }

  lemma InitialQueue(wg: Weighted, a: nat, b: nat)
    requires ValidWeighted(wg) && a < |wg.g.nbrs| && b in wg.g.nbrs[a]
    ensures b in InitialNet(wg).nodes[a].send
    ensures Transit(InitialNet(wg), a, b) == if a == wg.g.root then [0] else []
  {
    var nbrs := wg.g.nbrs[a];
    assert EmptyQueues<nat>(nbrs)[b] + [0] == [0];
  }

  lemma InitialLink(wg: Weighted, dists: seq<nat>, a: nat, b: nat)
    requires a < |dists| && b < |dists| && dists[a] == (if a == wg.g.root then 0 else NONE)
    requires a == wg.g.root ==> Reached(wg, dists, a, 0)
    ensures LinkOk(wg, dists, a, b, if a == wg.g.root then [0] else [])
  {
    assert 0 in [0];
  }

  lemma InitialEdge(wg: Weighted, a: nat, b: nat)
    requires ValidWeighted(wg) && (a, b) in Links(wg.g)
    ensures EdgeOk(wg, InitialNet(wg), a, b)
  {
    LinkEnds(wg.g, a, b);
    InitialQueue(wg, a, b);
    RootReached(wg, Dists(InitialNet(wg)));
    InitialLink(wg, Dists(InitialNet(wg)), a, b);
  }

  lemma InitialInv(wg: Weighted)
    requires ValidWeighted(wg)
    ensures Inv(wg, InitialNet(wg), UpdateTimes(wg, []), 0)
  {
    var net, t := InitialNet(wg), UpdateTimes(wg, []);
    assert EdgesOk(wg, net) by {
      forall a: nat, b: nat | (a, b) in Links(wg.g)
        ensures EdgeOk(wg, net, a, b)
      {
        InitialEdge(wg, a, b);
      }
    }
    assert NodesOk(wg, net, t) by {
      RootReached(wg, Dists(net));
      forall k: nat | k < |t|
        ensures NodeOk(wg, k, net.nodes[k], Dists(net), t)
      {
      }
    }
  }

  lemma AfterStep(wg: Weighted, before: seq<Step>, s: Step)
    requires ValidWeighted(wg) && IsRun(wg, before) && Enabled(After(wg, before), s)
    requires Inv(wg, After(wg, before), UpdateTimes(wg, before), |before|)
    ensures IsRun(wg, before + [s])
    ensures Inv(wg, After(wg, before + [s]), UpdateTimes(wg, before + [s]), |before + [s]|)
  {
    var steps := before + [s];
    assert steps[..|steps| - 1] == before && steps[|steps| - 1] == s;
    StepInv(wg, After(wg, before), UpdateTimes(wg, before), |before|, s);
  }

  lemma {:induction false} RunInv(wg: Weighted, steps: seq<Step>)
    requires ValidWeighted(wg) && IsRun(wg, steps)
    ensures Inv(wg, After(wg, steps), UpdateTimes(wg, steps), |steps|)
    decreases |steps|
  {
    if steps == [] {
      InitialInv(wg);
    } else {
      var before, s := steps[..|steps| - 1], steps[|steps| - 1];
      RunInv(wg, before);
      AfterStep(wg, before, s);
      assert before + [s] == steps;
    }
  }
}
