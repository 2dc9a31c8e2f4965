/** Termination, the parent tree and the final distances of asynchronous Bellman-Ford. */
module BellmanFordTheorems {
  import opened Common
  import opened Networks
  import opened BellmanFordAutomaton
  import opened BellmanFordNetwork

  // ---------------------------------------------------------------- termination

  /** A distance as a finite height: more than any witnessed distance when there is none. */
  function Level(wg: Weighted, d: nat): nat {
    if d == NONE then |wg.g.nbrs| * wg.maxWeight + 1 else d
  }

  function Levels(wg: Weighted, dists: seq<nat>): (s: seq<int>)
    ensures |s| == |dists| && forall i: nat | i < |s| :: s[i] == Level(wg, dists[i])
  {
    seq(|dists|, i requires 0 <= i < |dists| => Level(wg, dists[i]))
  }

  /** Steps still owed by what is queued on a link: sending and delivering. */
  function LinkLoad(net: Net, a: nat, b: nat): nat {
    if a < |net.nodes| && b in net.nodes[a].send then 2 * |net.nodes[a].send[b]| + |net.channel(a, b)| else 0
  }

  function Loads(net: Net): (m: Matrix)
    ensures |m| == |net.nodes|
    ensures forall a: nat | a < |m| :: |m[a]| == |m|
    ensures forall a: nat, b: nat | a < |m| && b < |m| :: m[a][b] == LinkLoad(net, a, b)
  {
    seq(|net.nodes|, a requires 0 <= a < |net.nodes| =>
          seq(|net.nodes|, b requires 0 <= b < |net.nodes| => LinkLoad(net, a, b)))
  }

  /** a * b, as a repeated addition. */
  function Times(a: nat, b: int): int {
    if a == 0 then 0 else Times(a - 1, b) + b
  }

  lemma {:induction false} TimesIsProduct(a: nat, b: int)
    ensures Times(a, b) == a * b
  {
    if a > 0 {
      TimesIsProduct(a - 1, b);
    }
  }

  /** Every improvement of a distance pays for the messages it queues. */
  function Measure(wg: Weighted, net: Net): int {
    Times(2 * |net.nodes|, Sum(Levels(wg, Dists(net)))) + Total(Loads(net))
  }

  lemma SendMeasure(wg: Weighted, net: Net, i: nat, j: nat)
    requires Enabled(net, SendStep(i, j)) && j < |net.nodes|
    ensures Measure(wg, Take(net, SendStep(i, j))) < Measure(wg, net)
  {
    var net' := Take(net, SendStep(i, j));
    SendDists(net, i, j);
    TotalStrict(Loads(net'), Loads(net), i, j);
  }

  lemma DeliverLoad(wg: Weighted, net: Net, i: nat, j: nat, d: nat, a: nat, b: nat)
    requires Arrives(wg, net, i, j, d) && a < |net.nodes| && b < |net.nodes|
    requires j in net.nodes[i].send
    ensures var net' := Take(net, DeliverStep(i, j));
            && (a == i && b == j ==> LinkLoad(net', a, b) < LinkLoad(net, a, b))
            && (a != j || net.nodes[j].dist <= d + Weight(wg, i, j) ==> LinkLoad(net', a, b) <= LinkLoad(net, a, b))
            && LinkLoad(net', a, b) <= LinkLoad(net, a, b) + 2
  {
    if a == j && b in net.nodes[j].send {
      ReceiveQueue(net.nodes[j], d, i, b);
    }
  }

  lemma {:induction false} SumShift(a: seq<int>, b: seq<int>, c: int)
    requires |a| == |b| && forall k | 0 <= k < |a| :: b[k] <= a[k] + c
    ensures Sum(b) <= Sum(a) + |a| * c
  {
    if a != [] {
      SumShift(a[1..], b[1..], c);
      assert |a| * c == c + |a[1..]| * c;
    }
  }

  /** One entry shrinks in row i, row j may grow by c an entry, nothing else grows. */
  lemma TotalWithRow(m: Matrix, m': Matrix, n: nat, i: nat, j: nat, l: nat, c: int)
    requires Square(m, n) && Square(m', n) && i < n && j < n && l < n && i != j && 0 <= c
    requires forall a, b | 0 <= a < n && 0 <= b < n && a != j :: m'[a][b] <= m[a][b]
    requires forall b | 0 <= b < n :: m'[j][b] <= m[j][b] + c
    requires m'[i][l] < m[i][l]
    ensures Total(m') < Total(m) + n * c
  {
    var rows, rows' := RowSums(m), RowSums(m');
    var bound := rows[j := rows[j] + n * c];
    SumShift(m[j], m'[j], c);
    SumStrict(m'[i], m[i], l);
    forall a | 0 <= a < n
      ensures rows'[a] <= bound[a]
    {
      if a != j {
        SumMonotone(m'[a], m[a]);
      }
    }
    SumStrict(rows', bound, i);
    SumUpdate(rows, j, rows[j] + n * c);
  }

  lemma StillMeasure(wg: Weighted, net: Net, i: nat, j: nat, d: nat)
    requires Arrives(wg, net, i, j, d) && j in net.nodes[i].send
    requires net.nodes[j].dist <= d + Weight(wg, i, j)
    ensures Measure(wg, Take(net, DeliverStep(i, j))) < Measure(wg, net)
  {
    var net' := Take(net, DeliverStep(i, j));
    Delivered(wg, net, i, j, d);
    assert Dists(net') == Dists(net);
    forall a: nat, b: nat | a < |net.nodes| && b < |net.nodes|
      ensures Loads(net')[a][b] <= Loads(net)[a][b]
    {
      DeliverLoad(wg, net, i, j, d, a, b);
    }
    DeliverLoad(wg, net, i, j, d, i, j);
    TotalStrict(Loads(net'), Loads(net), i, j);
  }

  lemma ImprovedLoads(wg: Weighted, net: Net, i: nat, j: nat, d: nat)
    requires Arrives(wg, net, i, j, d) && j in net.nodes[i].send
    ensures Total(Loads(Take(net, DeliverStep(i, j)))) < Total(Loads(net)) + |net.nodes| * 2
  {
    var net', n := Take(net, DeliverStep(i, j)), |net.nodes|;
    forall a: nat, b: nat | a < n && b < n
      ensures a != j ==> Loads(net')[a][b] <= Loads(net)[a][b]
      ensures Loads(net')[a][b] <= Loads(net)[a][b] + 2
    {
      DeliverLoad(wg, net, i, j, d, a, b);
    }
    DeliverLoad(wg, net, i, j, d, i, j);
    TotalWithRow(Loads(net), Loads(net'), n, i, j, j, 2);
  }

  lemma ImprovedMeasure(wg: Weighted, net: Net, i: nat, j: nat, d: nat)
    requires Arrives(wg, net, i, j, d) && j in net.nodes[i].send
    requires d + Weight(wg, i, j) < net.nodes[j].dist
    requires d + Weight(wg, i, j) <= |wg.g.nbrs| * wg.maxWeight
    ensures Measure(wg, Take(net, DeliverStep(i, j))) < Measure(wg, net)
  {
    var net', dists, e := Take(net, DeliverStep(i, j)), Dists(net), d + Weight(wg, i, j);
    Delivered(wg, net, i, j, d);
    ImprovedLoads(wg, net, i, j, d);
    var levels, levels' := Levels(wg, dists), Levels(wg, Dists(net'));
    SumChange(levels, levels', j);
    MeasureDrop(|net.nodes|, Sum(levels), Sum(levels'));
  }

  lemma MeasureDrop(n: nat, sum: int, sum': int)
    requires sum' < sum
    ensures Times(2 * n, sum') + 2 * n <= Times(2 * n, sum)
  {
    TimesIsProduct(2 * n, sum);
    TimesIsProduct(2 * n, sum');
    assert 2 * n * (sum' + 1) <= 2 * n * sum;
  }

  lemma StepMeasure(wg: Weighted, net: Net, t: seq<nat>, now: nat, s: Step)
    requires Inv(wg, net, t, now) && Enabled(net, s)
    ensures Measure(wg, Take(net, s)) < Measure(wg, net)
  {
    match s
    case SendStep(i, j) =>
      assert NodeOk(wg, i, net.nodes[i], Dists(net), t);
      assert j in wg.g.nbrs[i];
      SendMeasure(wg, net, i, j);
    case DeliverStep(i, j) =>
      NoWrap(wg, net, t, now, i, j);
      LinkEnds(wg.g, i, j);
      var d := net.channel(i, j)[0];
      assert j in net.nodes[i].send by {
        assert EdgeOk(wg, net, i, j);
      }
      if d + Weight(wg, i, j) < net.nodes[j].dist {
        ArrivalBound(wg, Dists(net), i, j, d);
        ImprovedMeasure(wg, net, i, j, d);
      } else {
        StillMeasure(wg, net, i, j, d);
      }
  }

  lemma ArrivalBound(wg: Weighted, dists: seq<nat>, i: nat, j: nat, d: nat)
    requires ValidWeighted(wg) && |dists| == |wg.g.nbrs| && Reached(wg, dists, i, d)
    requires i < |dists| && j in wg.g.nbrs[i]
    ensures d + Weight(wg, i, j) <= |wg.g.nbrs| * wg.maxWeight
  {
    var path :| Witness(wg, dists, i, d, path);
    WitnessBound(wg, dists, i, d, path);
  }

  lemma MeasureNonNegative(wg: Weighted, net: Net)
    ensures 0 <= Measure(wg, net)
  {
    SumAtLeast(Levels(wg, Dists(net)), 0);
    TimesIsProduct(2 * |net.nodes|, Sum(Levels(wg, Dists(net))));
    forall a | 0 <= a < |Loads(net)|
      ensures 0 <= RowSums(Loads(net))[a]
    {
      SumAtLeast(Loads(net)[a], 0);
    }
    SumAtLeast(RowSums(Loads(net)), 0);
  }

  /** At the start only the root has a distance, and it has one message queued for each neighbour. */
  lemma InitialMeasure(wg: Weighted)
    requires ValidWeighted(wg)
    ensures var n := |wg.g.nbrs|;
            Measure(wg, InitialNet(wg)) <= 2 * n * ((n - 1) * (n * wg.maxWeight + 1)) + 2 * n
  {
    var net, n, top := InitialNet(wg), |wg.g.nbrs|, |wg.g.nbrs| * wg.maxWeight + 1;
    var levels := Levels(wg, Dists(net));
    InitialLevels(levels, wg.g.root, top);
    InitialLoads(wg);
    TimesAtMost(n, Sum(levels), (n - 1) * top);
  }

  lemma TimesAtMost(n: nat, sum: int, bound: int)
    requires sum <= bound
    ensures Times(2 * n, sum) <= 2 * n * bound
  {
    TimesIsProduct(2 * n, sum);
  }

  lemma InitialLevels(levels: seq<int>, root: nat, top: int)
    requires root < |levels|
    requires forall i: nat | i < |levels| :: levels[i] == if i == root then 0 else top
    ensures Sum(levels) <= (|levels| - 1) * top
  {
    var full := levels[root := top];
    SumAtMost(full, top);
    SumUpdate(levels, root, top);
    assert |levels| * top == (|levels| - 1) * top + top;
  }

  lemma InitialLoads(wg: Weighted)
    requires ValidWeighted(wg)
    ensures Total(Loads(InitialNet(wg))) <= 2 * |wg.g.nbrs|
  {
    var net, n := InitialNet(wg), |wg.g.nbrs|;
    var rows, root := RowSums(Loads(net)), wg.g.root;
    forall a: nat, b: nat | a < n && b < n
      ensures LinkLoad(net, a, b) <= if a == root then 2 else 0
    {
      if b in wg.g.nbrs[a] {
        InitialQueue(wg, a, b);
      }
    }
    forall a: nat | a < n
      ensures rows[a] <= if a == root then 2 * n else 0
    {
      SumAtMost(Loads(net)[a], if a == root then 2 else 0);
    }
    var others := rows[root := 0];
    SumAtMost(others, 0);
    SumUpdate(rows, root, 0);
  }

  /** Steps taken plus steps still owed. */
  ghost function Budget(wg: Weighted, steps: seq<Step>): int
    requires |wg.weights| == |wg.g.nbrs| && IsRun(wg, steps)
  {
    Measure(wg, After(wg, steps)) + |steps|
  }

  lemma BudgetStep(wg: Weighted, before: seq<Step>, s: Step)
    requires ValidWeighted(wg) && IsRun(wg, before) && Enabled(After(wg, before), s)
    ensures IsRun(wg, before + [s]) && Budget(wg, before + [s]) <= Budget(wg, before)
  {
    var steps := before + [s];
    assert steps[..|steps| - 1] == before && steps[|steps| - 1] == s;
    RunInv(wg, before);
    StepMeasure(wg, After(wg, before), UpdateTimes(wg, before), |before|, s);
    assert After(wg, steps) == Take(After(wg, before), s);
  }

  lemma {:induction false} RunBudget(wg: Weighted, steps: seq<Step>)
    requires ValidWeighted(wg) && IsRun(wg, steps)
    ensures Budget(wg, steps) <= Budget(wg, [])
    decreases |steps|
  {
    if steps != [] {
      var before, s := steps[..|steps| - 1], steps[|steps| - 1];
      RunBudget(wg, before);
      BudgetStep(wg, before, s);
      assert before + [s] == steps;
    }
  }

  /** Every run terminates, in any interleaving of sends and deliveries. */
  lemma RunLengthBound(wg: Weighted, steps: seq<Step>)
    requires ValidWeighted(wg) && IsRun(wg, steps)
    ensures var n := |wg.g.nbrs|;
            |steps| <= 2 * n * ((n - 1) * (n * wg.maxWeight + 1)) + 2 * n
  {
    RunBudget(wg, steps);
    MeasureNonNegative(wg, After(wg, steps));
    InitialMeasure(wg);
  }

  // ---------------------------------------------------------------- every reachable state

  /** Along the run no addition wraps: what a delivery computes is the true sum, and it is below the
      value that stands for "no distance". */
  lemma AdditionNeverWraps(wg: Weighted, steps: seq<Step>, i: nat, j: nat)
    requires ValidWeighted(wg) && IsRun(wg, steps) && Enabled(After(wg, steps), DeliverStep(i, j))
    ensures var net := After(wg, steps);
            var d := net.channel(i, j)[0];
            && i < |wg.g.nbrs| && j in wg.g.nbrs[i]
            && AddSize(d, net.nodes[j].weight[i]) == d + Weight(wg, i, j) < NONE
  {
    RunInv(wg, steps);
    NoWrap(wg, After(wg, steps), UpdateTimes(wg, steps), |steps|, i, j);
    LinkEnds(wg.g, i, j);
  }

  /** Any distance a node holds is the weight of a simple path from the root to it. */
  lemma DistanceIsASimplePath(wg: Weighted, steps: seq<Step>, i: nat) returns (path: seq<nat>)
    requires ValidWeighted(wg) && IsRun(wg, steps) && i < |wg.g.nbrs| && After(wg, steps).nodes[i].dist != NONE
    ensures RootPath(wg.g, path) && Simple(path) && path[|path| - 1] == i
    ensures After(wg, steps).nodes[i].dist == PathWeight(wg, path) <= (|wg.g.nbrs| - 1) * wg.maxWeight
  {
    RunInv(wg, steps);
    path := WitnessOf(wg, After(wg, steps), UpdateTimes(wg, steps), |steps|, i);
  }

  lemma WitnessOf(wg: Weighted, net: Net, t: seq<nat>, now: nat, i: nat) returns (path: seq<nat>)
    requires Inv(wg, net, t, now) && i < |t| && net.nodes[i].dist != NONE
    ensures RootPath(wg.g, path) && Simple(path) && path[|path| - 1] == i
    ensures net.nodes[i].dist == PathWeight(wg, path) <= (|wg.g.nbrs| - 1) * wg.maxWeight
  {
    var dists, d := Dists(net), net.nodes[i].dist;
    assert NodeOk(wg, i, net.nodes[i], dists, t);
    path :| Witness(wg, dists, i, d, path);
    WitnessBound(wg, dists, i, d, path);
    OneLess(d, |wg.g.nbrs|, wg.maxWeight);
  }

  lemma OneLess(d: nat, n: nat, w: nat)
    requires d + w <= n * w
    ensures d <= (n - 1) * w
  {}

  /** Following parents goes to nodes that are closer, or as close and updated earlier. */
  ghost predicate Before(net: Net, t: seq<nat>, i: nat, j: nat) {
    && i < |net.nodes| == |t| && j < |net.nodes|
    && (net.nodes[i].dist < net.nodes[j].dist || (net.nodes[i].dist == net.nodes[j].dist && t[i] < t[j]))
  }

  ghost predicate FollowsParent(net: Net, path: seq<nat>, k: nat) {
    k + 1 < |path| && path[k + 1] < |net.nodes| && net.nodes[path[k + 1]].parent == path[k]
  }

  /** The chain of parents from the root to i, without repetition. */
  ghost predicate ParentChain(wg: Weighted, net: Net, path: seq<nat>, i: nat) {
    && RootPath(wg.g, path) && Simple(path) && path[|path| - 1] == i
    && forall k: nat {:trigger FollowsParent(net, path, k)} | k < |path| - 1 :: FollowsParent(net, path, k)
  }

  lemma ChainExtends(wg: Weighted, net: Net, path: seq<nat>, i: nat, j: nat)
    requires ParentChain(wg, net, path, i) && i < |wg.g.nbrs| && j in wg.g.nbrs[i] && j !in path
    requires j < |net.nodes| && net.nodes[j].parent == i
    ensures ParentChain(wg, net, path + [j], j)
  {
    ExtendPath(wg.g, path, j);
    SimpleExtends(path, j);
    forall k: nat | k < |path|
      ensures FollowsParent(net, path + [j], k)
    {
      if k < |path| - 1 {
        assert FollowsParent(net, path, k);
      }
    }
  }

  lemma ParentFacts(wg: Weighted, net: Net, t: seq<nat>, now: nat, i: nat)
    requires Inv(wg, net, t, now) && i < |t| && net.nodes[i].dist != NONE && i != wg.g.root
    ensures var q := net.nodes[i].parent;
            && q < |t| && i in wg.g.nbrs[q] && net.nodes[q].dist != NONE && Before(net, t, q, i)
            && net.nodes[q].dist + Weight(wg, q, i) <= net.nodes[i].dist
  {
    assert NodeOk(wg, i, net.nodes[i], Dists(net), t);
    assert net.nodes[i].parent in wg.g.nbrs[i];
  }

  lemma {:induction false} ChainToRoot(wg: Weighted, net: Net, t: seq<nat>, now: nat, i: nat) returns (path: seq<nat>)
    requires Inv(wg, net, t, now) && i < |t| && net.nodes[i].dist != NONE
    ensures ParentChain(wg, net, path, i)
    ensures forall k: nat | k < |path| :: path[k] == i || Before(net, t, path[k], i)
    decreases net.nodes[i].dist, t[i]
  {
    if i == wg.g.root {
      path := [i];
    } else {
      ParentFacts(wg, net, t, now, i);
      var q := net.nodes[i].parent;
      var front := ChainToRoot(wg, net, t, now, q);
      ChainExtends(wg, net, front, q, i);
      path := front + [i];
    }
  }

  /** In every reachable state, zero-weight links included, the parent pointers of a node with a
      distance lead to the root without a cycle. */
  lemma ParentsLeadToRoot(wg: Weighted, steps: seq<Step>, i: nat) returns (path: seq<nat>)
    requires ValidWeighted(wg) && IsRun(wg, steps) && i < |wg.g.nbrs| && After(wg, steps).nodes[i].dist != NONE
    ensures ParentChain(wg, After(wg, steps), path, i)
  {
    RunInv(wg, steps);
    path := ChainToRoot(wg, After(wg, steps), UpdateTimes(wg, steps), |steps|, i);
  }

  // ---------------------------------------------------------------- quiescent states

  ghost predicate Quiescent(net: Net) {
    forall s :: !Enabled(net, s)
  }

  lemma QuietTransit(wg: Weighted, net: Net, t: seq<nat>, now: nat, i: nat, j: nat)
    requires Inv(wg, net, t, now) && Quiescent(net) && (i, j) in Links(wg.g)
    ensures i < |t| && j < |t|
    ensures net.nodes[i].dist == NONE || net.nodes[j].dist <= net.nodes[i].dist + Weight(wg, i, j)
  {
    LinkEnds(wg.g, i, j);
    assert EdgeOk(wg, net, i, j) && NodeOk(wg, j, net.nodes[j], Dists(net), t);
    assert i in wg.g.nbrs[j];
    assert !Enabled(net, SendStep(i, j)) && !Enabled(net, DeliverStep(i, j));
    assert Transit(net, i, j) == [];
  }

  /** No path is shorter than the distance at its end. */
  lemma {:induction false} PathUpper(wg: Weighted, net: Net, t: seq<nat>, now: nat, path: seq<nat>)
    requires Inv(wg, net, t, now) && Quiescent(net) && RootPath(wg.g, path)
    ensures var i := path[|path| - 1];
            i < |t| && net.nodes[i].dist != NONE && net.nodes[i].dist <= PathWeight(wg, path)
    decreases |path|
  {
    if |path| == 1 {
      assert NodeOk(wg, wg.g.root, net.nodes[wg.g.root], Dists(net), t);
    } else {
      var front, i, j := path[..|path| - 1], path[|path| - 2], path[|path| - 1];
      PathUpper(wg, net, t, now, front);
      assert j in wg.g.nbrs[i];
      QuietTransit(wg, net, t, now, i, j);
      DistanceFits(wg, net, t, now, i, j);
    }
  }

  lemma DistanceFits(wg: Weighted, net: Net, t: seq<nat>, now: nat, i: nat, j: nat)
    requires Inv(wg, net, t, now) && i < |t| && net.nodes[i].dist != NONE && j in wg.g.nbrs[i]
    ensures net.nodes[i].dist + Weight(wg, i, j) < NONE
  {
    assert NodeOk(wg, i, net.nodes[i], Dists(net), t);
    ArrivalBound(wg, Dists(net), i, j, net.nodes[i].dist);
  }

  /** d is the weight of a lightest path from the root to i. */
  ghost predicate IsShortest(wg: Weighted, i: nat, d: nat) {
    && (exists path :: RootPath(wg.g, path) && path[|path| - 1] == i && PathWeight(wg, path) == d)
    && (forall path :: RootPath(wg.g, path) && path[|path| - 1] == i ==> d <= PathWeight(wg, path))
  }

  /** When nothing can happen any more every node holds the true shortest distance, and "no distance"
      exactly when there is no path. */
  lemma QuiescentDistances(wg: Weighted, steps: seq<Step>, i: nat)
    requires ValidWeighted(wg) && IsRun(wg, steps) && Quiescent(After(wg, steps)) && i < |wg.g.nbrs|
    ensures var d := After(wg, steps).nodes[i].dist;
            && (d != NONE ==> IsShortest(wg, i, d))
            && (d == NONE <==> !exists path :: RootPath(wg.g, path) && path[|path| - 1] == i)
  {
    RunInv(wg, steps);
    var net, t := After(wg, steps), UpdateTimes(wg, steps);
    if net.nodes[i].dist != NONE {
      var path := DistanceIsASimplePath(wg, steps, i);
    }
    forall path | RootPath(wg.g, path) && path[|path| - 1] == i
      ensures net.nodes[i].dist != NONE && net.nodes[i].dist <= PathWeight(wg, path)
    {
      PathUpper(wg, net, t, |steps|, path);
    }
  }

  /** ... and the parent is the last link of such a path. */
  lemma QuiescentParents(wg: Weighted, steps: seq<Step>, i: nat)
    requires ValidWeighted(wg) && IsRun(wg, steps) && Quiescent(After(wg, steps)) && i < |wg.g.nbrs|
    requires i != wg.g.root && After(wg, steps).nodes[i].dist != NONE
    ensures var net := After(wg, steps);
            var q := net.nodes[i].parent;
            && q < |net.nodes| && i in wg.g.nbrs[q]
            && net.nodes[i].dist == net.nodes[q].dist + Weight(wg, q, i) && IsShortest(wg, q, net.nodes[q].dist)
  {
    RunInv(wg, steps);
    var net, t := After(wg, steps), UpdateTimes(wg, steps);
    ParentFacts(wg, net, t, |steps|, i);
    var q := net.nodes[i].parent;
    QuietTransit(wg, net, t, |steps|, q, i);
    QuiescentDistances(wg, steps, q);
  }

  // ---------------------------------------------------------------- the channels

  /** The distances sent from i to j in a run, oldest first, ... */
  ghost function SentOn(wg: Weighted, steps: seq<Step>, i: nat, j: nat): seq<nat>
    requires |wg.weights| == |wg.g.nbrs| && IsRun(wg, steps)
    decreases |steps|
  {
    if steps == [] then []
    else
      var before, s := steps[..|steps| - 1], steps[|steps| - 1];
      SentOn(wg, before, i, j) + if s == SendStep(i, j) then [After(wg, before).nodes[i].send[j][0]] else []
  }

  /** ... and delivered. */
  ghost function DeliveredOn(wg: Weighted, steps: seq<Step>, i: nat, j: nat): seq<nat>
    requires |wg.weights| == |wg.g.nbrs| && IsRun(wg, steps)
    decreases |steps|
  {
    if steps == [] then []
    else
      var before, s := steps[..|steps| - 1], steps[|steps| - 1];
      DeliveredOn(wg, before, i, j) + if s == DeliverStep(i, j) then [After(wg, before).channel(i, j)[0]] else []
  }

  /** Nothing is lost, made up or overtaken on the way from one node to another. */
  lemma {:induction false} ChannelIsFifo(wg: Weighted, steps: seq<Step>, i: nat, j: nat)
    requires |wg.weights| == |wg.g.nbrs| && IsRun(wg, steps)
    ensures SentOn(wg, steps, i, j) == DeliveredOn(wg, steps, i, j) + After(wg, steps).channel(i, j)
    decreases |steps|
  {
    if steps != [] {
      var before, s := steps[..|steps| - 1], steps[|steps| - 1];
      ChannelIsFifo(wg, before, i, j);
      if s == DeliverStep(i, j) {
        var q := After(wg, before).channel(i, j);
        assert q == [q[0]] + q[1..];
      }
    }
  }
}
