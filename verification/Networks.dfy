/** Symmetric graphs of automata joined by one FIFO channel per directed link. */
module Networks {

  /** static_cast<size_t> (-1): no value, no parent, no distance. */
  const NONE: nat := 0xFFFF_FFFF_FFFF_FFFF

  /** One send queue per neighbour. */
  type Queues<T> = map<nat, seq<T>>

  /** Queue m for every neighbour in some set; the other queues stay as they are. */
  function QueueFor<T>(send: Queues<T>, to: set<nat>, m: T): (r: Queues<T>)
    ensures r.Keys == send.Keys
    ensures forall k | k in send :: r[k] == if k in to then send[k] + [m] else send[k]
  {
    map k | k in send :: if k in to then send[k] + [m] else send[k]
  }

  function EmptyQueues<T>(nbrs: set<nat>): (r: Queues<T>)
    ensures r.Keys == nbrs && forall k | k in nbrs :: r[k] == []
  {
    map k | k in nbrs :: []
  }

  datatype Graph = Graph(root: nat, nbrs: seq<set<nat>>)

  ghost predicate ValidGraph(g: Graph) {
    && g.root < |g.nbrs| <= NONE
    && (forall i: nat, j: nat {:trigger j in g.nbrs[i]} | i < |g.nbrs| && j in g.nbrs[i] ::
          j < |g.nbrs| && j != i && i in g.nbrs[j])
  }

  type Link = (nat, nat)

  function Links(g: Graph): (ls: set<Link>)
    ensures forall i: nat, j: nat :: (i, j) in ls <==> i < |g.nbrs| && j in g.nbrs[i]
  {
    set i: nat, j: nat | i < |g.nbrs| && j in g.nbrs[i] :: (i, j)
  }

  lemma LinkEnds(g: Graph, a: nat, b: nat)
    requires ValidGraph(g) && (a, b) in Links(g)
    ensures a < |g.nbrs| && b < |g.nbrs| && a != b && b in g.nbrs[a] && a in g.nbrs[b] && (b, a) in Links(g)
  {
    assert b in g.nbrs[a] && a in g.nbrs[b];
  }

  /** channel(i, j) is the content of the channel automaton from node i to node j. */
  type Channels<T> = (nat, nat) -> seq<T>

  function SetChannel<T>(c: Channels<T>, i: nat, j: nat, q: seq<T>): Channels<T> {
    (x: nat, y: nat) => if x == i && y == j then q else c(x, y)
  }

  /** A path of the graph that starts at the root. */
  ghost predicate RootPath(g: Graph, path: seq<nat>) {
    && path != [] && path[0] == g.root
    && forall k: nat | k < |path| - 1 :: path[k] < |g.nbrs| && path[k + 1] in g.nbrs[path[k]]
  }

  lemma ExtendPath(g: Graph, path: seq<nat>, j: nat)
    requires RootPath(g, path) && path[|path| - 1] < |g.nbrs| && j in g.nbrs[path[|path| - 1]]
    ensures RootPath(g, path + [j])
  {}
}
