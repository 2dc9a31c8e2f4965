/**
 One node of the asynchronous Bellman-Ford shortest-path algorithm
 (examples/asynch_bellman_ford_automaton.hpp).  Distances are size_t: the addition wraps, and the
 largest size_t stands for "no distance yet".
 */
module BellmanFordAutomaton {
  import opened Networks

  /** size_t has this many values. */
  const SIZE: nat := NONE + 1

  function AddSize(a: nat, b: nat): (r: nat)
    ensures r < SIZE
    ensures a + b < SIZE ==> r == a + b
  {
    (a + b) % SIZE
  }

  datatype Node = Node(i: nat, root: nat, nbrs: set<nat>, weight: map<nat, nat>,
                       dist: nat, parent: nat, send: Queues<nat>)

  function Initial(i: nat, root: nat, nbrs: set<nat>, weight: map<nat, nat>): Node {
    if i == root
    then Node(i, root, nbrs, weight, 0, NONE, QueueFor(EmptyQueues(nbrs), nbrs, 0))
    else Node(i, root, nbrs, weight, NONE, NONE, EmptyQueues(nbrs))
  }

  predicate CanSend(p: Node, j: nat) {
    j in p.send && p.send[j] != []
  }

  function Send(p: Node, j: nat): Node
    requires CanSend(p, j)
  {
    p.(send := p.send[j := p.send[j][1..]])
  }

  function Receive(p: Node, w: nat, j: nat): Node
    requires j in p.weight
  {
    var d := AddSize(w, p.weight[j]);
    if d < p.dist then p.(dist := d, parent := j, send := QueueFor(p.send, p.nbrs - {j}, d)) else p
  }

  class AsynchBellmanFordAutomaton {
    const i: nat
    const root: nat
    const nbrs: set<nat>
    const weight: map<nat, nat>
    var dist: nat
    var parent: nat
    var sendQueues: Queues<nat>

    ghost predicate Valid()
      reads this
    {
      sendQueues.Keys == nbrs <= weight.Keys
    }

    ghost function State(): Node
      reads this
    {
      Node(i, root, nbrs, weight, dist, parent, sendQueues)
    }

    constructor (i: nat, root: nat, nbrs: set<nat>, weight: map<nat, nat>)
      requires nbrs <= weight.Keys
      ensures Valid() && State() == Initial(i, root, nbrs, weight)
      ensures dist == (if i == root then 0 else NONE) && parent == NONE
      ensures forall k | k in nbrs :: sendQueues[k] == if i == root then [0] else []
    {
      this.i, this.root, this.nbrs, this.weight := i, root, nbrs, weight;
      dist, parent := if i == root then 0 else NONE, NONE;
      var queues: Queues<nat> := map[];
      var rest := nbrs;
      while rest != {}
        invariant rest <= nbrs && queues.Keys == nbrs - rest
        invariant forall k | k in queues :: queues[k] == if i == root then [0] else []
        decreases rest
      {
        var pos :| pos in rest;
        queues := queues[pos := []];
        if i == root {
          queues := queues[pos := queues[pos] + [0]];
        }
        rest := rest - {pos};
      }
      assert forall k | k in nbrs :: EmptyQueues(nbrs)[k] + [0] == [0];
      assert i == root ==> queues == QueueFor(EmptyQueues(nbrs), nbrs, 0);
      assert i != root ==> queues == EmptyQueues(nbrs);
      sendQueues := queues;
    }

    method SendPrecondition(j: nat, bindingCount: nat) returns (b: bool)
      requires Valid() && j in nbrs
      ensures b <==> CanSend(State(), j) && bindingCount != 0
      ensures b <==> sendQueues[j] != [] && bindingCount != 0
    {
      b := bindingCount != 0 && sendQueues[j] != [];
    }

    method SendEffect(j: nat) returns (d: nat)
      requires Valid() && CanSend(State(), j)
      modifies this
      ensures Valid() && State() == Send(old(State()), j)
      ensures old(sendQueues)[j] == [d] + sendQueues[j] && dist == old(dist) && parent == old(parent)
      ensures forall k | k in nbrs && k != j :: sendQueues[k] == old(sendQueues)[k]
    {
      d := sendQueues[j][0];
      sendQueues := sendQueues[j := sendQueues[j][1..]];
    }

    method ReceiveEffect(w: nat, j: nat)
      requires Valid() && j in nbrs
      modifies this
      ensures Valid() && State() == Receive(old(State()), w, j)
      ensures var d := (w + weight[j]) % SIZE;
              var shorter := d < old(dist);
              && dist == (if shorter then d else old(dist)) && parent == (if shorter then j else old(parent))
              && (forall k | k in nbrs :: sendQueues[k] == old(sendQueues)[k] + if shorter && k != j then [d] else [])
    {
      var d := AddSize(w, weight[j]);
      if d < dist {
        dist := d;
        parent := j;
        var rest := nbrs;
        while rest != {}
          invariant rest <= nbrs && sendQueues.Keys == nbrs
          invariant forall k | k in nbrs :: sendQueues[k] ==
                      if k !in rest && k != j then old(sendQueues)[k] + [d] else old(sendQueues)[k]
          invariant dist == d && parent == j
          decreases rest
        {
          var pos :| pos in rest;
          if pos != j {
            sendQueues := sendQueues[pos := sendQueues[pos] + [dist]];
          }
          rest := rest - {pos};
        }
        assert sendQueues == QueueFor(old(sendQueues), nbrs - {j}, d);
      }
    }
  }
}
