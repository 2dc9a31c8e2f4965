/**
 One node of the asynchronous broadcast / acknowledge algorithm with termination detection
 (examples/asynch_bcast_ack_automaton.hpp): effects as functions on the state, and the automaton
 that updates its fields in place, proved against them.
 */
module BcastAckAutomaton {
  import opened Networks

  datatype Message = Bcast(value: nat) | Ack

  /** i, root and nbrs never change; the other fields are m_val, m_parent, m_reported, m_acked, m_send. */
  datatype Node = Node(i: nat, root: nat, nbrs: set<nat>,
                       val: nat, parent: nat, reported: bool, acked: set<nat>, send: Queues<Message>)

  /** w is the value the root picks. */
  function Initial(i: nat, root: nat, nbrs: set<nat>, w: nat): Node {
    if i == root
    then Node(i, root, nbrs, w, NONE, false, {}, QueueFor(EmptyQueues(nbrs), nbrs, Bcast(w)))
    else Node(i, root, nbrs, NONE, NONE, false, {}, EmptyQueues(nbrs))
  }

  predicate CanSend(p: Node, j: nat) {
    j in p.send && p.send[j] != []
  }

  function Send(p: Node, j: nat): Node
    requires CanSend(p, j)
  {
    p.(send := p.send[j := p.send[j][1..]])
  }

  function Receive(p: Node, m: Message, j: nat): Node {
    match m
    case Bcast(v) =>
      if p.val == NONE
      then p.(val := v, parent := j, send := QueueFor(p.send, p.nbrs - {j}, Bcast(v)))
      else p.(send := QueueFor(p.send, {j}, Ack))
    case Ack => p.(acked := p.acked + {j})
  }

  /** The code compares sizes, not sets. */
  predicate CanReport(p: Node) {
    if p.i != p.root
    then p.parent != NONE && |p.nbrs| == |p.acked| + 1 && p.parent !in p.acked && !p.reported
    else |p.nbrs| == |p.acked| && !p.reported
  }

  function Report(p: Node): Node {
    if p.i != p.root
    then p.(send := QueueFor(p.send, {p.parent}, Ack), reported := true)
    else p.(reported := true)
  }

  class AsynchBcastAckAutomaton {
    const i: nat
    const root: nat
    const nbrs: set<nat>
    var val: nat
    var parent: nat
    var reported: bool
    var acked: set<nat>
    var sendQueues: Queues<Message>

    ghost predicate Valid()
      reads this
    {
      sendQueues.Keys == nbrs && (parent != NONE ==> parent in nbrs)
    }

    ghost function State(): Node
      reads this
    {
      Node(i, root, nbrs, val, parent, reported, acked, sendQueues)
    }

    constructor (i: nat, root: nat, nbrs: set<nat>, w: nat)
      requires w != NONE
      ensures Valid() && State() == Initial(i, root, nbrs, w)
      ensures val == (if i == root then w else NONE) && parent == NONE && !reported && acked == {}
      ensures forall k | k in nbrs :: sendQueues[k] == if i == root then [Bcast(w)] else []
    {
      this.i, this.root, this.nbrs := i, root, nbrs;
      val, parent, reported, acked := if i == root then w else NONE, NONE, false, {};
      var queues: Queues<Message> := map[];
      var rest := nbrs;
      while rest != {}
        invariant rest <= nbrs && queues.Keys == nbrs - rest
        invariant forall k | k in queues :: queues[k] == if i == root then [Bcast(w)] else []
        decreases rest
      {
        var pos :| pos in rest;
        queues := queues[pos := []];
        if i == root {
          queues := queues[pos := queues[pos] + [Bcast(w)]];
        }
        rest := rest - {pos};
      }
      assert forall k | k in nbrs :: EmptyQueues(nbrs)[k] + [Bcast(w)] == [Bcast(w)];
      assert i == root ==> queues == QueueFor(EmptyQueues(nbrs), nbrs, Bcast(w));
      assert i != root ==> queues == EmptyQueues(nbrs);
      sendQueues := queues;
    }

    method SendPrecondition(j: nat, bindingCount: nat) returns (b: bool)
      requires Valid() && j in nbrs
      ensures b <==> CanSend(State(), j) && bindingCount != 0
      ensures b <==> sendQueues[j] != [] && bindingCount != 0
    {
      b := bindingCount != 0 && sendQueues[j] != [];
    }

    method SendEffect(j: nat) returns (m: Message)
      requires Valid() && CanSend(State(), j)
      modifies this
      ensures Valid() && State() == Send(old(State()), j)
      ensures old(sendQueues)[j] == [m] + sendQueues[j]
      ensures forall k | k in nbrs && k != j :: sendQueues[k] == old(sendQueues)[k]
      ensures val == old(val) && parent == old(parent) && reported == old(reported) && acked == old(acked)
    {
      m := sendQueues[j][0];
      sendQueues := sendQueues[j := sendQueues[j][1..]];
    }

    method ReceiveEffect(m: Message, j: nat)
      requires Valid() && j in nbrs
      modifies this
      ensures Valid() && State() == Receive(old(State()), m, j)
      ensures m.Bcast? && old(val) == NONE ==>
                val == m.value && parent == j && sendQueues[j] == old(sendQueues)[j]
                && forall k | k in nbrs && k != j :: sendQueues[k] == old(sendQueues)[k] + [m]
      ensures m.Bcast? && old(val) != NONE ==>
                val == old(val) && parent == old(parent) && sendQueues[j] == old(sendQueues)[j] + [Ack]
                && forall k | k in nbrs && k != j :: sendQueues[k] == old(sendQueues)[k]
      ensures m.Ack? ==> val == old(val) && parent == old(parent) && sendQueues == old(sendQueues)
      ensures reported == old(reported) && acked == old(acked) + if m.Ack? then {j} else {}
    {
      match m {
        case Bcast(v) =>
          if val == NONE {
            val := v;
            parent := j;
            var rest := nbrs;
            while rest != {}
              invariant rest <= nbrs && sendQueues.Keys == nbrs
              invariant forall k | k in nbrs :: sendQueues[k] ==
                          if k !in rest && k != j then old(sendQueues)[k] + [Bcast(v)] else old(sendQueues)[k]
              invariant val == v && parent == j && reported == old(reported) && acked == old(acked)
              decreases rest
            {
              var pos :| pos in rest;
              if pos != j {
                sendQueues := sendQueues[pos := sendQueues[pos] + [Bcast(val)]];
              }
              rest := rest - {pos};
            }
            assert sendQueues == QueueFor(old(sendQueues), nbrs - {j}, Bcast(v));
          } else {
            sendQueues := sendQueues[j := sendQueues[j] + [Ack]];
            assert sendQueues == QueueFor(old(sendQueues), {j}, Ack);
          }
        case Ack =>
          acked := acked + {j};
      }
    }

    method ReportPrecondition() returns (b: bool)
      requires Valid()
      ensures b <==> CanReport(State())
      ensures b <==> !reported && (if i == root then |nbrs| == |acked|
                                   else parent != NONE && |nbrs| == |acked| + 1 && parent !in acked)
    {
      if i != root {
        b := parent != NONE && |nbrs| - |acked| == 1 && parent !in acked && !reported;
      } else {
        b := |nbrs| == |acked| && !reported;
      }
    }

    method ReportEffect()
      requires Valid() && CanReport(State())
      modifies this
      ensures Valid() && State() == Report(old(State()))
      ensures reported && val == old(val) && parent == old(parent) && acked == old(acked)
      ensures forall k | k in nbrs :: sendQueues[k] == old(sendQueues)[k] + if i != root && k == parent then [Ack] else []
    {
      if i != root {
        sendQueues := sendQueues[parent := sendQueues[parent] + [Ack]];
        assert sendQueues == QueueFor(old(sendQueues), {parent}, Ack);
        reported := true;
      } else {
        reported := true;
      }
    }
  }
}
