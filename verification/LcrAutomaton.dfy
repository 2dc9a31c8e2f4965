/** One process of the asynchronous LCR leader election (examples/asynch_lcr_automaton.hpp). */
module LcrAutomaton {

  type Uid = nat

  datatype Node = Node(u: Uid, send: seq<Uid>, report: bool, leader: bool)

  function Initial(u: Uid): Node {
    Node(u, [u], false, false)
  }

  function Send(p: Node): Node
    requires p.send != []
  {
    p.(send := p.send[1..])
  }

  function Receive(p: Node, v: Uid): Node {
    if v > p.u then
      var q := p.(send := p.send + [v]);
      if p.leader then q.(leader := false, report := true) else q
    else if v == p.u && !p.leader then p.(leader := true, report := true)
    else p
  }

  function Report(p: Node): Node {
    p.(report := false)
  }

  function Reset(p: Node): Node {
    p.(report := false, leader := false, send := p.send + [p.u])
  }

  class AsynchLcrAutomaton {
    const u: Uid
    var sendQueue: seq<Uid>
    var report: bool
    var leader: bool

    ghost function State(): Node
      reads this
    {
      Node(u, sendQueue, report, leader)
    }

    constructor (u: Uid)
      ensures State() == Initial(u)
      ensures this.u == u && sendQueue == [u] && !report && !leader
    {
      this.u := u;
      sendQueue, report, leader := [u], false, false;
    }

    method SendPrecondition(bindingCount: nat) returns (b: bool)
      ensures b <==> sendQueue != [] && bindingCount != 0
    {
      b := sendQueue != [] && bindingCount != 0;
    }

    method SendEffect() returns (v: Uid)
      requires State().send != []
      modifies this
      ensures State() == Send(old(State()))
      ensures old(sendQueue) == [v] + sendQueue && report == old(report) && leader == old(leader)
    {
      v := sendQueue[0];
      sendQueue := sendQueue[1..];
    }

    method ReceiveEffect(v: Uid)
      modifies this
      ensures State() == Receive(old(State()), v)
      ensures sendQueue == old(sendQueue) + if v > u then [v] else []
      ensures leader == if v == u then true else if v > u then false else old(leader)
      ensures report == (old(report) || leader != old(leader))
    {
      if v > u {
        sendQueue := sendQueue + [v];
        if leader {
          leader := false;
          report := true;
        }
      } else if v == u {
        if !leader {
          leader := true;
          report := true;
        }
      }
    }

    method LeaderEffect() returns (value: bool)
      requires State().report
      modifies this
      ensures State() == Report(old(State()))
      ensures !report && value == leader == old(leader) && sendQueue == old(sendQueue)
    {
      report := false;
      value := leader;
    }

    method InitEffect()
      modifies this
      ensures State() == Reset(old(State()))
      ensures !report && !leader && sendQueue == old(sendQueue) + [u]
    {
      report := false;
      leader := false;
      sendQueue := sendQueue + [u];
    }
  }
}
