/**
 One node of Peterson's leader election (examples/peterson_leader_automaton.hpp): the effects of
 its actions as functions on the automaton's state, and the automaton itself, whose methods
 update the fields in place and are proved against those functions.
 */
module PetersonAutomaton {
  import opened PetersonPhases

  datatype Mode = Active | Relaying
  datatype Status = Unknown | Chosen | Reported

  datatype Node = Node(mode: Mode, status: Status, uid0: Uid, uid1: Uid, uid2: Uid,
                       send: seq<Uid>, receive: seq<Uid>)

  function Max(a: Uid, b: Uid): Uid {
    if a < b then b else a
  }

  function Initial(u: Uid): Node {
    Node(Active, Unknown, u, NULL_UID, NULL_UID, [u], [])
  }

  predicate CanSend(p: Node) {
    p.send != []
  }

  predicate CanLead(p: Node) {
    p.status == Chosen
  }

  predicate CanGetSecond(p: Node) {
    p.mode == Active && p.receive != [] && p.uid1 == NULL_UID
  }

  predicate CanGetThird(p: Node) {
    p.mode == Active && p.receive != [] && p.uid1 != NULL_UID && p.uid2 == NULL_UID
  }

  predicate CanAdvance(p: Node) {
    p.mode == Active && p.uid2 != NULL_UID && p.uid1 > Max(p.uid0, p.uid2)
  }

  predicate CanBecomeRelay(p: Node) {
    p.mode == Active && p.uid2 != NULL_UID && p.uid1 <= Max(p.uid0, p.uid2)
  }

  predicate CanRelay(p: Node) {
    p.mode == Relaying && p.receive != []
  }

  function Send(p: Node): Node
    requires CanSend(p)
  {
    p.(send := p.send[1..])
  }

  function Receive(p: Node, v: Uid): Node {
    p.(receive := p.receive + [v])
  }

  function Lead(p: Node): Node {
    p.(status := Reported)
  }

  function GetSecond(p: Node): Node
    requires CanGetSecond(p)
  {
    var v := p.receive[0];
    p.(uid1 := v, receive := p.receive[1..], send := p.send + [v],
       status := if v == p.uid0 then Chosen else p.status)
  }

  function GetThird(p: Node): Node
    requires CanGetThird(p)
  {
    p.(uid2 := p.receive[0], receive := p.receive[1..])
  }

  function Advance(p: Node): Node {
    p.(uid0 := p.uid1, uid1 := NULL_UID, uid2 := NULL_UID, send := p.send + [p.uid1])
  }

  function BecomeRelay(p: Node): Node {
    p.(mode := Relaying)
  }

  function Relay(p: Node): Node
    requires CanRelay(p)
  {
    p.(send := p.send + [p.receive[0]], receive := p.receive[1..])
  }

  class PetersonLeaderAutomaton {
    var mode: Mode
    var status: Status
    const u: Uid
    const uid: array<Uid>
    var sendQueue: seq<Uid>
    var receiveQueue: seq<Uid>

    ghost predicate Valid()
      reads this
    {
      uid.Length == 3
    }

    ghost function State(): Node
      requires Valid()
      reads this, uid
    {
      Node(mode, status, uid[0], uid[1], uid[2], sendQueue, receiveQueue)
    }

    constructor (u: Uid)
      ensures Valid() && fresh(uid)
      ensures State() == Initial(u)
      ensures mode == Active && status == Unknown && uid[..] == [u, NULL_UID, NULL_UID]
      ensures sendQueue == [u] && receiveQueue == []
    {
      mode, status, this.u := Active, Unknown, u;
      uid := new Uid[3] [u, NULL_UID, NULL_UID];
      sendQueue := [u];
      receiveQueue := [];
    }

    method SendPrecondition(bindingCount: nat) returns (b: bool)
      requires Valid()
      ensures b <==> CanSend(State()) && bindingCount != 0
      ensures b <==> sendQueue != [] && bindingCount != 0
    {
      b := sendQueue != [] && bindingCount != 0;
    }

    method SendEffect() returns (v: Uid)
      requires Valid() && CanSend(State())
      modifies this
      ensures Valid() && State() == Send(old(State()))
      ensures old(sendQueue) == [v] + sendQueue
      ensures mode == old(mode) && status == old(status) && receiveQueue == old(receiveQueue)
    {
      v := sendQueue[0];
      sendQueue := sendQueue[1..];
    }

    method ReceiveEffect(v: Uid)
      requires Valid()
      modifies this
      ensures Valid() && State() == Receive(old(State()), v)
      ensures receiveQueue == old(receiveQueue) + [v]
      ensures mode == old(mode) && status == old(status) && sendQueue == old(sendQueue)
    {
      receiveQueue := receiveQueue + [v];
    }

    method LeaderPrecondition(bindingCount: nat) returns (b: bool)
      requires Valid()
      ensures b <==> CanLead(State()) && bindingCount != 0
      ensures b <==> status == Chosen && bindingCount != 0
    {
      b := status == Chosen && bindingCount != 0;
    }

    method LeaderEffect() returns (v: bool)
      requires Valid()
      modifies this
      ensures Valid() && State() == Lead(old(State())) && v
      ensures status == Reported && mode == old(mode)
      ensures sendQueue == old(sendQueue) && receiveQueue == old(receiveQueue)
    {
      status := Reported;
      v := true;
    }

    method GetSecondUidPrecondition() returns (b: bool)
      requires Valid()
      ensures b <==> CanGetSecond(State())
      ensures b <==> mode == Active && receiveQueue != [] && uid[1] == NULL_UID
    {
      b := mode == Active && receiveQueue != [] && uid[1] == NULL_UID;
    }

    method GetSecondUidEffect()
      requires Valid() && CanGetSecond(State())
      modifies this, uid
      ensures Valid() && State() == GetSecond(old(State()))
      ensures old(receiveQueue) == [uid[1]] + receiveQueue && sendQueue == old(sendQueue) + [uid[1]]
      ensures status == (if uid[1] == old(uid[0]) then Chosen else old(status)) && mode == old(mode)
      ensures uid[0] == old(uid[0]) && uid[2] == old(uid[2])
    {
      uid[1] := receiveQueue[0];
      receiveQueue := receiveQueue[1..];
      sendQueue := sendQueue + [uid[1]];
      if uid[1] == uid[0] {
        status := Chosen;
      }
    }

    method GetThirdUidPrecondition() returns (b: bool)
      requires Valid()
      ensures b <==> CanGetThird(State())
      ensures b <==> mode == Active && receiveQueue != [] && uid[1] != NULL_UID && uid[2] == NULL_UID
    {
      b := mode == Active && receiveQueue != [] && uid[1] != NULL_UID && uid[2] == NULL_UID;
    }

    method GetThirdUidEffect()
      requires Valid() && CanGetThird(State())
      modifies this, uid
      ensures Valid() && State() == GetThird(old(State()))
      ensures old(receiveQueue) == [uid[2]] + receiveQueue && sendQueue == old(sendQueue)
      ensures status == old(status) && mode == old(mode) && uid[0] == old(uid[0]) && uid[1] == old(uid[1])
    {
      uid[2] := receiveQueue[0];
      receiveQueue := receiveQueue[1..];
    }

    method AdvancePhasePrecondition() returns (b: bool)
      requires Valid()
      ensures b <==> CanAdvance(State())
      ensures b <==> mode == Active && uid[2] != NULL_UID && uid[0] < uid[1] && uid[2] < uid[1]
    {
      b := mode == Active && uid[2] != NULL_UID && uid[1] > Max(uid[0], uid[2]);
    }

    method AdvancePhaseEffect()
      requires Valid() && CanAdvance(State())
      modifies this, uid
      ensures Valid() && State() == Advance(old(State()))
      ensures uid[..] == [old(uid[1]), NULL_UID, NULL_UID] && sendQueue == old(sendQueue) + [old(uid[1])]
      ensures status == old(status) && mode == old(mode) && receiveQueue == old(receiveQueue)
    {
      uid[0] := uid[1];
      uid[1] := NULL_UID;
      uid[2] := NULL_UID;
      sendQueue := sendQueue + [uid[0]];
    }

    method BecomeRelayPrecondition() returns (b: bool)
      requires Valid()
      ensures b <==> CanBecomeRelay(State())
      ensures b <==> mode == Active && uid[2] != NULL_UID && (uid[1] <= uid[0] || uid[1] <= uid[2])
    {
      b := mode == Active && uid[2] != NULL_UID && uid[1] <= Max(uid[0], uid[2]);
    }

    method BecomeRelayEffect()
      requires Valid() && CanBecomeRelay(State())
      modifies this
      ensures Valid() && State() == BecomeRelay(old(State()))
      ensures mode == Relaying && status == old(status)
      ensures sendQueue == old(sendQueue) && receiveQueue == old(receiveQueue)
    {
      mode := Relaying;
    }

    method RelayPrecondition() returns (b: bool)
      requires Valid()
      ensures b <==> CanRelay(State())
      ensures b <==> mode == Relaying && receiveQueue != []
    {
      b := mode == Relaying && receiveQueue != [];
    }

    method RelayEffect()
      requires Valid() && CanRelay(State())
      modifies this
      ensures Valid() && State() == Relay(old(State()))
      ensures receiveQueue == old(receiveQueue)[1..] && sendQueue == old(sendQueue) + [old(receiveQueue)[0]]
      ensures mode == old(mode) && status == old(status)
    {
      sendQueue := sendQueue + [receiveQueue[0]];
      receiveQueue := receiveQueue[1..];
    }
  }
}
