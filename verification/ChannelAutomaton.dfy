/** The FIFO channel between two automata (examples/channel_automaton.hpp). */
module ChannelAutomaton {

  class ChannelAutomaton<T(==)> {
    var queue: seq<T>

    constructor ()
      ensures queue == []
    {
      queue := [];
    }

    method SendEffect(t: T)
      modifies this
      ensures queue == old(queue) + [t]
    {
      queue := queue + [t];
    }

    method ReceivePrecondition(bindingCount: nat) returns (b: bool)
      ensures b <==> queue != [] && bindingCount != 0
    {
      b := queue != [] && bindingCount != 0;
    }

    method ReceiveEffect() returns (t: T)
      requires queue != []
      modifies this
      ensures old(queue) == [t] + queue
    {
      t := queue[0];
      queue := queue[1..];
    }
  }
}
