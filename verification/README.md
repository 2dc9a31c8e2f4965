# Verified model of the I/O automata runtime

The repository implements the I/O automata model in C++: a runtime that creates, binds and schedules automata, and
distributed algorithms written as automata.  This project models the hard parts of it in Dafny and proves what they
are for.  Code that updates fields step by step is a class whose methods are proved against specification functions;
protocols are state machines over those functions, and the results are about every run of them, in every
interleaving.  The methods' contracts also say field by field what the source's effect does, so that it pins
the specification function.  `dafny verify dfyconfig.toml` checks everything.

| part | modules |
|---|---|
| Peterson leader election on a ring | PetersonAutomaton, PetersonPhases, PetersonRing, PetersonTheorems |
| broadcast and acknowledge | BcastAckAutomaton, BcastAckNetwork, BcastAckTheorems |
| asynchronous Bellman-Ford | BellmanFordAutomaton, BellmanFordNetwork, BellmanFordTheorems |
| LCR leader election | LcrAutomaton, LcrRing, LcrBounds |
| model: identifiers, forest, bindings | SequentialSet, Bindings, OutputCore, Forest, Model |
| executing outputs, locks | OutputExecution, OrderedLocking |
| automaton, configuration queue and model together | Automaton, ProtocolLocal, ProtocolSystem, ProtocolInvariant, ProtocolSteps, ProtocolTheorems, ProtocolOutcomes, ProtocolRace, ModelProtocol |
| single-threaded scheduler | Timers, FifoScheduler, FifoSchedulerTheorems, FifoSchedulerEvents |
| multi-threaded scheduler, shutdown | SchedulerShutdown, SchedulerShutdownTheorems |
| messages over a byte stream | TcpFraming |
| shared | ChannelAutomaton, Common, Networks, AscendingSets |

How the proofs go.  Peterson: what a node ever pushes does not depend on the interleaving, so each link is a stream
read off a synchronous reference, and counters say which part of it is in transit.  Broadcast and Bellman-Ford:
invariants per directed link, together with the times at which nodes joined or changed their parent.  Model:
destruction is removal of a set closed under children, and removals compose.  The helper protocol: every step of the
whole system is projected to one helper of one automaton, where the states form a small table.

## Findings

Four things the source says or assumes are not so.  The code is modelled as it is, and lemmas say exactly when it
does what is expected of it.

1. **BIND_KEY_DNE is delivered** although `lib/automaton.cpp:365-368` asserts that it is prevented.  An automaton
   creates a child and binds an input of it, destroys the child, and calls unbind for the binding before the
   notices of the destruction reach it: `sys_unbind` still finds the binding among those done and sends the request,
   which the model no longer knows.  `ProtocolRace.BindKeyDneReachable` is that run, in fifteen steps.
   `ProtocolTheorems.BindKeyDneExactly`: a withdrawal is answered so iff the binding was lost with one of its
   automata before the withdrawal was sent, or while it was queued.  The other three errors that the automaton says
   it prevents are indeed never delivered (`ProtocolTheorems.PreventedErrors`).
2. **`close (fd)` can hang the multi-threaded scheduler** (`lib/simple_scheduler.cpp:414-437`).  The I/O thread drops
   the runnables registered for a closed descriptor after it has looked at the count and before it selects.  In
   `SchedulerShutdownTheorems.HangReachable` a read action is registered, a worker closes its descriptor and
   goes back to wait; the I/O thread wakes up, empties the pipe, finds one runnable left, and then drops it:
   nobody looks at the count again, no sentinel is pushed, and every thread waits for ever (`DoomedGetsStuck`,
   `DoomedStaysDoomed`).  `HangsExactly`: this happens iff the close drops the last runnables while all other
   threads wait on their queues and the pipe is empty.
3. **An output is not always executed under the lock of its automaton** (`include/ioa/action_executor.hpp:576-586`):
   `lock_in_order` takes it only on meeting an input automaton with a larger identifier.  The comment at
   `lib/simple_scheduler.cpp:240-246` relies on an automaton never being used concurrently.
   `OrderedLocking.OutputDuringInput`: an output can be executed while another output hands its automaton an input,
   iff none of its bound inputs has a larger identifier and the two executions share no other automaton.
4. **"A helper is in one place or another"** (`include/ioa/automaton.hpp:78-79`) holds of send, recv and done only: a
   helper that is being withdrawn is in recv or done as well, as in the run of the first finding.
   `ProtocolTheorems.HelperSetsDisjoint` states what holds.

## Model

| member | source | states |
|---|---|---|
| `PetersonAutomaton.PetersonLeaderAutomaton.constructor` | examples/peterson_leader_automaton.hpp:53-63 | a new process is active, undecided, knows its own identifier in uid[0] and has it queued for sending |
| `PetersonAutomaton.PetersonLeaderAutomaton.SendPrecondition` | examples/peterson_leader_automaton.hpp:91-93 | sending is enabled exactly when something is queued and the output is bound |
| `PetersonAutomaton.PetersonLeaderAutomaton.SendEffect` | examples/peterson_leader_automaton.hpp:95-99 | takes and returns the oldest queued identifier; the rest of the state is unchanged |
| `PetersonAutomaton.PetersonLeaderAutomaton.ReceiveEffect` | examples/peterson_leader_automaton.hpp:109-111 | appends the identifier to the receive queue, nothing else |
| `PetersonAutomaton.PetersonLeaderAutomaton.LeaderPrecondition` | examples/peterson_leader_automaton.hpp:121-123 | the leader output is enabled exactly when the status is CHOSEN and the output is bound |
| `PetersonAutomaton.PetersonLeaderAutomaton.LeaderEffect` | examples/peterson_leader_automaton.hpp:125-128 | the status becomes REPORTED and the output value is true |
| `PetersonAutomaton.PetersonLeaderAutomaton.GetSecondUidPrecondition` | examples/peterson_leader_automaton.hpp:138-140 | active, something received, and uid[1] empty |
| `PetersonAutomaton.PetersonLeaderAutomaton.GetThirdUidPrecondition` | examples/peterson_leader_automaton.hpp:157-159 | active, something received, uid[1] present and uid[2] empty |
| `PetersonAutomaton.PetersonLeaderAutomaton.AdvancePhasePrecondition` | examples/peterson_leader_automaton.hpp:172-174 | active with three identifiers of which the second is larger than both others |
| `PetersonAutomaton.PetersonLeaderAutomaton.BecomeRelayPrecondition` | examples/peterson_leader_automaton.hpp:189-191 | active with three identifiers of which the second is not larger than both others |
| `PetersonAutomaton.PetersonLeaderAutomaton.RelayPrecondition` | examples/peterson_leader_automaton.hpp:203-205 | a relay that has received something |
| `PetersonAutomaton.PetersonLeaderAutomaton.GetSecondUidEffect` | examples/peterson_leader_automaton.hpp:142-149 | the new state is that of the specification function from which the run theorems below are proved: uid[1] is taken from the receive queue and passed on, and equality with uid[0] makes the process CHOSEN |
| `PetersonAutomaton.PetersonLeaderAutomaton.GetThirdUidEffect` | examples/peterson_leader_automaton.hpp:161-164 | uid[2] is taken from the receive queue |
| `PetersonAutomaton.PetersonLeaderAutomaton.AdvancePhaseEffect` | examples/peterson_leader_automaton.hpp:176-181 | the process adopts uid[1], forgets the other two and sends what it adopted |
| `PetersonAutomaton.PetersonLeaderAutomaton.BecomeRelayEffect` | examples/peterson_leader_automaton.hpp:193-195 | only the mode changes |
| `PetersonAutomaton.PetersonLeaderAutomaton.RelayEffect` | examples/peterson_leader_automaton.hpp:207-210 | what is received is passed on |
| `PetersonPhases.NextRoundDistinct` | examples/peterson_leader_automaton.hpp:172-181 | distinct contenders of one phase make distinct contenders of the next |
| `PetersonPhases.NextRoundHalves` | examples/peterson_leader_automaton.hpp:172-195 | of k contenders at most k/2 advance |
| `PetersonPhases.MaximumSurvives` | examples/peterson_leader_automaton.hpp:172-195 | with two or more contenders the largest identifier reaches the next phase at a unique place; a phase has no successor exactly when its contender is alone |
| `PetersonPhases.RelayTransparent` | examples/peterson_leader_automaton.hpp:203-210 | past a relay the nearest and second nearest contender are those seen by the relay |
| `PetersonPhases.RoundBound` | examples/peterson_leader_automaton.hpp:172-195 | only phases 0 to floor(log2 N) have a contender, hence at most floor(log2 N)+1 phases |
| `PetersonPhases.LastRound` | examples/peterson_leader_automaton.hpp:142-149 | some phase has exactly one contender, it holds the largest of all identifiers, and no phase follows |
| `PetersonPhases.ElectedIsSole` | examples/peterson_leader_automaton.hpp:146-148 | uid[1] equals uid[0] exactly for a contender that is alone |
| `ChannelAutomaton.ChannelAutomaton.SendEffect` | examples/channel_automaton.hpp:35-37 | appends to the queue |
| `ChannelAutomaton.ChannelAutomaton.ReceivePrecondition` | examples/channel_automaton.hpp:47-49 | something is queued and the output is bound |
| `ChannelAutomaton.ChannelAutomaton.ReceiveEffect` | examples/channel_automaton.hpp:51-55 | takes the oldest off the queue and returns it |
| `PetersonRing.PipeChange` | examples/channel_automaton.hpp:35-55 | for any step: what is between two neighbours (send queue, channel, receive queue) loses its head exactly if the reader pops, and gains what the writer pushes; sends and deliveries leave it alone |
| `PetersonRing.DeliversToNext` | examples/unidirectional_ring_leader_election.hpp:45-48 | a delivery takes the oldest identifier off channel i to process (i+1) mod N and changes nothing else |
| `PetersonRing.NodeStep` | examples/peterson_leader_automaton.hpp:138-210 | a step keeps a process in line with its synchronous phase, and pushes exactly the next identifier of its stream |
| `PetersonRing.StepInv` | examples/peterson_leader_automaton.hpp:91-210 | the invariant over processes, queues, channels and counters is kept by every enabled step |
| `PetersonRing.RunInv` | examples/unidirectional_ring_leader_election.hpp:45-49 | the invariant holds after every run of the ring, for any interleaving |
| `PetersonTheorems.LeaderIsAlone` | examples/peterson_leader_automaton.hpp:138-195 | in every reachable state, if a process is CHOSEN or REPORTED then all others are relays and undecided, and it holds the largest identifier |
| `PetersonTheorems.LeaderAtMostOnce` | examples/peterson_leader_automaton.hpp:121-128 | over a whole run the leader output is produced at most once, and exactly once when some process is REPORTED |
| `PetersonTheorems.PhasesFollowRounds` | examples/peterson_leader_automaton.hpp:138-195 | the asynchronous ring computes the synchronous phases: uid[0], uid[1] and uid[2] of a process in phase k are the ones the phase-k reference gives it and its two nearest contenders, and a relay has no successor there |
| `PetersonTheorems.SendBound` | examples/peterson_leader_automaton.hpp:91-99 | a run sends at most 2N(floor(log2 N)+1) identifiers |
| `PetersonTheorems.RunLengthBound` | examples/peterson_leader_automaton.hpp:66-88 | every run is finite, with an explicit bound of N(7(floor(log2 N)+1)+1) steps |
| `PetersonTheorems.QuiescentIff` | examples/peterson_leader_automaton.hpp:66-88 | the executable test for a quiescent ring says exactly that no step is enabled |
| `PetersonTheorems.MaximalRunElects` | examples/peterson_leader_automaton.hpp:121-216 | a run that cannot be extended has elected exactly one leader, with the largest identifier, announced once; all processes are relays and every queue is empty |
| `BcastAckAutomaton.AsynchBcastAckAutomaton.constructor` | examples/asynch_bcast_ack_automaton.hpp:57-80 | one queue per neighbour; only the root holds a value, and has it queued for every neighbour |
| `BcastAckAutomaton.AsynchBcastAckAutomaton.SendPrecondition` | examples/asynch_bcast_ack_automaton.hpp:100-104 | sending to a neighbour is enabled exactly when its queue is non-empty and the output is bound |
| `BcastAckAutomaton.AsynchBcastAckAutomaton.SendEffect` | examples/asynch_bcast_ack_automaton.hpp:106-110 | takes and returns the oldest message for that neighbour |
| `BcastAckAutomaton.AsynchBcastAckAutomaton.ReceiveEffect` | examples/asynch_bcast_ack_automaton.hpp:120-143 | the loop over the neighbours leaves the state the specification function gives: a first broadcast is adopted and passed on to all but its sender, a later one acknowledged, an acknowledgement recorded |
| `BcastAckAutomaton.AsynchBcastAckAutomaton.ReportPrecondition` | examples/asynch_bcast_ack_automaton.hpp:153-165 | computes the comparison of sizes of the source, for the root and for the others |
| `BcastAckAutomaton.AsynchBcastAckAutomaton.ReportEffect` | examples/asynch_bcast_ack_automaton.hpp:167-176 | the node has reported; unless it is the root it acknowledges to its parent |
| `BcastAckNetwork.ReportMeansAllAcked` | examples/asynch_bcast_ack_automaton.hpp:153-165 | given the node invariant (acked within the neighbours), the size test is equivalent to: everybody but the parent acknowledged |
| `BcastAckTheorems.ReportExactly` | examples/asynch_bcast_ack_automaton.hpp:153-165 | the same equivalence in every state that any run reaches |
| `BcastAckNetwork.StepInv` | examples/asynch_bcast_ack_automaton.hpp:100-176 | the global invariant over nodes, queues and channels is kept by every step |
| `BcastAckNetwork.RunInv` | examples/asynch_bcast_ack_automaton.hpp:100-176 | ... and holds after every run on any symmetric graph |
| `BcastAckTheorems.RunLengthBound` | examples/asynch_bcast_ack_automaton.hpp:89-98 | every run is finite: at most four steps per directed link and one report per node |
| `BcastAckTheorems.RootReportMeansDone` | examples/asynch_bcast_ack_automaton.hpp:161-176 | when the root has reported, a node is connected to it iff it holds the root's value iff it has itself reported; all others hold nothing |
| `BcastAckTheorems.ParentsFormATree` | examples/asynch_bcast_ack_automaton.hpp:124-133 | at any time every joined node but the root has a parent across an edge that joined strictly earlier, so the pointers are an acyclic tree rooted at i0 |
| `BcastAckTheorems.MaximalRunReports` | examples/asynch_bcast_ack_automaton.hpp:153-176 | in a reachable state with nothing enabled the root has reported and all queues and channels are empty |
| `BcastAckTheorems.TrafficCounted` | examples/asynch_bcast_ack_automaton.hpp:106-143 | the broadcasts and acknowledgements sent on a link over a run equal what the state shows |
| `BcastAckTheorems.OneBcastOneAck` | examples/asynch_bcast_ack_automaton.hpp:120-176 | each directed link carries at most one broadcast, and at most one acknowledgement per broadcast goes back; in a run that cannot be extended each broadcast was answered exactly once |
| `BcastAckTheorems.ChannelIsFifo` | examples/channel_automaton.hpp:35-55 | over every run, what was sent on a directed link is what was delivered followed by what is in its channel |
| `BellmanFordAutomaton.AddSize` | examples/asynch_bellman_ford_automaton.hpp:62 | addition of size_t: the result is in range, and is the true sum whenever that is |
| `BellmanFordAutomaton.AsynchBellmanFordAutomaton.constructor` | examples/asynch_bellman_ford_automaton.hpp:89-110 | the root has distance 0 and has it queued for every neighbour; the others have no distance |
| `BellmanFordAutomaton.AsynchBellmanFordAutomaton.SendPrecondition` | examples/asynch_bellman_ford_automaton.hpp:44-48 | sending to a neighbour is enabled exactly when its queue is non-empty and the output is bound |
| `BellmanFordAutomaton.AsynchBellmanFordAutomaton.SendEffect` | examples/asynch_bellman_ford_automaton.hpp:50-54 | takes and returns the oldest distance for that neighbour |
| `BellmanFordAutomaton.AsynchBellmanFordAutomaton.ReceiveEffect` | examples/asynch_bellman_ford_automaton.hpp:60-74 | the loop leaves the state the specification function gives: only a strictly shorter distance is taken over, with its sender as parent, and queued for everybody but the sender |
| `BellmanFordNetwork.NoWrap` | examples/asynch_bellman_ford_automaton.hpp:61-64 | given the invariant, what is delivered on a link is a distance whose sum with the weight is the weight of a walk from the root and does not wrap |
| `BellmanFordNetwork.StepInv` | examples/asynch_bellman_ford_automaton.hpp:44-74 | the global invariant over distances, parents and messages in transit is kept by every step |
| `BellmanFordNetwork.RunInv` | examples/weighted_bidirectional_network.hpp:52-66 | ... and holds after every run on any graph with symmetric weights |
| `BellmanFordTheorems.StepMeasure` | examples/asynch_bellman_ford_automaton.hpp:60-74 | every step makes the termination measure smaller |
| `BellmanFordTheorems.RunLengthBound` | examples/asynch_bellman_ford_automaton.hpp:60-74 | every run is finite, with an explicit bound in the number of nodes and the largest weight |
| `BellmanFordTheorems.AdditionNeverWraps` | examples/asynch_bellman_ford_automaton.hpp:62-64 | in every reachable state the sum computed at a delivery is the true sum and differs from the value that means no distance |
| `BellmanFordTheorems.DistanceIsASimplePath` | examples/asynch_bellman_ford_automaton.hpp:60-70 | a finite distance is the weight of a simple path from the root, hence at most N-1 times the largest weight |
| `BellmanFordTheorems.ParentsLeadToRoot` | examples/asynch_bellman_ford_automaton.hpp:64-65 | in every reachable state, zero weights included, the parent pointers of a node with a distance lead to the root without a cycle |
| `BellmanFordTheorems.QuiescentDistances` | examples/asynch_bellman_ford_automaton.hpp:60-74 | when nothing is enabled every node holds the true shortest distance, and no distance exactly when it has no path, although updates are not sent back to where they came from |
| `BellmanFordTheorems.QuiescentParents` | examples/asynch_bellman_ford_automaton.hpp:64-70 | ... and its parent is the last step of a shortest path |
| `BellmanFordTheorems.ChannelIsFifo` | examples/channel_automaton.hpp:35-55 | over every run, what was sent on a directed link is what was delivered followed by what is in its channel |
| `LcrAutomaton.AsynchLcrAutomaton.constructor` | examples/asynch_lcr_automaton.hpp:39-46 | neither leader nor reporting; the own identifier is queued |
| `LcrAutomaton.AsynchLcrAutomaton.SendPrecondition` | examples/asynch_lcr_automaton.hpp:59-62 | sending is enabled exactly when something is queued and the output is bound |
| `LcrAutomaton.AsynchLcrAutomaton.SendEffect` | examples/asynch_lcr_automaton.hpp:64-68 | takes and returns the oldest queued identifier |
| `LcrAutomaton.AsynchLcrAutomaton.ReceiveEffect` | examples/asynch_lcr_automaton.hpp:78-95 | larger identifiers travel on and depose a leader; the own one makes it leader; smaller ones are dropped |
| `LcrAutomaton.AsynchLcrAutomaton.LeaderEffect` | examples/asynch_lcr_automaton.hpp:109-112 | reports whether the process is leader, once |
| `LcrAutomaton.AsynchLcrAutomaton.InitEffect` | examples/asynch_lcr_automaton.hpp:122-126 | whatever the state: not leader, nothing to report, own identifier appended to the queue |
| `LcrRing.RunInv` | examples/asynch_lcr_automaton.hpp:59-126 | every identifier on its way has passed only processes with smaller ones, in every run with any number of init actions |
| `LcrRing.LeaderIsMax` | examples/asynch_lcr_automaton.hpp:86-91 | a leader always holds the largest identifier |
| `LcrRing.QuiescentLeader` | examples/asynch_lcr_automaton.hpp:59-126 | when nothing is enabled exactly the process with the largest identifier is leader and its last leader output in the run was true; no other process has made any leader output |
| `LcrRing.ToldRun` | examples/asynch_lcr_automaton.hpp:78-126 | in every run a leader with nothing to report has last reported true, and a process whose identifier is not the largest never reports anything |
| `LcrRing.InitRestarts` | examples/asynch_lcr_automaton.hpp:122-126 | an init at any process, leader or not, leaves it not leader with nothing to report and its own identifier queued last; nothing else changes |
| `LcrRing.EveryInitSends` | examples/asynch_lcr_automaton.hpp:39-46 | over every run, the copies of its own identifier that a process has sent and still has queued are one for its creation and one for each init, no more and no fewer |
| `LcrRing.ChannelIsFifo` | examples/channel_automaton.hpp:35-55 | over every run, what a process has sent is what was delivered to its neighbour followed by what is in the channel |
| `LcrRing.DeliversToNext` | examples/unidirectional_ring_leader_election.hpp:45-48 | a delivery takes the oldest identifier off channel i to process (i+1) mod N |
| `LcrBounds.RanksSum` | examples/asynch_lcr_automaton.hpp:78-80 | the ranks of distinct identifiers sum to N(N+1)/2 |
| `LcrBounds.SendBound` | examples/asynch_lcr_automaton.hpp:64-68 | at most N(N+1)/2 sends, and at most N more for each init action |
| `LcrBounds.RunLengthBound` | examples/asynch_lcr_automaton.hpp:49-57 | without init actions every run ends, after at most three steps per send of that bound |
| `SequentialSet.SequentialSet.Take` | lib/sequential_set.hpp:49-58 | returns the free identifier met first after the counter, wrapping past the largest to 0, and marks it used; it was not in use before |
| `SequentialSet.SequentialSet.Replace` | lib/sequential_set.hpp:60-62 | exactly this identifier becomes free; the counter stays |
| `SequentialSet.SequentialSet.Contains` | lib/sequential_set.hpp:64-66 | tells whether the identifier is in use |
| `SequentialSet.SequentialSet.Clear` | lib/sequential_set.hpp:68-70 | nothing is in use; the counter stays |
| `SequentialSet.SequentialSet.Empty` | lib/sequential_set.hpp:72-74 | tells whether nothing is in use |
| `SequentialSet.NotReusedQuickly` | lib/sequential_set.hpp:25-33 | the identifier taken last is handed out again only when all others are in use |
| `SequentialSet.TakenInTurn` | lib/sequential_set.hpp:33 | of two free identifiers the one nearer ahead of the counter is taken first |
| `OutputCore.OutputCore.InvolvesAidKeyScan` | include/ioa/action_executor.hpp:635-646 | the loop finds a record with this binder and key iff there is one |
| `OutputCore.OutputCore.Bind` | include/ioa/action_executor.hpp:656-663 | map::insert of a new record: it is entered unless the input's automaton has one, and its constructor tells the binder BOUND |
| `OutputCore.OutputCore.Unbind` | include/ioa/action_executor.hpp:665-680 | the loop drops exactly the first record with this binder and key; its destructor tells the binder, and nobody is told if there is none |
| `OutputCore.OutputCore.UnbindAutomaton` | include/ioa/action_executor.hpp:682-707 | drops exactly the records whose output, input or binder automaton goes; the binder of each is told once, in the order of the map |
| `OutputCore.OutputCore.LockInOrder` | include/ioa/action_executor.hpp:574-587 | the locks are taken in strictly ascending order, and their set is that of the inputs, with the output's own if some input's is larger |
| `OutputCore.OutputCore.UnlockInOrder` | include/ioa/action_executor.hpp:589-602 | the second walk, with its own flag, visits exactly the same set in ascending order |
| `AscendingSets.AscendingUnique` | include/ioa/action_executor.hpp:574-602 | two ascending walks over one set are the same sequence, so what is released is what was taken |
| `OutputCore.OwnLockTaken` | include/ioa/action_executor.hpp:576-586 | of any sequence of locks that lock_in_order may return: the output automaton's own lock is in it iff its last lock is larger |
| `Bindings.TuplesOfSize` | include/ioa/action_executor.hpp:652-654 | the size of an executor is the number of its tuples |
| `Bindings.KeepAllTuples` | lib/model.cpp:296-308 | pruning the list of maps removes from the flat set exactly the tuples whose output, input or binder is gone |
| `Bindings.KeepAllOk` | lib/model.cpp:296-308 | ... and leaves a list without empty executors or two executors of one output |
| `Bindings.BoundKeepsTuplesOk` | lib/model.cpp:177-206 | the checks of bind keep: each input one output, no output bound to its own automaton or twice to one automaton, one tuple per binder and key |
| `Bindings.GrantedExactly` | lib/model.cpp:149-206 | a request is granted iff binder, output and input automata are live, the tuple is new and the set stays in order with it: no allowed binding is refused |
| `Bindings.FirstThatApplies` | lib/model.cpp:149-206 | the answer is the first refusal, in the order of the checks, whose condition on the set of tuples holds |
| `Bindings.KeyInList` | lib/model.hpp:92-108 | find_if with a binder and a key succeeds iff the flat set has such a tuple |
| `Bindings.BindingInList` | lib/model.hpp:41-60 | find_if for a binding succeeds iff the flat set has it |
| `Bindings.InputInList` | lib/model.hpp:77-90 | find_if for an input succeeds iff some tuple has this input |
| `Bindings.OutputInList` | lib/model.hpp:62-75 | some executor of the output binds the automaton iff some tuple does |
| `Bindings.CountInput` | lib/model.cpp:545-552 | an input that is bound takes part in exactly one tuple |
| `Bindings.CountOutput` | lib/model.cpp:554-561 | an executor's size is the number of tuples of its output |
| `Bindings.CountNone` | lib/model.cpp:563 | an action found in no executor takes part in no tuple |
| `Forest.SubtreeDownClosed` | lib/model.cpp:288-294 | the automata below one automaton include the children of each of them |
| `Forest.SubtreeLeast` | lib/model.cpp:288-294 | ... and are the least such set |
| `Forest.RemoveOk` | lib/model.cpp:288-320 | removing any set closed under children keeps the whole invariant of forest and bindings |
| `Forest.RemoveTwice` | lib/model.cpp:288-294 | removing one set and then another is removing their union |
| `Forest.RemoveOnlyLoses` | lib/model.cpp:288-320 | removing a closed set leaves every surviving automaton as it was but for lost children and keys, and keeps exactly the bindings whose output, input and binder survive |
| `Forest.RemoveTellsLosses` | lib/model.cpp:310-314 | the notices are one to the binder of each lost binding and one to the parent of each lost automaton, and no others |
| `Forest.AnnouncedInParts` | lib/model.cpp:296-314 | what has to be announced for two disjoint parts is announced in parts, nothing twice |
| `Forest.ChildrenGone` | lib/model.cpp:290-294 | when the loop over the children ends, exactly the subtree but its root is gone |
| `Forest.RootExists` | lib/model.cpp:48-59 | a non-empty forest has an automaton without parent |
| `Forest.NoBindings` | lib/model.cpp:61-64 | without automata there are no bindings |
| `Model.Model.constructor` | lib/model.cpp:30-32 | an empty model satisfies the invariant |
| `Model.Model.CreateRoot` | lib/model.cpp:67-95 | a root with a fresh identifier, or nothing if the instance is registered already |
| `Model.Model.Create` | lib/model.cpp:97-142 | the four outcomes in the order of the checks, with the exact new records, identifier counter and notice; failures change nothing but the counter; a free identifier is asked for only where one is taken |
| `Model.Model.CheckBind` | lib/model.cpp:160-206 | the searches over the list compute the outcome on the flat set of tuples that GrantedExactly and FirstThatApplies characterise |
| `Model.Model.Bind` | lib/model.cpp:144-222 | the tuple set grows by exactly the requested tuple iff that keeps the set in order and all three automata are live; otherwise the binder learns the first reason that applies, and nothing changes; the invariant is kept |
| `Model.Model.Unbind` | lib/model.cpp:224-255 | removes exactly the tuple with this binder and key if there is one; otherwise BIND_KEY_DNE is sent and nothing changes |
| `Model.Model.UnbindAutomaton` | lib/model.cpp:296-308 | the loop erasing from the list while walking it drops exactly what involves the automaton, and tells every binder once |
| `Model.Model.RemoveLeaf` | lib/model.cpp:296-319 | an automaton without children goes with its bindings; parent and binders are told |
| `Model.Model.InnerDestroy` | lib/model.cpp:288-320 | recursive destruction terminates and removes exactly the subtree, exactly the bindings whose output, input or binder lies in it, and announces each loss exactly once |
| `Model.Model.Destroy` | lib/model.cpp:257-267 | the same for a live target, spelt out: survivors keep all but children and bind keys that are gone, a binding stays iff its three automata do, and each loss is told once; otherwise nothing |
| `Model.Model.DestroyChild` | lib/model.cpp:269-286 | the same for the child under the key; an unknown key is reported and changes nothing |
| `Model.Model.FindRoot` | lib/model.cpp:51-58 | finds an automaton without parent iff there is one |
| `Model.Model.Clear` | lib/model.cpp:48-65 | terminates, and leaves identifiers, instances, records and bindings all empty |
| `Model.Model.BindingCount` | lib/model.cpp:543-564 | the number of tuples the action takes part in, as input or as output |
| `Model.BindOk` | lib/model.cpp:208-219 | adding a tuple that passed the checks keeps the invariant: live automata, keys of every binder, no empty executor |
| `Model.UnbindOk` | lib/model.cpp:244-252 | erasing a record, and its executor when that becomes empty, keeps the invariant and removes exactly one tuple |
| `Model.ChildCreated` | lib/automaton_record.cpp:52-57 | entering a new child under a free key keeps the invariant |
| `OutputExecution.World.Execute` | include/ioa/action_executor.hpp:1167-1193 | the locks are taken ascending and released exactly; if the precondition fails no state changes, otherwise the output has the state after its effect, each bound input the state after receiving the value once, and all others are unchanged |
| `OutputExecution.PerformedExactly` | include/ioa/action_executor.hpp:1174-1189 | what happens under the locks: nothing if the precondition fails, otherwise the effect first and then exactly one delivery of its value to each bound input |
| `OutputExecution.DeliveryOrder` | include/ioa/action_executor.hpp:1181-1185 | delivering to a set of input automata in any order changes exactly their states |
| `OutputExecution.AnyOrder` | include/ioa/action_executor.hpp:1181-1185 | the resulting states of all automata do not depend on the order of delivery |
| `OrderedLocking.StepInv` | include/ioa/action_executor.hpp:574-602 | no two threads hold one lock, whatever the threads do next |
| `OrderedLocking.WaitingAscends` | include/ioa/action_executor.hpp:574-587 | a thread waits for a lock below the one its holder waits for |
| `OrderedLocking.NoCyclicWait` | include/ioa/action_executor.hpp:574-602 | in no reachable state of any number of threads is there a cycle of waiting, of any length |
| `OrderedLocking.SomeoneMoves` | include/ioa/action_executor.hpp:574-602 | while an execution is under way some thread can move |
| `OrderedLocking.MoveCounts` | include/ioa/action_executor.hpp:574-602 | every move of an execution under way brings the end one nearer |
| `OrderedLocking.Finish` | include/ioa/action_executor.hpp:574-602 | all executions under way can finish, in exactly the number of moves left |
| `OrderedLocking.OverlapIff` | include/ioa/action_executor.hpp:574-602 | two executions can be under way at the same time iff their lock sets are disjoint |
| `OrderedLocking.OutputDuringInput` | include/ioa/action_executor.hpp:576-586 | an output of an automaton can be executed while another output hands it an input, iff none of its bound inputs has a larger identifier and the executions share no other automaton |
| `Automaton.Automaton.Create` | lib/automaton.cpp:78-89 | with the asserted precondition the helper is waiting to be sent, and exactly the enabled outputs are scheduled |
| `Automaton.Automaton.Bind` | lib/automaton.cpp:91-102 | the same for a binding |
| `Automaton.Automaton.Unbind` | lib/automaton.cpp:104-137 | a request not yet sent is dropped and the helper told at once; otherwise its withdrawal is waiting |
| `Automaton.Automaton.Destroy` | lib/automaton.cpp:139-172 | the same for a child |
| `Automaton.Automaton.SysCreateEffect` | lib/automaton.cpp:178-186 | some waiting helper moves from send to recv |
| `Automaton.Automaton.SysBindEffect` | lib/automaton.cpp:192-199 | the same for a binding |
| `Automaton.Automaton.SysUnbindPrecondition` | lib/automaton.cpp:201-211 | the loop finds a withdrawal of something done iff there is one |
| `Automaton.Automaton.SysUnbindEffect` | lib/automaton.cpp:213-229 | one such withdrawal moves from send to recv; its assertion holds |
| `Automaton.Automaton.SysDestroyPrecondition` | lib/automaton.cpp:231-241 | as for bindings |
| `Automaton.Automaton.SysDestroyEffect` | lib/automaton.cpp:243-259 | as for bindings |
| `Automaton.Automaton.SysCreatedEffect` | lib/automaton.cpp:261-288 | the exact new sets for each result, under the assertions of the source |
| `Automaton.Automaton.SysBoundEffect` | lib/automaton.cpp:290-361 | the exact new sets for each result, under the assertions of the source |
| `Automaton.Automaton.SysUnboundEffect` | lib/automaton.cpp:363-397 | the exact new sets for each result, under the assertions of the source |
| `Automaton.Automaton.SysDestroyedEffect` | lib/automaton.cpp:399-434 | the exact new sets for each result, under the assertions of the source |
| `Automaton.Automaton.Schedule` | lib/automaton.cpp:436-449 | asks for exactly the outputs whose preconditions hold |
| `Automaton.ScheduledExactly` | lib/automaton.cpp:436-449 | an output is asked for iff its precondition holds |
| `ProtocolLocal.ExecutedKeeps` | lib/model.cpp:144-158 | the model never finds a requested key in use, and finds nothing to withdraw only for a helper that is in a race |
| `ProtocolLocal.DeliveredKeeps` | lib/automaton.cpp:261-434 | every answer meets the assertion of the automaton and keeps the per-helper invariant |
| `ProtocolLocal.UndoSentKeeps` | lib/automaton.cpp:213-229 | sending a withdrawal starts a race exactly when the binding has vanished already; children cannot race |
| `ProtocolLocal.VanishedKeeps` | lib/model.cpp:296-308 | a binding that vanishes starts a race exactly when its withdrawal is queued |
| `ProtocolSteps.StepHelper` | lib/automaton.cpp:78-449 | every step of automata, queue and model together acts on each helper as the local protocol does |
| `ProtocolTheorems.StepInv` | lib/automaton.cpp:78-449 | the invariant of the whole system is kept by every step that does not answer BIND_KEY_DNE |
| `ProtocolTheorems.PreventedErrors` | lib/automaton.cpp:261-434 | CREATE_KEY_EXISTS, BIND_KEY_EXISTS, CREATE_KEY_DNE and, unless a race was lost, BIND_KEY_DNE are never even queued |
| `ProtocolTheorems.DeliveredInOrder` | lib/automaton.cpp:261-434 | every delivered notice finds the helper in the set in which the source asserts it |
| `ProtocolTheorems.DestroyFindsChild` | lib/model.cpp:279-284 | a withdrawal of a child always names a child that is there |
| `ProtocolTheorems.HelperSetsDisjoint` | include/ioa/automaton.hpp:78-92 | in every reachable state the send, recv and done sets are pairwise disjoint |
| `ProtocolTheorems.EnabledOutputQueued` | lib/automaton.cpp:436-449 | an enabled system output always has a runnable in the queue |
| `ProtocolTheorems.EmptyQueueIsQuiet` | lib/automaton.cpp:78-449 | with an empty queue all send and recv sets are empty, and the done sets are exactly the children and the bindings the model has |
| `ProtocolTheorems.RacingIffStarted` | lib/automaton.cpp:213-229 | a helper is in a race iff the run contains a step that started one |
| `ProtocolTheorems.BindKeyDneExactly` | lib/model.cpp:238-242 | executing a withdrawal answers BIND_KEY_DNE iff a race was started: the binding was lost with one of its automata before the withdrawal was sent, or while it was queued |
| `ProtocolRace.BindKeyDneReachable` | lib/automaton.cpp:365-368 | a concrete run of fifteen steps after which BIND_KEY_DNE is sent to a live automaton: the comment "we prevent this" is not true of the code |
| `ProtocolOutcomes.WithdrawalPending` | lib/automaton.cpp:104-172 | over every run, a withdrawal made after its request was sent, also before the answer, stays in the send or recv set of withdrawals until a refusal or loss is delivered |
| `ProtocolOutcomes.WithdrawalCarriedOut` | lib/automaton.cpp:104-172 | with an empty queue, what an automaton has last destroyed or unbound is in none of its sets, and the model has no such child or binding |
| `ProtocolOutcomes.RequestCarriedOut` | lib/automaton.cpp:78-102 | with an empty queue, what it has asked for, not withdrawn, and not heard to be refused or lost is done, and the model has the child or binding |
| `ProtocolSystem.BuiltWaits` | lib/model.cpp:74-82 | whatever calls a constructor makes while it is allocated leave requests that wait to be sent and nothing else, and have scheduled all that they enable |
| `ProtocolTheorems.InitialInv` | lib/model.cpp:67-95 | the system the scheduler starts with, a root whose constructor has made any calls, satisfies the invariant |
| `ModelProtocol.Start` | lib/model.cpp:67-95 | a new model with a root is the initial system of the protocol |
| `ModelProtocol.NextIsFresh` | lib/sequential_set.hpp:49-58 | until the counter wraps the next identifier is one that was never used |
| `ModelProtocol.RunCreateRequest` | lib/create_runnable.hpp:40-42 | running the runnable on the class Model is the create step of the protocol: an object that represents the system represents it afterwards, and its new notices are exactly those queued |
| `ModelProtocol.RunBindRequest` | lib/bind_runnable.hpp:41-43 | the same for bind |
| `ModelProtocol.RunUnbindRequest` | lib/unbind_runnable.hpp:38-40 | the same for unbind, BIND_KEY_DNE included |
| `ModelProtocol.RunDestroyRequest` | lib/destroy_runnable.hpp:38-40 | the same for recursive destruction, with the order of the object's notices |
| `SchedulerShutdown.ConservedStep` | lib/simple_scheduler.cpp:182-306 | the runnable count equals what queues, threads, lists and the I/O thread hold, across every step |
| `SchedulerShutdown.ZeroStaysZero` | lib/simple_scheduler.cpp:186-195 | no step makes a runnable when there is none |
| `SchedulerShutdown.StepInOrder` | lib/simple_scheduler.cpp:182-524 | every step but a close that hangs keeps the invariant that somebody has noticed, or will notice, that no runnable is left |
| `SchedulerShutdown.QueuesAreFifo` | lib/blocking_list.hpp:36-56 | every queue is first in, first out, popped by its own thread only; a sentinel sends that thread back to its check |
| `SchedulerShutdown.SentinelsInTurn` | lib/simple_scheduler.cpp:196-200 | who finds no runnable pushes exactly one sentinel on each queue, then writes to the pipe and stops |
| `SchedulerShutdown.OwesIfEmpty` | lib/simple_scheduler.cpp:290-306 | a byte is owed iff the list was empty before the registration, or the close request |
| `SchedulerShutdown.PipeBytes` | lib/simple_scheduler.cpp:511-521 | the bytes in the pipe change by the one written and the at most three read |
| `SchedulerShutdownTheorems.CountStaysZero` | lib/simple_scheduler.cpp:186-195 | over a run the count stays zero once it is |
| `SchedulerShutdownTheorems.NeverStuck` | lib/simple_scheduler.cpp:182-218 | in no reachable state is every thread that has not stopped blocked with nothing to wake it |
| `SchedulerShutdownTheorems.AllStop` | lib/simple_scheduler.cpp:209-282 | with no runnable left every thread stops: each step lowers a rank, and some step is enabled until all have |
| `SchedulerShutdownTheorems.RankDrops` | lib/simple_scheduler.cpp:182-203 | with no runnable left, whichever step is taken the rank drops |
| `SchedulerShutdownTheorems.HangsExactly` | lib/simple_scheduler.cpp:414-437 | a step leaves the scheduler doomed iff it is a close that drops the last runnables while every other thread waits and the pipe is empty; any other step keeps the invariant |
| `SchedulerShutdownTheorems.DoomedGetsStuck` | lib/simple_scheduler.cpp:464 | from a doomed state all threads end up blocked |
| `SchedulerShutdownTheorems.DoomedStaysDoomed` | lib/simple_scheduler.cpp:464 | ... and no step leads out |
| `SchedulerShutdownTheorems.HangReachable` | lib/simple_scheduler.cpp:414-437 | a concrete run that reaches such a close |
| `Timers.RegisteredAgrees` | lib/global_fifo_scheduler.cpp:197-228 | the two timer indexes stay exact inverses through insertion, replacement and refusal |
| `Timers.InsertPlace` | lib/global_fifo_scheduler.cpp:205 | a new entry is put in at one place, and the others keep their order |
| `Timers.PlaceExactly` | lib/global_fifo_scheduler.cpp:205 | ... after exactly the entries that are not later: entries of one time stay in the order of their registration |
| `Timers.EarliestWins` | lib/global_fifo_scheduler.cpp:208-227 | after any sequence of registrations an action has one timer, with the earliest of its times |
| `Timers.DroppedCounts` | lib/global_fifo_scheduler.cpp:208-227 | the runnables deleted by registration are exactly those that did not become or replace a timer |
| `Timers.DueExactly` | lib/global_fifo_scheduler.cpp:337-342 | the timers taken from the front are exactly those earlier than now |
| `Timers.FiredAgrees` | lib/global_fifo_scheduler.cpp:333-343 | firing removes exactly the entries earlier than now from both indexes, which stay inverses |
| `FifoScheduler.GlobalFifoScheduler.constructor` | lib/global_fifo_scheduler.cpp:122-125 | all containers are empty and the count is zero |
| `FifoScheduler.GlobalFifoScheduler.ScheduleUserq` | lib/global_fifo_scheduler.cpp:81-99 | an action is appended unless an equal one is queued; the refused runnable is deleted |
| `FifoScheduler.GlobalFifoScheduler.Schedule` | lib/global_fifo_scheduler.cpp:77-111 | each kind of request goes to its own container and counts one |
| `FifoScheduler.GlobalFifoScheduler.FindTime` | lib/global_fifo_scheduler.cpp:214 | the first entry of a time, or the end |
| `FifoScheduler.GlobalFifoScheduler.EraseEntry` | lib/global_fifo_scheduler.cpp:213-217 | the walk over the entries of one time from the first of them erases exactly the entry of the action, and does not leave that time |
| `FifoScheduler.GlobalFifoScheduler.RegisterTimer` | lib/global_fifo_scheduler.cpp:201-227 | one registration: inserted, replacing a later one, or deleted |
| `FifoScheduler.GlobalFifoScheduler.RegisterTimers` | lib/global_fifo_scheduler.cpp:197-228 | all timer registrations in order; the indexes agree throughout |
| `FifoScheduler.GlobalFifoScheduler.TakeOver` | lib/global_fifo_scheduler.cpp:230-254 | a descriptor keeps the action it has; others are taken over; the deleted ones are uncounted |
| `FifoScheduler.GlobalFifoScheduler.ProcessTimers` | lib/global_fifo_scheduler.cpp:333-343 | the loop from the front fires exactly the due timers, in order |
| `FifoScheduler.GlobalFifoScheduler.ProcessReady` | lib/global_fifo_scheduler.cpp:345-375 | the actions of the ready descriptors are handed over in order and removed |
| `FifoScheduler.GlobalFifoScheduler.ProcessEvents` | lib/global_fifo_scheduler.cpp:333-375 | after select the due timers, the actions of readable and of writable descriptors are handed over; exactly the fired registrations are gone |
| `FifoScheduler.GlobalFifoScheduler.ProcessConfig` | lib/global_fifo_scheduler.cpp:381-387 | the oldest configuration runnable is run, reported and deleted, if any |
| `FifoScheduler.GlobalFifoScheduler.ProcessUser` | lib/global_fifo_scheduler.cpp:389-395 | one user action is run and deleted, if any |
| `FifoScheduler.GlobalFifoScheduler.RunOnce` | lib/global_fifo_scheduler.cpp:193-397 | one turn of the run loop is the composition the run theorems speak of; it reports the configuration runnable and the user action it ran |
| `FifoSchedulerTheorems.IterateKeeps` | lib/global_fifo_scheduler.cpp:193-397 | a turn keeps: count equals what the five containers hold, the user queue has no duplicates, the timer indexes agree |
| `FifoSchedulerTheorems.RunInv` | lib/global_fifo_scheduler.cpp:193-397 | ... and so does any number of turns |
| `FifoSchedulerTheorems.ExitsWhenEmpty` | lib/global_fifo_scheduler.cpp:193 | the count is zero iff every container is empty, so the loop ends exactly then |
| `FifoSchedulerTheorems.ExecutedInTurn` | lib/global_fifo_scheduler.cpp:389-395 | the action at position k is executed exactly k+1 turns later, whatever is scheduled meanwhile, and the loop does not end before |
| `FifoSchedulerTheorems.TimerFires` | lib/global_fifo_scheduler.cpp:333-343 | a timer fires in the first turn whose clock is later than the earliest time registered, and not before |
| `FifoSchedulerEvents.RegistersExactly` | lib/global_fifo_scheduler.cpp:197-254 | of several registrations of a descriptor the first counts, and one it already has wins over all; registering fires nothing |
| `FifoSchedulerEvents.EventsExactly` | lib/global_fifo_scheduler.cpp:333-375 | after select an action is queued iff it was before, or its timer is due, or it is registered for reading at a readable or for writing at a writable descriptor; fired registrations go and all others stay as they are |
| `FifoSchedulerEvents.EventsInOrder` | lib/global_fifo_scheduler.cpp:333-375 | due timers are handed over first, by time, then readable and then writable descriptors, ascending |
| `FifoSchedulerEvents.PushedInOrder` | lib/global_fifo_scheduler.cpp:81-99 | actions handed over are appended in order; only duplicates are left out |
| `FifoSchedulerEvents.ReadFires` | lib/global_fifo_scheduler.cpp:105-107 | a read registration of a free descriptor is the action that fires when it is readable, whatever else is scheduled, and stays registered until then |
| `FifoSchedulerEvents.WriteFires` | lib/global_fifo_scheduler.cpp:109-111 | the same for writing |
| `FifoSchedulerEvents.ConfiguredInTurn` | lib/global_fifo_scheduler.cpp:381-387 | the configuration runnable at position k is run exactly k+1 turns later, and the loop does not end before |
| `TcpFraming.TcpLcrAutomaton.TakeMessage` | examples/tcp_lcr.cpp:218-234 | a token updates the time, travels on unless it is the own one, and falls through to the case of an election |
| `TcpFraming.TcpLcrAutomaton.SendRingEffect` | examples/tcp_lcr.cpp:250-254 | returns the encoding of the oldest message for the ring and removes it |
| `TcpFraming.RoundTrip` | examples/tcp_lcr.cpp:65-79 | decoding an encoded message gives the message |
| `TcpFraming.DecodeConcat` | examples/tcp_lcr.cpp:214-236 | decoding commutes with cutting: later bytes continue from the leftover |
| `TcpFraming.StreamRoundTrip` | examples/tcp_lcr.cpp:250-254 | the stream of a list of messages decodes to the list with nothing left |
| `TcpFraming.ChunksDoNotMatter` | examples/tcp_lcr.cpp:211-237 | receiving any chunks is decoding their concatenation |
| `TcpFraming.AnyChunking` | examples/tcp_lcr.cpp:211-254 | however the stream of some messages is cut, exactly they are received, in order |
| `TcpFraming.PartialStream` | examples/tcp_lcr.cpp:211-237 | of an incomplete stream a prefix of the messages has been received, as many as are complete, and less than one message is kept |
| `TcpFraming.StreamHandled` | examples/tcp_lcr.cpp:211-237 | any sequence of receive_ring_effect calls that gets the stream of some messages, however cut, ends with nothing kept back, every election and token identifier queued for the LCR automaton and every token of another queued for the ring, each once and in order |
| `TcpFraming.LastTokenOf` | examples/tcp_lcr.cpp:222-224 | the stored time is the clock reading at the last token received, or unchanged if there was none |
| `TcpFraming.TcpLcrAutomaton.ReceiveRingEffect` | examples/tcp_lcr.cpp:211-237 | the loop over offsets takes exactly the whole messages at the front of leftover plus chunk, keeps the rest, queues what each message asks for, and reads the clock once for each token |

## Left out

Contracts that state less than the source does:

- OutputCore.OutputCore.Bind: the callbacks output_bound and input_bound that the record's constructor also schedules are not modelled; the bind key it adds to the binder's record is in Model.Model.Bind.
- OutputCore.OutputCore.Unbind: likewise output_unbound and input_unbound; the bind key removed is in Model.Model.Unbind.
- OutputCore.OutputCore.UnbindAutomaton: likewise; the bind keys removed are in Model.Model.UnbindAutomaton.
- SequentialSet.SequentialSet.Take: requires a free identifier, because the source loops for ever without one; the signed overflow of the counter, undefined in C++, is taken as a wrap to 0 at the largest value.
- ProtocolTheorems.StepInv: runs end with the step that answers BIND_KEY_DNE, at whose delivery the source asserts false; what an unchecked build would do afterwards is not modelled.
- ProtocolTheorems.PreventedErrors: identifiers are not used again within a run; ModelProtocol.NextIsFresh shows that this is so until the counter wraps.
- ProtocolOutcomes.WithdrawalCarriedOut: says what holds when the configuration queue is empty, not that it becomes so; automata whose constructors create automata can keep it busy for ever.
- ProtocolTheorems.HelperSetsDisjoint: the destructor of an automaton, which may tell a helper twice because a withdrawn one is in two sets, is not modelled.
- BellmanFordTheorems.AdditionNeverWraps: assumes, as ValidWeighted says, that the number of nodes times the largest weight fits a size_t.
- OutputExecution.World.Execute: the schedule part of the actions, the current-identifier bookkeeping and unvalued and parameterised variants are left out; one generic action is enough for the order of locks and deliveries.
- SchedulerShutdownTheorems.NeverStuck: for runs without a close that hangs; which those are is HangsExactly.

Representation:

- The records and executors inside the class Model are values in its map and list; C++ shares them through pointers.  What is lost is aliasing, not order or contents.  For the same reason Model has the executor's loops at its own level and does not call the class OutputCore, whose methods are proved against the same functions.
- Automaton records are values of the model, not objects with methods of their own.
- A mismatch of types in fetch_instance (dynamic_cast) is not modelled: instances have the type of their handle.
- Helpers are keys; the callbacks created, bound, unbound and destroyed of a helper do not call back into the automaton.
- Rings and networks start with their bindings in place, and uids are distinct and different from the default uid; which enabled action runs next is any, so the schedule functions of the algorithms are not modelled.
- The clock, the result of select and the fairness of threads are parameters or free choices; the wake-up pipe is a counter without capacity.
- A message struct is four bytes of type, least significant first, and sixteen of identifier, without padding.

Not modelled:

- Closing descriptors in the single-threaded scheduler.
- Duplicate-freedom of the multi-threaded execution queue: the I/O thread can enqueue without the automaton's lock.
- The timer and descriptor maps of the I/O thread as maps: they are counted, and their contents are those of Timers and FifoScheduler.
- Sockets, fcntl, select, ioctl and the tcp and udp automata, apart from the framing of messages.
- pthread wrappers, lock classes, thread keys, profiling, printing, command lines and random topologies.
- Breadth-first search and spanning trees, which would only repeat Bellman-Ford with unit weights and the broadcast.
- Observers: their notification sets are not cleared between notifications, so there is no symmetric invariant to state.
