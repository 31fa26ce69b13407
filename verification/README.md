# A verified model of libswim

libswim is a SWIM failure detector (Das, Gupta and Motivala, 2002): nodes probe each other, suspect members
they have not heard from, let them refute the suspicion by incarnation numbers, and spread what they know by
gossip on every message. This project models one node, a cluster of them around an unreliable network, and the
wire format, in Dafny, and proves what they keep over whole runs.

`dafny verify dfyconfig.toml` checks everything.

## How it is built

- `Types.dfy`: records, events and constants. Integers have the widths of the source where it matters: UUIDs are
  128-bit numbers in the order of `uuid_compare()`, incarnations wrap at 2^32, times are 64-bit.
- `Protocol.dfy`: one node over a view that is a map. The state after a step is a function of the state before;
  what is sent is a predicate, because it depends on `rand()` and `time()`. A node is up, has exited (it learned
  of its own death) or has aborted (an assert failed).
- `Detector.dfy`, `ViewIndex.dfy`, `Shuffle.dfy`: the node as it runs, a class whose methods update the view, the probe schedule
  and the counters. The view is a field that holds a sorted sequence and is reassigned, with its capacity as a
  number beside it; the probe order is an array that is shuffled in place. Every method is proved against
  `Protocol.dfy` for every value of `rand()` and `time()`; `Abs()` is the map-based node an object stands for, and
  `drawn` records what `rand()` returned, so that what is picked at random is a function of it.
- `Effects.dfy`: what one step does to each record and what it sends, in full and with the numbers written out.
- `NodeFacts.dfy`, `NodeRuns.dfy`, `Probing.dfy`, `GossipJoin.dfy`: theorems about steps and runs of one node under
  arbitrary events.
- `Cluster.dfy`, `Refutation.dfy`, `Flood.dfy`, `Health.dfy`, `AssertFailure.dfy`, `Accuracy.dfy`, `Addresses.dfy`,
  `AddressFailure.dfy`: theorems about a cluster. The network is the set of all events ever sent, in the form a
  receiver decodes them; any of them may reach any node, any number of times, in any order, or never. So loss,
  duplication, reordering and misdelivery are all covered. Only the address theorems ask for more: that a packet
  arrives at the address it was sent to, from the address of its sender. `Scenario.dfy` has what the two runs
  that end in a failure are put together from.
- `Codec.dfy`, `WireLayout.dfy`, `CodecBuffer.dfy`: the wire format, where each field stands in it, and the encoders
  and decoders moving a cursor over a buffer.

Assumptions: UUIDs are unique, messages come from protocol nodes (in cluster theorems only), allocation succeeds,
and a slot of the view that was never used has no witness.

## Where the code differs from its comments

The model follows the code. Each point is a theorem below.

- `swim_state_add` returns the last slot after sorting, which is the new record exactly if its UUID is the
  greatest (`Detector.Swim.Add`). So an ACK that introduces a node below a known one leaves it UNKNOWN, and the
  next message from it fails an assert (`Health.AssertsHoldIff`, `AssertFailure.AssertsCanFail`).
- For the same reason an ACK that introduces a node can go to the witness of another one. With at most ten nodes
  the gossip of that ACK carries the new record and stops the receiver; with eleven it may not, and the receiver
  goes on with a wrong address (`Addresses.SmallClustersTrue`, `AddressFailure.AddressesCanFail`).
- A record that is UNKNOWN is not changed by gossip at its own incarnation (`GossipJoin.GossipIsJoin`).
- A record that is DEAD can be revived: by a higher incarnation, and by a PING_REQ that names it
  (`NodeRuns.StepAboutDead`).
- The witness of a suspect node is not told of that node's own ACK at its current incarnation, because the sender
  is noticed before the handler runs (`NodeRuns.WitnessToldIff`).
- A LEAVE does not mark its sender dead, because `leave_uuid` is never filled in; a suspect sender is even taken
  back to ALIVE by it, as by any message (`Cluster.LeaveNamesNobody`).
- A suspicion can ask min(view size, 5) members only if its random start is 0, and asks nobody if the start is at
  or beyond that number (`Detector.WindowExact`).
- The header length is stored as 64 bits over a 32-bit field, which zeroes the upper half of the time
  (`CodecBuffer.EncodeHeader`, `Codec.TimeSurvivesIff`).
- The time of a DEAD record depends on the order of gossip (`GossipJoin.TimeOrderFreeIff`).

## Model

| member | source | states |
|---|---|---|
| `Cluster.IncarnationsAreOwned` | swim/process.c:45-64 | in every reachable state a node's incarnation is the number of suspicions about itself it has read, modulo 2^32, and until that wraps no view, header or gossip record anywhere claims a higher one for it |
| `Cluster.ViewsGrow` | swim/state.c:155-248 | over every run members are never forgotten, record incarnations never decrease, and a view never holds its owner nor a UUID that is no node's |
| `Cluster.NetworkDecodes` | swim/network.c:53-98 | every event under way in a reachable state is decoded exactly as it stands, whatever else the packet buffer holds |
| `Cluster.LeaveNamesNobody` | swim/cluster.c:38-51 | receiving a LEAVE in a reachable state changes what noticing its sender changes, and marks a member with the null UUID DEAD if there is one; any other known sender is ALIVE afterwards exactly if it was, or if its record is usable and either older or as new and not DEAD |
| `NodeFacts.StepGrows` | swim/process.c:249-269 | every step of a node, under any event, keeps the owner out of the view, forgets no member and takes no incarnation back |
| `NodeFacts.StepIncarnation` | swim/process.c:52-56 | a step raises the node's incarnation, modulo 2^32, by the number of SUSPECT records about itself that it reads before it stops |
| `NodeFacts.StepWithin` | swim/network.c:24-48 | no step lets a record or a message make a claim about an unknown node, or above a cap that all inputs respect |
| `Effects.GossipComesLast` | swim/process.c:73-157 | the gossip of a PING, and of an ACK for another node, is read after everything else, and no other gossip is read |
| `Effects.JoinAdds` | swim/process.c:181-200 | a JOIN of a new node at a positive time adds exactly a record seen then, at incarnation 0, ALIVE, with the carried address or else the source, without a witness, and leaves all others as the notice did; any other JOIN changes no record beyond the notice |
| `Effects.AckAdds` | swim/process.c:116-154 | before its gossip is read, an ACK for an unknown node adds exactly a record seen at its time, at incarnation 0 and the source address, ALIVE if it is the greatest and else UNKNOWN, and then clears the greatest record instead |
| `Effects.AckClears` | swim/process.c:132-154 | before its gossip is read, an ACK for a known node takes a SUSPECT or UNKNOWN record to ALIVE without a witness, and changes no other |
| `Effects.PingNotices` | swim/process.c:73-77 | before its gossip is read, a PING has its sender noticed and changes nothing else |
| `Effects.PingReqMarks` | swim/state.c:87-98 | a PING_REQ for a known node makes it SUSPECT whatever its status, with its source as the witness, and changes nothing else |
| `Effects.LeaveMarks` | swim/state.c:260-271 | a LEAVE marks the known node it names DEAD and ends the probe round, and changes nothing else |
| `Effects.RecordsAge` | swim/cluster.c:88-118 | an effective heartbeat changes statuses alone: ALIVE to SUSPECT after 60 seconds of silence, SUSPECT to DEAD after 120 |
| `Effects.GossipWitness` | swim/state.c:165-190 | gossip drops the witness of a member exactly if a record read about it is newer, or at its incarnation outranks it or finds it DEAD or UNKNOWN |
| `Effects.StepWitness` | swim/process.c:249-269 | the witness of every member after any step: the source of a PING_REQ that names it, none if an ACK clears it, gossip drops it or it is new, and else the old one |
| `Effects.LeavesAlone` | swim/state.c:116-147 | a message whose header is behind its sender's record or at the incarnation of a DEAD one, and any message about others, leaves a record exactly as it was, time and witness included |
| `Effects.AddressesStay` | swim/state.c:155-195 | no step changes the address of a record |
| `Effects.FirstClaimNames` | swim/state.c:155-164 | a member that gossip adds has the address of the first record read about it |
| `Effects.AnswersAre` | swim/process.c:73-227 | for every event but a JOIN, exactly which packet is sent, to whom, with which body and with gossip of the view at which point of the step, or none |
| `Effects.JoinAnswersAre` | swim/process.c:193-209 | a JOIN of a new node is passed on once to every member, the new one among them, as it came but for the address, and answered by one ACK; any other JOIN is not answered |
| `Effects.BeatsIff` | swim/cluster.c:70-74 | a heartbeat takes effect exactly if there is a member and the last effective one is two seconds back, and else does nothing |
| `Effects.RequestsAre` | swim/cluster.c:131-153 | in an effective heartbeat, for each member that becomes SUSPECT there is a start such that the PING_REQs that name it are exactly one to each member that is ALIVE at that point of the loop among the places start + 1 to min(view size, 5) after the start, with gossip of the view at that point; in a view of at most five a start of 0 means all that are ALIVE then |
| `Effects.RequestsToOthers` | swim/cluster.c:20-51 | asking to join sends one JOIN with the own UUID and no address; leaving sends the same LEAVE to exactly min(view size, 5) different members |
| `Refutation.OwnHeader` | swim/event.c:122-128 | a message that names its sender in the header carries the sender's incarnation from before the gossip of that step was read |
| `Refutation.LaterHeadersExceed` | swim/process.c:52-56 | once a node has read a suspicion of itself at incarnation k, every header it sends in a later step of the run exceeds k |
| `Refutation.RefutationIsFinal` | swim/state.c:124-127 | once a node that knows it has processed such a message, no gossip about it at an incarnation up to k can change anything there again |
| `Flood.StepForwards` | swim/process.c:181-206 | a step that forwards a JOIN is at a node that did not know the joining UUID and now does, and sends at most one copy for each member |
| `Flood.ForwardsOnce` | swim/process.c:184-206 | in any run a node forwards a JOIN for a given UUID in at most one step |
| `Flood.FloodBounded` | swim/process.c:181-206 | in any run of n nodes the copies of a JOIN for u passed on are at most n - 1 for every node that has learned of u, and only nodes other than u can |
| `GossipJoin.GossipIsJoin` | swim/state.c:155-195 | for any view and any gossip, a member other than the node itself ends at the lexicographic maximum of (incarnation, status) over its record and what was read, with the latest time among the winners unless it is DEAD, exactly if its old record was not UNKNOWN, or something read is newer, or all that was read about it is older |
| `GossipJoin.OrderIrrelevant` | swim/process.c:26-66 | for any view, permuting or repeating the records that are read changes no member's incarnation or status, nor its time unless it is DEAD; an unusable record or a DEAD one about the node itself ends what is read |
| `GossipJoin.FirstDeadWins` | swim/state.c:175-188 | a DEAD record takes its time from the first of the winning claims, wherever it stands in the gossip |
| `GossipJoin.TimeOrderFreeIff` | swim/state.c:170-190 | for any view and any gossip that can be read in every order, the time recorded for a member is the same for every order and repetition exactly if the old record is UNKNOWN with no newer claim, or is among the highest claims, or these are not DEAD, or they agree on the time |
| `NodeRuns.StepAboutDead` | swim/state.c:128-142 | a record that is DEAD at incarnation k is so after a step exactly if the step brings no newer header from the node, reads no newer gossip about it, and is no PING_REQ that names it |
| `NodeRuns.DeathIsSticky` | swim/state.c:87-98 | over any run of events and heartbeats a DEAD record stays DEAD at its incarnation until such a step |
| `NodeRuns.WitnessToldIff` | swim/process.c:132-154 | the witness of a suspect node gets the ACK exactly if it comes from a third node or is behind the record's incarnation; the record is ALIVE in every case when the handler comes to the gossip of the ACK |
| `NodeRuns.AliveAfterAckIff` | swim/process.c:147-156 | after the gossip of the ACK as well the record is ALIVE at its incarnation exactly if no record read claims more |
| `NodeRuns.WitnessesConserved` | swim/process.c:137-145 | over any run witness ACKs relayed, plus witnesses still waiting, never exceed the PING_REQs processed for known nodes and the witnesses at the start |
| `NodeRuns.HeartbeatsAlone` | swim/cluster.c:88-118 | under heartbeats alone a record ALIVE and last seen at t is ALIVE exactly until an effective heartbeat reaches t + 60, and DEAD exactly after a later one reaches t + 120 |
| `NodeRuns.SuspectAlone` | swim/cluster.c:100-107 | under heartbeats alone a SUSPECT record is DEAD exactly after an effective heartbeat reaches t + 120 |
| `NodeRuns.HeardFromIsAlive` | swim/process.c:249-269 | a message sent at t and not behind its sender's record leaves that record ALIVE and seen at t exactly until an effective heartbeat reaches t + 60, and unless the message is a PING_REQ or a LEAVE that names its own sender or its gossip claims more |
| `NodeRuns.BeatsApart` | swim/cluster.c:70-74 | over any run effective heartbeats are at least two seconds apart, and after one the next is effective exactly if there is a member and two seconds have passed |
| `Probing.NextProbeFinds` | swim/state.c:404-411 | a probe target is never DEAD, every member passed over was, and no target is found only if all that is left of the round is DEAD |
| `Probing.StepSchedule` | swim/state.c:417-419 | every step keeps the rest of the round a list of different members, and events that neither add nor delete leave it alone |
| `Probing.ProbeGap` | swim/state.h:11-18 | with N members, none added or deleted, a member that does not become DEAD is the target of a probe, and is sent a PING, within every 2N - 1 effective heartbeats, for every shuffle and whatever the others do |
| `Probing.ProbePings` | swim/cluster.c:76-86 | the target of a probe is sent a PING at its address with gossip of the view before ageing, and nobody else is in that heartbeat |
| `Probing.NeverTwiceNone` | swim/state.c:396-412 | in any run, if an effective heartbeat finds no target, the next effective one finds one if any member is not DEAD by then, whatever happens in between |
| `Health.HandleSane` | swim/process.c:116-154 | a handler leaves every record usable exactly if it is not an ACK for an unknown node below a known one, whose record then stays UNKNOWN |
| `Health.StepSane` | swim/process.c:249-269 | from a usable view no step fails an assert; the view stays usable exactly if no such ACK goes unmended by its own gossip, and the messages sent are usable exactly if they do not carry the record such an ACK introduces |
| `Health.NextUsable` | swim/state.c:121-122 | the same of views for one step of a cluster, at every node |
| `Health.AbortsIff` | swim/process.c:33 | a step fails an assert exactly if it is a message from a node whose record is unusable, a JOIN of a new node without a positive time, or one whose gossip is read up to an unusable record |
| `Health.NobodyAbortedIff` | swim/process.c:33 | in every run no assert has failed exactly if no step met that condition |
| `Health.NextHealthyIff` | swim/process.c:116-154 | a step of a cluster keeps all records and messages usable exactly if the times it sends are positive on the wire and it is not such an ACK that goes unmended or whose record is sent on |
| `Health.AssertsHoldIff` | swim/process.c:116-154 | in every run no assert has failed and every record and message is usable exactly as long as every step is so |
| `AssertFailure.AssertsCanFail` | swim/process.c:126-149 | a run of three nodes, with two requests to join, in which an assert fails |
| `Accuracy.DiesIff` | swim/cluster.c:88-118 | a step makes an ALIVE or SUSPECT record DEAD exactly if it is a LEAVE that names the member, reads a DEAD claim that is newest, or is an effective heartbeat that finds it SUSPECT and unseen for 120 seconds |
| `Accuracy.StepCovered` | swim/network.c:24-48 | a step adds no death claim to a view or a message beyond those it received and those it timed out itself |
| `Accuracy.DeathIsRooted` | swim/cluster.c:100-107 | in every reachable state a DEAD record or DEAD gossip goes back to an earlier heartbeat of some node that held the same member SUSPECT at the same incarnation and had not seen it for 120 seconds |
| `Accuracy.ExitIsRooted` | swim/process.c:45-50 | a node exits only if some node had timed it out before |
| `Addresses.RelayHarmlessIff` | swim/process.c:132-145 | an ACK for u that is passed on cannot make a node that is up hold a wrong address exactly if it does not introduce u here and go to a witness of another node that is up, does not know u, is neither u nor this node and reads the gossip to its end |
| `Addresses.StepHarmlessIff` | swim/process.c:116-154 | if addresses, witnesses and the message received are right before a step, the view is right after it if the node is up, and what is sent does no harm exactly if the step is not such an ACK |
| `Addresses.AddressesTrueIff` | swim/process.c:86-206 | in every run whose packets arrive where they are sent, all nodes that are up hold the true address of every member and no message under way can change that, exactly as long as no step passes on such an ACK |
| `Addresses.SmallClustersTrue` | swim/network.c:24-35 | in every such run of at most ten nodes, all nodes that are up hold the true address of every member, without any condition |
| `Addresses.MisledTakesWrongAddress` | swim/process.c:117-129 | whoever receives such an ACK stays up exactly if it does not fail an assert on noticing the sender, and then holds the sender's address for the new node, which is not its address |
| `AddressFailure.AddressesCanFail` | swim/process.c:117-145 | a run of eleven nodes whose packets arrive where they are sent, in which a step passes on such an ACK and a node that is up ends with a wrong address |
| `Detector.Swim.constructor` | swim/state.c:41-85 | a new object is valid and stands for a node with an empty view |
| `Detector.Swim.AbsOk` | swim/state.h:25-45 | what a valid object stands for meets the assumptions of the node theorems |
| `Detector.Swim.GetNode` | swim/state.c:273-276 | finds what linear lookup finds, and the record that the map holds |
| `ViewIndex.BinarySearch` | swim/state.c:35-39 | binary search of a sorted view agrees with linear lookup and with the map for every UUID |
| `ViewIndex.Qsort` | swim/state.c:242 | the same records in ascending order |
| `ViewIndex.InOrder` | swim/state.c:35-39 | the sorted array lists the members of the map in order, each once |
| `Detector.Swim.Add` | swim/state.c:210-248 | map insertion that keeps the array sorted and within its capacity and makes the schedule stale; the slot returned holds the greatest UUID, and is the new record exactly if that is its own |
| `Detector.Swim.Del` | swim/state.c:260-271 | marks a known member DEAD and makes the schedule stale; ignores the node itself and unknown UUIDs |
| `Detector.Swim.MarkSuspect` | swim/state.c:87-98 | marks a known member SUSPECT whatever its status and records the witness |
| `Detector.Swim.Notice` | swim/state.c:116-147 | refines the notice step of the protocol, the failing assert and the stale header included |
| `Detector.Swim.Merge` | swim/state.c:155-195 | refines the merge of one record, with its witness, and with both preconditions of an insertion met |
| `Detector.Swim.FillGossip` | swim/network.c:24-48 | all records of a view below ten in order, or the ten records of the view that the random draws name |
| `Detector.Swim.Send` | swim/network.c:103-172 | appends one message with the node's current incarnation and gossip of its current view |
| `Detector.Swim.ProcessGossip` | swim/process.c:26-66 | refines the fold over the gossip, stopping at an exit or a failed assert |
| `Detector.Swim.ProcessPing` | swim/process.c:73-77 | answers before it reads the gossip |
| `Detector.Swim.ProcessPingReq` | swim/process.c:86-94 | suspects a known target and pings it with the updated view; does nothing for an unknown one |
| `Detector.Swim.RefuteSlot` | swim/process.c:132-154 | tells the witness of a suspect record and takes a suspect or unknown record back to ALIVE |
| `Detector.Swim.ProcessAck` | swim/process.c:102-157 | refines the ACK handler, with the slot that an insertion returns |
| `Detector.Swim.Forward` | swim/process.c:202-208 | one copy of the JOIN to every member in order and an ACK to the sender |
| `Detector.Swim.ProcessJoin` | swim/process.c:169-209 | adds an unknown node at incarnation 0 with the address filled in and floods; ignores known nodes and itself |
| `Detector.Swim.ProcessLeave` | swim/process.c:221-227 | deletes what the event names and answers with the updated view |
| `Detector.Swim.ProcessEvent` | swim/process.c:249-269 | the whole receive step is a step of the protocol for every event |
| `Detector.Swim.ProbeShuffle` | swim/state.c:362-388 | the order is the Fisher-Yates shuffle by the random draws, which is a round over all members |
| `Shuffle.EveryOrderPossible` | swim/state.c:355-388 | every order of the view comes out of the shuffle for some draws |
| `Detector.Swim.WalkRound` | swim/state.c:404-411 | advances to the next target of the round, or to its end |
| `Detector.Swim.ProbeNext` | swim/state.c:396-412 | takes the next target from the running round, or from a new shuffled one if that is over or stale |
| `Detector.Swim.AskAround` | swim/cluster.c:145-152 | PING_REQs to different members, exactly the ALIVE ones in the window after the start, at most min(view size, 5) - start of them |
| `Detector.Swim.SuspectDead` | swim/cluster.c:131-153 | suspects the target first, so that it is never asked itself, and starts at the random draw modulo the view size |
| `Detector.WindowExact` | swim/cluster.c:145 | the window has exactly min(view size, 5) - start positions and none from that start on, so it is empty exactly if the start is at or beyond min(view size, 5) and full exactly if it is 0 |
| `Detector.Swim.AgeAll` | swim/cluster.c:88-118 | ages every record exactly once, and sends for every member newly suspected exactly the PING_REQs that a suspicion has to send, for some start |
| `Detector.Swim.Heartbeat` | swim/cluster.c:60-120 | a heartbeat is a step of the protocol for all clocks and random draws, with its PING and all its PING_REQs |
| `Detector.Swim.ClusterJoin` | swim/cluster.c:20-26 | sends a JOIN that names the node and no address |
| `Detector.Swim.ClusterLeave` | swim/cluster.c:38-51 | the same LEAVE to exactly min(view size, 5) different members, from the random draw modulo the view size on |
| `Codec.EventFits` | swim/event.c:102-120 | every event with at most ten gossip records is encoded in at most 1784 of the 2048 bytes of a packet |
| `Codec.InfoAt` | swim/encoding.c:218-247 | decoding an encoded record, anywhere in a buffer, returns it and the position after it |
| `Codec.GossipAt` | swim/encoding.c:249-277 | decoding encoded gossip of at most ten records passes the capacity check and returns it |
| `Codec.HeaderAt` | swim/encoding.c:57-96 | decoding an encoded header returns it with the time modulo 2^32 |
| `Codec.RoundTrip` | swim/encoding.c:182-318 | for all five types decoding an encoded event in a packet buffer, whatever bytes follow, consumes exactly the bytes produced and returns the event with the time modulo 2^32 |
| `Codec.TimeSurvivesIff` | swim/encoding.c:68-74 | decoding an encoded event gives it back unchanged exactly if its time is from 0 to 2^32 - 1 |
| `WireLayout.EventLayout` | swim/encoding.c:57-216 | the bytes of an event at literal offsets: version 1, the type code 0, 1, 2, 16 or 17, the length 36 and seven zeros, the low half of the time, UUID and incarnation of the sender, the fields of the type, and the number of gossip records and the records, all most significant byte first |
| `WireLayout.RecordLayout` | swim/encoding.c:218-230 | the bytes of a record: UUID, time, status code, incarnation, address length and address, at literal offsets |
| `WireLayout.DecodedType` | swim/encoding.c:279-318 | whatever is decoded from any buffer has the type that its third and fourth byte say |
| `WireLayout.GossipRejectedIff` | swim/encoding.c:261-277 | gossip is rejected exactly if it announces more records than fit the rest of the packet at 168 bytes each |
| `CodecBuffer.PutBytes` | swim/encoding.h:65-70 | stores exactly the given bytes and nothing else |
| `CodecBuffer.PutNumber` | swim/encoding.h:34-41 | stores a number big-endian |
| `CodecBuffer.EncodeAddress` | swim/encoding.c:10-22 | stores the length and the bytes of an address |
| `CodecBuffer.EncodeHeader` | swim/encoding.c:57-77 | the fields in order, and then the 64-bit length store over the length and half of the time |
| `CodecBuffer.EncodeInfo` | swim/encoding.c:218-230 | stores the wire format of a record |
| `CodecBuffer.EncodeGossip` | swim/encoding.c:249-259 | stores the count and the wire format of every record in order |
| `CodecBuffer.EncodeBody` | swim/encoding.c:98-180 | stores the fields of each event type |
| `CodecBuffer.EncodeEvent` | swim/encoding.c:182-216 | no encoder assert fails, and the buffer starts with the wire format of the event, laid out byte by byte, the rest untouched |
| `CodecBuffer.GetNumber` | swim/encoding.h:43-50 | reads a big-endian number byte by byte, or fails if the buffer ends before it |
| `CodecBuffer.GetBytes` | swim/encoding.h:72-77 | copies exactly the bytes asked for |
| `CodecBuffer.DecodeAddress` | swim/encoding.c:24-34 | for any buffer the length and the bytes of an address, or failure if they do not fit |
| `CodecBuffer.DecodeHeader` | swim/encoding.c:79-96 | for any buffer the fields in order, the version and the length ignored |
| `CodecBuffer.DecodeInfo` | swim/encoding.c:232-247 | for any buffer the fields of a record in order |
| `CodecBuffer.DecodeBody` | swim/encoding.c:108-180 | for any buffer the fields of each event type: code 0 is a PING, 1 an ACK, 2 a PING_REQ, 16 a JOIN and 17 a LEAVE |
| `CodecBuffer.DecodeGossip` | swim/encoding.c:261-277 | for any buffer the loop over the records returns what the format defines, including rejection by the capacity check |
| `CodecBuffer.DecodeEvent` | swim/encoding.c:279-318 | for any buffer the decoders, moving from field to field, return what the format defines, of the type its third and fourth byte say, including rejection of unknown types |
| `CodecBuffer.SendAndReceive` | swim/network.c:53-98 | an event encoded into one packet buffer and decoded from another arrives with the time modulo 2^32 |

## Left out

- Sockets, timeouts, threads and the server loop: sending appends to an outbox and receiving is a step, so there is no visible logic left.
- Logging, tracing, printing and string formatting: output only.
- The example programs: they call the library and add no protocol logic.
- `ping_time` and `suspect_time`: they are reset and never read.
- `swim_cluster_declare_dead` and `swim_node_copy` as members of their own: each is one assignment, made where it is called.
- Memory that overlong fields of malformed packets would overwrite: decoding such a packet ends as broken.
- The size of the C structures, apart from sizeof(NodeInfo) in the capacity check of the decoder, and so the size assert of `swim_event_create`.
- Cluster.IncarnationsAreOwned: the upper bound is stated for nodes that have read fewer than 2^32 suspicions, because the counter of the source wraps there and the bound is then false.
- Probing.ProbeGap: counts effective heartbeats, because a call that comes too early does not probe.
- Detector.Swim.Send: stands for the three send functions, which differ in the body of the event only.
