# BadVPN protocol engines in Dafny

A model of the in-memory protocol engines of the BadVPN library under
`vpn/src/main/jni/badvpn`, with proofs of what they are for. Sockets, threads and
logging stay outside; every engine is driven by the calls and events it gets.

Each engine comes in two layers. A specification (`*Spec.dfy` and the proof files
beside it) describes it on plain values and carries the theorems about whole runs.
A class with the engine's own fields, loops and buffers is proved to follow that
specification step by step.

| files | engine |
|---|---|
| `Fragment*.dfy` | FragmentProto: frames cut into chunks, packed into packets and put together again from a fixed pool |
| `FairQueue*.dfy` | the fair queue: virtual time, its rebasing when it would overflow, and the order of its jobs |
| `MacTable*.dfy`, `Group*.dfy`, `Frame*.dfy` | where a frame goes: learned addresses, multicast memberships, flooding |
| `BProto*.dfy` | the writer and parser that are generated from a message description, for any description |
| `PacketProto*.dfy` | packets over a byte stream |
| `SPProto*.dfy` | one-time password, hash, padding and encryption of datagrams |
| `DataProto*.dfy` | attaching flow buffers to sinks, and the detaching that has to wait, over the fair queue of each sink |
| `Relay*.dfy` | which peers are reached through which |
| `Bind*.dfy` | how two peers agree on who connects to whom |
| `Dhcp*.dfy` | the DHCP client, with its timers and its option parser |
| `Pending.dfy`, `PacketPass*.dfy` | the job list, and the send/cancel/done protocol that runs on it |
| `WireLayout.dfy` | the wire formats byte by byte |
| `Bytes.dfy`, `Lists.dfy`, `Align.dfy` | bytes, little-endian integers, lists of distinct nodes, rounding and remainders |

Three properties one might expect are not true of the code. Each has a lemma with a
run that shows it and one that says when the property holds: exactly, in the first and
the third case, and to within one packet in the second.

- A frame cancelled after part of it was sent leaves its id in use, and the next
  frame is then lost, though none after it (`FragmentCancel`). The round trip is
  therefore stated for runs whose cancels hit frames of which nothing was sent;
  `DeliveredFrames` says for all runs which frames arrive.
- The fair queue's virtual time restarts at zero when it goes idle, while flows keep
  their times, so a flow can start far behind another and be favoured by as much
  (`FairQueueFairness.UnfairAfterIdle`). How far behind it is decides how much
  (`LagDecides`); fairness is stated per busy period, with that lag as its bound.
- After an oversized packet the stream decoder throws away whatever it has received
  by then, so what comes out depends on how the stream was cut
  (`PacketProtoSpec.CutMattersAfterError`). `StreamDelivers` says when the packets sent
  come out: if and only if all of them fit.

A peer with two groups that share their low 23 bits is a destination twice, so the
multicast result is stated per membership. The DHCP client counts its lease from the
acknowledgement, while section 4.4.1 of RFC 2131 counts from the request; the model
follows the code.

Header sizes, limits and timeouts are those of the source. Integers are unbounded, and
the source's width is written out where it matters: frame ids modulo 2^16, the queue's
times modulo their limit plus one, and the size checks against `INT_MAX`. Clocks,
random numbers, the hash and the cipher are parameters; the cipher is any pair of
functions that keep the length and undo each other.

## Model

| member | source | states |
|---|---|---|
| FragmentSoundness.DeliveredFramesAreGenuine | vpn/src/main/jni/badvpn/client/FragmentProtoAssembler.c:154-283 | whatever packets arrive, every delivered frame is put together from chunks that did arrive under one id, pairwise disjoint, inside the frame and covering each byte once, each byte its chunk's |
| FragmentReordering.DeliveredInAnyOrder | vpn/src/main/jni/badvpn/client/FragmentProtoAssembler.c:154-346 | end to end over a network that reorders: the chunks a disassembler wrote for any frame, arriving in any order, after anything and among anything, make the assembler put out that frame as the last of them arrives, if its id is not still held, chunks of fewer other frames than the pool has entries come in between, and no more packets than that end between two of them |
| FragmentSent.FramesOnTheWire | vpn/src/main/jni/badvpn/client/FragmentProtoDisassembler.c:39-162 | whatever is sent and however it is cut and packed, what has been written is the chunks of frame after frame; those of each carry its bytes in order under the frame's own number modulo 65536, the last of them and no other marked so, and are no more than the assembler has slots for |
| FragmentCompleteness.ChunksInAnyOrder | vpn/src/main/jni/badvpn/client/FragmentProtoAssembler.c:154-346 | reassembly completeness: chunks of one id that tile a frame, in any order and after any history, are put together under the same conditions |
| FragmentCompleteness.BeyondIgnored | vpn/src/main/jni/badvpn/client/FragmentProtoAssembler.c:162-177 | chunks that reach beyond the largest frame are as if they had not come |
| FragmentCompleteness.StaleAvailable | vpn/src/main/jni/badvpn/client/FragmentProtoAssembler.c:179-195 | an id is free if it was never used, or not for more packets than the pool has entries, however the clock was reduced |
| FragmentReordering.PermutedTiles | vpn/src/main/jni/badvpn/client/FragmentProtoAssembler.c:197-278 | the chunks of a frame in any order still tile it |
| FragmentPieces.Packing | vpn/src/main/jni/badvpn/client/FragmentProtoAssembler.c:256-268 | disjoint pieces inside [0, n) never sum to more than n, and sum to n exactly if they cover it: the argument behind the completeness test |
| FragmentPieces.OverlapIsSharing | vpn/src/main/jni/badvpn/client/FragmentProtoAssembler.c:105-108 | the overlap test holds exactly if two pieces share a position, or one of them is empty and lies inside the other |
| FragmentPool.SumDecides | vpn/src/main/jni/badvpn/client/FragmentProtoAssembler.c:239-268 | the sum kept in an entry never exceeds its length, equals it exactly if the frame is complete, and then the buffer holds the frame |
| FragmentPool.AddChunkRefines | vpn/src/main/jni/badvpn/client/FragmentProtoAssembler.c:228-254 | storing a chunk in an entry is adding a piece to the frame it stands for |
| FragmentPool.ListsPartitionPool | vpn/src/main/jni/badvpn/client/FragmentProtoAssembler.c:46-103 | every entry is on exactly one of the free and used lists |
| FragmentAssemblerProofs.RunKeeps | vpn/src/main/jni/badvpn/client/FragmentProtoAssembler.c:46-346 | over every run: distinct ids, frames disjoint and in bounds, a spare chunk slot in every stored frame, times within the clock |
| FragmentAssemblerProofs.TickAges | vpn/src/main/jni/badvpn/client/FragmentProtoAssembler.c:117-152 | advancing the clock drops only timed-out frames and makes every other exactly one packet older, also when the times are reduced |
| FragmentRoundTrip.RoundTrip | vpn/src/main/jni/badvpn/client/FragmentProtoAssembler.c:285-346 | for every legal run of the disassembler whose cancels hit frames of which nothing was sent, a fresh assembler with the computed number of slots (two a whole chunk if the chunk size is limited) delivers the frames in order: all of them, except those whose last chunk still sits in the packet on offer |
| FragmentRoundTrip.RunConserves | vpn/src/main/jni/badvpn/client/FragmentProtoDisassembler.c:39-162 | at every point of a run, frames finished are frames delivered plus frames completed by the packet on offer, whatever else the assembler holds under ids not used again within the run |
| FragmentRoundTrip.SlotsLeft | vpn/src/main/jni/badvpn/protocol/fragmentproto.h:92-98 | with the computed number of chunk slots no unfinished frame ever runs out of them; with limited chunks two slots a whole chunk do, because a short chunk fills its packet |
| FragmentWire.ParseEncoded | vpn/src/main/jni/badvpn/client/FragmentProtoAssembler.c:285-346 | chunks written one after the other are read back one after the other |
| FragmentDisassemblerSpec.StepValid | vpn/src/main/jni/badvpn/client/FragmentProtoDisassembler.c:39-162 | no frame waits while a packet is on offer, and a packet on offer has room for a chunk |
| FragmentDisassemblerSpec.WrittenExhausts | vpn/src/main/jni/badvpn/client/FragmentProtoDisassembler.c:48-70 | the writing loop ends with the frame or the packet used up |
| FragmentPackets.RoundTripAtOnce | vpn/src/main/jni/badvpn/client/FragmentProtoDisassembler.c:72-102 | without a latency nothing is held back: every finished frame is delivered |
| FragmentPackets.PacketsOfRun | vpn/src/main/jni/badvpn/client/FragmentProtoDisassembler.c:72-162 | every packet fits the MTU; with a latency those that leave with room for another chunk are as many as the timer lets go |
| FragmentPackets.WriteSends | vpn/src/main/jni/badvpn/client/FragmentProtoDisassembler.c:72-102 | writing sends the packet if the latency is negative, and otherwise exactly if no further chunk fits |
| FragmentPackets.ChunksOfRun | vpn/src/main/jni/badvpn/client/FragmentProtoDisassembler.c:48-70 | no chunk is longer than the limit on chunks, and a shorter one is the last of its frame or fills its packet to the last byte |
| FragmentCancel.DeliveredAfterCancel | vpn/src/main/jni/badvpn/client/FragmentProtoDisassembler.c:122-132 | after a cancel, of any run without another cancel and with fewer frames than there are ids, all frames finished are delivered if nothing of the cancelled one had been sent, and otherwise all but the first |
| FragmentCancel.DeliveredFrames | vpn/src/main/jni/badvpn/client/FragmentProtoDisassembler.c:104-162 | with cancels wherever they fall, of a run from the start with fewer frames than there are ids the assembler delivers exactly the frames finished for which it held nothing when their first chunk went out |
| FragmentCancel.LostFrames | vpn/src/main/jni/badvpn/client/FragmentProtoDisassembler.c:104-162 | as the disassembler sees it: with any number of cancels, none in the middle of a frame that itself follows a cancel in mid-frame, exactly the frames sent directly after a cancel in mid-frame are lost |
| FragmentCancel.SecondCancelClears | vpn/src/main/jni/badvpn/client/FragmentProtoDisassembler.c:104-132 | a frame sent after a cancel in mid-frame and itself cancelled after one chunk leaves the assembler holding nothing of either |
| FragmentCancel.CancelTwiceSparesThird | vpn/src/main/jni/badvpn/client/FragmentProtoDisassembler.c:104-132 | a concrete run: two cancels in mid-frame, and the third frame is delivered although it too follows a cancel in mid-frame |
| FragmentCancel.CancelLosesNextFrame | vpn/src/main/jni/badvpn/client/FragmentProtoDisassembler.c:122-132 | a concrete run in which a cancel in mid-frame costs the next frame |
| FragmentAssembler.Assembler.FreeFrame | vpn/src/main/jni/badvpn/client/FragmentProtoAssembler.c:46-55 | moves an entry to the free list and takes it out of the id tree; the frames held are those without it |
| FragmentAssembler.Assembler.FreeOldestFrame | vpn/src/main/jni/badvpn/client/FragmentProtoAssembler.c:57-68 | frees the first frame |
| FragmentAssembler.Assembler.TakeFreeEntry | vpn/src/main/jni/badvpn/client/FragmentProtoAssembler.c:80-86 | takes the first entry off the free list; the frames held stay the same |
| FragmentAssembler.Assembler.AllocateNewFrame | vpn/src/main/jni/badvpn/client/FragmentProtoAssembler.c:70-103 | gives a blank frame at the end, at the cost of the oldest if the pool is used up |
| FragmentAssembler.Assembler.LocateFrame | vpn/src/main/jni/badvpn/client/FragmentProtoAssembler.c:179-195 | finds the frame of an id, replaces a timed-out one, or allocates |
| FragmentAssembler.Assembler.CheckChunk | vpn/src/main/jni/badvpn/client/FragmentProtoAssembler.c:197-226 | accepts a chunk exactly if it overlaps nothing held and agrees with the length known, or with all that is held if it tells the length |
| FragmentAssembler.Assembler.StoreChunk | vpn/src/main/jni/badvpn/client/FragmentProtoAssembler.c:228-254 | the frame has one more piece and the buffer its bytes |
| FragmentAssembler.Assembler.FinishChunk | vpn/src/main/jni/badvpn/client/FragmentProtoAssembler.c:256-278 | delivers and frees a complete frame, fails one that has used up its slots |
| FragmentAssembler.Assembler.DeliverChunk | vpn/src/main/jni/badvpn/client/FragmentProtoAssembler.c:197-283 | a located frame takes the chunk or is dropped |
| FragmentAssembler.Assembler.ProcessChunk | vpn/src/main/jni/badvpn/client/FragmentProtoAssembler.c:154-283 | refines the receipt of a chunk: same frames kept, same frame delivered |
| FragmentAssembler.Assembler.DropIfTimedOut | vpn/src/main/jni/badvpn/client/FragmentProtoAssembler.c:117-138 | drops the frame exactly if it is timed out, and otherwise lowers the minimum |
| FragmentAssembler.Assembler.DropTimedOut | vpn/src/main/jni/badvpn/client/FragmentProtoAssembler.c:117-138 | the dropping loop leaves the retained frames and finds their least time |
| FragmentAssembler.Assembler.SubtractTime | vpn/src/main/jni/badvpn/client/FragmentProtoAssembler.c:139-152 | the shifting loop moves every time by the same amount |
| FragmentAssembler.Assembler.AdvanceTime | vpn/src/main/jni/badvpn/client/FragmentProtoAssembler.c:326-339 | refines the tick of the clock |
| FragmentAssembler.Assembler.ReadChunk | vpn/src/main/jni/badvpn/client/FragmentProtoAssembler.c:289-324 | reads the chunk at the head of what is left, if there is a whole one |
| FragmentAssembler.Assembler.ReduceTimes | vpn/src/main/jni/badvpn/client/FragmentProtoAssembler.c:117-152 | refines the clock reduction, list surgery and shifting included |
| FragmentAssembler.Assembler.ProcessInput | vpn/src/main/jni/badvpn/client/FragmentProtoAssembler.c:285-346 | refines a run of chunk arrivals, up to a delivery or the end of the packet |
| FragmentAssembler.Assembler.InputSend | vpn/src/main/jni/badvpn/client/FragmentProtoAssembler.c:348-360 | refines the arrival of a packet |
| FragmentAssembler.Assembler.constructor | vpn/src/main/jni/badvpn/client/FragmentProtoAssembler.c:370-445 | an empty pool with all entries free |
| FragmentDisassembler.Disassembler.WriteChunk | vpn/src/main/jni/badvpn/client/FragmentProtoDisassembler.c:50-69 | writes the encoding of the next chunk behind the packet so far |
| FragmentDisassembler.Disassembler.FillPacket | vpn/src/main/jni/badvpn/client/FragmentProtoDisassembler.c:48-70 | the loop writes exactly the chunks of one call |
| FragmentDisassembler.Disassembler.WriteChunks | vpn/src/main/jni/badvpn/client/FragmentProtoDisassembler.c:39-102 | refines one writing step: input, packet, frame id and timer |
| FragmentDisassembler.Disassembler.InputSend | vpn/src/main/jni/badvpn/client/FragmentProtoDisassembler.c:104-120 | refines the offer of a frame |
| FragmentDisassembler.Disassembler.InputRequestCancel | vpn/src/main/jni/badvpn/client/FragmentProtoDisassembler.c:122-132 | drops the frame and keeps the id |
| FragmentDisassembler.Disassembler.OutputRecv | vpn/src/main/jni/badvpn/client/FragmentProtoDisassembler.c:134-149 | refines the taking of a packet |
| FragmentDisassembler.Disassembler.TimerExpired | vpn/src/main/jni/badvpn/client/FragmentProtoDisassembler.c:151-162 | sends the packet held back |
| FragmentDisassembler.Disassembler.FinishChunks | vpn/src/main/jni/badvpn/client/FragmentProtoDisassembler.c:72-101 | ends the frame if it is used up, and the packet if no further chunk fits or the latency is negative |
| FragmentDisassembler.Disassembler.constructor | vpn/src/main/jni/badvpn/client/FragmentProtoDisassembler.c:164-199 | nothing to write and nothing on offer |
| FairQueueFairness.Fair | vpn/src/main/jni/badvpn/flow/PacketPassFairQueue.c:52-217 | with the 64-bit clock, two flows backlogged over any busy interval are charged amounts that differ by at most what one was behind at the start and one packet, so by at most two packets if they start within one; whatever the other flows do |
| FairQueueFairness.ChargeBound | vpn/src/main/jni/badvpn/flow/PacketPassFairQueue.c:52-217 | the same bound with any clock limit, or none |
| FairQueueFairness.LagDecides | vpn/src/main/jni/badvpn/flow/PacketPassFairQueue.c:52-217 | a bound on the difference holds over all busy runs if the lag at the start and one packet are within it, and only if the lag is |
| FairQueueFairness.Lag | vpn/src/main/jni/badvpn/flow/PacketPassFairQueue.c:52-217 | from any state in which two flows are active, a busy run that keeps both backlogged and charges one more than the other by all it was behind |
| FairQueueFairness.UnfairAfterIdle | vpn/src/main/jni/badvpn/flow/PacketPassFairQueue.c:52-77 | for any number of packets the clock can count, a run from the start through an idle spell into a busy period in which two flows are backlogged throughout and charged amounts that far apart |
| FairQueueFairness.GapStep | vpn/src/main/jni/badvpn/flow/PacketPassFairQueue.c:79-217 | between two flows that stay active only charges count, also when the times are rebased |
| FairQueueFairness.RebasingInvisible | vpn/src/main/jni/badvpn/flow/PacketPassFairQueue.c:79-116 | a queue with a time limit, rebasing with deliberate underflow, sends the same packets and charges the same flows as one with unbounded times |
| FairQueueFairness.CurrentMonotone | vpn/src/main/jni/badvpn/flow/PacketPassFairQueue.c:52-77 | virtual time never goes back while the queue is busy |
| FairQueueFairness.SpreadKeeps | vpn/src/main/jni/badvpn/flow/PacketPassFairQueue.c:118-217 | a step in a busy period keeps every flow within one packet of virtual time |
| FairQueueFairness.SpreadRun | vpn/src/main/jni/badvpn/flow/PacketPassFairQueue.c:118-217 | so it is over a whole busy period that starts that way |
| FairQueueFairness.BackloggedRun | vpn/src/main/jni/badvpn/flow/PacketPassFairQueue.c:139-217 | while a flow stays backlogged its time grows by exactly what it is charged, from any state |
| FairQueueAccount.Accounts | vpn/src/main/jni/badvpn/flow/PacketPassFairQueue.c:118-217 | over any run, idle spells included: what a flow has been charged, or forfeited by being freed, with what its queued or outgoing packet still costs, is what its packets cost by their lengths |
| FairQueueFairness.StepKeeps | vpn/src/main/jni/badvpn/flow/PacketPassFairQueue.c:118-217 | every step keeps the order of sending and queued flows and the range of the times |
| FairQueueProofs.ChargeExact | vpn/src/main/jni/badvpn/flow/PacketPassFairQueue.c:79-116 | rebasing charges the finished flow exactly, keeps the distances among queued flows, cuts off only flows not queued, and ends in range |
| FairQueueProofs.UnderflowThenOverflow | vpn/src/main/jni/badvpn/flow/PacketPassFairQueue.c:103-115 | a wrap below and one above cancel |
| FairQueueProofs.CurrentIsLeast | vpn/src/main/jni/badvpn/flow/PacketPassFairQueue.c:52-77 | virtual time is at most the time of every active flow |
| FairQueue.FairQueue.GetCurrentTime | vpn/src/main/jni/badvpn/flow/PacketPassFairQueue.c:52-77 | computes virtual time from the sending, finished and first queued flow |
| FairQueue.FairQueue.SubtractFromAll | vpn/src/main/jni/badvpn/flow/PacketPassFairQueue.c:99-111 | the rebasing loop, flow by flow |
| FairQueue.FairQueue.IncrementSentFlow | vpn/src/main/jni/badvpn/flow/PacketPassFairQueue.c:79-116 | refines the charge |
| FairQueue.FairQueue.ScheduleNext | vpn/src/main/jni/badvpn/flow/PacketPassFairQueue.c:118-137 | sends the packet of the least queued flow |
| FairQueue.FairQueue.ScheduleJobHandler | vpn/src/main/jni/badvpn/flow/PacketPassFairQueue.c:139-151 | refines the scheduling job |
| FairQueue.FairQueue.InputSend | vpn/src/main/jni/badvpn/flow/PacketPassFairQueue.c:153-180 | queues a packet; a flow that just finished keeps its time, any other is raised to virtual time |
| FairQueue.FairQueue.OutputDone | vpn/src/main/jni/badvpn/flow/PacketPassFairQueue.c:182-217 | charges the flow, leaves scheduling to the job, and calls the busy handler of the flow if one was set, which is then unset; no other flow has one, and no cancel request outlives the packet |
| FairQueueControl.FinishedSane | vpn/src/main/jni/badvpn/flow/PacketPassFairQueue.c:182-217 | after a packet no busy handler is set and nothing is being sent, whatever was asked for meanwhile |
| FairQueue.FairQueue.FlowInit | vpn/src/main/jni/badvpn/flow/PacketPassFairQueue.c:296-321 | adds a flow at time zero |
| FairQueue.FairQueue.FlowFree | vpn/src/main/jni/badvpn/flow/PacketPassFairQueue.c:323-351 | removes a flow and its queued packet; the flow being sent only while the queue is being freed |
| FairQueue.FairQueue.Free | vpn/src/main/jni/badvpn/flow/PacketPassFairQueue.c:268-279 | what the code asserts holds: with the last flow gone nothing is queued, being sent or remembered |
| FairQueue.FairQueue.GetFirst | vpn/src/main/jni/badvpn/flow/PacketPassFairQueue.c:39-47 | the queued flow with the least time |
| FairQueueJobs.QueuedBeforeSchedule | vpn/src/main/jni/badvpn/flow/PacketPassFairQueue.c:182-217 | with the job list last-set-first and the send/done protocol of the interfaces: whatever happens between a packet being done and the schedule job running, by then the sender has had its report, and if it sent again the queue already has the packet |
| FairQueueJobs.ResendStays | vpn/src/main/jni/badvpn/flow/PacketPassFairQueue.c:139-217 | a flow that gets its next packet before the schedule job runs stays backlogged at the time it was charged up to |
| MacTableSpec.LookupTellsThePast | vpn/src/main/jni/badvpn/client/FrameDecider.c:499-504 | an address is found only with the peer that last sent from it; if it is not found there, that peer has sent from at least max_peer_macs others since |
| MacTableSpec.RunKeeps | vpn/src/main/jni/badvpn/client/FrameDecider.c:69-118 | over every run the lists of all peers are disjoint, bounded and in order of last use |
| MacTableSpec.EvictedIsOld | vpn/src/main/jni/badvpn/client/FrameDecider.c:98-107 | an address is evicted only after max_peer_macs other ones were used |
| MacTable.MacTable.AddMacToPeer | vpn/src/main/jni/badvpn/client/FrameDecider.c:69-118 | refines learning: refresh, theft from another peer, free entry or eviction; used plus free stays max_peer_macs |
| MacTable.MacTable.AssignNew | vpn/src/main/jni/badvpn/client/FrameDecider.c:89-117 | takes a free entry, or that of the address used longest ago |
| MacTable.MacTable.PeerInit | vpn/src/main/jni/badvpn/client/FrameDecider.c:585-593 | a peer with all entries free |
| MacTable.MacTable.Lookup | vpn/src/main/jni/badvpn/client/FrameDecider.c:499-504 | finds the holder of an address |
| MacTable.MacTable.PeerFree | vpn/src/main/jni/badvpn/client/FrameDecider.c:650-656 | takes every address of a peer out of the tree |
| GroupIndex.IndexIsMembership | vpn/src/main/jni/badvpn/client/FrameDecider.c:133-197 | a signature is in the tree exactly if an entry in use has it, and its master's list is exactly the entries that have it, each once |
| GroupIndex.AddedKeeps | vpn/src/main/jni/badvpn/client/FrameDecider.c:133-164 | adding an entry keeps the tree of masters and the lists in agreement with the entries in use |
| GroupIndex.RemovedKeeps | vpn/src/main/jni/badvpn/client/FrameDecider.c:166-197 | so does removing one, the master included |
| GroupTableSpec.MulticastFollowsMembership | vpn/src/main/jni/badvpn/client/FrameDecider.c:199-321 | after any run of reports, refreshes, evictions, timeouts, queries and peers coming and going, one destination per membership and a master exactly for the signatures in use |
| GroupHistory.DestinationsTellThePast | vpn/src/main/jni/badvpn/client/FrameDecider.c:199-321 | from the events alone: after any run a peer is a destination for a signature exactly if its last report of such a group still counts, that is, has not expired since, the peer has not left, and it never had as many other groups reported later and unexpired as it has entries |
| GroupHistory.MembershipTellsThePast | vpn/src/main/jni/badvpn/client/FrameDecider.c:199-279 | the same for each group: a peer is a member exactly if its last report of the group still counts |
| GroupHistory.TimersTellThePast | vpn/src/main/jni/badvpn/client/FrameDecider.c:249-314 | the timer of a membership ends an interval after the last report, or sooner after a query for the group |
| GroupTableSpec.OneDestinationPerMembership | vpn/src/main/jni/badvpn/client/FrameDecider.c:482-496 | a peer is a destination once for each of its groups with the signature |
| GroupTableSpec.StepKeeps | vpn/src/main/jni/badvpn/client/FrameDecider.c:199-321 | every step keeps the index, the bounds and the timers in agreement |
| GroupTable.GroupTable.AddToMulticast | vpn/src/main/jni/badvpn/client/FrameDecider.c:133-164 | refines the insertion behind the master |
| GroupTable.GroupTable.RemoveFromMulticast | vpn/src/main/jni/badvpn/client/FrameDecider.c:166-197 | refines the removal, with a new master where needed |
| GroupTable.GroupTable.AddGroupToPeer | vpn/src/main/jni/badvpn/client/FrameDecider.c:199-252 | refines a report: refresh, free entry or the oldest one |
| GroupTable.GroupTable.RemoveGroupEntry | vpn/src/main/jni/badvpn/client/FrameDecider.c:254-279 | refines the end of a membership |
| GroupTable.GroupTable.LowerGroupTimers | vpn/src/main/jni/badvpn/client/FrameDecider.c:281-314 | shortens exactly the timers of the queried group that run longer |
| GroupTable.GroupTable.PeerInit | vpn/src/main/jni/badvpn/client/FrameDecider.c:595-612 | a peer with no memberships |
| GroupTable.GroupTable.PeerFree | vpn/src/main/jni/badvpn/client/FrameDecider.c:626-648 | ends every membership of a peer |
| FrameDecider.SignaturesAgree | vpn/src/main/jni/badvpn/client/FrameDecider.c:120-131 | a group and the multicast address it maps to (section 6.4 of RFC 1112) have the same signature |
| FrameHistory.DecisionGoes | vpn/src/main/jni/badvpn/client/FrameDecider.c:481-510 | from the events alone: broadcasts and IGMP go to every peer once, a multicast to the peers with a report that still counts, any other frame to the peer that last sent from its address, or to everyone if nobody has or that peer has since sent from as many others as are kept |
| FrameDecider.Decider.DecisionTells | vpn/src/main/jni/badvpn/client/FrameDecider.c:481-510 | what is decided from the two tables is what the history calls for |
| FrameDecider.Decider.Analyze | vpn/src/main/jni/badvpn/client/FrameDecider.c:671-795 | learns the source address and takes the reports, in turn; both tables go on telling the past |
| FrameDecider.Decider.Expire | vpn/src/main/jni/badvpn/client/FrameDecider.c:316-321 | so they do after a membership has timed out |
| FrameDecider.Decider.Query | vpn/src/main/jni/badvpn/client/FrameDecider.c:427-463 | and after a query for a group |
| FrameDecider.Decider.Decide | vpn/src/main/jni/badvpn/client/FrameDecider.c:481-510 | decides on multicast, unicast or flooding by the learned state |
| FrameDecider.Decider.StartFlood | vpn/src/main/jni/badvpn/client/FrameDecider.c:506-509 | a flood starts with the first peer |
| FrameDecider.Decider.NextDestination | vpn/src/main/jni/badvpn/client/FrameDecider.c:512-556 | takes the decision's destinations one by one |
| FrameDecider.Decider.Forward | vpn/src/main/jni/badvpn/client/client.c:2666-2682 | a drained decision yields, in all, exactly the destinations the history calls for: the members, the last sender, or every peer |
| FrameDecider.Decider.PeerInit | vpn/src/main/jni/badvpn/client/FrameDecider.c:558-624 | adds a peer that has learned nothing |
| FrameDecider.Decider.PeerFree | vpn/src/main/jni/badvpn/client/FrameDecider.c:626-669 | removes a peer from both tables; what a decision under way has still to hand out is what it had, without that peer |
| FrameDecider.FreedRemaining | vpn/src/main/jni/badvpn/client/FrameDecider.c:626-662 | a flood, a unicast or a multicast decision left standing anywhere still yields all its other destinations |
| BProtoRoundTrip.MessagesAreEncodings | vpn/src/main/jni/badvpn/bproto_generator/bproto_functions.php:342-419 | the messages of a schema are exactly the encodings of the record lists it allows, and the records read are the records written |
| BProtoRoundTrip.RecordsOfEncoded | vpn/src/main/jni/badvpn/bproto_generator/bproto_functions.php:342-419 | what is written is read back |
| BProtoRoundTrip.EncodedRecords | vpn/src/main/jni/badvpn/bproto_generator/bproto_functions.php:431-575 | what is read, written again, is the same buffer |
| BProtoRoundTrip.MessageIs | vpn/src/main/jni/badvpn/bproto_generator/bproto_functions.php:421-605 | a buffer is a message exactly if it is records, each of some field, a required field occurs, and one that may not be repeated does not occur twice |
| WireLayout.RecordLayout | vpn/src/main/jni/badvpn/bproto/BProto.h:41-54 | which byte of a record holds what, and the type numbers |
| WireLayout.ChunkLayout | vpn/src/main/jni/badvpn/protocol/fragmentproto.h:52-80 | which byte of a chunk holds what |
| WireLayout.PacketLayout | vpn/src/main/jni/badvpn/protocol/packetproto.h:50-62 | which byte of a packet on a stream holds what |
| WireLayout.ReplyLayout | vpn/src/main/jni/badvpn/dhcpclient/BDHCPClientCore.c:277-392 | of any options in any order: type, server, lease time and mask are options 53, 54, 51 and 1, the last of each; offers, acknowledgements and refusals are of types 2, 5 and 6; numbers have their high byte first |
| Bytes.ToLeByte | vpn/src/main/jni/badvpn/misc/byteorder.h:87-156 | byte i of a little-endian integer v is v / 256^i modulo 256 |
| BProtoParser.Parser.Init | vpn/src/main/jni/badvpn/bproto_generator/bproto_functions.php:421-610 | accepts exactly the messages of the schema, each field with all its values ahead |
| BProtoParser.Parser.Get | vpn/src/main/jni/badvpn/bproto_generator/bproto_functions.php:642-759 | returns the bytes of the next value of the field, or none once all are read, and touches no other field; the reading position stays on record boundaries |
| BProtoParser.Parser.GetUint | vpn/src/main/jni/badvpn/bproto_generator/bproto_functions.php:642-759 | for an integer field, the number itself |
| BProtoParser.Parser.Reset | vpn/src/main/jni/badvpn/bproto_generator/bproto_functions.php:761-764 | all values of the field are ahead again |
| BProtoParser.Parser.Forward | vpn/src/main/jni/badvpn/bproto_generator/bproto_functions.php:766-769 | no value of the field is left |
| BProtoParser.Parser.GotEverything | vpn/src/main/jni/badvpn/bproto_generator/bproto_functions.php:612-637 | true exactly if every field is exhausted |
| BProtoParser.FindField | vpn/src/main/jni/badvpn/bproto_generator/bproto_functions.php:470-570 | the field a record belongs to, if the schema has one |
| BProtoParser.CheckCounts | vpn/src/main/jni/badvpn/bproto_generator/bproto_functions.php:580-605 | accepts exactly the counts the cardinalities allow |
| BProtoParser.RecordAt | vpn/src/main/jni/badvpn/bproto_generator/bproto_functions.php:664-735 | in an accepted buffer a record with a field's identifier is that field's, size included |
| BProtoWindow.CursorStep | vpn/src/main/jni/badvpn/bproto_generator/bproto_functions.php:648-755 | stepping over a record of the stretch stays on a boundary and passes exactly the field's value |
| BProtoWindow.ExhaustedIff | vpn/src/main/jni/badvpn/bproto_generator/bproto_functions.php:612-637 | a field is exhausted exactly if its position has reached the end of its stretch |
| BProtoWriter.Writer.AddUint | vpn/src/main/jni/badvpn/bproto_generator/bproto_functions.php:342-378 | appends a record whose bytes stand for the integer |
| BProtoWriter.Writer.AddData | vpn/src/main/jni/badvpn/bproto_generator/bproto_functions.php:379-410 | appends a record of the data |
| BProtoWriter.Writer.Append | vpn/src/main/jni/badvpn/bproto_generator/bproto_functions.php:342-419 | one more record behind the others, and one more counted |
| BProtoWriter.Writer.Finish | vpn/src/main/jni/badvpn/bproto_generator/bproto_functions.php:320-338 | the buffer is a message of the schema and its records are those added |
| BProtoExchange.Exchange | vpn/src/main/jni/badvpn/bproto_generator/bproto_functions.php:320-769 | write any list of values the schema allows, parse the buffer and read every field to the end: the parser accepts, each field yields exactly the values it was given, in order, and nothing is left |
| BProtoExchange.WriteAll | vpn/src/main/jni/badvpn/bproto_generator/bproto_functions.php:342-419 | adding values one by one leaves their records, in order |
| BProtoExchange.ReadAll | vpn/src/main/jni/badvpn/bproto_generator/bproto_functions.php:642-759 | reading a field until it yields nothing gives all its values and leaves the other fields alone |
| PacketProtoSpec.StreamDelivers | vpn/src/main/jni/badvpn/flow/PacketProtoDecoder.c:46-128 | however the encoded stream is cut into receives, if all packets fit those handed out are a prefix of those sent; and once the decoder waits for more they are just those sent, if and only if all fit |
| PacketProtoSpec.RunParses | vpn/src/main/jni/badvpn/flow/PacketProtoDecoder.c:46-128 | over any run and any stream without an oversized packet, the packets handed out and those still buffered are those of the stream |
| PacketProtoSpec.ParseEncoded | vpn/src/main/jni/badvpn/flow/PacketProtoEncoder.c:40-64 | an encoded packet list parses without error exactly if every packet fits, and then into that list |
| PacketProtoSpec.CutMattersAfterError | vpn/src/main/jni/badvpn/flow/PacketProtoDecoder.c:64-90 | with a packet that does not fit, the cut does matter: a longer receive loses what follows |
| PacketProto.Decoder.constructor | vpn/src/main/jni/badvpn/flow/PacketProtoDecoder.c:130-166 | an empty buffer with room for the largest packet and a receive outstanding |
| PacketProto.Decoder.ProcessData | vpn/src/main/jni/badvpn/flow/PacketProtoDecoder.c:46-105 | submits the first whole packet, or asks for more at a place with room, dropping all on an oversized one |
| PacketProto.Decoder.MoveToFront | vpn/src/main/jni/badvpn/flow/PacketProtoDecoder.c:90-94 | the buffered bytes end up at the front, unchanged |
| PacketProto.Decoder.TakePacket | vpn/src/main/jni/badvpn/flow/PacketProtoDecoder.c:76-82 | steps over a whole packet |
| PacketProto.Decoder.InputDone | vpn/src/main/jni/badvpn/flow/PacketProtoDecoder.c:107-119 | refines the arrival of bytes |
| PacketProto.Decoder.OutputDone | vpn/src/main/jni/badvpn/flow/PacketProtoDecoder.c:121-128 | refines the end of a submission |
| PacketProto.Decoder.Reset | vpn/src/main/jni/badvpn/flow/PacketProtoDecoder.c:176-182 | forgets what is buffered and leaves an outstanding receive right behind it |
| PacketProto.Encoder.OutputRecv | vpn/src/main/jni/badvpn/flow/PacketProtoEncoder.c:40-49 | the payload is to be written behind the header |
| PacketProto.Encoder.InputDone | vpn/src/main/jni/badvpn/flow/PacketProtoEncoder.c:51-64 | the buffer holds the encoding of the payload written into it |
| SPProtoRoundTrip.RoundTrip | vpn/src/main/jni/badvpn/client/SPProtoDecoder.c:42-155 | decoding an encoded packet gives the same payload, seed and password, for every choice of options and any cipher |
| SPProtoRoundTrip.DecodeIff | vpn/src/main/jni/badvpn/client/SPProtoDecoder.c:42-155 | the decoder returns a packet exactly if the datagram is that packet's encoding, the key is there and the payload fits |
| SPProtoRoundTrip.DecodedCarries | vpn/src/main/jni/badvpn/client/SPProtoDecoder.c:120-129 | what is decoded has a seed and a password exactly if they are in use |
| SPProtoBytes.DecodedIff | vpn/src/main/jni/badvpn/client/SPProtoDecoder.c:42-155 | on bytes: a packet is returned exactly if the key is there and the plaintext of the datagram has a legal length and in its hash field the hash of all of it, password and payload included, with that field zeroed; and it is what stands at the places of seed, password and payload |
| SPProtoBytes.EncodedBytes | vpn/src/main/jni/badvpn/client/SPProtoEncoder.c:87-152 | the plaintext of an encoded datagram has that hash and holds the packet at those places, behind the vector if encrypted |
| SPProtoBytes.UnsealedRefused | vpn/src/main/jni/badvpn/client/SPProtoDecoder.c:132-150 | a datagram whose hash field holds anything else is refused |
| SPProtoSpec.PadScan | vpn/src/main/jni/badvpn/client/SPProtoDecoder.c:88-107 | the backward scan finds the written pad whatever the text, and a pad only where one could have been written |
| SPProtoRoundTrip.EncodedSize | vpn/src/main/jni/badvpn/client/SPProtoEncoder.c:87-152 | a datagram has exactly the announced size, within that of the largest payload |
| SPProtoRoundTrip.SizesAgree | vpn/src/main/jni/badvpn/protocol/spproto.h:152-193 | a payload fits a carrier exactly if the carrier has room for its datagram |
| SPProto.Encoder.EncodeWork | vpn/src/main/jni/badvpn/client/SPProtoEncoder.c:87-152 | leaves the encoding of the payload in the output packet, within its size |
| SPProto.Encoder.WritePlain | vpn/src/main/jni/badvpn/client/SPProtoEncoder.c:95-122 | header and hash in front of the payload, the hash taken over all of it with its own field zeroed |
| SPProto.Encoder.WritePad | vpn/src/main/jni/badvpn/client/SPProtoEncoder.c:126-134 | the padding loop |
| SPProto.Decoder.DecodeWork | vpn/src/main/jni/badvpn/client/SPProtoDecoder.c:42-155 | computes the decoding and leaves the datagram as it was |
| SPProto.Decoder.FindPad | vpn/src/main/jni/badvpn/client/SPProtoDecoder.c:88-107 | the scanning loop |
| SPProto.Decoder.CheckHash | vpn/src/main/jni/badvpn/client/SPProtoDecoder.c:132-150 | compares the hash of the whole plaintext with the field blanked, and puts the field back |
| SPProto.Decoder.ReadPlain | vpn/src/main/jni/badvpn/client/SPProtoDecoder.c:110-155 | the checks on a plaintext, header to hash |
| RelaySpec.RunKeeps | vpn/src/main/jni/badvpn/client/client.c:1729-1898 | in every reachable state each peer has at most one of link, relay and place in the queue, relays have links, users lists and relay pointers are inverse, nobody is relayed through itself or a removed peer, and a peer waits only while there are no relays |
| RelayHistory.RelaysTellThePast | vpn/src/main/jni/badvpn/client/client.c:1729-1898 | from the events alone, after any run: who has a link, who is a relay (its link came up as one to a possible relay and nothing has ended that since) and who is in need of one; a peer in need is reached through a peer whose link is up, and waits only if there is none |
| RelayChoice.RelayChosen | vpn/src/main/jni/badvpn/client/client.c:2684-2709 | and through which: the relay it had for as long as that one serves, and otherwise the one that has served longest |
| RelayHistory.NobodyThroughDown | vpn/src/main/jni/badvpn/client/client.c:2626-2645 | once a link is down nobody is reached through it; whoever was has another relay or waits |
| RelaySpec.DisabledOutcome | vpn/src/main/jni/badvpn/client/client.c:1771-1800 | the users of a disabled relay go to the first relay left, or wait if none is |
| RelaySpec.AssignedKeeps | vpn/src/main/jni/badvpn/client/client.c:2684-2709 | after assigning, nobody waits while there is a relay |
| RelaySpec.AssignOne | vpn/src/main/jni/badvpn/client/client.c:2684-2709 | each round of the loop keeps the invariant and the final outcome |
| RelaySpec.ReleaseOne | vpn/src/main/jni/badvpn/client/client.c:1779-1790 | so does each round of the loop that releases users |
| RelaySpec.CleanedKeeps | vpn/src/main/jni/badvpn/client/client.c:1729-1748 | after a cleanup the peer has nothing left, and the others are still in order |
| RelaySpec.NeededKeeps | vpn/src/main/jni/badvpn/client/client.c:1847-1868 | a peer in need of a relay has one or waits |
| Relay.Client.AddPeer | vpn/src/main/jni/badvpn/client/client.c:1455-1475 | a new peer with nothing |
| Relay.Client.RemovePeer | vpn/src/main/jni/badvpn/client/client.c:1509-1523 | a removed peer leaves no trace |
| Relay.Client.GetLink | vpn/src/main/jni/badvpn/client/client.c:2348-2355 | a fresh link in place of what the peer had |
| Relay.Client.CleanupConnections | vpn/src/main/jni/badvpn/client/client.c:1729-1748 | refines the cleanup |
| Relay.Client.DataProtoHandler | vpn/src/main/jni/badvpn/client/client.c:2626-2645 | a link up makes a relay of a peer that can be one; a link down ends it, and nobody is reached through it any more |
| Relay.Client.EnableRelayProvider | vpn/src/main/jni/badvpn/client/client.c:1750-1769 | a new relay, with everyone waiting assigned |
| Relay.Client.DisableRelayProvider | vpn/src/main/jni/badvpn/client/client.c:1771-1800 | its users released and assigned anew |
| Relay.Client.ReleaseUsers | vpn/src/main/jni/badvpn/client/client.c:1779-1790 | the releasing loop ends in its closed form |
| Relay.Client.InstallRelaying | vpn/src/main/jni/badvpn/client/client.c:1802-1822 | relay pointer and users list together |
| Relay.Client.FreeRelaying | vpn/src/main/jni/badvpn/client/client.c:1824-1845 | undoes it |
| Relay.Client.NeedRelay | vpn/src/main/jni/badvpn/client/client.c:1847-1868 | refines the request for a relay |
| Relay.Client.RegisterNeedRelay | vpn/src/main/jni/badvpn/client/client.c:1870-1883 | flag and queue together |
| Relay.Client.UnregisterNeedRelay | vpn/src/main/jni/badvpn/client/client.c:1885-1898 | undoes it |
| Relay.Client.FreeLink | vpn/src/main/jni/badvpn/client/client.c:1695-1727 | no link any more |
| Relay.Client.AssignRelays | vpn/src/main/jni/badvpn/client/client.c:2684-2709 | the assigning loop ends in its closed form |
| BindSpec.Negotiation | vpn/src/main/jni/badvpn/client/client.c:2001-2122 | in whatever order messages are delivered: at most one offer per address, an end after at most two deliveries an address and two more, and the end is that the slave connects to the master's first good address, or the master to the slave's, or both ask for a relay |
| BindSpec.DeliverInv | vpn/src/main/jni/badvpn/client/client.c:2001-2122 | the stages of the negotiation follow one another |
| BindSpec.FirstGoodIs | vpn/src/main/jni/badvpn/client/client.c:2307-2324 | the first good address is the least index of an address that is offered and usable |
| BindSpec.DeliverDescends | vpn/src/main/jni/badvpn/client/client.c:2293-2340 | each delivery brings the end nearer and each offer uses up an address |
| Bind.PeerData.Bind | vpn/src/main/jni/badvpn/client/client.c:2301-2340 | offers the next address that can be bound and has external addresses, or gives up |
| Bind.PeerData.StartBinding | vpn/src/main/jni/badvpn/client/client.c:2293-2299 | begins with the first address |
| Bind.PeerData.MsgYouConnect | vpn/src/main/jni/badvpn/client/client.c:2001-2085 | connects to the first usable address of an offer, or refuses |
| Bind.PeerData.MsgCannotConnect | vpn/src/main/jni/badvpn/client/client.c:2087-2104 | goes on to the next address if binding |
| Bind.PeerData.MsgCannotBind | vpn/src/main/jni/badvpn/client/client.c:2106-2122 | the slave starts binding, the master asks for a relay |
| DataProtoSpec.Reachable | vpn/src/main/jni/badvpn/client/DataProto.c:146-225 | in every reachable state a detaching buffer is attached to its sink, is the one being sent from and has its busy handler set; no other buffer has one; a packet being sent has been asked to cancel once if its buffer is leaving and otherwise not; every other buffer is where its flow wants it; a buffer without a flow is leaving |
| DataProtoHistory.PlacesTold | vpn/src/main/jni/badvpn/client/DataProto.c:146-566 | from the events alone, after any run: which sinks and flows there are and what each flow desires; that its buffer is at the sink sending from it, if one is, and else where the flow was attached last; and that a packet being sent is asked to be cancelled, once, exactly if its flow was detached meanwhile |
| DataProtoSpec.NobodyLeft | vpn/src/main/jni/badvpn/client/DataProto.c:297-337 | after a sink is freed no buffer points at it |
| DataProtoSpec.EndSendIs | vpn/src/main/jni/badvpn/client/DataProto.c:200-225 | when the packet is out, the handler makes exactly the buffer remembered as leaving go where its flow wants it by then, or away with its flow; without a handler nothing moves |
| DataProtoSpec.FreeSinkIs | vpn/src/main/jni/badvpn/client/DataProto.c:297-310 | so does the end of a sink, though its packet is not out |
| DataProtoSpec.LeaveIs | vpn/src/main/jni/badvpn/client/DataProto.c:160-198 | a buffer not being sent from is detached at once; one that is gets a mark, a handler and a single cancel request, however often it is asked to leave |
| DataProtoSpec.BusyFacts | vpn/src/main/jni/badvpn/client/DataProto.c:218-225 | what the busy handler asserts holds when the queue calls it |
| DataProtoSpec.StepKeeps | vpn/src/main/jni/badvpn/client/DataProto.c:146-566 | every operation and every packet sent keeps the invariant |
| DataProtoQueue.QueuesAgree | vpn/src/main/jni/badvpn/client/DataProto.c:146-225 | over the queues of the sinks in full: in every reachable state the buffer a sink remembers as leaving is the flow its queue is sending, the only one with a busy handler, with its packet cancelled once; otherwise no handler is set and no cancel pending; and a queue has just the flows of the attached buffers |
| DataProtoQueue.StepAs | vpn/src/main/jni/badvpn/client/DataProto.c:146-566 | every operation, and every step of a queue, is one on the sinks and flows or none; busy buffers, handlers and cancel requests are those of the queue |
| DataProtoQueue.OutputDoneAs | vpn/src/main/jni/badvpn/flow/PacketPassFairQueue.c:182-217 | the end of a packet as the queue does it, handler call included, is the end of a packet as the sinks see it |
| DataProtoQueue.CalledWanted | vpn/src/main/jni/badvpn/client/DataProto.c:200-225 | what the busy handler and what it calls assert holds when the queue calls it, the flow no longer being sent included |
| DataProtoSpec.FlowFacts | vpn/src/main/jni/badvpn/client/DataProto.c:180-198 | what the code asserts of a buffer about to leave holds |
| DataProto.DataProtoTable.ScheduleDetach | vpn/src/main/jni/badvpn/client/DataProto.c:180-198 | requests a cancel, sets the busy handler and remembers the buffer in the sink, unless it is remembered already |
| DataProto.DataProtoTable.DetachBuffer | vpn/src/main/jni/badvpn/client/DataProto.c:160-178 | attached to none, no longer remembered, and out of a queue that was sending from it |
| DataProto.DataProtoTable.FinishDetach | vpn/src/main/jni/badvpn/client/DataProto.c:200-216 | detaches, then frees or attaches anew |
| DataProto.DataProtoTable.SendEnds | vpn/src/main/jni/badvpn/client/DataProto.c:218-225 | the queue is done with the packet: the handler of its flow, if one is set, is unset and called; refines the end of a packet |
| DataProto.DataProtoTable.SinkFree | vpn/src/main/jni/badvpn/client/DataProto.c:297-337 | leaves no buffer attached |
| DataProto.DataProtoTable.SinkInit | vpn/src/main/jni/badvpn/client/DataProto.c:227-295 | a sink with nothing to send |
| DataProto.DataProtoTable.FlowInit | vpn/src/main/jni/badvpn/client/DataProto.c:396-456 | a flow with a buffer attached to nothing |
| DataProto.DataProtoTable.FlowFree | vpn/src/main/jni/badvpn/client/DataProto.c:458-484 | frees the buffer now, or once it has left |
| DataProto.DataProtoTable.FlowAttach | vpn/src/main/jni/badvpn/client/DataProto.c:516-543 | attaches now, or once the buffer has left its sink |
| DataProto.DataProtoTable.FlowDetach | vpn/src/main/jni/badvpn/client/DataProto.c:545-566 | detaches now or later |
| DhcpSpec.Safety | vpn/src/main/jni/badvpn/dhcpclient/BDHCPClientCore.c:406-678 | over every run with timers at most a given time late: reports alternate, the client is up exactly when last reported so, the running timers are those of the state, and while up the client is never past its last acknowledgement by more than the lease and twice that lateness (section 4.4.5 of RFC 2131) |
| DhcpHistory.ClientFollows | vpn/src/main/jni/badvpn/dhcpclient/BDHCPClientCore.c:406-678 | after any run, whatever comes next: the client asks for the address it was offered, of the server that offered it while requesting and of no one in particular while renewing, under its current transaction id; it comes up on an acknowledgement of just that, goes back on a refusal from just that server, heeds no other reply, and its timers run from what started them |
| DhcpHistory.AwaitedAck | vpn/src/main/jni/badvpn/dhcpclient/BDHCPClientCore.c:466-562 | while requesting, the acknowledgement of what was requested is reported at once, and one of another address or from another server changes nothing |
| DhcpSpec.StepKeeps | vpn/src/main/jni/badvpn/dhcpclient/BDHCPClientCore.c:406-678 | every event keeps the invariant and reports only a change |
| DhcpSpec.DownMeans | vpn/src/main/jni/badvpn/dhcpclient/BDHCPClientCore.c:406-678 | the client goes down only on a refusal by its server in its transaction, or when the lease is over: not before its end and at most twice the lateness after it |
| DhcpSpec.RenewFacts | vpn/src/main/jni/badvpn/dhcpclient/BDHCPClientCore.c:628-646 | when the renew timer fires there is a lease, at least half of it is over, and the lease timer it will set ends with the lease or at most the lateness after |
| DhcpSpec.RequestFacts | vpn/src/main/jni/badvpn/dhcpclient/BDHCPClientCore.c:601-626 | when the request timer fires one to four requests are out, each has had its full time, and the client is and stays down |
| DhcpSpec.NakKeeps | vpn/src/main/jni/badvpn/dhcpclient/BDHCPClientCore.c:406-464 | a refusal, whether it is heeded or not, keeps the invariant |
| DhcpSpec.StartKeeps | vpn/src/main/jni/badvpn/dhcpclient/BDHCPClientCore.c:565-626 | so does starting over, when the reset timer or the last request timer expires |
| DhcpOptions.ParseOptions | vpn/src/main/jni/badvpn/dhcpclient/BDHCPClientCore.c:277-392 | reads exactly the well-formed option lists, the last option of each type counting |
| DhcpOptions.SplitEncoded | vpn/src/main/jni/badvpn/dhcpclient/BDHCPClientCore.c:277-314 | any option list, ended and padded, is read back as it was written |
| DhcpOptions.ReadServers | vpn/src/main/jni/badvpn/dhcpclient/BDHCPClientCore.c:371-386 | keeps the first sixteen name servers |
| DhcpOptions.TakeOption | vpn/src/main/jni/badvpn/dhcpclient/BDHCPClientCore.c:316-387 | replaces the field of a known option, and rejects a wrong size |
| DhcpOptions.ParsedRead | vpn/src/main/jni/badvpn/dhcpclient/BDHCPClientCore.c:316-369 | what was parsed has the sizes the rest relies on |
| Dhcp.Client.constructor | vpn/src/main/jni/badvpn/dhcpclient/BDHCPClientCore.c:764-778 | starts with a discover under a new transaction id |
| Dhcp.Client.ResetTimerHandler | vpn/src/main/jni/badvpn/dhcpclient/BDHCPClientCore.c:591-599 | fires only while resetting or discovering, as the code asserts; the client is down before and after, and has a discover out under a new transaction id if it was resetting |
| Dhcp.Client.RequestTimerHandler | vpn/src/main/jni/badvpn/dhcpclient/BDHCPClientCore.c:601-626 | fires only with one to four requests unanswered, each given its full time; the request is repeated, or after the fourth the client starts over |
| Dhcp.Client.RenewTimerHandler | vpn/src/main/jni/badvpn/dhcpclient/BDHCPClientCore.c:628-646 | fires only while up and not before half the lease is over; the lease timer it sets ends no earlier than the lease and no later than that and the lateness |
| Dhcp.Client.RenewRequestTimerHandler | vpn/src/main/jni/badvpn/dhcpclient/BDHCPClientCore.c:648-660 | fires only while renewing; the lease timer and the history stay as they are |
| Dhcp.Client.LeaseTimerHandler | vpn/src/main/jni/badvpn/dhcpclient/BDHCPClientCore.c:662-678 | fires only while renewing, not before the lease is over and at most twice the lateness after; reports down, once, and starts over under a new transaction id |
| Dhcp.Client.HandleReply | vpn/src/main/jni/badvpn/dhcpclient/BDHCPClientCore.c:466-562 | the checks in the order of the code come to the handling of a reply in the specification, which is what the history calls for |
| Dhcp.Client.Receive | vpn/src/main/jni/badvpn/dhcpclient/BDHCPClientCore.c:208-563 | a packet changes nothing unless its header and options are well-formed and it is addressed to this client and its transaction; otherwise it is handled, the invariant kept and only a change reported |
| Pending.RunOrdered | vpn/src/main/jni/badvpn/base/BPending.c:66-171 | the list always holds exactly the jobs set and not since unset or run, each once, latest set first |
| Pending.LastSetFirst | vpn/src/main/jni/badvpn/base/BPending.c:66-88 | the job that runs next is the one set last |
| Pending.PendingGroup.SetJob | vpn/src/main/jni/badvpn/base/BPending.c:137-154 | puts the job first, wherever it was |
| Pending.PendingGroup.UnsetJob | vpn/src/main/jni/badvpn/base/BPending.c:156-171 | takes it off |
| Pending.PendingGroup.ExecuteJob | vpn/src/main/jni/badvpn/base/BPending.c:66-88 | takes the first job off, to be run |
| PacketPassSpec.RunFollows | vpn/src/main/jni/badvpn/flow/PacketPassInterface.h:149-227 | in every run over any number of interfaces, each packet sent is started at most once with its data and not at all after an early cancel, the provider is told to cancel at most once and only while busy, and each packet is finished once before the next is sent |
| PacketPassSpec.StepFollows | vpn/src/main/jni/badvpn/flow/PacketPassInterface.c:32-68 | each step keeps jobs and states in agreement and is allowed by the protocol |
| PacketPass.PacketPassInterface.Send | vpn/src/main/jni/badvpn/flow/PacketPassInterface.h:181-198 | schedules the operation |
| PacketPass.PacketPassInterface.EnableCancel | vpn/src/main/jni/badvpn/flow/PacketPassInterface.h:140-147 | allows cancel requests |
| PacketPass.PacketPassInterface.RequestCancel | vpn/src/main/jni/badvpn/flow/PacketPassInterface.h:200-227 | ends an operation not yet started, or asks the provider once |
| PacketPass.PacketPassInterface.Done | vpn/src/main/jni/badvpn/flow/PacketPassInterface.h:149-162 | withdraws a cancel request and schedules the report |
| PacketPass.PacketPassInterface.RunOwnJob | vpn/src/main/jni/badvpn/flow/PacketPassInterface.c:32-68 | what the three job handlers assert holds |

## Left out

- Lists, trees and pools are sequences, maps and counts: the AVL tree and linked-list code is not part of this model, nor is which of several equal list nodes or pool entries is used. The fragment pool keeps its entries and free list.
- MacTable.MacTable.AddMacToPeer: an entry is named by the address it holds, and the free list is a count, because entries carry nothing else.
- GroupTable.GroupTable.AddGroupToPeer: an entry is named by its peer and group, for the same reason.
- FrameDecider.Decider.Decide: with a multicast decision still undrained the code frees its iterator and returns; the model keeps the old decision. The client drains every decision, and `Forward` models that.
- FrameDecider.Decider.Analyze: the groups a frame reports come with the call, already parsed.
- FrameDecider.Decider.NextDestination: the position in a multicast list is kept as the list of entries still to come, so a membership that ends while a decision is being drained is not followed.
- FragmentCancel.DeliveredFrames: runs with fewer frames than the 2^16 ids; in a longer one an id may come round to a frame that was left over.
- FairQueue.FairQueue.OutputDone: cancelling is taken to be enabled in the queue; what a busy handler does is up to its user, and DataProto has the one in the source.
- FairQueueFairness.LagDecides: between the two halves lies one packet, because the lengths of packets still to come are not known at the start.
- DataProto.DataProtoTable.SendEnds: the table keeps of a sink's queue the flow it is sending from, the busy handlers and the cancel requests, and `DataProtoQueue` proves them to be those of the queue; keepalive packets, the up/down report and the inactivity monitor are left out.
- BProtoWriter.Writer.AddData: the data is given with the call, where the code returns the place for the caller to fill in.
- Bind.PeerData.Bind: a link that cannot be set up resets the peer in the code, and a peer that is a relay asks for none; both are outside the negotiation modelled.
- Bind.PeerData.MsgYouConnect: messages are taken to be well-formed and to arrive; resets, chat failures and missing keys end the negotiation in the code and are outside the theorem.
- Bind.PeerData.MsgCannotBind: the peer is taken not to be a relay while the two negotiate; the code then does not ask for a relay in its place.
- Relay.Client.GetLink: a link that cannot be set up is a reset, which is an event of its own.
- SPProto.Encoder.EncodeWork: which one-time password is used and whether the seed has been confirmed is left out, as are the worker threads.
- Dhcp.Client.Receive: the packet comes as its header fields and its options; the mask, router and name servers kept, and the options sent, are left out.
- PacketPass.PacketPassInterface.Send: the callbacks are observations of a run; what a handler does next is a further event.
- PacketPassConnector, PacketRouter, DPRelay, DPReceive, the packet buffers, blockers, notifiers and monitors: they would add mostly easy members.
- IGMP and IPv4 header parsing, the DHCP IP/UDP layers: the model starts from parsed events.
- The OTP seed handshake, PeerChat, StreamPeerIO and everything on NSS: not part of this model.
- The bproto grammar and tokenizer: the model starts from a parsed schema.
- dostest, flooder, server, JNI glue, option handling, logging and debug objects: not part of this model.
