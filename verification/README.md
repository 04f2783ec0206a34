# The RTMFP flow transport, verified

This project models the flow transport of an RTMFP implementation (RFC 7016) written in Go, and proves what it is
for: messages given to a flow arrive intact, in order and without repeats, over a channel that may lose, delay,
reorder and repeat datagrams. `dafny verify dfyconfig.toml` checks everything.

## How it is built

| file | what it models |
|---|---|
| `Arithmetic.dfy` | facts about products and remainders that proofs elsewhere need |
| `ByteBuffers.dfy` | bytes, big-endian integers, the buffer that every codec appends to or consumes |
| `Vlus.dfy` | variable-length integers and option lists |
| `Ranges.dfy` | ranges and the range queue, against the set of numbers it stands for |
| `Fragments.dfy` | cutting messages into chunks and reading them back |
| `ChunkHeap.dfy` | the min-heap of chunks, against its sorted view |
| `RecvFlows.dfy` | the receiving flow: de-duplication, reordering, reassembly, acks |
| `AckPolicy.dfy` | which chunks a receiver acks at once, over whole runs |
| `Congestion.dfy`, `Timers.dfy` | the congestion window; round-trip estimates and the retransmission timer |
| `SendFlows.dfy` | the sending flow: queue, retransmission, windows, negative acks |
| `SendRuns.dfy` | what runs of a sender add up to: transmissions, giving up, flow control, repeated acks |
| `ChunkCodecs.dfy`, `Packets.dfy` | User Data and Range Ack chunks; packets with padding, checksum and scrambling |
| `Protocol.dfy` | both flows over the channel; the theorems about whole runs |
| `Completion.dfy`, `Deadlocks.dfy` | when a transfer can still be completed, and exactly when it cannot |
| `Amf.dfy`, `AmfSizes.dfy`, `NetStreams.dfy` | AMF values, the bytes they take, and commands sent across the protocol |
| `Keying.dfy` | the Diffie-Hellman exchange and the session keys |
| `WireFormats.dfy` | layouts of packets, chunks and commands, byte by byte |
| `NoisyChannels.dfy` | the lossy reordering queue, as an instance of the protocol's channel |

Code that updates state in place is a class whose methods have the loops of the source. Each method is proved equal
to a function on the values of its fields (`Model()` gives them), and the properties are lemmas about those
functions: what each step keeps, what whole runs keep, what undoes what. `Protocol.dfy` composes the functions of the
two flows with the codecs. Its channel holds real datagrams: at every step it may drop any of them and keep the
others for later, so each may arrive never, once or often, in any order. Every datagram is a packed and encrypted
packet that the other end has to open and decode again.

The main invariant (`Protocol.Inv`) ties both ends together: every chunk in the send queue, in the receiver's buffers
and in every datagram under way is the chunk of that number in the stream cut from the messages sent; the ordered
buffer is the piece of the stream from the end of the last message read to the last number in order; the sender
believes only numbers that the receiver has; and every number handed out is still queued or has been received.

## Where the code falls short, stated exactly

- A chunk numbered zero breaks the receiver's invariant, and no other does (`RecvFlows.UserdataAgreement`); from then
  on nothing is put in order again (`RecvFlows.ZeroBlocks`). Numbering from one (src/rtmfp/flow.go:104-107) avoids it.
- A hole in front of everything received does not count as one: with chunk 2 received and chunk 1 missing, chunk 3 is
  not acked at once (`AckPolicy.FrontHoleWaits`). A new chunk that is the first since an ack with at least two blocks
  is acked at once if and only if a number is missing between two received ones (`AckPolicy.Unanswered`).
- `get_vlu_size` is always one: the first chunk of a flow survives its options exactly for related flow ids below 128
  (`ChunkCodecs.FirstChunkSurvives`). The protocol theorems assume such an id.
- `write_amf3_u29` writes three bytes for 0x200000 to 0x3FFFFF and the reader wants four there: the round trip holds
  exactly outside that interval (`Amf.U29RoundTrip`, `Amf.ByteArrayValue`). A byte array of such a size anywhere in a
  value breaks the value, for every order in which its maps are written (`AmfSizes.AmfRoundTrip`).
- `read_amf0_object` takes a key whose length has 0x09 as its high byte, or an empty key, for the end of the object,
  and string lengths keep sixteen bits. No bytes at all decode to a value with such a key or string
  (`Amf.ReadReadable`). All values without such keys, strings and byte arrays survive (`AmfSizes.AmfRoundTrip`).
- An empty message is read as nil, which `recv` takes for "nothing yet": it never reaches the caller. What is
  delivered is a prefix of the non-empty messages sent (`Protocol.DeliveredInOrder`), and it is message for message
  what was sent if and only if no empty message was among them (`Protocol.DeliveredExactly`).
- The length field of a chunk keeps sixteen bits: a packet is read back if and only if every chunk is below 65536
  bytes (`Packets.PacketRoundTrip`). The protocol's channel drops datagrams above 65507 bytes, the largest UDP
  payload, so longer chunks never arrive.
- A receiver without room for a 1024-byte block closes the sender's window, also when what it holds is the middle of
  a message or waits for a lost chunk. In a reachable state with a closed window and no data under way, the transfer
  can be completed if and only if a block is free once the application has read every whole message, or an ack under
  way says that one was (`Deadlocks.ClosedCompletes`). Either is enough in every state of an open flow, whatever its
  window (`Completion.CanComplete`, `Completion.OldAckCompletes`), and a block is free when the messages not yet read
  fit the buffer but for one block (`Completion.UnreadFits`). On a flow that carries one message, exactly the messages
  of more than 718 segments, 1048280 bytes, can run into the deadlock (`Deadlocks.DeadlocksExactly`).

## Model

| member | source | states |
|---|---|---|
| `Protocol.DeliveredInOrder` | src/rtmfp/flow.go:110-600 | in every run over every channel, what recv has returned is a prefix of the non-empty messages sent |
| `Protocol.DeliveredExactly` | src/rtmfp/flow.go:472-493 | in every run what recv has returned is all that was read, message for message, if and only if no message read was empty |
| `Protocol.NothingDiscardedEarly` | src/rtmfp/flow.go:278-315 | in every run each number up to the last one handed out is queued or received, and neither the sender's ack ranges nor any ack under way claims a number (above zero) that has not been received |
| `Protocol.QueueSuffices` | src/rtmfp/flow.go:163-174 | in every run, if the queued chunks reach the receiver in any order and multiplicity, reading returns exactly the messages not read before |
| `Protocol.EmptyQueueMeansComplete` | src/rtmfp/flow.go:293-315 | once the queue is empty, messages read plus messages readable are the messages sent |
| `Protocol.FreshAckLeavesMissing` | src/rtmfp/flow.go:602-625 | an ack of the receiver's present state leaves in the queue exactly the numbers not received |
| `Protocol.EndsStaySound` | src/rtmfp/flow.go:155-342 | sender accounting and receiver index agreement hold in every run of the closed loop |
| `Protocol.RunKeepsInv` | src/rtmfp/flow.go:110-625 | the cross-endpoint invariant holds in every reachable state |
| `Protocol.NextKeepsInv` | src/rtmfp/session.go:325-532 | every event of either end, with any loss, delay, reordering or repetition, keeps the invariant |
| `Protocol.AckArrived` | src/rtmfp/flow.go:278-369 | a truthful ack keeps the sender's half, and what it makes the sender emit is genuine |
| `Protocol.AlarmFires` | src/rtmfp/flow.go:176-218 | a timeout keeps the sender's half, and what is retransmitted is genuine |
| `Protocol.MessageSubmitted` | src/rtmfp/flow.go:110-153 | a message extends the stream by its fragments, unless the flow is closed |
| `Protocol.UserdataGenuine` | src/rtmfp/flow.go:537-600 | a genuine chunk adds exactly its number to what was received and keeps the ordered buffer a piece of the stream |
| `Protocol.ReadsNext` | src/rtmfp/flow.go:495-535 | read_message returns the next message sent and leaves the ordered buffer on a message boundary |
| `Protocol.AckIsTruthful` | src/rtmfp/flow.go:602-625 | every ack can be encoded and claims only what has arrived |
| `Protocol.DataArrival` | src/rtmfp/session.go:325-360 | what the receiver decodes from a data packet is the message that was encoded |
| `Protocol.AckArrival` | src/rtmfp/session.go:392-411 | what the sender decodes from an ack packet is the ack, its free buffer in 1024-byte blocks |
| `Protocol.PacketReceived` | src/rtmfp/session.go:362-390 | a datagram at the receiver hands each user data chunk of the open flow to it, in packet order |
| `Protocol.PacketAcknowledged` | src/rtmfp/session.go:413-425 | a datagram at the sender hands each range ack of the flow to it, in packet order |
| `Completion.CanComplete` | src/rtmfp/flow.go:155-369 | from every reachable state of an open flow with no chunk in flight sent more than ten times, and a block free at the receiver once what is whole has been read, some continuation empties the queue and delivers every non-empty message; nothing in it comes unprompted if an ack is due or can be probed |
| `Completion.OldAckCompletes` | src/rtmfp/flow.go:317-360 | the same with an ack under way that says a block was free, however full the receiver is by now |
| `Completion.UnreadFits` | src/rtmfp/flow.go:463-470 | the same when the bytes sent and not yet read are at least 1024 fewer than the buffer takes |
| `Completion.HeldWithin` | src/rtmfp/flow.go:463-470 | the receiver never holds more bytes than the messages sent and not yet read |
| `Completion.Round` | src/rtmfp/flow.go:278-369 | whatever room there is, once all launched chunks arrive the receiver's ack shortens the queue, and the sender launches what is missing or closes its window and probes |
| `Completion.Reopened` | src/rtmfp/flow.go:317-322 | with nothing in flight, an old ack with room for a block opens a closed window and launches the front of the queue |
| `Completion.HalfRound` | src/rtmfp/flow.go:537-600 | the first chunks launched can arrive without more chunks having to wait, and are acked at once or set the alarm that acks them |
| `Completion.NeverAsleep` | src/rtmfp/flow.go:155-369 | in every run an open sender with anything queued has some of it in flight and its retransmission alarm set, or is probing |
| `Completion.ProbedRuns` | src/rtmfp/flow.go:317-360 | in every run an open sender with a closed window is probing |
| `Completion.ArmedRuns` | src/rtmfp/flow.go:271-275 | in every run an open sender with anything in flight has its alarm set, and with anything queued but nothing in flight its window is closed |
| `Completion.SingleRuns` | src/rtmfp/session.go:392-411 | in every run each datagram to the sender brings exactly one ack of the receiver |
| `Completion.NextReceived` | src/rtmfp/flow.go:569-585 | a chunk with nothing missing before it leaves no more bytes and chunks waiting than before |
| `Completion.ReadingMakesRoom` | src/rtmfp/flow.go:495-535 | reading all whole messages leaves no end of a message and never less room |
| `Completion.TrySendLaunches` | src/rtmfp/flow.go:163-174 | with nothing in flight, try_send launches a run from the front of the queue, at most six chunks, and at least one unless a limit forbids it |
| `Deadlocks.ClosedCompletes` | src/rtmfp/flow.go:155-369 | in a reachable state with a closed window and no data under way, the transfer can be completed if and only if a block is free once what is whole has been read or an ack under way says one was; among all continuations and among those with prompted timeouts and acks only |
| `Deadlocks.DeadlocksExactly` | src/rtmfp/flow.go:463-470 | an open flow with one message can come to where no continuation delivers it if and only if the message is longer than 718 segments |
| `Deadlocks.LongMessageDeadlocks` | src/rtmfp/flow.go:463-470 | for every longer message some run, in which only prompted timeouts and acks occur, ends in a state from which nothing comes into order any more |
| `Deadlocks.ShortMessageCompletes` | src/rtmfp/flow.go:463-470 | every other message can be delivered from wherever a run has brought it |
| `Deadlocks.StuckNeverCompletes` | src/rtmfp/flow.go:155-157 | from a closed window, a full receiver and nothing under way that helps, no continuation brings another chunk into order |
| `Deadlocks.Fill` | src/rtmfp/flow.go:602-625 | round by round such a message, its last chunk held back, fills the receiver until the sender stops |
| `Ranges.MergeMeansTouching` | src/rtmfp/range.go:70-93 | for non-empty ranges the merge test holds exactly when they overlap or touch, and then the panic branch is not reached |
| `Ranges.AddedMeaning` | src/rtmfp/range.go:113-132 | adding a range is set union and keeps the queue sorted, non-empty-ranged and non-touching |
| `Ranges.ConcatRepairs` | src/rtmfp/range.go:99-132 | concat repairs a range inserted before the first one it touches, even out of order |
| `Ranges.AddedInGap` | src/rtmfp/range.go:125-131 | a range that touches none is inserted in its place |
| `Ranges.CanonicalForm` | src/rtmfp/range.go:185-218 | two queues in normal form are equal if and only if they stand for the same numbers |
| `Ranges.AddingIgnoresOrder` | src/rtmfp/range.go:172-177 | adding the same numbers in any order and grouping gives the same queue |
| `Ranges.SubtractedMeaning` | src/rtmfp/range.go:134-170 | subtraction is set difference and keeps normal form |
| `Ranges.SubtractUndoesAdd` | src/rtmfp/range.go:113-170 | subtracting a newly added range restores the queue |
| `Ranges.RangeQueue.Concat` | src/rtmfp/range.go:99-111 | the merging loop computes the neighbour-merged list |
| `Ranges.RangeQueue.AddRange` | src/rtmfp/range.go:113-132 | on any list, places the range before the first one it touches or precedes and merges; in normal form that is union |
| `Ranges.PlacedIsAdded` | src/rtmfp/range.go:119-131 | in normal form, placing a range and merging neighbours is adding it |
| `Ranges.RangeQueue.SubtractRange` | src/rtmfp/range.go:134-170 | on any list, cuts ranges up to the early exit; in normal form that is set difference |
| `Ranges.TrimmedIsSubtracted` | src/rtmfp/range.go:166-168 | in normal form the early exit misses nothing |
| `Ranges.RangeQueue.AddRangeQueue` | src/rtmfp/range.go:172-177 | places every range of another queue in turn; in normal form that is union |
| `Ranges.RangeQueue.SubtractRangeQueue` | src/rtmfp/range.go:179-183 | cuts every range of another queue in turn; in normal form that is set difference |
| `Ranges.RangeQueue.Equals` | src/rtmfp/range.go:185-218 | true exactly when the lists are equal |
| `Ranges.RangeQueue.Contain` | src/rtmfp/range.go:220-229 | true exactly when some range covers the number |
| `Ranges.RangeQueue.FromArray` | src/rtmfp/range.go:269-277 | holds the ranges of the array in order, unchanged |
| `Ranges.RangeQueueIntersect` | src/rtmfp/range.go:256-267 | covers exactly the numbers both queues cover, in normal form |
| `Fragments.FragmentShape` | src/rtmfp/flow.go:116-148 | fragments are consecutively numbered, at most one segment long, tagged whole or begin, middle, end, and join to the message |
| `Fragments.ReadsBackOne` | src/rtmfp/flow.go:498-511 | the first end mark in front of anything is the last chunk of the first message |
| `Fragments.ReadsBackAll` | src/rtmfp/flow.go:495-535 | repeated reading of the stream of any messages returns the messages |
| `Fragments.StreamInjective` | src/rtmfp/flow.go:116-148 | different message lists give different chunk streams |
| `ChunkHeap.PushSorted` | src/rtmfp/data_chunk_heap.go:45-47 | a push inserts into the sorted view, whatever the array order |
| `ChunkHeap.PopSorted` | src/rtmfp/data_chunk_heap.go:49-51 | popping a least chunk takes the head of the sorted view |
| `ChunkHeap.RootIsLeast` | src/rtmfp/data_chunk_heap.go:15-17 | in heap order no chunk has a smaller number than the root |
| `ChunkHeap.DataChunkHeap.Swap` | src/rtmfp/data_chunk_heap.go:19-23 | exchanges two slots and keeps the rest |
| `ChunkHeap.DataChunkHeap.Push` | src/rtmfp/data_chunk_heap.go:25-47 | keeps heap order and adds exactly the chunk |
| `ChunkHeap.DataChunkHeap.Pop` | src/rtmfp/data_chunk_heap.go:29-51 | keeps heap order and removes exactly one chunk with a least number |
| `RecvFlows.UserdataAgreement` | src/rtmfp/flow.go:537-600 | the receiver's indexes stay in agreement if and only if the chunk's number is at least one |
| `RecvFlows.UserdataSound` | src/rtmfp/flow.go:537-600 | for every number, zero included, the counters, the order of the pending chunks and their presence in the range queue stay right |
| `RecvFlows.ZeroBlocks` | src/rtmfp/flow.go:569-585 | once a chunk numbered zero waits, no chunk is put in order any more |
| `RecvFlows.ReadAgreement` | src/rtmfp/flow.go:513-532 | reading a message keeps the counters and the agreement |
| `RecvFlows.AckRangesMatch` | src/rtmfp/flow.go:602-625 | the ranges of an ack are the range queue without its first run |
| `RecvFlows.PendingRangesOrderFree` | src/rtmfp/flow.go:613-616 | the ranges of an ack do not depend on the heap's array order |
| `RecvFlows.DrainedAgrees` | src/rtmfp/flow.go:569-585 | moving the run of consecutive chunks restores the agreement after an insertion |
| `RecvFlows.BuildRanges` | src/rtmfp/flow.go:613-616 | the loop over the heap's array builds the ranges of the sorted view |
| `RecvFlows.RecvFlow.SendAck` | src/rtmfp/flow.go:602-625 | resets the packet count and the alarm, records the window, emits the ack of the state |
| `RecvFlows.RecvFlow.OnBufferProbe` | src/rtmfp/flow.go:459-461 | answers a probe with an ack |
| `RecvFlows.RecvFlow.OrderChunks` | src/rtmfp/flow.go:569-585 | the pop and push-back loop moves exactly the run that continues the order |
| `RecvFlows.RecvFlow.OnUserdata` | src/rtmfp/flow.go:537-600 | new state and emitted ack are those of the step function: duplicates are acked at once, others stored, ordered, acked now or later |
| `RecvFlows.RecvFlow.FindEnd` | src/rtmfp/flow.go:498-511 | finds the first chunk that ends a message |
| `RecvFlows.RecvFlow.ReadMessage` | src/rtmfp/flow.go:495-535 | takes the first whole message off the ordered buffer, or changes nothing |
| `AckPolicy.Unanswered` | src/rtmfp/flow.go:537-560 | in every run of chunks, acks by alarm or probe, and reads, a chunk goes without an ack at once if and only if it is new, the first since the last ack, that ack told of at least 2048 bytes, and no number is missing between two received ones |
| `AckPolicy.EveryOther` | src/rtmfp/flow.go:587-597 | in every run at most one chunk is unacked, and the alarm is set exactly then |
| `AckPolicy.StateAnswers` | src/rtmfp/flow.go:543-560 | the same for any state with ranges in normal form |
| `AckPolicy.OneOfTwo` | src/rtmfp/flow.go:551 | from any state at least one of two chunks in a row is acked at once |
| `AckPolicy.HoleAnswered` | src/rtmfp/flow.go:553 | once chunk one is in order, every chunk is acked at once while a number below a received one is missing |
| `AckPolicy.FrontHoleWaits` | src/rtmfp/flow.go:553 | with chunk 1 missing and chunk 2 received, chunk 3 is not acked at once |
| `Congestion.AtLeastOneSegment` | src/rtmfp/flow.go:378-426 | every ack and every timeout leaves a window of at least one segment |
| `Congestion.BoundedGrowth` | src/rtmfp/flow.go:390-426 | without a loss the window never shrinks and ends at most a segment larger or at its initial value |
| `Congestion.AccumulatorConserves` | src/rtmfp/flow.go:414-420 | in additive increase acked bytes count the same in one ack or in two, as long as the window in between has the same threshold |
| `Congestion.LossShrinks` | src/rtmfp/flow.go:380-389 | after a loss the window is the new threshold, nothing is saved up, and both are half of the bytes in flight, seven eighths with the switches that say so, but at least 4380 |
| `Congestion.UnusedKeeps` | src/rtmfp/flow.go:390 | without an ack, with a negative one or with a window not used up, nothing changes |
| `Congestion.SlowStartGrowth` | src/rtmfp/flow.go:393-394 | below its threshold the window grows by the acked bytes, or a quarter of them rounded up, at most 1460 |
| `Congestion.AdditiveGrowth` | src/rtmfp/flow.go:395-426 | above it each full threshold of acked bytes (a sixteenth of the window, between 64 and 4800 or 2400) adds 24 bytes, 48 with fast growth, at most 1460 at once, and the rest is saved up |
| `Congestion.DrainAccumulator` | src/rtmfp/flow.go:399-402 | the subtracting loop stops with the remainder and one gain per full threshold |
| `Timers.TimersStayWithin` | src/rtmfp/session.go:554-580 | over any mix of samples and timeouts srtt and rttvar stay within the largest admissible sample, 250ms <= erto, mrto <= erto <= max(10s, mrto) |
| `Timers.TimersBounded` | src/rtmfp/session.go:557-558 | no run gets past the 32767 ticks that the code accepts |
| `Timers.BackoffLengthens` | src/rtmfp/flow.go:205-208 | a timeout never shortens erto and lengthens it below the cap |
| `Timers.BackoffReachesCap` | src/rtmfp/flow.go:205-208 | timeouts in a row add at least 100ms each until the cap |
| `Timers.TicksAcrossWrap` | src/rtmfp/session.go:557-559 | the 16-bit difference is the elapsed time exactly for up to 32767 ticks, across the wrap |
| `Timers.SampleMoves` | src/rtmfp/session.go:561-571 | a sample moves the round-trip time an eighth of the way to it and the variation a quarter of the way to their distance, up to rounding and never past it |
| `Timers.SamplesConverge` | src/rtmfp/session.go:570 | after k equal samples the distance is (7/8)^k of what it was, up to seven nanoseconds |
| `Timers.FirstSample` | src/rtmfp/session.go:572-574 | the first sample is taken as it is, with half of it for the variation |
| `Timers.SampleSetsTimer` | src/rtmfp/session.go:577-579 | mrto is srtt plus four rttvar plus 200ms, and erto the same but at least 250ms |
| `Timers.EchoSamples` | src/rtmfp/session.go:554-560 | an echo is a sample if it is there, new and at most 32767 ticks of 4ms old, across the wrap |
| `Timers.BackoffFactor` | src/rtmfp/flow.go:205-208 | a timeout multiplies erto by 1.4142, up to 10s and not below mrto |
| `Timers.FreshBackoff` | src/rtmfp/flow.go:205-208 | without an echo timeouts wait 3s, then 4.2426s, 6.0s, 8.5s and 10s |
| `Timers.SessionTimers.RecvEcho` | src/rtmfp/session.go:554-580 | a new echo updates the estimates as the specification function says, an old one nothing |
| `Timers.SessionTimers.BackOff` | src/rtmfp/flow.go:205-208 | backs erto off, capped at 10s but not below mrto |
| `SendFlows.SenderRuns` | src/rtmfp/flow.go:110-369 | over all runs: in-flight bytes are the sum over the queue, the queue is in order, transmission numbers of chunks in flight differ, nak counts stay below three and count overtaking acks, at most six packets since the last ack, at least one segment of window |
| `SendFlows.NakLossMeans` | src/rtmfp/flow.go:329-342 | a chunk lost by negative acks was overtaken by three acks since its latest transmission |
| `SendFlows.TrySendLimits` | src/rtmfp/flow.go:155-174 | try_send stops only with everything in flight or at a limit, and overshoots it by less than a segment |
| `SendFlows.StepsSettle` | src/rtmfp/flow.go:110-369 | after a message, a timeout or an ack with news, all that the limits allow has been sent |
| `SendFlows.OffsetNeverWraps` | src/rtmfp/flow.go:262-269 | fsnOffset is a plain difference, never an unsigned wrap |
| `SendFlows.SendKeepsInv` | src/rtmfp/flow.go:110-153 | a message keeps the sender's accounting |
| `SendFlows.AckKeepsInv` | src/rtmfp/flow.go:278-369 | any ack keeps the sender's accounting |
| `SendFlows.AlarmKeepsInv` | src/rtmfp/flow.go:176-218 | a timeout keeps it, also when it closes the flow |
| `SendFlows.SendShape` | src/rtmfp/flow.go:110-153 | send appends the fragments to the queue and emits only queued chunks |
| `SendFlows.AckShape` | src/rtmfp/flow.go:278-315 | an ack leaves in the queue exactly the chunks outside the ack ranges and alters no payload |
| `SendFlows.AlarmShape` | src/rtmfp/flow.go:176-218 | a timeout drops and alters no chunk |
| `SendFlows.NakAccounting` | src/rtmfp/flow.go:331-342 | counting negative acks takes off the in-flight bytes exactly what it declares lost |
| `SendFlows.SendFlow.Send` | src/rtmfp/flow.go:110-153 | new state, chunks emitted and bytes accepted are those of the step function; a closed flow refuses |
| `SendFlows.SendFlow.CutMessage` | src/rtmfp/flow.go:128-147 | the loop queues the fragments of a long message |
| `SendFlows.SendFlow.TrySend` | src/rtmfp/flow.go:163-174 | transmits what is not in flight, front to back, until a limit |
| `SendFlows.SendFlow.SendUserdata` | src/rtmfp/flow.go:231-276 | marks the chunk, counts it, arms the alarm and emits it with its offset and, on chunk one, the options |
| `SendFlows.SendFlow.FirstOptions` | src/rtmfp/flow.go:241-260 | builds the terminated option list of the first chunk, or none |
| `SendFlows.SendFlow.RemoveAcked` | src/rtmfp/flow.go:288-315 | the walk removes exactly the acked chunks and returns their in-flight bytes and largest transmission number; no subtraction underflows |
| `SendFlows.SendFlow.CountNaks` | src/rtmfp/flow.go:329-342 | the walk counts every overtaken chunk and loses those with three counts; no subtraction underflows |
| `SendFlows.SendFlow.UpdateCongestionWnd` | src/rtmfp/flow.go:378-426 | with its loops, the closed form of the window update |
| `SendFlows.SendFlow.OnRangeAck` | src/rtmfp/flow.go:278-369 | new state and chunks emitted are those of the step function |
| `SendFlows.SendFlow.OnRtxAlarm` | src/rtmfp/flow.go:176-218 | loses all in flight and resends with a reset window, or closes at the first chunk sent more than ten times; the session's timer is backed off exactly when something was lost |
| `SendFlows.SendFlow.Close` | src/rtmfp/flow.go:90-102 | closes the flow and stops both timers |
| `SendRuns.TransmissionsCounted` | src/rtmfp/flow.go:231-239 | in every run the counter of a queued chunk is the number of times that it was handed to the session |
| `SendRuns.AlarmCloses` | src/rtmfp/flow.go:187-195 | a timeout closes an open flow if and only if a chunk in flight was transmitted more than ten times |
| `SendRuns.ClosesOnlyExhausted` | src/rtmfp/flow.go:187-195 | a flow that nobody closes ends closed only if some number was transmitted more than ten times |
| `SendRuns.EleventhTimeoutCloses` | src/rtmfp/flow.go:176-218 | a message of one segment that is never acked closes the flow after n timeouts if and only if n is at least 11 |
| `SendRuns.ClosingStops` | src/rtmfp/flow.go:90-102 | whatever closes a flow stops both timers and emits nothing, messages are refused from then on, and nothing in front of the given-up chunk stays in flight |
| `SendRuns.TransmissionsConserved` | src/rtmfp/flow.go:220-239 | in every run the transmissions are those in flight, those given up as lost and those that acks took out of flight |
| `SendRuns.FlowControlled` | src/rtmfp/flow.go:155-174 | in every run at most six chunks go out between acks or timeouts, and whenever an event makes the flow send, less than 1460 bytes are in flight beyond what the receiver told last (43800 before that), and beyond the congestion window |
| `SendRuns.StaleAck` | src/rtmfp/flow.go:324-327 | an ack that claims nothing new and cannot reopen a window changes nothing but the burst counter and emits nothing |
| `SendRuns.AckTwice` | src/rtmfp/flow.go:278-369 | an ack that arrives again at once changes nothing but the burst counter and emits nothing |
| `SendRuns.AckMovesWindow` | src/rtmfp/flow.go:329-366 | an ack with news updates the congestion window by whether a chunk in flight was overtaken, whether one was for the third time, the bytes that left the flight and the bytes in flight before |
| `SendRuns.TimeoutResets` | src/rtmfp/flow.go:200-216 | a timeout that does not close the flow leaves one segment of window and backs the timer off if and only if something was in flight, else three segments; it raises the threshold to three quarters of that |
| `Vlus.VluRoundTrip` | src/rtmfp/base.go:57-99 | the looping decoder undoes the recursive encoder on every natural and stops at its end |
| `Vlus.VluSelfDelimiting` | src/rtmfp/base.go:75-99 | no encoding is a proper prefix of another |
| `Vlus.VluMeans` | src/rtmfp/base.go:75-99 | seven bits a byte, high digits first, the high bit set on all but the last, and no leading zero digit |
| `Vlus.OptionsRoundTrip` | src/rtmfp/base.go:119-139 | a terminated option list is read back whole, whatever follows |
| `Vlus.OptionsSkipList` | src/rtmfp/base.go:119-139 | reading options behind a list ends where reading without the list ends |
| `Vlus.InternalEncodeVlu` | src/rtmfp/base.go:85-99 | appends the base-128 digits |
| `Vlus.DecodeVlu` | src/rtmfp/base.go:57-73 | consumes exactly one integer |
| `Vlus.ReadOptions` | src/rtmfp/base.go:119-139 | the loop re-encodes the list it consumes |
| `Vlus.ReadOption` | src/rtmfp/base.go:141-161 | the data of the first option of the type, or that there is none, or the panic on a broken length |
| `Vlus.ReadVluOption` | src/rtmfp/base.go:163-183 | the integer in the first option of the type, or the default |
| `ChunkCodecs.UserDataRoundTrip` | src/rtmfp/chunk.go:177-220 | flags, ids, a terminated option list and the data survive |
| `ChunkCodecs.FirstChunkSurvives` | src/rtmfp/flow.go:241-260 | the first chunk's data survives its options if and only if the related flow id is below 128 |
| `ChunkCodecs.RelatedFlowFound` | src/rtmfp/base.go:163-183 | the related flow id is found behind any signature without such an option; a terminated list without one makes read_vlu_option panic |
| `ChunkCodecs.FirstOptionFound` | src/rtmfp/base.go:141-161 | the search passes options of other types and returns the data of the first of its own |
| `ChunkCodecs.RangeAckRoundTrip` | src/rtmfp/chunk.go:278-301 | flow id, cumulative ack and ranges survive, the free buffer rounded down to 1024, if and only if no gap subtraction wraps |
| `ChunkCodecs.AckFits` | src/rtmfp/session.go:401-408 | from every receiver state in agreement no gap subtraction underflows |
| `ChunkCodecs.DecodedAckNormal` | src/rtmfp/chunk.go:284-293 | whatever arrives, decoded ranges are in normal form and beyond the cumulative ack |
| `ChunkCodecs.SendUserdata` | src/rtmfp/session.go:325-360 | writes the chunk the round trip is about |
| `ChunkCodecs.DecodeUserdataChunk` | src/rtmfp/chunk.go:177-220 | reads any bytes as the round trip's reader does |
| `ChunkCodecs.SendRangeAck` | src/rtmfp/session.go:392-411 | the loop with its cursor writes the gaps of any range list, wrapping as unsigned 64-bit subtraction does |
| `ChunkCodecs.DecodeRangeAckChunk` | src/rtmfp/chunk.go:278-301 | the loop with its cursor reads the gaps |
| `Packets.PacketRoundTrip` | src/rtmfp/packet.go:45-153 | for any cipher that keeps lengths and can be undone, unpacking returns session id, header and exactly the chunks, if and only if every chunk is below 65536 bytes |
| `Packets.ChunksRoundTrip` | src/rtmfp/packet.go:135-151 | the chunk loop returns the chunks and takes no padding for one, if and only if every length fits its field |
| `Packets.TakenFit` | src/rtmfp/packet.go:137-148 | whatever arrives, no chunk is read that is longer than a length field can say |
| `Packets.HeaderRoundTrip` | src/rtmfp/packet.go:105-128 | both flags, both timestamps and the mode survive; an absent timestamp is zero |
| `Packets.ScrambleCancels` | src/rtmfp/packet.go:256-263 | scrambling the session id twice restores it |
| `Packets.CalcCheckSum` | src/rtmfp/packet.go:19-39 | the loop over words, in 32 bits, computes the checksum of the round trip |
| `Packets.CheckSumCancels` | src/rtmfp/packet.go:19-39 | words and checksum add up to a multiple of 65535 |
| `Packets.FoldedCancels` | src/rtmfp/packet.go:35-38 | folding twice and complementing cancels any 32-bit sum modulo 65535 |
| `Packets.AcceptedSums` | src/rtmfp/packet.go:45-103 | whatever datagram is accepted, its decrypted words add up to a multiple of 65535 |
| `Packets.ScrambleBits` | src/rtmfp/packet.go:256-263 | each bit of the first word is the sum of the bits of session id and first two encrypted words, modulo two |
| `Packets.StartupPackets` | src/rtmfp/packet.go:240-243 | a packet to session id zero is read whatever keys either side has |
| `Packets.CipherText` | src/rtmfp/packet.go:240-252 | other packets are encrypted under the session's key, or the default key where there is none |
| `Packets.OutPacket.constructor` | src/rtmfp/packet.go:180-216 | starts with room for session id and checksum and the header's bytes |
| `Packets.OutPacket.AddChunk` | src/rtmfp/packet.go:218-222 | appends one chunk |
| `Packets.OutPacket.Pack` | src/rtmfp/packet.go:224-266 | pads, sums, encrypts and scrambles |
| `Packets.DecodePacket` | src/rtmfp/packet.go:45-153 | opens a datagram, or says which check failed |
| `Packets.DecodeChunks` | src/rtmfp/packet.go:135-151 | the loop returns the chunks up to the first that does not fit |
| `Amf.U29RoundTrip` | src/rtmfp/amf.go:178-226 | reading undoes writing if and only if the value is outside 0x200000 to 0x3FFFFF |
| `AmfSizes.AmfRoundTrip` | src/rtmfp/amf.go:123-262 | for every order of every map, reading returns the value and leaves the trailing bytes if no string is over-long, no key stops the reader and every byte array's header survives; and only if so, for values of fewer than 262144 objects |
| `AmfSizes.BrokenTakes` | src/rtmfp/amf.go:178-198 | wherever a value holds a byte array with a broken header, the reader takes at least 512 KiB more than the value needs, or does not get the value |
| `AmfSizes.FieldsTake` | src/rtmfp/amf.go:88-107 | filling a map takes at least the bytes that its fields add |
| `AmfSizes.ValueWritten` | src/rtmfp/amf.go:150-176 | the bytes written for a value are its size and at most two more for each object, whatever the order |
| `Amf.ByteArrayValue` | src/rtmfp/amf.go:228-239 | a byte array survives if and only if its header does |
| `Amf.ReadReadable` | src/rtmfp/amf.go:88-148 | whatever arrives, the reader never returns an inadmissible key or an over-long string |
| `Amf.WriteU29` | src/rtmfp/amf.go:200-226 | appends the bytes of the round trip |
| `Amf.ReadU29` | src/rtmfp/amf.go:178-198 | consumes at most four bytes as the round trip's reader does |
| `Amf.ReadAmf` | src/rtmfp/amf.go:123-148 | consumes one value, or reports the panic |
| `Amf.ReadObject` | src/rtmfp/amf.go:88-107 | the loop fills the map until an end marker or an empty key |
| `Amf.WriteAmf` | src/rtmfp/amf.go:150-176 | appends bytes that some walk over the maps gives |
| `Amf.WriteFields` | src/rtmfp/amf.go:109-117 | writes every field once, in an order left open, and the end marker |
| `NetStreams.CommandRoundTrip` | src/rtmfp/netstream.go:88-152 | decode_msg undoes encode_msg if name and parameter can be read back; and only if so, for parameters of fewer than 262144 objects |
| `NetStreams.CommandsArriveInOrder` | src/rtmfp/netstream.go:50-86 | over every run of the protocol the peer gets the encoded commands in order, from the first on, and each decodes to the command sent exactly as far as it can be read back |
| `NetStreams.SignaturesOk` | src/rtmfp/netstream.go:10-11 | both signatures are option lists without a related flow |
| `NetStreams.LongCall` | src/rtmfp/netstream.go:98-110 | a message of type 0x11 is read as one of type 0x14 with one more byte in front |
| `NetStreams.CallWithoutNull` | src/rtmfp/netstream.go:111-123 | a call is read behind any four bytes, with any callback number, and without the null in front of the parameter |
| `NetStreams.DataMessage` | src/rtmfp/netstream.go:124-127 | a message of type 0x0F carries name and parameter behind five bytes |
| `NetStreams.OtherMessage` | src/rtmfp/netstream.go:128-131 | any other type gives the empty command |
| `NetStreams.EncodeMsg` | src/rtmfp/netstream.go:136-152 | writes the command the round trip is about |
| `NetStreams.DecodeMsg` | src/rtmfp/netstream.go:88-134 | reads all three message types, or reports the panic |
| `Keying.KeysAgree` | src/rtmfp/session.go:199-293 | however often and in whatever order the encoded keying chunks arrive, once the initiator has keys each side's ekey is the other's dkey and each knows the other's session id |
| `Keying.KeysComplete` | src/rtmfp/session.go:130-155 | after any run one more of each chunk leaves both sides with matching keys |
| `Keying.KeysValue` | src/rtmfp/base.go:44-50 | after any run of the exchange whoever has keys has the 16-byte prefixes of the hmac under that secret, dkey with its own nonce first, ekey with the other's |
| `Keying.NonceMeans` | src/rtmfp/session.go:78-88 | the nonce is 139 bytes and ends with the public number |
| `Keying.KnownNumberKept` | src/rtmfp/session.go:269-283 | an initiator that knows the responder's number uses it, whatever number the nonce holds |
| `Keying.UnknownNumberTaken` | src/rtmfp/session.go:276-282 | one that does not takes it from option 0x0d of the nonce, behind one byte, if and only if it is there |
| `Keying.PacketsCross` | src/rtmfp/session.go:516-526 | from then on each side opens what the other packs, if and only if the chunks are below 65536 bytes |
| `Keying.ModExpCommutes` | src/rtmfp/session.go:82-101 | modular exponents commute |
| `Keying.SecretsAgree` | src/rtmfp/session.go:91-106 | both sides compute two to the product of their private numbers, modulo the prime, from the padded public numbers |
| `Keying.PublicNumberFound` | src/rtmfp/session.go:85-88 | certificate and nonce yield the public number through the option reader |
| `Keying.FixedWidthValue` | src/rtmfp/session.go:85-88 | padding to 128 bytes keeps the number |
| `Keying.KeyingRoundTrip` | src/rtmfp/chunk.go:110-175 | both keying chunks are read back as written |
| `Keying.KeySession.constructor` | src/rtmfp/session.go:68-89 | starts without keys and with the 139-byte nonce |
| `Keying.KeySession.GenerateAesKeys` | src/rtmfp/base.go:44-50 | sets both keys from the secret and the nonces in swapped order |
| `Keying.KeySession.SendIIKeying` | src/rtmfp/session.go:199-228 | writes session id, cookie, certificate and nonce |
| `Keying.DecodeIIKeyingChunk` | src/rtmfp/chunk.go:110-147 | reads any bytes as the round trip's reader does, or reports the panic on a broken length |
| `Keying.DecodeRIKeyingChunk` | src/rtmfp/chunk.go:149-175 | likewise for the responder's chunk |
| `Keying.KeySession.HandleIIKeying` | src/rtmfp/chunk.go:110-147 | decoding the initiator's chunk and handling it is the step of the responder in the exchange's runs, or nothing changes |
| `Keying.KeySession.HandleRIKeying` | src/rtmfp/chunk.go:149-175 | likewise for the initiator |
| `Keying.KeySession.RecvIIKeying` | src/rtmfp/session.go:230-251 | takes the key from the certificate and sets keys, mode and peer, or reports the panic |
| `Keying.KeySession.SendRIKeying` | src/rtmfp/session.go:253-267 | writes session id and nonce |
| `Keying.KeySession.RecvRIKeying` | src/rtmfp/session.go:269-293 | ignores repeats; takes the key from the nonce unless one is known; reports the panic, and failure where no key is known |
| `NoisyChannels.NoiseRuns` | src/rtmfp/noisy_chan.go:136-177 | in every run packets received are those dropped, sent and queued, the queue keeps its capacity, and packets come through intact, once, each overtaking at most one earlier packet, none without disorder |
| `NoisyChannels.NoiseCarriesData` | src/rtmfp/noisy_chan.go:136-171 | what the noisy channel does with a data packet is a move of the protocol's channel |
| `NoisyChannels.NoiseCarriesAcks` | src/rtmfp/noisy_chan.go:136-171 | what it does with an ack packet is a move of the protocol's channel in the other direction |
| `NoisyChannels.LoseRate` | src/rtmfp/noisy_chan.go:141-144 | of the hundred rolls as many lose a packet as the rate says, if no limit does |
| `NoisyChannels.LimitsDrop` | src/rtmfp/noisy_chan.go:146-154 | a full queue and a size limit drop whatever the rolls |
| `NoisyChannels.DisorderRate` | src/rtmfp/noisy_chan.go:161-167 | with disorder on and packets waiting, 50 of the hundred rolls let a packet in front of the last one |
| `WireFormats.HeaderLayout` | src/rtmfp/packet.go:180-216 | bits of the flags byte and the timestamps behind it |
| `WireFormats.ChunkLayout` | src/rtmfp/packet.go:218-222 | type, two bytes of length, data |
| `WireFormats.DefaultKeyText` | src/rtmfp/packet.go:12 | the default key is the sixteen characters "Adobe Systems 02" |
| `WireFormats.PaddingLayout` | src/rtmfp/packet.go:224-231 | 0xff up to the end of the sixteen-byte block |
| `WireFormats.WordsLayout` | src/rtmfp/packet.go:19-33 | big-endian words, an odd byte at the end as it is |
| `WireFormats.ChunkTypes` | src/rtmfp/chunk.go:362-404 | 0x10 is user data and 0x51 a range ack; other types and other flows are passed over |
| `WireFormats.KeyingLayout` | src/rtmfp/session.go:199-267 | the two keying chunks, byte by byte |
| `WireFormats.CommandLayout` | src/rtmfp/netstream.go:136-152 | a call, byte by byte |
| `WireFormats.AmfMarkers` | src/rtmfp/amf.go:123-148 | undefined is read as null, any byte but zero as true, and other markers panic |
| `WireFormats.ByteArrayLayout` | src/rtmfp/amf.go:228-239 | the header of a byte array is its size over a set low bit |
| `WireFormats.ShortReads` | src/rtmfp/base.go:57-73 | what is missing at the end of a buffer reads as zero |
| `ChunkCodecs.UserDataLayout` | src/rtmfp/session.go:325-360 | flags, ids and offset in front of options and data |
| `ChunkCodecs.FlowOptionsLayout` | src/rtmfp/flow.go:241-260 | signature, related flow as option ten, terminator |
| `ChunkCodecs.RangeAckLayout` | src/rtmfp/session.go:392-411 | flow id, free buffer in blocks of 1024, cumulative ack, gaps |
| `ChunkCodecs.GapsLayout` | src/rtmfp/session.go:401-408 | numbers missing and numbers received alternate, one less each |
| `NoisyChannels.NoisyChan.RecvPacket` | src/rtmfp/noisy_chan.go:136-171 | counts, drops by rate, capacity or size, or queues at the end or before the last packet |
| `NoisyChannels.NoisyChan.SendPacket` | src/rtmfp/noisy_chan.go:70-104 | sends and removes the front packet |

## Left out

- Unsigned 64-bit wrap: sequence numbers, byte counters and range ends are unbounded naturals. An unsigned subtraction
  that could wrap is written so that it does (`fsnOffset`, the gaps of an ack), or is shown not to.
- Aliasing: chunks are values and the linked lists are sequences held in a field, so a chunk is not shared between
  queue and packet. `on_range_ack` and the other walks still visit and unhook elements one by one.
- `ChunkHeap.DataChunkHeap.Push`: the sift-up and sift-down loops stand for Go's container/heap package, which is not
  part of the repository.
- `Protocol.DeliveredInOrder`: one flow, open at the receiver from the start, between peers that keep their keys;
  creating receive flows on demand, address changes and other chunk types on the session are not modelled.
- `Protocol.PacketReceived`: skips chunks of unknown flows, where the source creates the flow or panics.
- `Ranges.RangeQueue.AddRangeQueue`: not with the queue itself as argument, whose list would change under the walk.
- `Ranges.RangeQueue.SubtractRangeQueue`: not with the queue itself as argument, where the walk would end with the
  removal of the first range.
- `Completion.CanComplete`: shows that completion stays possible, not that the timers bring it about: no fairness or
  real-time claim is made. It is for ids and numbers below 2 to the 64, a signature of at most 60000 bytes and at most
  3000 chunks waiting, so that every datagram fits. Where no ack is due and the sender does not probe, its continuation
  begins with an ack that only a late probe explains.
- `Deadlocks.ClosedCompletes`: within the same limits. With an open window, or data still under way, a full receiver
  may or may not get what it misses, depending on which chunks those are; no condition is given for that case.
- `AmfSizes.AmfRoundTrip`: for values of 262144 objects or more, says nothing of those with a byte array whose header
  does not survive.
- Timers, tickers, goroutines, locks and condition variables: steps are atomic, timers are flags for "set" or "not
  set" and may fire at any time, resetting one leaves no trace; the buffer probe is covered by the receiver being
  allowed to ack at any time. What is shown of all runs holds for all these; the continuations shown to exist use an
  alarm only where it is set (the retransmission alarm also only while something is in flight, so that it cannot have
  expired) and a probe only where the sender probes (`Completion.Prompted`), but for the exception named above.
- Clock readings and random numbers are inputs. AES is any length-keeping cipher that can be undone, HMAC any function
  with at least 16 bytes of result; nothing is claimed about their strength.
- Floating point: the factor 1.4142 of the backoff is the exact fraction, the quarter of acked bytes an integer
  ceiling, an AMF number its eight bytes.
- `Vlus.ReadOption`: a slice beyond the buffer is a panic, which in Go it only is beyond the buffer's capacity; this
  differs for malformed input only.
- `Keying.KeySession.RecvRIKeying`: reports failure where the source would compute with an unset public number.
- `NoisyChannels.NoisyChan.SendPacket`: picking the front packet, sending and removing it are one step; the token
  bucket and the sleeping are not modelled.
- Bitmap acks (unfinished in the source), next user data chunks, redirects, addresses, hello messages, pings,
  bi-directional streams, the transport's socket loops and state dumps.
