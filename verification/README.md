# A verified model of hex-net-core

hex-net-core is a reliable, encrypted UDP transport that never touches a socket: every function
takes the time and the bytes and changes plain state. This project models its three tiers in
Dafny and proves what they keep over every run. `dafny verify dfyconfig.toml` checks all of it.

**Protocol.** Send queues, hold lists and duplicate filters (`channel.rs`), the delivery ledger
with loss detection and probes (`ack.rs`), the packet layer (`packet.rs`, `seq.rs`), the send
allowance (`budget.rs`) and the per-peer state machine over them (`connection.rs`). Each has its
steps written on values (`Ledger`, `Channels`, `Budget`, `Connection`) and an object that updates
arrays, queues and fields in place and is proved to make exactly those steps (`LedgerObject`,
`ChannelsObject`, `BudgetObject`, `PacketObject`, `ConnectionObject`), down to the bits of a
packet (`BitStream`, `Frames`, `FrameIO`). Two such connections with a network between them that
loses, duplicates, delays, reorders and mangles are `TwoParty`. The main results there:

- `TwoPartyRuns.DeliveredInOrder`: on a ReliableOrdered channel, deliveries are at all times a
  prefix, in order and without repeats, of what was accepted, as long as ids are within reach of
  their sixteen wire bits.
- `CompleteRuns.TimelyLosesNothing`: every accepted message is delivered, held by the receiver, or
  still pending at the sender, over every run in which the receiver drops nothing, no
  acknowledgement comes so late that it names another packet, and no packet repeats a message
  delivered more than 32,768 messages before. The last is exactly when ids are read as they were
  meant (`CompleteRuns.ExactIffTimely`): a message the receiver lacks is never misread
  (`Complete.LackedReadExactly`). `SpreadRuns.SpreadLosesNothing` has a condition the sender can
  check before it transmits.
- `ConnectionInvariant.HandleDatagramValid` and its neighbours: no message is ever stranded; one
  marked in flight is always in the record of a packet the ledger still tracks.
- `AckPacing.PacedOverRuns`: over every run of a fresh connection, packets that only acknowledge
  never outnumber the packets that asked for it and are the acknowledgement delay apart.
- `Deadlines.WakesExactly`: a connection's deadline has come if and only if servicing it would
  change it or it has something to send; `PollSends` and `PollCarries` say on its fields when a
  packet goes out and what is in it, `ClosesAfterNotices` how a close ends.
- `LedgerTimers.LostExact` and `ProbesOverRuns`: which packets are given up, and that each probing
  timeout doubles the wait for the next until an acknowledgement resets it.
- `Deliveries.DeliversExactly`: over every run of arriving frames, what the channels that are not
  ordered deliver is what an account with no filter, mask or counter says.
- `Reception.MovesOnlyProved`: the peer's address changes only when the token of a challenge of the
  new one comes back. `Reception.HeardExact` says what any datagram does, frame by frame.
- `BudgetRuns.SpendingBounded` and `RateRecovers`, `Priorities.FillFull` and `FillOrder`,
  `LedgerRuns.RecordsReturnedOnce`, `QueueFlow.HandleAckFlows`, `Frames.RoundTrip`,
  `Rtt.MinimaNeverAbove`.

**Server.** `Endpoint` gives the steps of the server over real connections, `EndpointObject` the
object over a slab, a timer heap and maps. `EndpointRuns` proves, for every run of a whole shard
group, that the schedule agrees with each connection's own deadline (`ScheduledOverRuns`), that a
ticket makes at most one connection (`TicketsSpentOnce`), and how sessions live and end
(`SessionsOverRuns`). `EndpointOwners` proves that a session is one client's from its first
connection to its last (`OneClient`, `ConnectedBy`), what each step does to it (`StepFollows`), and
that a server asleep until the time it names misses nothing (`SleepsSafely`).
`EndpointConnections.ConnectionsReached` carries all that holds over runs of a connection to every
connection of every reachable server.

**Structures.** The bit writer and reader, the block arena, the timer heap, the generational slab,
the receive window and the token buckets, each in place and each proved to be a simple
mathematical object: a bit sequence, a map of payloads, a map of deadlines, a map of items, a set.

## Assumptions

Times passed in never run backwards and stay below the largest 64-bit value. Encryption is ideal:
a sealed packet opens only under its own header and at its own sequence, and a cookie carries what
the group sealed in it; a ticket id determines its ticket. A cookie is presented to the shard that
sealed it, since any other forwards or drops the datagram. Message ids stay below 2^32 - 1. The
token of a path challenge, the handle the slab chooses and the plaintext of a packet that opens
are inputs, and `EndpointObject` shows that the slab's choice is the one its own store determines.
Configuration is what its constructors admit. What a run is asked for beyond this is in the
hypotheses of its theorem.

## Where the code and its comments differ

The model follows the code. For each, the case that fails and the exact condition. A case that takes
a history is reached by a run from fresh connections or a fresh server:

- The hold list is said never to overflow (`channel.rs:42-46`). It can, because the sender frees
  a message once its packet is acknowledged, even while the receiver only holds it:
  `Limits.HoldOverflows`, exact in `Limits.DroppedExact`.
- A message id far behind is read as one a whole wrap away: `StaleIds.StaleIdMisread`, exact in
  `Complete.ReadExactlyIff` and `Limits.ReadExact`.
- An acknowledgement far behind is taken for one of another packet, and a message can be lost by it:
  `StaleAcks.StaleAckLoses`, exact in `Sequences.ResolveAckExact`.
- A message 64 or more behind is said to have been delivered (`channel.rs:218-220`). It need not
  have been: `UnorderedFilter.OldNeedNotBeDelivered`, exact in `UnorderedFilter.RefusedExact`.
- A datagram with messages can exceed the allowance by one byte, the padding kind not being
  counted (`connection.rs:709-711`): `Overruns.OneByteOver`, exact in `Transmit.AllowanceExact`.
- A due deadline yields a packet only if it is still due after the rate is assessed:
  `Overruns.AssessmentCanDefer`, exact in `Transmit.PollExact`.
- The windowed minimum is said to cover at most the whole window (`ack.rs:125-127`). It does for
  every history with gaps of at most two nanoseconds and for no longer gap:
  `Rtt.WithinWindowExact`, by `Rtt.LateReaches`, with the bound in `Rtt.DenseSamplesBoundReach`.
  After silence it reaches back any time: `Rtt.SparseSamplesOutliveWindow`.
- A header with a delay or history but no acknowledgement does not survive encoding:
  exact in `Wire.RoundTripExact`; no connection builds one (`HeaderWire.BuiltRoundTrip`).
- A handshake is said to be refused before anything changes (`endpoint.rs:571-574`). When a slot
  has been retired the count check can pass, the holder of the session is closed, and only then is
  the claim refused: `EndpointWear.RefusalClosesHolder`. Exact in `EndpointRefusals.RefusalExact` and
  `EndpointRefusals.RoomlessExact`; with no slot retired it is as said
  (`EndpointRefusals.UnwornUnchanged`).

## Model

| member | source | states |
|---|---|---|
| `Sequences.ReconstructExact` | hex-net-core/src/seq.rs:70-82 | a sixteen-bit counter is restored to the true value if and only if that value lies in the half-open window of 65,536 around the reference |
| `Sequences.ReconstructNear` | hex-net-core/src/seq.rs:70-82 | whatever is restored agrees with the wire bits and is within half a wrap of the reference |
| `Sequences.ReceiveWindow.constructor` | hex-net-core/src/seq.rs:95-103 | a fresh window stands for the empty set of received sequences |
| `Sequences.ReceiveWindow.Insert` | hex-net-core/src/seq.rs:123-145 | the in-place window stands for one more received sequence |
| `Sequences.InsertRefines` | hex-net-core/src/seq.rs:123-145 | inserting keeps the 64-bit window in agreement with the unbounded set of everything received |
| `Sequences.CheckExact` | hex-net-core/src/seq.rs:104-121 | against that set: too old iff 64 or more behind the newest, otherwise duplicate iff a member |
| `Sequences.AckBitsExact` | hex-net-core/src/seq.rs:147-156 | a reported history bit is set iff the sequence it names was received |
| `Sequences.PassedOnce` | hex-net-core/src/seq.rs:95-156 | over any run of arrivals nothing passes twice, and a genuine sequence that never passes arrived 64 or more behind the newest |
| `Sequences.ResolveAckExact` | hex-net-core/src/packet.rs:198-205 | what an acknowledgement is taken to name, for every distance: the newest packet of the same wire form, or nothing if that is more than 32,768 behind; so it names another packet than it means iff it is a whole wire range behind or more and the rest of the distance is at most 32,768 |
| `Sequences.SameWireFarApart` | hex-net-core/src/seq.rs:70-82 | two counters with the same wire bits differ by at least a whole wrap |
| `PacketObject.PacketCrypto.constructor` | hex-net-core/src/packet.rs:108-121 | a fresh packet layer has opened nothing and sends sequence 1 first |
| `PacketObject.PacketCrypto.Decrypt` | hex-net-core/src/packet.rs:154-182 | check, open, then commit: a malformed, repeated or forged datagram leaves no trace, and a sequence that opens was never opened before |
| `PacketObject.PacketCrypto.RecordEliciting` | hex-net-core/src/packet.rs:138-146 | the acknowledgement window gains exactly this sequence, and the arrival time moves only with the newest |
| `PacketObject.PacketCrypto.Encrypt` | hex-net-core/src/packet.rs:184-196 | sealing consumes one sequence; no sequence is used twice |
| `PacketObject.PacketCrypto.AckState` | hex-net-core/src/packet.rs:127-136 | the reported acknowledgement names exactly the sequences opened and worth acknowledging within its reach |
| `Rtt.UpdateBounded` | hex-net-core/src/ack.rs:224-255 | every sample, in its own terms: the first sets the averages and both minima; after that the delay the peer reports is taken off only where that leaves no less than the windowed minimum, the average moves an eighth of the way to the result and the variation a quarter; nothing wraps while samples stay within an eighth of the word (section 5.3 of RFC 9002) |
| `Rtt.RunBounded` | hex-net-core/src/ack.rs:224-255 | the same bounds after every run of samples |
| `Rtt.WindowedMinCovers` | hex-net-core/src/ack.rs:125-159 | the reported minimum is exactly the minimum of a suffix of the history that holds every sample younger than half the window |
| `Rtt.RunFilters` | hex-net-core/src/ack.rs:224-255 | over every run of samples each of the two minima of the estimator is such a filter, over its own window |
| `Rtt.NeverAboveRecent` | hex-net-core/src/ack.rs:125-159 | a filter never exceeds a sample of the last half window |
| `Rtt.MinimaNeverAbove` | hex-net-core/src/ack.rs:125-159 | so over every run neither minimum of the estimator exceeds a sample of its last half window |
| `Rtt.DenseSamplesBoundReach` | hex-net-core/src/ack.rs:125-159 | with samples at most a gap apart the minimum reaches back at most the window, less two, and one gap |
| `Rtt.LateReaches` | hex-net-core/src/ack.rs:125-159 | a history, for every window and every gap, whose minimum reaches back exactly that far |
| `Rtt.WithinWindowExact` | hex-net-core/src/ack.rs:125-159 | the minimum stays within the window for every history with gaps at most `gap` iff `gap` is at most two nanoseconds |
| `Rtt.SparseSamplesOutliveWindow` | hex-net-core/src/ack.rs:125-159 | in the estimator itself a sample of any age can still be both minima |
| `Ledger.NewValid` | hex-net-core/src/ack.rs:293-306 | a fresh ledger satisfies the invariant: count, cursor, slots and send times agree |
| `Ledger.OnSentValid` | hex-net-core/src/ack.rs:335-368 | sending keeps the invariant, whatever the ring evicts |
| `Ledger.OnAckValid` | hex-net-core/src/ack.rs:370-411 | an acknowledgement of anything sent keeps the invariant |
| `Ledger.OnTimeoutValid` | hex-net-core/src/ack.rs:413-422 | a timeout keeps the invariant |
| `Ledger.DetectLostValid` | hex-net-core/src/ack.rs:459-484 | loss detection keeps the invariant: the cursor is the smallest sequence in flight, or one past the largest sent |
| `Ledger.AdvancedValid` | hex-net-core/src/ack.rs:526-531 | moving the cursor from any bound below the flight lands on the smallest sequence in flight |
| `Ledger.OverdueMonotone` | hex-net-core/src/ack.rs:459-484 | with nondecreasing send times, a packet not overdue shields every later one: why the scan may stop early |
| `Ledger.LossTimeEarliest` | hex-net-core/src/ack.rs:487-505 | the loss deadline read from one slot is the earliest over all packets in flight below the largest acknowledged, and exists iff there is such a packet |
| `Ledger.TimerArmedIffInFlight` | hex-net-core/src/ack.rs:424-432 | a timer is armed if and only if something is in flight |
| `Ledger.TimeoutMakesProgress` | hex-net-core/src/ack.rs:413-432 | a timeout serviced at or after its deadline always reports a loss or owes probes |
| `Ledger.NothingLost` | hex-net-core/src/ack.rs:459-484 | a scan that declares nothing lost changes nothing |
| `LedgerObject.Delivery.constructor` | hex-net-core/src/ack.rs:289-306 | the object starts as the fresh ledger |
| `LedgerObject.Delivery.AdvanceOldest` | hex-net-core/src/ack.rs:526-531 | the loop stops at the first sequence in flight |
| `LedgerObject.Delivery.OnSent` | hex-net-core/src/ack.rs:335-368 | the in-place step is the step on values, evictions reported, invariant kept |
| `LedgerObject.Delivery.Resolve` | hex-net-core/src/ack.rs:434-457 | one named packet: at most one note, acknowledged if in flight, vindicated if declared lost |
| `LedgerObject.Delivery.ResolveNamed` | hex-net-core/src/ack.rs:370-411 | the acknowledgement and its 32 history bits resolve exactly the sequences they name |
| `LedgerObject.Delivery.Scan` | hex-net-core/src/ack.rs:459-484 | the early-breaking scan declares exactly what judging every packet ever sent would |
| `LedgerObject.Delivery.Judge` | hex-net-core/src/ack.rs:459-484 | one turn of the scan: stop only at a packet in flight that is not overdue |
| `LedgerObject.Delivery.DetectLost` | hex-net-core/src/ack.rs:459-484 | the scan and the cursor together are the full-scan step |
| `LedgerObject.Delivery.Acknowledge` | hex-net-core/src/ack.rs:370-411 | resolution, round-trip sample and backoff reset, before loss detection |
| `LedgerObject.Delivery.OnAck` | hex-net-core/src/ack.rs:370-411 | the in-place step is the step on values, invariant kept |
| `LedgerObject.Delivery.OnTimeout` | hex-net-core/src/ack.rs:413-422 | the step on values, of which LedgerTimers.LostExact and ProbesExact say which packets are lost and when probes are owed |
| `LedgerRuns.StepGood` | hex-net-core/src/ack.rs:335-450 | every operation keeps slots, counters and the history of notifications in agreement |
| `LedgerRuns.EveryRunGood` | hex-net-core/src/ack.rs:82-91 | that agreement holds in every reachable state, for any ring size |
| `LedgerRuns.FateCounts` | hex-net-core/src/ack.rs:82-91 | a fate that is not broken has at most one outcome and at most one vindication |
| `LedgerRuns.FateLawful` | hex-net-core/src/ack.rs:82-91 | each notification returns the packet's own record, and a vindication follows a loss |
| `LedgerRuns.RecordsReturnedOnce` | hex-net-core/src/ack.rs:335-450 | over every run each tracked record is returned exactly once, acknowledged or lost, or is still in flight; at most one spurious report follows, only after its loss; the count in flight is the number of slots in flight |
| `LedgerTimers.NamedExact` | hex-net-core/src/ack.rs:370-411 | an acknowledgement names its own packet and exactly those its set bits stand for, from the one before it back |
| `LedgerTimers.LostExact` | hex-net-core/src/ack.rs:459-524 | a packet in flight is given up iff it is three or more behind the largest acknowledged, or behind it and nine eighths of the greater round trip, at least a millisecond, have gone by since it was sent |
| `LedgerTimers.ProbesExact` | hex-net-core/src/ack.rs:413-422 | a timeout owes two probes iff something is in flight after its losses and the last packet worth acknowledging went out the smoothed round trip, four variations or a millisecond, and the peer's delay ago, times two to the backoff; and only then the backoff rises, to six at most |
| `LedgerTimers.SendTeaches` | hex-net-core/src/ack.rs:335-368 | only a packet worth acknowledging moves the time probes wait from |
| `LedgerTimers.AckTeaches` | hex-net-core/src/ack.rs:370-411 | a round trip is measured iff the newest packet named was in flight, the backoff is forgotten iff any packet named was, and the largest acknowledged never goes back |
| `LedgerTimers.ProbesOverRuns` | hex-net-core/src/ack.rs:293-530 | over every run: probes are owed iff something is in flight and that wait is over, doubled once for each probing timeout since an acknowledgement of a packet in flight or a change of path, up to 64 times |
| `LedgerNotes.OnAckReported` | hex-net-core/src/ack.rs:370-411 | every packet that leaves the flight is reported and every one reported has left, and exactly the named packets in flight are reported acknowledged |
| `LedgerNotes.OnTimeoutReported` | hex-net-core/src/ack.rs:413-422 | every packet that leaves the flight is reported, as lost |
| `LedgerNotes.OnSentReported` | hex-net-core/src/ack.rs:335-368 | only the evicted occupant leaves, reported; the new packet is in flight under its own record |
| `Bits.BitsRequiredExact` | hex-net-core/src/bits.rs:30-35 | the width is the least that holds the range |
| `BitStream.BitWriter.constructor` | hex-net-core/src/bits.rs:51-60 | a fresh writer holds the empty bit sequence |
| `BitStream.BitWriter.WriteBits` | hex-net-core/src/bits.rs:74-97 | appends exactly the low bits of the value, or fails changing nothing |
| `BitStream.BitWriter.FlushWord` | hex-net-core/src/bits.rs:74-97 | moving a full word from the register to the buffer leaves the stream alone |
| `BitStream.BitWriter.WriteU64` | hex-net-core/src/bits.rs:105-112 | appends the 64 bits, or reports overflow having only appended; succeeds iff they fit |
| `BitStream.BitWriter.WriteRange` | hex-net-core/src/bits.rs:115-127 | refuses exactly the values outside the range, otherwise appends the offset in the least width |
| `BitStream.BitWriter.Align` | hex-net-core/src/bits.rs:141-147 | appends zeros to the byte boundary, or fails changing nothing |
| `BitStream.BitWriter.WriteBytes` | hex-net-core/src/bits.rs:150-178 | at a byte boundary appends exactly the bytes, or fails changing nothing |
| `BitStream.BitWriter.Copy` | hex-net-core/src/bits.rs:150-178 | the buffer is changed on the run and nowhere else |
| `BitStream.BitWriter.Resume` | hex-net-core/src/bits.rs:189-208 | the registers are rebuilt so that the stream is the buffer's prefix |
| `BitStream.BitWriter.Rollback` | hex-net-core/src/bits.rs:189-208 | truncates the stream to the checkpoint, across flushed words and byte runs |
| `BitStream.BitWriter.FlushPartial` | hex-net-core/src/bits.rs:211-218 | the pending bits reach the buffer, zero-padded, and the stream is unchanged |
| `BitStream.BitWriter.Finish` | hex-net-core/src/bits.rs:221-225 | the buffer holds exactly the stream, zero-padded to a byte |
| `BitStream.BitReader.constructor` | hex-net-core/src/bits.rs:236-245 | a fresh reader is at the start of the buffer's bits |
| `BitStream.BitReader.Refill` | hex-net-core/src/bits.rs:258-285 | taking a word, or near the end a byte, keeps register and stream in step |
| `BitStream.BitReader.ReadBits` | hex-net-core/src/bits.rs:258-285 | returns the next bits as a number, or fails consuming nothing; fails iff too few remain |
| `BitStream.BitReader.Take` | hex-net-core/src/bits.rs:258-285 | the register's low bits are the stream's next bits |
| `BitStream.BitReader.ReadU64` | hex-net-core/src/bits.rs:293-302 | returns the next 64 bits as a number |
| `BitStream.BitReader.ReadRange` | hex-net-core/src/bits.rs:305-312 | returns the value whose offset is in the stream, refusing offsets above the range |
| `BitStream.BitReader.Align` | hex-net-core/src/bits.rs:324-331 | moves to the byte boundary and never fails |
| `BitStream.BitReader.PeekBytes` | hex-net-core/src/bits.rs:334-340 | the bytes at the position, at a byte boundary and within the buffer only |
| `BitStream.BitReader.SkipBytes` | hex-net-core/src/bits.rs:343-352 | advances; the reader stays in step with the stream if and only if it was byte-aligned |
| `BitStream.WriteAll` | hex-net-core/src/bits.rs:74-97 | written in turn, values of given widths leave exactly their bits joined, and all are written iff these fit the buffer |
| `BitStream.SpelledAt` | hex-net-core/src/bits.rs:258-285 | each item stands in the joined bits where the widths before it end |
| `BitStream.WriteThenRead` | hex-net-core/src/bits.rs:74-285 | values written in turn, finished, and read back with the same widths come back in order, each cut to its width |
| `Frames.ParseEncodable` | hex-net-core/src/connection.rs:591-618 | whatever bits arrive, every frame read fits its fields |
| `Frames.MessageRead` | hex-net-core/src/channel.rs:362-382 | reading at a printed message frame gives that frame and its end |
| `Frames.ControlRead` | hex-net-core/src/connection.rs:607-618 | reading at a printed control frame gives that frame and its end |
| `Frames.RoundTrip` | hex-net-core/src/connection.rs:591-604 | parsing a printed body, whatever zero padding follows, gives back exactly its frames in order |
| `FrameIO.WriteRun` | hex-net-core/src/bits.rs:141-178 | alignment and bytes appended, iff they fit; what was there stays |
| `FrameIO.WriteFields` | hex-net-core/src/connection.rs:283-322 | the fields of a control frame, appended iff they fit |
| `FrameIO.WriteHead` | hex-net-core/src/connection.rs:326-333 | kind, code and fields, appended iff they fit |
| `FrameIO.WriteParts` | hex-net-core/src/connection.rs:326-333 | a whole control frame, appended iff it fits |
| `FrameIO.WriteControlFrame` | hex-net-core/src/connection.rs:324-333 | the packet gains exactly the frame's bits, or is as it was |
| `FrameIO.WriteChunks` | hex-net-core/src/channel.rs:646-661 | a payload kept in blocks is appended whole, iff it fits |
| `FrameIO.WriteId` | hex-net-core/src/channel.rs:646-661 | the id is written iff the channel kind needs one |
| `FrameIO.WriteMessageFields` | hex-net-core/src/channel.rs:646-661 | all that goes before the payload is appended, iff it fits |
| `FrameIO.WriteMessageFrame` | hex-net-core/src/channel.rs:646-661 | a message frame out of the arena's blocks, appended iff it fits |
| `FrameIO.ReadRun` | hex-net-core/src/connection.rs:884-895 | a run of bytes after alignment is the one the stream spells |
| `FrameIO.ReadMessageFrame` | hex-net-core/src/channel.rs:362-382 | reads exactly what parsing the bits gives, and ends where it ends |
| `FrameIO.ReadControlFrame` | hex-net-core/src/connection.rs:607-618 | reads exactly what parsing the bits gives, unknown codes and reasons refused |
| `FrameIO.ReadRest` | hex-net-core/src/connection.rs:591-604 | what follows a frame's kind is read as parsed |
| `FrameIO.ReadNext` | hex-net-core/src/connection.rs:591-604 | one turn of the read loop meets the frame the bits spell |
| `FrameIO.ReadFrames` | hex-net-core/src/connection.rs:591-604 | the read loop finds exactly the parsed frames, and the packet ack-eliciting iff there are any |
| `Arena.BlocksFor` | hex-net-core/src/arena.rs:86-93 | the least number of blocks that holds the length, and at least one |
| `Arena.Arena.constructor` | hex-net-core/src/arena.rs:67-76 | no message stored, every block free |
| `Arena.Arena.Reserve` | hex-net-core/src/arena.rs:98-124 | refused iff the free blocks do not suffice; otherwise a new reference, other messages untouched, free count exact |
| `Arena.Arena.WriteAt` | hex-net-core/src/arena.rs:131-162 | refused iff it would pass the end; otherwise this message is patched and no other changes |
| `Arena.Arena.Store` | hex-net-core/src/arena.rs:165-172 | the map from references to payloads gains exactly this payload |
| `Arena.Arena.Load` | hex-net-core/src/arena.rs:176-193 | copies out exactly the stored payload |
| `Arena.Arena.WritePieces` | hex-net-core/src/arena.rs:126-162 | writes in any order, overlapping or not, leave the reserved message exactly the bytes they cover, and every other message as it was |
| `Arena.Arena.Reassemble` | hex-net-core/src/arena.rs:126-193 | writes that cover a reserved message, then a load: the message comes back whole and every other stays as it was |
| `Arena.Arena.Release` | hex-net-core/src/arena.rs:196-213 | exactly this message leaves and its blocks are free again |
| `Arena.Arena.Chunks` | hex-net-core/src/arena.rs:217-245 | the blocks joined are the payload |
| `Arena.ReservedOk` | hex-net-core/src/arena.rs:98-124 | cutting the free chain leaves live chains and free list a partition of all blocks |
| `Arena.ReleaseStep` | hex-net-core/src/arena.rs:196-213 | each block pushed back keeps that partition |
| `Arena.FlatPatched` | hex-net-core/src/arena.rs:131-162 | a write into one block of a chain is a write into the bytes the chain spells |
| `Arena.PiecesWritten` | hex-net-core/src/arena.rs:126-162 | on the bytes of one message: pieces in any order, overlapping or not, leave exactly what they cover; `WritePieces` is this as calls |
| `Arena.Reassembled` | hex-net-core/src/arena.rs:126-162 | on the bytes of one message: pieces that cover it leave exactly it; `Reassemble` is this as calls |
| `Channels.WireIdExact` | hex-net-core/src/channel.rs:68-98 | a message id is restored exactly iff it lies within the wire window of its reference, and there its distance is its difference |
| `SendQueue.ReleasedAllExact` | hex-net-core/src/channel.rs:564-566 | exactly the messages with the record's keys leave the queue; the rest keep their order |
| `SendQueue.MarkedLostAllExact` | hex-net-core/src/channel.rs:569-571 | exactly the messages with the record's keys wait again, in place |
| `SendQueue.RequeuedSame` | hex-net-core/src/channel.rs:582-594 | requeueing changes marks only, and only clears them |
| `SendQueue.FillFilled` | hex-net-core/src/channel.rs:495-537 | a filled packet prints what was there and then its staged messages, within capacity, and each staged message came from the queue and is marked |
| `SendQueue.FillKeepsStaged` | hex-net-core/src/channel.rs:495-537 | filling only adds to what is staged |
| `Priorities.SendExact` | hex-net-core/src/channel.rs:340-360 | a message is queued, last, iff it has at most 1024 bytes, its channel exists, fewer than 64 are queued and their blocks and its own fit; otherwise nothing changes |
| `Priorities.RequeuedExact` | hex-net-core/src/channel.rs:582-594 | exactly the first so many messages in flight wait again |
| `Priorities.FillFull` | hex-net-core/src/channel.rs:495-537 | a packet is filled until it holds eight messages, its allowance is used up or would be overrun by the next, or no message that is next on its channel fits |
| `Priorities.FillOrder` | hex-net-core/src/channel.rs:495-537 | what is put in was waiting, goes in order of channel and on each in order of id, and overtakes nothing that waits on its channel |
| `SendQueue.KeysWhereExact` | hex-net-core/src/channel.rs:542-552 | a record names exactly the staged messages of reliable channels |
| `ChannelsObject.ChannelState.constructor` | hex-net-core/src/channel.rs:310-321 | empty queues over two empty arenas |
| `ChannelsObject.ChannelState.Send` | hex-net-core/src/channel.rs:340-360 | the step on values; the live references stay exactly those of the two queues |
| `ChannelsObject.ChannelState.Position` | hex-net-core/src/channel.rs:627-642 | the first queued message with the key, or the end |
| `ChannelsObject.ChannelState.ReleasePending` | hex-net-core/src/channel.rs:627-633 | the message leaves the queue and its storage is freed once |
| `ChannelsObject.ChannelState.SetInFlight` | hex-net-core/src/channel.rs:638-642 | one mark changes, nothing else |
| `ChannelsObject.ChannelState.MarkLost` | hex-net-core/src/channel.rs:638-642 | the message with the key waits again |
| `ChannelsObject.ChannelState.OnAcked` | hex-net-core/src/channel.rs:564-566 | every message of the record is released, with its storage |
| `ChannelsObject.ChannelState.OnLost` | hex-net-core/src/channel.rs:569-571 | every message of the record waits again |
| `ChannelsObject.ChannelState.OnPacketSent` | hex-net-core/src/channel.rs:542-552 | exactly the unreliable messages staged leave the queue, and exactly the keys of the reliable ones are given to remember |
| `ChannelsObject.ChannelState.OnPacketAborted` | hex-net-core/src/channel.rs:554-561 | everything staged waits again |
| `ChannelsObject.ChannelState.OnlyQueueChanged` | hex-net-core/src/channel.rs:495-642 | work on the send side leaves receivers, hold and receive storage as they were |
| `ChannelsObject.ChannelState.RequeueOldest` | hex-net-core/src/channel.rs:582-594 | the oldest messages in flight, at most the given number, are marked unsent |
| `ChannelsObject.ChannelState.FindUnsent` | hex-net-core/src/channel.rs:495-537 | the first waiting message of the channel |
| `ChannelsObject.ChannelState.NextUnsentLen` | hex-net-core/src/channel.rs:615-622 | how long the first message waiting in channel order is, or none iff none waits |
| `ChannelsObject.ChannelState.StageOne` | hex-net-core/src/channel.rs:495-537 | written and marked iff it fits room and limit; otherwise packet and queue as they were |
| `ChannelsObject.ChannelState.WriteFrames` | hex-net-core/src/channel.rs:495-537 | stages exactly the messages, bits and marks of the filling step |
| `ChannelsObject.ChannelState.FindHeld` | hex-net-core/src/channel.rs:485-488 | the held message with this id, if held |
| `ChannelsObject.ChannelState.TakeHeld` | hex-net-core/src/channel.rs:466-482 | one held message comes out with its payload and its storage is freed |
| `ChannelsObject.ChannelState.FlushOrdered` | hex-net-core/src/channel.rs:466-482 | delivers, in order, as far as the held messages reach |
| `ChannelsObject.ChannelState.ReceiveOrdered` | hex-net-core/src/channel.rs:422-460 | delivered with what it unblocks, held, or discarded, as the step on values |
| `ChannelsObject.ChannelState.HoldMessage` | hex-net-core/src/channel.rs:388-404 | held iff there is a slot and storage, otherwise counted dropped |
| `ChannelsObject.ChannelState.ReadMessage` | hex-net-core/src/channel.rs:362-406 | the in-place step is the step on values for every channel kind, bad ids refused; over runs it delivers exactly what Deliveries.DeliversExactly says |
| `UnorderedFilter.FilterIsWindow` | hex-net-core/src/channel.rs:217-247 | one arrival through the filter is one arrival through the receive window |
| `UnorderedFilter.RunIsWindow` | hex-net-core/src/channel.rs:217-247 | every run of wire bits through the filter is a run of that window over the ids they were taken for |
| `UnorderedFilter.DeliveredOnce` | hex-net-core/src/channel.rs:217-247 | over any run no id is delivered twice, and an arrival never delivered came 64 or more behind the newest |
| `Deliveries.ReceiveTracks` | hex-net-core/src/channel.rs:362-406 | one frame on a channel that is not ordered: refused iff no id near the newest has its wire bits, delivered iff unreliable, or newer than all delivered, or not delivered and less than 64 behind, by the kind of the channel; the receive state still stands for all that was delivered |
| `Deliveries.DeliversExactly` | hex-net-core/src/channel.rs:362-406 | over every run of frames on all channels, interleaved, reordered and repeated, each channel that is not ordered has delivered exactly the payloads an account without filters or counters has for it, in that order |
| `Deliveries.NextExactly` | hex-net-core/src/channel.rs:362-406 | after any run the next frame is delivered or refused as that account says |
| `Deliveries.TakenExactly` | hex-net-core/src/channel.rs:88-98 | wire bits are taken for the id with those bits from 32,768 behind the newest delivered to 32,767 ahead |
| `Deliveries.UnreliableAll` | hex-net-core/src/channel.rs:362-406 | over every run an unreliable channel delivers every payload that arrives on it, as often as it arrives |
| `Deliveries.InOrderOnce` | hex-net-core/src/channel.rs:362-406 | over every run a sequenced channel delivers ids that only rise, and an unordered one delivers none twice |
| `Deliveries.NoneMissed` | hex-net-core/src/channel.rs:362-406 | over every run an arrival on an unordered channel is delivered, then or before, unless an id 64 or more newer came first; on a sequenced one unless one as new did |
| `UnorderedFilter.OldNeedNotBeDelivered` | hex-net-core/src/channel.rs:217-235 | a message that old need not have been delivered: 5 once, after 100, is refused |
| `UnorderedFilter.RefusedExact` | hex-net-core/src/channel.rs:217-247 | an id is refused iff it was delivered or is 64 or more behind the newest |
| `Limits.DroppedExact` | hex-net-core/src/channel.rs:384-404 | an ordered message is dropped iff it is ahead of the gap, not held already, and no slot or no storage is left |
| `Limits.HoldsAhead` | hex-net-core/src/channel.rs:384-460 | a big message ahead of the gap is held while storage for four lasts, and dropped after |
| `Limits.HeldAndFreed` | hex-net-core/src/channel.rs:340-571 | one message more is sent past message 0, is held or dropped behind the gap, and is acknowledged and let go by the sender, in a run of two connections |
| `Limits.HoldOverflows` | hex-net-core/src/channel.rs:42-46 | a state reached by two fresh connections: the hold has overflowed, the dropped message is acknowledged, and neither side has it any more |
| `Limits.ReadExact` | hex-net-core/src/channel.rs:88-98 | an ordered id is read as itself iff it is within the wire window of the expected one; misread, it is off by a whole wrap |
| `Budget.NewConsistent` | hex-net-core/src/budget.rs:111-127 | a fresh bucket is consistent: rate, refill and capacity are one decision |
| `Budget.OperationsConsistent` | hex-net-core/src/budget.rs:146-265 | every operation keeps rate, refill, capacity and level consistent and in bounds |
| `Budget.AdvanceTwice` | hex-net-core/src/budget.rs:146-156 | two polls earn exactly what one poll at the end would, despite saturation and the cap |
| `Budget.PollsDoNotMatter` | hex-net-core/src/budget.rs:146-156 | the level does not depend on how an interval is split into polls |
| `Budget.ReadyForExact` | hex-net-core/src/budget.rs:158-178 | the deadline has come iff the allowance then covers a datagram with that message |
| `BudgetRuns.AssessExact` | hex-net-core/src/budget.rs:209-249 | the rate is judged iff a round trip and 100 ms have gone by and twenty packets; it falls to three quarters, not below 2000, iff more than one in fifty was lost or a queue is seen a second time running, and else rises by a sixteenth of the configured rate up to that |
| `BudgetRuns.LossWithdrawn` | hex-net-core/src/budget.rs:189-197 | a loss reported and withdrawn is as if it had not been |
| `BudgetRuns.SentCounted` | hex-net-core/src/budget.rs:182-187 | between judgements the packets counted are exactly those that ask to be acknowledged |
| `BudgetRuns.RunPays` | hex-net-core/src/budget.rs:146-187 | over every run, what was spent within the allowance and what is left are at most what there was and what the time earned |
| `BudgetRuns.SpendingBounded` | hex-net-core/src/budget.rs:41-265 | so over every run, whatever the rate does, the bytes sent within the allowance in a stretch of time are at most a burst and the configured rate for that time |
| `BudgetRuns.RateRecovers` | hex-net-core/src/budget.rs:209-258 | over every run without congestion the rate never falls, and seventeen judgements bring it back to the configured one from anywhere |
| `BudgetObject.SendBudget.constructor` | hex-net-core/src/budget.rs:111-127 | full bucket at the configured rate |
| `BudgetObject.SendBudget.Advance` | hex-net-core/src/budget.rs:146-156 | the in-place step is the step on values |
| `BudgetObject.SendBudget.Available` | hex-net-core/src/budget.rs:141-144 | never more than the bucket holds or a datagram may be |
| `BudgetObject.SendBudget.ReadyFor` | hex-net-core/src/budget.rs:163-178 | the time on values, of which ReadyForExact says what it means |
| `BudgetObject.SendBudget.OnPathChange` | hex-net-core/src/budget.rs:200-206 | back to the configured rate with no history |
| `BudgetObject.SendBudget.SetRate` | hex-net-core/src/budget.rs:253-258 | rate, refill and capacity move together and the level is capped |
| `BudgetObject.SendBudget.Decrease` | hex-net-core/src/budget.rs:240-243 | never above the rate it was |
| `BudgetObject.SendBudget.Increase` | hex-net-core/src/budget.rs:245-249 | strictly above the rate it was, or at the configured rate |
| `BudgetObject.SendBudget.Assess` | hex-net-core/src/budget.rs:209-238 | the in-place step is the step on values, invariant kept; BudgetRuns.AssessExact says what moves the rate |
| `ConnectionInvariant.NewValid` | hex-net-core/src/connection.rs:430-457 | a fresh connection satisfies the invariant |
| `ConnectionInvariant.SendValid` | hex-net-core/src/connection.rs:498-500 | queueing a message keeps it |
| `ConnectionInvariant.NotesSettle` | hex-net-core/src/connection.rs:1073-1094 | after outcomes are applied: what no outcome touches is as it was, what is still in flight was untouched, and exactly the acknowledged messages are gone |
| `ConnectionInvariant.SettledStrandsNone` | hex-net-core/src/connection.rs:1073-1094 | when every packet leaving the flight is reported, no message is left behind by it |
| `ConnectionInvariant.HandleAckValid` | hex-net-core/src/connection.rs:574-585 | an acknowledgement keeps the invariant: every message in flight is in the record of a packet in flight |
| `ConnectionInvariant.ReadFramesValid` | hex-net-core/src/connection.rs:591-604 | any frames keep it |
| `ConnectionInvariant.HandleDatagramValid` | hex-net-core/src/connection.rs:512-572 | any datagram from anyone keeps it |
| `ConnectionInvariant.TimeoutValid` | hex-net-core/src/connection.rs:814-840 | loss detection, probes and the idle timeout keep it |
| `ConnectionInvariant.CommittedStrandsNone` | hex-net-core/src/connection.rs:665-747 | after a send, with its eviction, no message is stranded |
| `ConnectionInvariant.CommittedValid` | hex-net-core/src/connection.rs:665-747 | a committed packet keeps the invariant |
| `Transmit.AllControlWritten` | hex-net-core/src/connection.rs:771-799 | every owed control frame fits and is written, in order |
| `Transmit.FillSendsFirst` | hex-net-core/src/channel.rs:495-537 | a limit that covers the first waiting message stages at least one |
| `Transmit.DueDraft` | hex-net-core/src/connection.rs:620-747 | a connection with a packet due drafts one worth sending |
| `Transmit.PollExact` | hex-net-core/src/connection.rs:665-747 | the packet of a poll is the committed draft, the rate being judged first; Deadlines.PollSends says when there is one and Deadlines.PollCarries what it says |
| `Deadlines.DueExact` | hex-net-core/src/connection.rs:620-655 | a packet is due iff a control frame, close notice or probe is owed, an acknowledgement has waited its delay, or the open connection can afford the first message waiting on the first channel that has one |
| `Deadlines.PollSends` | hex-net-core/src/connection.rs:665-747 | polling sends a packet iff that holds at the rate just judged |
| `Deadlines.PollCarries` | hex-net-core/src/connection.rs:665-800 | whoever opens the packet reads all control frames owed, in order, then messages; afterwards none is owed but further probes, and a close notice has counted |
| `PacketContents.QueueOffers` | hex-net-core/src/connection.rs:675-679 | for a probe exactly the two oldest messages in flight wait again, and otherwise the queue is as it was |
| `PacketContents.PollHolds` | hex-net-core/src/connection.rs:665-747 | whoever opens the packet of a poll reads the control frames owed and then messages that were waiting in that queue, by channel and id, none overtaken, until the packet or what header, tag and control frames leave of the allowance is full; a connection that is not open sends none |
| `PacketContents.FirstActs` | hex-net-core/src/connection.rs:430-456 | a fresh connection, whenever first polled or serviced: a server's says that it accepted and nothing more, a client's nothing, and either closes iff the idle timeout has gone by in silence |
| `Deadlines.ClosesAfterNotices` | hex-net-core/src/connection.rs:503-507 | after a close is asked for, the next three polls, whenever they come, send packets that begin with the notice, and the third closes the connection and reports the reason |
| `Deadlines.TimeoutExact` | hex-net-core/src/connection.rs:814-840 | servicing closes the connection iff nothing was heard for the idle timeout; otherwise it owes a probe iff the ledger does or the keepalive is due, and drops a path challenge iff it is 3 s old |
| `Deadlines.NothingBefore` | hex-net-core/src/connection.rs:843-861 | before its deadline servicing a connection changes nothing at all and it has nothing to send |
| `Deadlines.SomethingAfter` | hex-net-core/src/connection.rs:843-861 | from its deadline on servicing it changes something or it has something to send |
| `Deadlines.WakesExactly` | hex-net-core/src/connection.rs:843-861 | so the deadline is exact, and only a closed connection has none |
| `Deadlines.NoPacketBefore` | hex-net-core/src/connection.rs:665-861 | before its deadline a poll sends nothing unless it has just raised the rate |
| `Transmit.PollValid` | hex-net-core/src/connection.rs:665-747 | polling keeps the invariant |
| `Transmit.AllowanceExact` | hex-net-core/src/connection.rs:690-711 | a datagram with messages exceeds the allowance by at most one byte, and iff its frames use all of it and the padding kind still has room; `OneByteOver` is one that does |
| `LoneSends.FillLone` | hex-net-core/src/channel.rs:495-537 | with one message waiting on any channel, a packet with room takes exactly that one and marks it |
| `LoneSends.LonePoll` | hex-net-core/src/connection.rs:665-747 | polling a connection with nothing to say but one affordable message sends exactly that message, and changes queue, ledger, budget, acknowledgements and sequence by it alone |
| `LoneSends.LeavesAtOnce` | hex-net-core/src/channel.rs:542-552 | an unreliable message is gone once sent and nothing is remembered of it |
| `Overruns.OneByteOver` | hex-net-core/src/connection.rs:690-711 | a connection reached from a fresh one by two sends, whose allowance is 1100 bytes, whose message is due, and whose datagram is 1101 bytes long |
| `Overruns.AssessmentCanDefer` | hex-net-core/src/connection.rs:665-670 | a connection reached from a fresh one by sending 66 packets at once and queueing a long message: its transmit deadline comes, and the poll then returns nothing |
| `Overruns.TracksNext` | hex-net-core/src/ack.rs:335-368 | the ledger tracks the last 64 packets sent, and each packet after them evicts one as lost |
| `Overruns.BurstPolls` | hex-net-core/src/connection.rs:665-747 | each small message of the burst goes out at once in 27 bytes, the rate not being judged yet |
| `ConnectionObject.ApplyResolutions` | hex-net-core/src/connection.rs:1073-1094 | outcomes applied in turn to queue and budget, as on values |
| `ConnectionObject.TryOwed` | hex-net-core/src/connection.rs:324-333 | the packet gains exactly the owed frame, or is as it was |
| `ConnectionObject.WrittenExact` | hex-net-core/src/connection.rs:283-322 | an owed frame is in the packet iff its own try added it |
| `ConnectionObject.LeftExact` | hex-net-core/src/connection.rs:283-322 | what stays owed is exactly what was not written |
| `ConnectionObject.WriteOwed` | hex-net-core/src/connection.rs:771-799 | writes the control frames of the step, and keeps owed exactly the rest |
| `ConnectionObject.SealBody` | hex-net-core/src/connection.rs:709-712 | the bytes spell the sealed body: padding kind if it fits, zeros to a byte |
| `ConnectionObject.ReadStops` | hex-net-core/src/connection.rs:591-604 | nothing after a frame that fails is acted on |
| `ConnectionObject.CommittedParts` | hex-net-core/src/connection.rs:714-745 | committing in the program's order is the commit step |
| `ConnectionObject.ConnectionState.constructor` | hex-net-core/src/connection.rs:430-457 | the object starts as the fresh connection, invariant established |
| `ConnectionObject.ConnectionState.Send` | hex-net-core/src/connection.rs:498-500 | the step on values, invariant kept |
| `ConnectionObject.ConnectionState.RequestClose` | hex-net-core/src/connection.rs:503-507 | only an open connection begins to close |
| `ConnectionObject.ConnectionState.HandleAck` | hex-net-core/src/connection.rs:574-585 | the in-place step is the step on values, invariant kept |
| `ConnectionObject.ConnectionState.ReadMessage` | hex-net-core/src/channel.rs:362-406 | a message frame reaches the channels and nothing else |
| `ConnectionObject.ConnectionState.Migrate` | hex-net-core/src/connection.rs:974-981 | a proved path moves the address and forgets timing and rate |
| `ConnectionObject.ConnectionState.ReadFrame` | hex-net-core/src/connection.rs:607-618 | one frame, for either role, as on values; a frame for the other role is refused |
| `ConnectionObject.ConnectionState.ReadTurn` | hex-net-core/src/connection.rs:591-604 | one turn of the loop advances the run of parsed frames by one, or ends it |
| `ConnectionObject.ConnectionState.ReadFrames` | hex-net-core/src/connection.rs:587-604 | acting on frames as they are met leads where parsing the whole body first would |
| `ConnectionObject.ConnectionState.AddressChanged` | hex-net-core/src/connection.rs:990-1000 | a packet from a new address is challenged there once |
| `ConnectionObject.ConnectionState.Acknowledge` | hex-net-core/src/connection.rs:559-570 | only an eliciting packet joins the acknowledgement state |
| `ConnectionObject.ConnectionState.HandleBody` | hex-net-core/src/connection.rs:548-572 | the step on values for a packet that opened |
| `ConnectionObject.ConnectionState.HandleDatagram` | hex-net-core/src/connection.rs:512-572 | the in-place step is the step on values, bytes in, invariant kept |
| `ConnectionObject.ConnectionState.DetectLosses` | hex-net-core/src/connection.rs:826-830 | the ledger's timeout applied to queue and budget |
| `ConnectionObject.ConnectionState.HandleTimeout` | hex-net-core/src/connection.rs:814-840 | the in-place step is the step on values, invariant kept |
| `ConnectionObject.ConnectionState.TransmitAt` | hex-net-core/src/connection.rs:625-649 | the time on values, which by Deadlines.DueExact has come iff a control frame, close notice or probe is owed, an acknowledgement is due, or the open connection can afford the first message waiting |
| `ConnectionObject.ConnectionState.NextTimeout` | hex-net-core/src/connection.rs:843-861 | the time on values, which by Deadlines.WakesExactly has come iff servicing the connection would change it or it has something to send |
| `ConnectionObject.ConnectionState.BuildHeader` | hex-net-core/src/connection.rs:749-767 | the header of the step, from the acknowledgement window |
| `ConnectionObject.ConnectionState.Prepare` | hex-net-core/src/connection.rs:672-678 | the allowance as it stands and the queue a probe requeued |
| `ConnectionObject.ConnectionState.StartPacket` | hex-net-core/src/connection.rs:680-690 | header and control frames of the draft |
| `ConnectionObject.ConnectionState.Begin` | hex-net-core/src/connection.rs:672-695 | the first half of the draft and the limit left for channel frames |
| `ConnectionObject.ConnectionState.FillPacket` | hex-net-core/src/connection.rs:697-701 | channel frames iff the connection is open and the limit positive |
| `ConnectionObject.ConnectionState.BuildPacket` | hex-net-core/src/connection.rs:672-701 | exactly the draft the step gives: header, frames, staged messages, what stays owed |
| `ConnectionObject.ConnectionState.Track` | hex-net-core/src/connection.rs:719-724 | queue, ledger and budget learn of the packet as on values |
| `ConnectionObject.ConnectionState.Settle` | hex-net-core/src/connection.rs:725-745 | spent, no longer owed, and the close notice counted |
| `ConnectionObject.ConnectionState.Commit` | hex-net-core/src/connection.rs:709-747 | committing in place is the commit step, packet and state |
| `ConnectionObject.ConnectionState.Abandon` | hex-net-core/src/connection.rs:703-708 | everything staged waits again, and nothing else changes |
| `ConnectionObject.ConnectionState.Produce` | hex-net-core/src/connection.rs:672-747 | a due packet is committed, or given up if it would say nothing |
| `ConnectionObject.ConnectionState.PollTransmit` | hex-net-core/src/connection.rs:665-747 | the in-place step is the step on values, packet in bytes, invariant kept |
| `OrderedDelivery.FlushedOk` | hex-net-core/src/channel.rs:466-482 | a flush delivers, in order, as far as the held messages reach, and forgets nothing |
| `OrderedDelivery.FlushedElsewhere` | hex-net-core/src/channel.rs:466-482 | a flush concerns one channel only |
| `OrderedDelivery.ReceiveOrderedOk` | hex-net-core/src/channel.rs:422-460 | an id read exactly: the prefix grows in order, and unless dropped the receiver has the message |
| `OrderedDelivery.FlushedGains` | hex-net-core/src/channel.rs:466-482 | a flush gives the receiver nothing it did not have |
| `OrderedDelivery.ReceiveOrderedGains` | hex-net-core/src/channel.rs:422-460 | receiving a message gives the receiver that message and no other |
| `PacketReading.ReceiveOk` | hex-net-core/src/channel.rs:362-406 | what one message does to every ordered channel |
| `PacketReading.ReadMessagesOk` | hex-net-core/src/connection.rs:591-604 | over a whole packet deliveries stay a prefix, and read to its end without a drop the receiver has all its messages |
| `PacketReading.ReceiveGains` | hex-net-core/src/channel.rs:362-406 | one message adds at most itself |
| `PacketReading.ReadMessagesGains` | hex-net-core/src/connection.rs:591-604 | a packet adds at most its own messages |
| `QueueFlow.CommitFlows` | hex-net-core/src/connection.rs:665-747 | sending keeps every reliable message queued |
| `QueueFlow.TimeoutFlows` | hex-net-core/src/connection.rs:814-840 | a timeout loses packets, never messages |
| `QueueFlow.HandleAckFlows` | hex-net-core/src/connection.rs:574-585 | a message leaves the queue iff the acknowledgement names a packet in flight whose record holds it, and changes only when a packet that carried it leaves the flight |
| `QueueFlow.HandleDatagramFlows` | hex-net-core/src/connection.rs:512-572 | a datagram changes the send side only so, and does so exactly if it opens |
| `TwoParty.StartInv` | hex-net-core/src/connection.rs:430-457 | two fresh connections satisfy the two-party invariant |
| `TwoParty.SubmitInv` | hex-net-core/src/channel.rs:340-360 | accepting a message keeps it |
| `TwoParty.TransmitAInv` | hex-net-core/src/connection.rs:665-747 | the sender transmitting keeps it |
| `TwoParty.ExpireAInv` | hex-net-core/src/connection.rs:814-840 | the sender's timeout keeps it |
| `TwoParty.RequestAInv` | hex-net-core/src/connection.rs:503-507 | the sender closing or queueing control frames keeps it |
| `TwoParty.ReturnInv` | hex-net-core/src/connection.rs:512-572 | any packet of the receiver reaching the sender, once, often or late, keeps it |
| `TwoParty.SubmitBInv` | hex-net-core/src/channel.rs:340-360 | the receiver accepting messages of its own keeps it |
| `TwoParty.RequestBInv` | hex-net-core/src/connection.rs:503-507 | the receiver closing or queueing control frames keeps it |
| `TwoParty.ExpireBInv` | hex-net-core/src/connection.rs:814-840 | the receiver's timeout keeps it |
| `TwoParty.TransmitBInv` | hex-net-core/src/connection.rs:665-747 | the receiver transmitting keeps it |
| `TwoParty.HeaderAcks` | hex-net-core/src/connection.rs:749-767 | the header of a packet names exactly packets read |
| `TwoParty.PollParts` | hex-net-core/src/connection.rs:665-747 | polling changes only the send side |
| `Arrival.ReadSplit` | hex-net-core/src/connection.rs:591-604 | control frames and then messages: the messages meet the channels as they were |
| `Arrival.ParseSealed` | hex-net-core/src/connection.rs:709-712 | a sealed body is read back as its frames |
| `Arrival.BodyReads` | hex-net-core/src/connection.rs:548-572 | an opened packet is read as its sender staged it, deliveries staying a prefix |
| `Arrival.BodyGains` | hex-net-core/src/connection.rs:548-572 | an opened packet gives the receiver its messages and no others |
| `TwoPartyRuns.OpenedOnce` | hex-net-core/src/packet.rs:154-182 | a datagram that opens names the packet it carries, and no packet opens twice |
| `TwoPartyRuns.Opened` | hex-net-core/src/connection.rs:512-572 | everything an opened packet changes at the receiver |
| `TwoPartyRuns.ArriveInv` | hex-net-core/src/connection.rs:512-572 | any sent packet arriving, once, often, late, or under any header, keeps the invariant |
| `TwoPartyRuns.AllowedRuns` | hex-net-core/src/connection.rs:430-861 | the invariant makes every allowed step possible |
| `TwoPartyRuns.StepInv` | hex-net-core/src/connection.rs:430-861 | every step of either side or of the network keeps the invariant |
| `TwoPartyRuns.RunInv` | hex-net-core/src/connection.rs:430-861 | so does every run |
| `TwoPartyRuns.DeliveredInOrder` | hex-net-core/src/channel.rs:340-482 | over every run that loses, duplicates and reorders, deliveries on a ReliableOrdered channel are at all times a prefix, in order and without repeats, of what was accepted, given ids within the wire window |
| `Complete.NotFarBehind` | hex-net-core/src/channel.rs:362-571 | what the receiver lacks is queued or held: at most MAX_PENDING + MAX_HELD messages |
| `Complete.ExactNext` | hex-net-core/src/channel.rs:88-98 | the next ordered id of a packet being read is read as itself iff it is at most 32,768 behind the one expected |
| `Complete.LackedReadExactly` | hex-net-core/src/channel.rs:88-98 | a message the receiver lacks is never misread |
| `Complete.ReadExactlyIff` | hex-net-core/src/channel.rs:88-98 | while nothing has been lost or dropped, a step misreads an id iff it opens a packet with a message more than 32,768 behind what is expected when it is read, which the receiver has |
| `CompleteRuns.AckNamesRead` | hex-net-core/src/packet.rs:198-205 | unless it misnames, an acknowledgement names only packets the peer has read |
| `CompleteRuns.LeaversReceived` | hex-net-core/src/channel.rs:564-566 | a message that leaves the send queue is one the receiver has |
| `CompleteRuns.StepWhole` | hex-net-core/src/connection.rs:430-861 | every step that reads ids exactly, drops nothing and acts on no acknowledgement that misnames keeps every accepted message delivered, held or queued |
| `CompleteRuns.RunWhole` | hex-net-core/src/connection.rs:430-861 | so does every run of such steps |
| `CompleteRuns.WholeAccounts` | hex-net-core/src/channel.rs:340-571 | each accepted message is delivered, held by the receiver, or pending at the sender, and at most 128 are undelivered |
| `CompleteRuns.NothingLost` | hex-net-core/src/channel.rs:340-571 | over every run with no id misread, no message dropped and no acknowledgement that misnames: deliveries are a prefix at most 128 short, and every other accepted message is held or still pending |
| `CompleteRuns.ExactIffTimely` | hex-net-core/src/channel.rs:88-98 | over every run that drops nothing and acts on no misnaming acknowledgement, ids are all read exactly iff no opened packet holds a message more than 32,768 behind what is expected when it is read |
| `CompleteRuns.TimelyLosesNothing` | hex-net-core/src/channel.rs:88-571 | over every such run without a message that stale, no id is ever misread and every accepted message is delivered, held or pending |
| `Spread.NotFarAhead` | hex-net-core/src/channel.rs:495-537 | since a packet that still opens was sent at most 63 later ones opened, of at most 8 messages each |
| `Spread.NearTimely` | hex-net-core/src/channel.rs:88-98 | if every packet was sent with its ordered ids within 32,264 of the newest, none that still opens is stale |
| `SpreadRuns.SpreadLosesNothing` | hex-net-core/src/channel.rs:88-571 | a condition the sender can check, sufficient for the above: over every run in which it sends only while its queued ordered ids are within 32,264 of the newest, ids are never misread and every accepted message is accounted for |
| `WorldSteps.SecondEarns` | hex-net-core/src/budget.rs:163-178 | whatever the rate has sunk to, a second earns enough for any message |
| `WorldSteps.AckPoll` | hex-net-core/src/connection.rs:665-747 | a connection with nothing to say but an acknowledgement that is due sends exactly that, and only the acknowledgement state and the sequence show it |
| `WorldSteps.HearsMessage` | hex-net-core/src/connection.rs:548-572 | a packet of one message does what its acknowledgement does, then what receiving the message does, and is itself owed word of |
| `WorldSteps.HearsAck` | hex-net-core/src/connection.rs:548-572 | a packet without frames does what its acknowledgement does and nothing else |
| `StaleAcks.StaleAckLoses` | hex-net-core/src/packet.rs:198-205 | a run of two fresh connections, nothing misread and nothing dropped, in which an acknowledgement 65,536 packets late is taken for the newest packet's and an accepted message is with neither side |
| `Laggards.NamesOthers` | hex-net-core/src/connection.rs:749-767 | an acknowledgement of the newest packet names it and none of the unread packets that carry the lagging message |
| `Laggards.Resends` | hex-net-core/src/connection.rs:665-747 | a message declared lost is sent again in a packet of its own and is then in flight in that packet alone |
| `Laggards.Round` | hex-net-core/src/connection.rs:430-861 | while one message lags, another is accepted, sent past it, read, acknowledged and let go, and the first stays queued |
| `StaleIds.StaleIdMisread` | hex-net-core/src/channel.rs:88-92 | a run of two fresh connections in which message 0 is resent for 32,768 messages and then, arriving when 32,769 is expected, is held as 65,536, which nobody has sent |
| `AckPacing.AloneBounded` | hex-net-core/src/connection.rs:145-192 | in any list of permitted events ack-only packets never outnumber arrivals worth acknowledging |
| `AckPacing.HeldBack` | hex-net-core/src/connection.rs:165-192 | in any such list, after one has gone out alone the next waits the acknowledgement delay |
| `AckPacing.AloneApart` | hex-net-core/src/connection.rs:145-192 | in any such list in order of time: bounded by arrivals, and any two at least the delay apart; `PacedOverRuns` has it of every run |
| `AckPacing.ElicitingIffTracked` | hex-net-core/src/connection.rs:703-724 | a packet is worth acknowledging to its reader iff its sender tracks it, and one that is not goes out only when an acknowledgement is due |
| `AckPacing.PollEvent` | hex-net-core/src/connection.rs:665-747 | polling is exactly one event of the acknowledgement state: alone, with frames, or none; alone only when due |
| `AckPacing.DatagramEvent` | hex-net-core/src/connection.rs:512-572 | so is a datagram: an arrival worth acknowledging iff it is processed and carries frames |
| `ConnectionRuns.PollAllowed` | hex-net-core/src/connection.rs:665-747 | of a valid connection polling asks only that time does not run backwards |
| `ConnectionRuns.StepValid` | hex-net-core/src/connection.rs:430-861 | every operation the connection allows keeps its invariant and its clock |
| `ConnectionRuns.RunValid` | hex-net-core/src/connection.rs:430-861 | every state of every run of a connection satisfies its invariant |
| `Reception.ReadExact` | hex-net-core/src/connection.rs:591-618 | a packet is read to its end iff no frame is one only the other role may send and no message is refused; then it closes iff a close is among its frames, keeps the last ticket, answers the last challenge, moves iff the response to the outstanding challenge is among them, and delivers its messages in order |
| `Reception.HappensExact` | hex-net-core/src/connection.rs:607-988 | the application hears of closing, tickets and a move in the order of their frames, the last sixteen being kept |
| `Reception.TakenUpExact` | hex-net-core/src/connection.rs:512-545 | a datagram is taken up iff it is what was sealed, its packet is the one its sequence bits mean, and that was not opened before nor is 64 behind; any other changes nothing |
| `Reception.HeardExact` | hex-net-core/src/connection.rs:546-572 | what a datagram taken up does: silence is over, its frames are read, word of it is owed iff it has frames and at once iff out of order, a new address is challenged; or, unreadable, it closes the connection as a violation |
| `Reception.HeaderReports` | hex-net-core/src/connection.rs:749-767 | a header names the packet, the newest packet with frames that was read, exactly which of the 32 before it were, and how long ago that one came |
| `Reception.LossesCounted` | hex-net-core/src/connection.rs:1073-1090 | the losses counted against the rate are those reported, less those that turned out not to be |
| `Reception.MovesOnlyProved` | hex-net-core/src/connection.rs:959-1000 | over every run the peer's address changes only when a packet brings back the token of a challenge of the new address, brought on by a packet that came from there |
| `AckPacing.StepEvent` | hex-net-core/src/connection.rs:430-861 | every operation is exactly one event, a permitted one |
| `AckPacing.RunEvents` | hex-net-core/src/connection.rs:430-861 | along every run the connection stays valid and what it owes is what its events add up to |
| `AckPacing.PacedOverRuns` | hex-net-core/src/connection.rs:145-192 | over every run of a fresh connection, whatever is done to it and whatever arrives: packets that only acknowledge never outnumber packets processed that carried frames, and any two are at least the acknowledgement delay apart |
| `AckPacing.OwedExact` | hex-net-core/src/connection.rs:146-197 | an acknowledgement is owed iff something arrived since the last packet sent: at once if any of it was out of order, and otherwise held since the first |
| `AckPacing.OwedOverRuns` | hex-net-core/src/connection.rs:146-197 | so over every run of a fresh connection |
| `AckPacing.DelayRoundTrip` | hex-net-core/src/ack.rs:538-549 | a reported delay is read to the quarter millisecond below, and from 63.75 ms on not at all |
| `Wire.UnpackPacked` | hex-net-core/src/wire.rs:123-158 | a connection id names its shard, slot and occupancy, as far as they fit |
| `Wire.PackUnpacked` | hex-net-core/src/wire.rs:123-158 | every 32-bit id is the packing of its parts |
| `Wire.PackedLow` | hex-net-core/src/wire.rs:123-158 | of the occupancy an id keeps its low bits only |
| `Wire.DecodeEncoded` | hex-net-core/src/wire.rs:214-289 | whatever follows it, an encoded header decodes to what it carries and says where it ends |
| `Wire.RoundTripExact` | hex-net-core/src/wire.rs:214-289 | decoding undoes encoding iff no delay or history stands beside a missing acknowledgement |
| `Wire.OwnerIsShard` | hex-net-core/src/wire.rs:170-184 | the owner read from one byte is the shard of the id the header decodes to |
| `HeaderWire.NonzeroExact` | hex-net-core/src/wire.rs:214-253 | the history is on the wire iff some bit of it is set |
| `HeaderWire.BuiltRoundTrip` | hex-net-core/src/connection.rs:749-767 | a header a connection builds is read back whole, and is as long as it was budgeted for |
| `Bucket.RefillWorth` | hex-net-core/src/endpoint.rs:970-988 | refilling creates nothing and leaves less than one interval over full |
| `Bucket.TakeWorth` | hex-net-core/src/endpoint.rs:992-1010 | a granted token is paid for by the bucket's worth |
| `Bucket.RunWorth` | hex-net-core/src/endpoint.rs:958-1010 | over every run what was granted is paid for by the start and the time passed |
| `Bucket.GrantsBounded` | hex-net-core/src/endpoint.rs:958-1010 | between any two times fewer than BURST + 1 + (t1 - t0) / INTERVAL tokens are granted |
| `Bucket.RefillKeeps` | hex-net-core/src/endpoint.rs:970-988 | refilling loses nothing but what a full bucket cannot hold |
| `Bucket.GrantedExact` | hex-net-core/src/endpoint.rs:992-1010 | a request is granted iff it is wanted and the bucket is then worth a token |
| `Bucket.NothingLost` | hex-net-core/src/endpoint.rs:958-1010 | over every run from a full bucket, since some request all that a full bucket and the time passed are worth was granted or is left |
| `Bucket.RefusedOnlySpent` | hex-net-core/src/endpoint.rs:958-1010 | so a request is refused only after, since some earlier one, BURST + (t1 - t0) / INTERVAL tokens short of one have been granted |
| `Bucket.Limiter.constructor` | hex-net-core/src/endpoint.rs:959-966 | a bucket starts full |
| `Bucket.Limiter.Refill` | hex-net-core/src/endpoint.rs:970-988 | the in-place step is the step on values, which by RefillWorth and RefillKeeps creates nothing and loses only what a full bucket cannot hold |
| `Bucket.Limiter.Reserve` | hex-net-core/src/endpoint.rs:992-1001 | a token can be spent iff one is there after the refill |
| `Bucket.Charge` | hex-net-core/src/endpoint.rs:906-918 | a handshake costs a token of each bucket, or of neither |
| `TimerHeap.SwapRefines` | hex-net-core/src/timer.rs:126-163 | swapping two entries keeps index and entries inverse and the map the same |
| `TimerHeap.UpStep` | hex-net-core/src/timer.rs:126-137 | one sift up moves the only disorder up |
| `TimerHeap.DownStep` | hex-net-core/src/timer.rs:139-157 | one sift down moves the only disorder down |
| `TimerHeap.RootLeast` | hex-net-core/src/timer.rs:19-26 | in an ordered heap the first entry is the least pair |
| `TimerHeap.AddedRefines` | hex-net-core/src/timer.rs:67-85 | an entry put last adds exactly its deadline |
| `TimerHeap.ChangedRefines` | hex-net-core/src/timer.rs:67-85 | an entry changed in place changes exactly its deadline |
| `TimerHeap.RemovedRefines` | hex-net-core/src/timer.rs:106-124 | filling the gap with the last entry removes exactly one deadline |
| `TimerHeap.RemovedOrdered` | hex-net-core/src/timer.rs:106-124 | and leaves disorder in one direction only |
| `TimerHeap.Timers.constructor` | hex-net-core/src/timer.rs:38-46 | no slot has a deadline |
| `TimerHeap.Timers.Deadline` | hex-net-core/src/timer.rs:55-58 | what the map gives for the slot |
| `TimerHeap.Timers.Peek` | hex-net-core/src/timer.rs:62-64 | the least pair of deadline and slot, or none iff the map is empty |
| `TimerHeap.Timers.Set` | hex-net-core/src/timer.rs:67-85 | the map gains or changes exactly this slot's deadline |
| `TimerHeap.Timers.Cancel` | hex-net-core/src/timer.rs:88-93 | exactly this slot's deadline goes |
| `TimerHeap.Timers.PopDue` | hex-net-core/src/timer.rs:97-104 | takes the least due pair, or nothing iff nothing is due |
| `TimerHeap.Timers.RemoveAt` | hex-net-core/src/timer.rs:106-124 | exactly this entry goes, order and index kept |
| `TimerHeap.Timers.SiftUp` | hex-net-core/src/timer.rs:126-137 | terminates in an ordered heap with the same map |
| `TimerHeap.Timers.SiftDown` | hex-net-core/src/timer.rs:139-157 | terminates in an ordered heap with the same map |
| `Slab.ContentsExact` | hex-net-core/src/slab.rs:170-185 | a handle is live iff its slot is occupied in its generation, and names that slot's item |
| `Slab.FilledContents` | hex-net-core/src/slab.rs:135-144 | filling a slot adds exactly a handle not live before |
| `Slab.EmptiedContents` | hex-net-core/src/slab.rs:146-167 | swap-remove takes exactly the one handle away; slots, items and owners stay inverse |
| `Slab.RemovedFree` | hex-net-core/src/slab.rs:146-167 | the free list stays acyclic and holds exactly the reusable slots, a slot whose generation wraps being retired |
| `Slab.RemovedAhead` | hex-net-core/src/slab.rs:146-167 | no handle issued is ahead of its slot's generation |
| `Slab.ContentsSize` | hex-net-core/src/slab.rs:198-200 | as many handles are live as there are items |
| `Slab.RefusesExact` | hex-net-core/src/slab.rs:121-132 | no slot can be claimed iff every slot has been made and each is occupied or retired |
| `Slab.RefusesOnlyWorn` | hex-net-core/src/slab.rs:121-132 | refused with fewer items than capacity, some slot is retired |
| `Slab.WornLeavesRoom` | hex-net-core/src/slab.rs:146-167 | a retired slot leaves fewer items than slots |
| `Slab.HollowFilled` | hex-net-core/src/slab.rs:121-144 | a slab whose items came and went one by one offers its first slot in the next generation |
| `Slab.HollowEmptied` | hex-net-core/src/slab.rs:146-167 | and is so again one occupant later, the slot worn out after the last generation |
| `Slab.HollowRefuses` | hex-net-core/src/slab.rs:101-167 | a slab of two whose first slot has had all its occupants holds one item and refuses another |
| `Slab.Slab.constructor` | hex-net-core/src/slab.rs:89-98 | empty, nothing issued |
| `Slab.Slab.Claim` | hex-net-core/src/slab.rs:121-132 | refused iff full; otherwise the slot on values, off the free list and ahead of every handle issued for it |
| `Slab.Slab.Fill` | hex-net-core/src/slab.rs:135-144 | a handle never issued before now names the item |
| `Slab.Slab.InsertWith` | hex-net-core/src/slab.rs:111-117 | the map gains exactly the item under the handle on values, never issued before |
| `Slab.Slab.Insert` | hex-net-core/src/slab.rs:101-106 | the map gains exactly the item under the handle on values, never issued before |
| `Slab.Slab.Remove` | hex-net-core/src/slab.rs:146-167 | the map loses exactly this handle, and its item is returned |
| `Slab.Slab.DenseIndex` | hex-net-core/src/slab.rs:170-173 | where the item is, iff the handle is live |
| `Slab.Slab.HandleAt` | hex-net-core/src/slab.rs:177-180 | the one live handle of the slot, or none |
| `Slab.Slab.Get` | hex-net-core/src/slab.rs:183-185 | the item the map gives |
| `Slab.Slab.Put` | hex-net-core/src/slab.rs:188-190 | exactly this item changes |
| `Endpoint.Home` | hex-net-core/src/shard.rs:96-108 | a handshake is completed by a shard that exists |
| `EndpointScheduler.TouchedScheduled` | hex-net-core/src/endpoint.rs:788-794 | queueing to transmit keeps the schedule coherent |
| `EndpointScheduler.ServicedScheduled` | hex-net-core/src/endpoint.rs:763-794 | so does servicing a connection and taking its events |
| `EndpointScheduler.RoutedScheduled` | hex-net-core/src/endpoint.rs:431-464 | so does any payload |
| `EndpointScheduler.FiredScheduled` | hex-net-core/src/endpoint.rs:714-727 | so does a due timer |
| `EndpointScheduler.ChangedScheduled` | hex-net-core/src/endpoint.rs:336-342 | so does anything the application does to a connection |
| `EndpointScheduler.DrainedScheduled` | hex-net-core/src/endpoint.rs:676-705 | after the transmit pass a connection is armed for its own deadline or queued for removal |
| `EndpointScheduler.ReapedScheduled` | hex-net-core/src/endpoint.rs:800-842 | a connection that leaves takes its timer and flags with it |
| `EndpointScheduler.TakenOverScheduled` | hex-net-core/src/endpoint.rs:588-595 | so does a takeover |
| `EndpointScheduler.AdmittedScheduled` | hex-net-core/src/endpoint.rs:597-638 | so does a new connection in a reused slot |
| `EndpointScheduler.RespondedScheduled` | hex-net-core/src/endpoint.rs:528-638 | so does any challenge response |
| `EndpointScheduler.StepScheduled` | hex-net-core/src/endpoint.rs:676-842 | every step keeps the schedule coherent |
| `EndpointSessions.ServiceLifetimes` | hex-net-core/src/endpoint.rs:676-794 | service work leaves sessions and tickets alone |
| `EndpointSessions.RetiredLifetimes` | hex-net-core/src/endpoint.rs:807-842 | each connection that goes is reported gone once, and its session suspended or ended |
| `EndpointSessions.LapsedLifetimes` | hex-net-core/src/endpoint.rs:846-864 | a session expires once, and never while attached |
| `EndpointSessions.ForgottenLifetimes` | hex-net-core/src/endpoint.rs:732-739 | a spent ticket is forgotten only when it has expired |
| `EndpointSessions.AdmittedLifetimes` | hex-net-core/src/endpoint.rs:597-638 | a new connection spends an unspent ticket and attaches its session |
| `EndpointSessions.DrawnLifetimes` | hex-net-core/src/endpoint.rs:579-586 | a session drawn has an id not known before and known after, and session and ticket lifetimes are kept |
| `EndpointSessions.RespondedLifetimes` | hex-net-core/src/endpoint.rs:528-638 | any challenge response keeps session and ticket lifetimes |
| `EndpointSessions.NotSpent` | hex-net-core/src/endpoint.rs:545-563 | a ticket still good and not remembered has never been spent |
| `EndpointSessions.LogMore` | hex-net-core/src/endpoint.rs:846-864 | one more report keeps: no Connected and no second SessionExpired after a SessionExpired |
| `EndpointRefusals.RefusalExact` | hex-net-core/src/endpoint.rs:571-621 | whatever the slab holds, a response refused for want of room changes nothing iff the count refused it or it resumes a session whose holder is neither open nor idle |
| `EndpointRefusals.EstablishedExact` | hex-net-core/src/endpoint.rs:579-621 | with no slot to claim, taking a session over changes nothing iff its holder is neither open nor idle, and drawing one always changes something |
| `EndpointRefusals.RoomlessExact` | hex-net-core/src/endpoint.rs:571-574 | the count passes and yet no slot can be claimed iff every slot has been made, each is occupied or retired, and one is retired |
| `EndpointRefusals.UnwornUnchanged` | hex-net-core/src/endpoint.rs:571-621 | with no slot retired a response refused for want of room changes nothing |
| `EndpointWear.Cycle` | hex-net-core/src/endpoint.rs:528-842 | from a reachable server and slab with nobody connected: a connection comes, is polled, times out, is dropped and removed, and server and slab are as before but one occupant older |
| `EndpointWear.RefusalClosesHolder` | hex-net-core/src/endpoint.rs:571-621 | a state of server and slab reached from fresh ones: the first slot has had all its 2^31 occupants, a player sits in the second, and presenting that player's resume ticket closes the connection and makes no other |
| `EndpointRuns.FreshGood` | hex-net-core/src/endpoint.rs:289-314 | a fresh endpoint is coherent |
| `EndpointRuns.WakesForConnections` | hex-net-core/src/endpoint.rs:746-757 | the endpoint never sleeps past a connection's own deadline |
| `EndpointRuns.WakesForSessions` | hex-net-core/src/endpoint.rs:746-757 | nor past the end of a suspended session's grace period |
| `EndpointRuns.FoundExact` | hex-net-core/src/endpoint.rs:443-454 | routing by slot and occupancy finds exactly the live connection that has them, as a search of all would |
| `EndpointRuns.FoundById` | hex-net-core/src/endpoint.rs:443-454 | for every connection id of this shard: its slot and occupancy find exactly the live connection with that id, as a search of all would, with capacity within the slot range |
| `EndpointRuns.StepGood` | hex-net-core/src/endpoint.rs:528-864 | every step keeps schedule and lifetimes |
| `EndpointRuns.StepLifetimes` | hex-net-core/src/endpoint.rs:528-864 | every step keeps session and ticket lifetimes |
| `EndpointRuns.GroupGood` | hex-net-core/src/shard.rs:96-108 | every reachable state of every member of a shard group is coherent |
| `EndpointRuns.TicketsSpentOnce` | hex-net-core/src/endpoint.rs:528-669 | over every run of the whole group a ticket id has produced at most one connection |
| `EndpointRuns.SessionsOverRuns` | hex-net-core/src/endpoint.rs:732-864 | in every reachable state an attached session names its own live connection, each connection gives one Disconnected, and no Connected or second SessionExpired follows a SessionExpired |
| `EndpointRuns.ScheduledOverRuns` | hex-net-core/src/endpoint.rs:676-842 | in every reachable state each live connection is queued, armed for its own deadline, or closed and queued for removal; queues repeat nothing; no timer outlives its connection; the endpoint wakes in time |
| `EndpointOwners.EntitledExact` | hex-net-core/src/endpoint.rs:528-640 | a response from the right address within 10 s, its ticket unspent and in date, and the session it names, if any, its client's own and resumable, makes one fresh connection: for that session or a new one of the client's, reported once, whoever held it told to close |
| `EndpointOwners.RefusedExact` | hex-net-core/src/endpoint.rs:528-669 | any other makes none, reports nothing, moves no session and spends no ticket; unless its ticket is spent or no slot is left, it changes nothing whatever: so one for an unknown session, another client's, or one suspended 45 s |
| `EndpointOwners.SpentAgain` | hex-net-core/src/endpoint.rs:545-562 | a spent ticket presented again in time has its connection say again that it accepted, if that lives, and nothing else |
| `EndpointOwners.LastExact` | hex-net-core/src/endpoint.rs:763-785 | reason and address are those of the last closing and the last move among a connection's events |
| `EndpointOwners.TakesExact` | hex-net-core/src/endpoint.rs:763-785 | taking a connection's events reports a move, with the address last moved to, remembers why it closed, and leaves none |
| `EndpointOwners.LeavesExact` | hex-net-core/src/endpoint.rs:807-842 | a connection that leaves is reported once with its reason; the session it holds is over iff the close was requested or the server shuts down, and else suspended from then |
| `EndpointOwners.StepFollows` | hex-net-core/src/endpoint.rs:528-866 | what a step does to a session: nothing, unless it is resumed by its owner, its connection leaves, or its 45 s are over, when it ends and is reported expired |
| `EndpointOwners.StepMakes` | hex-net-core/src/endpoint.rs:528-640 | no step reports a connection or begins a session but a response entitled to it |
| `EndpointOwners.SameOwner` | hex-net-core/src/endpoint.rs:528-866 | over every run of the group a session never changes owner, and a session id once used never comes back to another |
| `EndpointOwners.OneClient` | hex-net-core/src/endpoint.rs:528-669 | over every run all connections ever made for a session are one client's |
| `EndpointOwners.ConnectedBy` | hex-net-core/src/endpoint.rs:528-669 | over every run each connection reported was made by one response entitled to it, whose client owned the session before if it was resumed |
| `EndpointOwners.RemembersExactly` | hex-net-core/src/endpoint.rs:732-740 | what is remembered as spent is exactly every ticket that made a connection and is still in date |
| `EndpointOwners.SleepsSafely` | hex-net-core/src/endpoint.rs:746-761 | in every reachable state until the time a server names no connection is closed, would be changed by servicing or has anything to send, and no session may be expired |
| `EndpointOwners.WorkExact` | hex-net-core/src/endpoint.rs:746-761 | the time a server names has come iff a connection is queued, would be changed by servicing or has something to send, or the oldest suspension is 45 s old |
| `EndpointOwners.SessionsAtHome` | hex-net-core/src/shard.rs:96-108 | in every reachable state the tickets that resume a member's sessions, whatever their ids, are redeemed with that member |
| `EndpointConnections.StepProjects` | hex-net-core/src/endpoint.rs:383-866 | what each step of the server is to each connection: the datagram for its id, a poll when it heads the queue, a timeout when its timer is due, a close when its session is taken over, what the application asks, and nothing else |
| `EndpointConnections.StepAccepts` | hex-net-core/src/endpoint.rs:591-640 | a connection is new only by a response that earned one, and then fresh |
| `EndpointConnections.ConnectionsReached` | hex-net-core/src/endpoint.rs:383-866 | so in every reachable state of the group each live connection is one a fresh connection by itself comes to, and all that holds over runs of a connection holds of it |
| `EndpointConnections.EmittedAll` | hex-net-core/src/endpoint.rs:676-711 | a connection uses up a sequence number exactly when its packet goes out under it |
| `EndpointConnections.HeardById` | hex-net-core/src/endpoint.rs:431-465 | what the application is handed for a datagram is what the live connection of that id delivers, and nothing if there is none |
| `EndpointObject.TakeEvents` | hex-net-core/src/endpoint.rs:763-785 | the last migration and the last closure among the events |
| `EndpointObject.DeliversOnlyOpened` | hex-net-core/src/endpoint.rs:431-464 | a connection delivers something from a datagram only if the datagram opens |
| `EndpointObject.DrainTurn` | hex-net-core/src/endpoint.rs:676-705 | one more turn of the transmit pass is one more step on values, its packets after those before |
| `EndpointObject.EndpointState.constructor` | hex-net-core/src/endpoint.rs:289-314 | the object starts as the fresh endpoint |
| `EndpointObject.EndpointState.Touch` | hex-net-core/src/endpoint.rs:788-794 | queued at most once, as on values |
| `EndpointObject.EndpointState.PumpEvents` | hex-net-core/src/endpoint.rs:763-785 | a migration is reported and a closure remembered, as on values |
| `EndpointObject.EndpointState.SetConn` | hex-net-core/src/endpoint.rs:336-342 | one connection changes in the slab |
| `EndpointObject.EndpointState.Service` | hex-net-core/src/endpoint.rs:431-464 | touched and pumped, as on values |
| `EndpointObject.EndpointState.DrainOne` | hex-net-core/src/endpoint.rs:676-705 | one connection of the transmit pass is the step on values, and what comes out is exactly the packet its poll gives, or nothing |
| `EndpointObject.EndpointState.Rearm` | hex-net-core/src/endpoint.rs:690-705 | the timer becomes the connection's own deadline, or the connection is queued for removal |
| `EndpointObject.EndpointState.DrainTransmits` | hex-net-core/src/endpoint.rs:676-705 | the pass is a run of such steps, ending when nothing is ready or the sink is full, and gives exactly their packets in order |
| `EndpointObject.EndpointState.Retire` | hex-net-core/src/endpoint.rs:807-842 | slab, timer, ticket, session and log change as on values |
| `EndpointObject.EndpointState.Unhook` | hex-net-core/src/endpoint.rs:807-821 | connection, timer, flags and ticket entry go |
| `EndpointObject.EndpointState.Part` | hex-net-core/src/endpoint.rs:823-842 | the session is suspended iff the closure allows it and this connection held it |
| `EndpointObject.EndpointState.FireOne` | hex-net-core/src/endpoint.rs:714-720 | the least due timer is serviced, or none is due |
| `EndpointObject.EndpointState.ExpireOne` | hex-net-core/src/endpoint.rs:846-864 | the oldest suspension lapses iff its grace period is over |
| `EndpointObject.EndpointState.ForgetExpired` | hex-net-core/src/endpoint.rs:732-739 | exactly the expired tickets are forgotten |
| `EndpointObject.EndpointState.FireAll` | hex-net-core/src/endpoint.rs:714-720 | a run of such steps after which no timer is due |
| `EndpointObject.EndpointState.Reap` | hex-net-core/src/endpoint.rs:800-805 | a run of removals, at most a batch |
| `EndpointObject.EndpointState.ExpireSessions` | hex-net-core/src/endpoint.rs:846-864 | a run of expiry steps, oldest first, at most 64 sessions; and unless it was 64, no session is left whose 45 s are over |
| `EndpointObject.FrontDecides` | hex-net-core/src/endpoint.rs:846-866 | the oldest suspension tells for all |
| `EndpointObject.EndpointState.ServiceTimers` | hex-net-core/src/endpoint.rs:714-727 | a run of the steps of the server after which no timer is due, a batch of closed connections is gone and no ticket past its date is remembered |
| `EndpointObject.EndpointState.PushExpiry` | hex-net-core/src/endpoint.rs:632-635 | a spent ticket joins in order of its expiry |
| `EndpointObject.EndpointState.TakeOver` | hex-net-core/src/endpoint.rs:588-595 | the holder of the session is told to close, as on values |
| `EndpointObject.EndpointState.Lives` | hex-net-core/src/endpoint.rs:328-334 | a handle is live iff the slab has it |
| `EndpointObject.EndpointState.Admit` | hex-net-core/src/endpoint.rs:597-638 | a connection under the handle the slab offers, and everything that remembers it, or nothing changes |
| `EndpointObject.EndpointState.Occupy` | hex-net-core/src/endpoint.rs:597-621 | the slab gives exactly the handle it offers on values, never issued before |
| `EndpointObject.EndpointState.CheckTicket` | hex-net-core/src/endpoint.rs:649-669 | in date, and any session it names the client's own and attached or suspended less than 45 s: EndpointOwners.EntitledExact and RefusedExact say what follows |
| `EndpointObject.EndpointState.HandleResponse` | hex-net-core/src/endpoint.rs:528-638 | a challenge response is the allowed step on values; passing the checks, its handle is the one the slab offers |
| `EndpointObject.EndpointState.Answer` | hex-net-core/src/endpoint.rs:528-638 | retried, refused or established, exactly as the slab's own offer decides on values |
| `EndpointObject.EndpointState.Establish` | hex-net-core/src/endpoint.rs:579-638 | session drawn or resumed, holder closed, connection made |
| `EndpointObject.EndpointState.Resend` | hex-net-core/src/endpoint.rs:555-561 | the acceptance is queued again iff the ticket's connection lives |
| `EndpointObject.EndpointState.RoutePayload` | hex-net-core/src/endpoint.rs:431-464 | a payload is the allowed step on values, and delivers exactly what the connection with its id reads from it |
| `EndpointObject.EndpointState.Route` | hex-net-core/src/endpoint.rs:431-464 | the connection with the id handles it, or nothing changes; delivered is what that connection delivers |
| `EndpointObject.EndpointState.ChangeConnection` | hex-net-core/src/endpoint.rs:336-342 | what the application does to a connection is the allowed step on values |
| `EndpointObject.EndpointState.Operate` | hex-net-core/src/endpoint.rs:336-342 | one connection changes and is queued to transmit |

## Left out

- crypto.rs, key derivation, nonces and randomness: foreign code, replaced by the ideal packet and cookie above.
- Ticket and cookie byte layouts in handshake.rs, and handle_request: they add little beyond the bit round trip; the decoded cookie is an input.
- connector.rs: the client's handshake retries are easy branches.
- hex-net-io and hex-net-sim: sockets, threads and a random test network; the two-party network is nondeterministic instead.
- stats.rs and every counter except the count of dropped inbound messages: trivial.
- config.rs, fixed.rs, time.rs as subjects: validated configurations, bounded lists and saturating times appear only as helpers.
- BitWriter's write_bool and range_i32, BitReader's counterparts: one-line wrappers.
- SequenceBuffer as a class of its own: it is the ring inside LedgerObject.Delivery.
- RateLimiter's hashing of addresses into buckets: depends on the hash; one bucket per address and one shared bucket are modelled.
- Endpoint shutdown, poll_event and forwarding between shards: easy members.
- The endpoint's expiry queue is a BinaryHeap in the program and a sorted sequence in EndpointObject; the round-trip estimate and the acknowledgement state are copied values in the program and stay values here.
- EndpointObject keeps each connection in its slab as a value, not as a ConnectionObject; updates inside a connection are in place in ConnectionObject only.
- The packet buffer is filled from the body on: header bytes are modelled in Wire, not written into the same array.
- CompleteRuns.NothingLost: for ReliableOrdered channels and runs without a dropped message, a misread id or an acknowledgement that misnames; by a drop or such an acknowledgement a message can be lost, as Limits.HoldOverflows and StaleAcks.StaleAckLoses show, and by a misread id an old message takes the place of a later one, as in StaleIds.StaleIdMisread.
- SpreadRuns.SpreadLosesNothing: sufficient for exact reading, not necessary; the exact condition is CompleteRuns.ExactIffTimely's.
- UnorderedFilter.DeliveredOnce: speaks of the ids wire bits are taken for; a duplicate delayed past the wire window is taken for another id, as in Limits.ReadExact.
- Session ids are unbounded: the 64-bit overflow of the session sequence is not modelled.
- Arena's checks for a broken chain cannot be reached from a valid arena and are assertions here.
