/** Channels as steps on values: the send queue with its staging, release
and retransmission, and the receive side with its duplicate filters and ordered hold.
Payloads stand for themselves here; `ChannelsObject` keeps them in block arenas. */
module Channels {
  import opened Machine
  import opened Sequences
  import opened BitStream
  import opened Frames
  import A = Arena

  const MAX_PENDING: nat := 64
  const MAX_HELD: nat := 64
  const ARENA_BLOCKS: nat := 64
  const MAX_MESSAGES_PER_PACKET: nat := 8

  datatype Pending = Pending(channel: nat, id: nat, payload: Bytes, inFlight: bool)

  datatype Held = Held(channel: nat, id: nat, payload: Bytes)

  datatype Key = Key(channel: nat, id: nat)

  function KeyOf(p: Pending): Key { Key(p.channel, p.id) }

  datatype Receiver = Receiver(
    newest: nat,
    hasNewest: bool,
    seenNewest: nat,
    seenMask: Mask,
    seenStarted: bool,
    expected: nat)

  datatype Channels = Channels(
    kinds: Kinds,
    nextIds: seq<nat>,
    receivers: seq<Receiver>,
    pending: seq<Pending>,
    held: seq<Held>,
    dropped: nat)

  predicate Sized(c: Channels) {
    |c.nextIds| == MAX_CHANNELS && |c.receivers| == MAX_CHANNELS
  }

  function NewReceiver(): Receiver { Receiver(0, false, 0, NoBits(), false, 0) }

  function New(kinds: Kinds): Channels {
    Channels(kinds, seq(MAX_CHANNELS, _ => 0), seq(MAX_CHANNELS, _ => NewReceiver()), [], [], 0)
  }

  // ----- Message ids: 32 bits in memory, 16 on the wire -----

  function NextId(id: nat): nat { (id + 1) % U32 }

  function ToWire(id: nat): nat { id % WIRE }

  function FromWire(reference: nat, wire: nat): (id: Option<nat>)
    requires wire < WIRE
  {
    var full := Reconstruct(reference, wire);
    if full.Some? && full.value < U32 then full else None
  }

  /** The difference of two ids modulo 2^32, taken as a signed number. */
  function Distance(id: nat, earlier: nat): int {
    var d := (id - earlier) % U32;
    if d < 0x8000_0000 then d else d - U32
  }

  /** Ids within the wire window of the reference are restored exactly, and their distance is
  their difference. */
  lemma WireIdExact(reference: nat, id: nat)
    requires reference < U32 && id < U32
    ensures FromWire(reference, ToWire(id)) == Some(id) <==> -HALF_WIRE <= id - reference < HALF_WIRE
    ensures -HALF_WIRE <= id - reference < HALF_WIRE ==> Distance(id, reference) == id - reference
  {
    ReconstructExact(reference, id);
  }

  // ----- Sending -----

  function PendingBlocks(pending: seq<Pending>): nat {
    if pending == [] then 0 else A.BlocksFor(|pending[0].payload|) + PendingBlocks(pending[1..])
  }

  function HeldBlocks(held: seq<Held>): nat {
    if held == [] then 0 else A.BlocksFor(|held[0].payload|) + HeldBlocks(held[1..])
  }

  datatype SendResult = Queued | TooLarge | NoSuchChannel | WouldBlock

  datatype Sending = Sending(channels: Channels, result: SendResult)

  function Send(c: Channels, channel: nat, payload: Bytes): Sending
    requires Sized(c)
  {
    if |payload| > MAX_MESSAGE then Sending(c, TooLarge)
    else if channel >= |c.kinds| then Sending(c, NoSuchChannel)
    else if |c.pending| == MAX_PENDING then Sending(c, WouldBlock)
    else if A.BlocksFor(|payload|) + PendingBlocks(c.pending) > ARENA_BLOCKS then Sending(c, WouldBlock)
    else
      var id := c.nextIds[channel];
      Sending(c.(pending := c.pending + [Pending(channel, id, payload, false)],
                 nextIds := c.nextIds[channel := NextId(id)]), Queued)
  }

  /** The first message at or after `i` that waits on `channel`. */
  function FirstUnsent(pending: seq<Pending>, channel: nat, i: nat): (r: Option<nat>)
    ensures r.Some? ==> i <= r.value < |pending| && pending[r.value].channel == channel && !pending[r.value].inFlight
    ensures r.None? ==> forall k | i <= k < |pending| :: pending[k].channel == channel ==> pending[k].inFlight
    decreases |pending| - i
  {
    if i >= |pending| then None
    else if pending[i].channel == channel && !pending[i].inFlight then Some(i)
    else FirstUnsent(pending, channel, i + 1)
  }

  /** How long the first message is that filling a packet would look at. */
  function NextUnsentLen(kinds: Kinds, pending: seq<Pending>, channel: nat): Option<nat>
    decreases |kinds| - channel
  {
    if channel >= |kinds| then None
    else
      var at := FirstUnsent(pending, channel, 0);
      if at.Some? then Some(|pending[at.value].payload|) else NextUnsentLen(kinds, pending, channel + 1)
  }

  predicate Sendable(kinds: Kinds, p: Pending) { p.channel < |kinds| && |p.payload| <= MAX_MESSAGE }

  ghost predicate AllSendable(kinds: Kinds, pending: seq<Pending>) {
    forall i | 0 <= i < |pending| :: Sendable(kinds, pending[i])
  }

  function FrameOf(kinds: Kinds, p: Pending): (f: Frame)
    requires Sendable(kinds, p)
    ensures f.Message? && Encodable(kinds, f)
  {
    Message(p.channel, if kinds[p.channel].NeedsId() then ToWire(p.id) else 0, p.payload)
  }

  /** A packet being filled: the queue, the body so far, and the messages put in it. */
  datatype Staging = Staging(pending: seq<Pending>, body: seq<bool>, staged: seq<Pending>)

  function Unsent(pending: seq<Pending>): nat {
    if pending == [] then 0 else (if pending[0].inFlight then 0 else 1) + Unsent(pending[1..])
  }

  lemma {:induction false} UnsentMarked(pending: seq<Pending>, i: nat)
    requires i < |pending| && !pending[i].inFlight
    ensures Unsent(pending[i := pending[i].(inFlight := true)]) < Unsent(pending)
  {
    var marked := pending[i := pending[i].(inFlight := true)];
    if i == 0 {
      assert marked[1..] == pending[1..];
    } else {
      assert marked[1..] == pending[1..][i - 1 := pending[i].(inFlight := true)];
      UnsentMarked(pending[1..], i - 1);
    }
  }

  /** Fills the packet from channel `ch` on. Where a message has no
  room left its channel is done; where it costs more than `limit` the packet is done. */
  function Fill(kinds: Kinds, s: Staging, start: nat, capacity: nat, limit: nat, ch: nat): Staging
    requires AllSendable(kinds, s.pending) && start <= |s.body|
    decreases |kinds| - ch, Unsent(s.pending)
  {
    if ch >= |kinds| then s
    else if |s.staged| >= MAX_MESSAGES_PER_PACKET || CeilBytes(|s.body| - start) >= limit then s
    else
      var at := FirstUnsent(s.pending, ch, 0);
      if at.None? then Fill(kinds, s, start, capacity, limit, ch + 1)
      else
        var p := s.pending[at.value];
        var body := s.body + Encoded(kinds, FrameOf(kinds, p), |s.body|);
        if |body| > capacity then Fill(kinds, s, start, capacity, limit, ch + 1)
        else if CeilBytes(|body| - start) > limit then s
        else
          UnsentMarked(s.pending, at.value);
          Fill(kinds, Staging(s.pending[at.value := p.(inFlight := true)], body, s.staged + [p]),
               start, capacity, limit, ch)
  }

  /** Removes the first message with this key, if there is one. */
  function Released(pending: seq<Pending>, key: Key): seq<Pending> {
    if pending == [] then []
    else if KeyOf(pending[0]) == key then pending[1..]
    else [pending[0]] + Released(pending[1..], key)
  }

  /** Returns the first message with this key to the queue. */
  function MarkedLost(pending: seq<Pending>, key: Key): seq<Pending> {
    if pending == [] then []
    else if KeyOf(pending[0]) == key then [pending[0].(inFlight := false)] + pending[1..]
    else [pending[0]] + MarkedLost(pending[1..], key)
  }

  function ReleasedAll(pending: seq<Pending>, keys: seq<Key>): seq<Pending> {
    if keys == [] then pending
    else Released(ReleasedAll(pending, keys[..|keys| - 1]), keys[|keys| - 1])
  }

  function MarkedLostAll(pending: seq<Pending>, keys: seq<Key>): seq<Pending> {
    if keys == [] then pending
    else MarkedLost(MarkedLostAll(pending, keys[..|keys| - 1]), keys[|keys| - 1])
  }

  /** The keys of the staged messages whose channel's reliability is `reliable`. */
  function KeysWhere(kinds: Kinds, staged: seq<Pending>, reliable: bool): seq<Key>
    requires AllSendable(kinds, staged)
  {
    if staged == [] then []
    else
      var p := staged[|staged| - 1];
      KeysWhere(kinds, staged[..|staged| - 1], reliable)
      + if kinds[p.channel].IsReliable() == reliable then [KeyOf(p)] else []
  }

  /** What is remembered of a packet: its reliable messages. */
  function RecordOf(kinds: Kinds, staged: seq<Pending>): seq<Key>
    requires AllSendable(kinds, staged)
  {
    KeysWhere(kinds, staged, true)
  }

  /** Once a packet has gone out, nothing more can come of its unreliable messages. */
  function Committed(kinds: Kinds, pending: seq<Pending>, staged: seq<Pending>): seq<Pending>
    requires AllSendable(kinds, staged)
  {
    ReleasedAll(pending, KeysWhere(kinds, staged, false))
  }

  /** The first `max` messages in flight wait again. */
  function Requeued(pending: seq<Pending>, max: nat): seq<Pending> {
    if pending == [] || max == 0 then pending
    else if pending[0].inFlight then [pending[0].(inFlight := false)] + Requeued(pending[1..], max - 1)
    else [pending[0]] + Requeued(pending[1..], max)
  }

  // ----- Receiving -----

  /** A message handed to the application. */
  datatype Delivery = Delivery(channel: nat, payload: Bytes)

  datatype Received = Received(channels: Channels, delivered: seq<Delivery>, ok: bool)

  datatype Filtered = Filtered(receiver: Receiver, isNew: bool)

  /** The unordered duplicate filter: the newest id and a mask of the 63 before it. */
  function AcceptUnordered(r: Receiver, id: nat): Filtered {
    if !r.seenStarted then
      Filtered(r.(seenStarted := true, seenNewest := id, seenMask := NoBits()[0 := true]), true)
    else
      var distance := Distance(id, r.seenNewest);
      if distance > 0 then
        Filtered(r.(seenMask := Shifted(r.seenMask, distance)[0 := true], seenNewest := id), true)
      else if -distance >= WINDOW then Filtered(r, false)
      else if r.seenMask[-distance] then Filtered(r, false)
      else Filtered(r.(seenMask := r.seenMask[-distance := true]), true)
  }

  function Reference(r: Receiver, kind: Kind): nat {
    match kind
    case Unreliable => 0
    case UnreliableSequenced => r.newest
    case ReliableUnordered => r.seenNewest
    case ReliableOrdered => r.expected
  }

  /** Where the first held message with this channel and id is. */
  function HeldAt(held: seq<Held>, channel: nat, id: nat, i: nat): (r: Option<nat>)
    ensures r.Some? ==> i <= r.value < |held| && held[r.value].channel == channel && held[r.value].id == id
    ensures r.None? ==> forall k | i <= k < |held| :: !(held[k].channel == channel && held[k].id == id)
    decreases |held| - i
  {
    if i >= |held| then None
    else if held[i].channel == channel && held[i].id == id then Some(i)
    else HeldAt(held, channel, id, i + 1)
  }

  /** Delivers held messages for as long as the next expected one is held. */
  function Flushed(c: Channels, channel: nat): (r: Received)
    requires Sized(c) && channel < MAX_CHANNELS
    ensures Sized(r.channels)
    decreases |c.held|
  {
    var at := HeldAt(c.held, channel, c.receivers[channel].expected, 0);
    if at.None? then Received(c, [], true)
    else
      var entry := c.held[at.value];
      var c' := c.(held := c.held[..at.value] + c.held[at.value + 1..],
                   receivers := c.receivers[channel := c.receivers[channel].(expected := NextId(entry.id))]);
      var rest := Flushed(c', channel);
      Received(rest.channels, [Delivery(channel, entry.payload)] + rest.delivered, true)
  }

  /** An ordered channel delivers the message it expects, holds one ahead of the gap, and
  discards one it has. A message it has no room to hold is dropped and counted. */
  function ReceiveOrdered(c: Channels, channel: nat, id: nat, payload: Bytes): (r: Received)
    requires Sized(c) && channel < MAX_CHANNELS
    ensures r.ok
  {
    var distance := Distance(id, c.receivers[channel].expected);
    if distance < 0 then Received(c, [], true)
    else if distance == 0 then
      var expected := NextId(c.receivers[channel].expected);
      var c' := c.(receivers := c.receivers[channel := c.receivers[channel].(expected := expected)]);
      var rest := Flushed(c', channel);
      Received(rest.channels, [Delivery(channel, payload)] + rest.delivered, true)
    else if HeldAt(c.held, channel, id, 0).Some? then Received(c, [], true)
    else if |c.held| == MAX_HELD || A.BlocksFor(|payload|) + HeldBlocks(c.held) > ARENA_BLOCKS then
      Received(c.(dropped := c.dropped + 1), [], true)
    else Received(c.(held := c.held + [Held(channel, id, payload)]), [], true)
  }

  /** One message frame. An id that resolves to nothing is a protocol violation. */
  function Receive(c: Channels, channel: nat, wire: nat, payload: Bytes): (r: Received)
    requires Sized(c) && channel < |c.kinds| && wire < WIRE
  {
    var kind, state := c.kinds[channel], c.receivers[channel];
    if !kind.NeedsId() then Received(c, [Delivery(channel, payload)], true)
    else
      var resolved := FromWire(Reference(state, kind), wire);
      if resolved.None? then Received(c, [], false)
      else
        var id := resolved.value;
        match kind
        case ReliableOrdered => ReceiveOrdered(c, channel, id, payload)
        case ReliableUnordered =>
          var f := AcceptUnordered(state, id);
          Received(c.(receivers := c.receivers[channel := f.receiver]),
                   if f.isNew then [Delivery(channel, payload)] else [], true)
        case _ =>
          if state.hasNewest && Distance(id, state.newest) <= 0 then Received(c, [], true)
          else Received(c.(receivers := c.receivers[channel := state.(newest := id, hasNewest := true)]),
                        [Delivery(channel, payload)], true)
  }
}
