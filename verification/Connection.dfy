/** A connection, client or server, as steps on values. Every step takes the time
and what arrived, and gives the new state and what leaves.

A sealed datagram is ideal: it opens only with the header it was sealed under and only at
the sequence it was sealed with. The token of a path challenge is an input.
*/
module Connection {
  import opened Machine
  import opened Sequences
  import opened BitStream
  import opened Frames
  import L = Ledger
  import B = Budget
  import C = Channels
  import Q = SendQueue
  import Rtt

  const CLOSE_SENDS: nat := 3
  const PROBE_MESSAGES: nat := 2
  const PATH_TIMEOUT: nat := 3_000_000_000
  const ACK_DELAY_UNIT: nat := 250_000
  const MAX_ACK_DELAY: nat := 254 * ACK_DELAY_UNIT
  const EVENT_SLOTS: nat := 16
  const TRACKED: nat := 64

  const REQUESTED: nat := 0
  const TIMED_OUT: nat := 1
  const PROTOCOL_VIOLATION: nat := 2

  type Record = seq<C.Key>

  datatype Event = Migrated(addr: nat) | ResumeTicketReceived | ClosedEvent(reason: nat)

  datatype Lifecycle = Open | Closing(reason: nat, remaining: nat) | Closed

  // ----- Acknowledgements owed -----

  datatype AckOwed = Nothing | HeldSince(since: nat) | AtOnce

  datatype Acks = Acks(owed: AckOwed, delay: nat, aloneAfter: nat) {
    function Record(now: nat, inOrder: bool): Acks {
      this.(owed := if !inOrder || owed.AtOnce? then AtOnce else if owed.Nothing? then HeldSince(now) else owed)
    }

    /** The time at which an acknowledgement is worth a packet of its own. */
    function Deadline(): Option<nat> {
      match owed
      case Nothing => None
      case AtOnce => Some(aloneAfter)
      case HeldSince(since) => Some(Max(SatAdd(since, delay), aloneAfter))
    }

    function Sent(now: nat, eliciting: bool): Acks {
      Acks(Nothing, delay, if eliciting then aloneAfter else SatAdd(now, delay))
    }
  }

  function EncodeAckDelay(delay: nat): (code: nat)
    ensures code < 256
  {
    Min(delay / ACK_DELAY_UNIT, 255)
  }

  /** No delay is decoded from the largest code. */
  function DecodeAckDelay(code: nat): Option<nat> { if code == 255 then None else Some(ACK_DELAY_UNIT * code) }

  // ----- State -----

  datatype Crypto = Crypto(nextSequence: nat, replay: Window, acked: Window, newestAckedAt: nat)

  /** The control frames owed, with what each will say. */
  datatype Control = Control(
    accepted: bool,
    challenge: Option<nat>,
    response: Option<nat>,
    ticket: Option<Bytes>)

  datatype Probe = Probe(addr: nat, token: nat, started: nat)

  datatype Role = Client(ticket: Option<Bytes>) | Server(probe: Option<Probe>)

  datatype Conn = Conn(
    role: Role,
    addr: nat,
    lifecycle: Lifecycle,
    crypto: Crypto,
    delivery: L.Ledger<Record>,
    budget: B.Budget,
    channels: C.Channels,
    control: Control,
    acks: Acks,
    idleTimeout: nat,
    keepalive: nat,
    lastReceived: nat,
    pendingProbes: nat,
    events: seq<Event>)

  datatype Header = Header(sequence: nat, ack: Option<nat>, ackDelay: nat, ackBits: seq<bool>)

  /** What one encryption produced: sequence, authenticated header, and body. */
  datatype Packet = Packet(sequence: nat, header: Header, body: seq<bool>)

  /** A datagram as it arrives: a cleartext header in front of something sealed. */
  datatype Datagram = Datagram(header: Header, sealed: Packet)

  /** What one side is set up with. */
  datatype Config = Config(budget: B.Config, maxAckDelay: nat, idleTimeout: nat, keepalive: nat)

  predicate ConfigValid(cfg: Config) {
    && B.Admissible(cfg.budget)
    && cfg.maxAckDelay <= MAX_ACK_DELAY
    && 0 < cfg.keepalive && 2 * cfg.keepalive <= cfg.idleTimeout
  }

  function New(now: nat, role: Role, addr: nat, kinds: Kinds, cfg: Config): Conn {
    Conn(role, addr, Open,
         Crypto(1, EmptyWindow(), EmptyWindow(), 0),
         L.New(TRACKED, now, cfg.maxAckDelay),
         B.New(now, cfg.budget),
         C.New(kinds),
         Control(role.Server?, None, None, None),
         Acks(Nothing, cfg.maxAckDelay, 0),
         cfg.idleTimeout, cfg.keepalive, now, 0, [])
  }

  /** Events beyond the slots push out the first. */
  function Push(events: seq<Event>, e: Event): seq<Event> {
    (if |events| >= EVENT_SLOTS then events[|events| - EVENT_SLOTS + 1..] else events) + [e]
  }

  function RequestClose(c: Conn, reason: nat): Conn {
    if c.lifecycle.Open? then c.(lifecycle := Closing(reason, CLOSE_SENDS)) else c
  }

  // ----- Outcomes of packets -----

  datatype Applied = Applied(pending: seq<C.Pending>, budget: B.Budget)

  function ApplyNote(a: Applied, what: L.Resolved<Record>): Applied {
    match what
    case Acked(record) => a.(pending := C.ReleasedAll(a.pending, record))
    case Lost(record) => Applied(C.MarkedLostAll(a.pending, record), B.OnLost(a.budget))
    case Spurious => a.(budget := B.OnSpurious(a.budget))
  }

  function ApplyNotes(a: Applied, notes: seq<L.Note<Record>>): Applied {
    if notes == [] then a
    else ApplyNote(ApplyNotes(a, notes[..|notes| - 1]), notes[|notes| - 1].what)
  }

  function Resolved(c: Conn, delivery: L.Ledger<Record>, notes: seq<L.Note<Record>>): Conn {
    var a := ApplyNotes(Applied(c.channels.pending, c.budget), notes);
    c.(delivery := delivery, budget := a.budget, channels := c.channels.(pending := a.pending))
  }

  // ----- Receiving -----

  predicate Shaped(c: Conn) { C.Sized(c.channels) && |c.delivery.ring| > 0 && c.crypto.nextSequence >= 1 }

  datatype Read = Read(conn: Conn, delivered: seq<C.Delivery>, ok: bool)

  /** One frame. Each role refuses the frames meant for the other. */
  function ReadFrame(c: Conn, now: nat, f: Frame): (r: Read)
    requires Shaped(c) && Encodable(c.channels.kinds, f)
  {
    match f
    case Ping => Read(c, [], true)
    case Close(reason) => Read(c.(lifecycle := Closed, events := Push(c.events, ClosedEvent(reason))), [], true)
    case Message(channel, id, payload) =>
      var r := C.Receive(c.channels, channel, id, payload);
      Read(c.(channels := r.channels), r.delivered, r.ok)
    case PathChallenge(token) =>
      if c.role.Client? then Read(c.(control := c.control.(response := Some(token))), [], true)
      else Read(c, [], false)
    case ResumeTicket(blob) =>
      if c.role.Client?
      then Read(c.(role := Client(Some(blob)), events := Push(c.events, ResumeTicketReceived)), [], true)
      else Read(c, [], false)
    case Accepted => Read(c, [], c.role.Client?)
    case PathResponse(token) =>
      if c.role.Client? then Read(c, [], false)
      else if c.role.probe.Some? && c.role.probe.value.token == token then
        var to := c.role.probe.value.addr;
        Read(c.(role := Server(None), addr := to,
                delivery := L.OnPathChange(c.delivery),
                budget := B.OnPathChange(c.budget, now),
                events := Push(c.events, Migrated(to))), [], true)
      else Read(c, [], true)
  }

  /** Frames up to the first that fails; what was read before it stands. */
  function ReadFrames(c: Conn, now: nat, frames: seq<Frame>): (r: Read)
    requires Shaped(c) && AllEncodable(c.channels.kinds, frames)
    ensures Shaped(r.conn) && r.conn.channels.kinds == c.channels.kinds
  {
    if frames == [] then Read(c, [], true)
    else
      var init := ReadFrames(c, now, frames[..|frames| - 1]);
      if !init.ok then init
      else
        var last := ReadFrame(init.conn, now, frames[|frames| - 1]);
        ReadKeeps(init.conn, now, frames[|frames| - 1]);
        Read(last.conn, init.delivered + last.delivered, last.ok)
  }

  lemma ReadKeeps(c: Conn, now: nat, f: Frame)
    requires Shaped(c) && Encodable(c.channels.kinds, f)
    ensures var r := ReadFrame(c, now, f).conn;
            && Shaped(r) && r.channels.kinds == c.channels.kinds && r.crypto == c.crypto
            && r.channels.pending == c.channels.pending && r.channels.nextIds == c.channels.nextIds
            && r.delivery.(rtt := c.delivery.rtt, backoff := c.delivery.backoff) == c.delivery
            && (r.delivery == c.delivery || r.delivery == L.OnPathChange(c.delivery))
  {
    if f.Message? {
      ReceiveKeeps(c.channels, f.channel, f.id, f.payload);
    }
  }

  lemma {:induction false} FlushedKeeps(c: C.Channels, channel: nat)
    requires C.Sized(c) && channel < MAX_CHANNELS
    ensures var r := C.Flushed(c, channel).channels;
            r.kinds == c.kinds && r.pending == c.pending && r.nextIds == c.nextIds && r.dropped == c.dropped
    decreases |c.held|
  {
    var at := C.HeldAt(c.held, channel, c.receivers[channel].expected, 0);
    if at.Some? {
      var entry := c.held[at.value];
      FlushedKeeps(c.(held := c.held[..at.value] + c.held[at.value + 1..],
                      receivers := c.receivers[channel := c.receivers[channel].(expected := C.NextId(entry.id))]),
                   channel);
    }
  }

  lemma ReceiveKeeps(c: C.Channels, channel: nat, wire: nat, payload: Bytes)
    requires C.Sized(c) && channel < |c.kinds| && wire < WIRE
    ensures var r := C.Receive(c, channel, wire, payload).channels;
            C.Sized(r) && r.kinds == c.kinds && r.pending == c.pending && r.nextIds == c.nextIds
            && c.dropped <= r.dropped
  {
    hide C.FromWire, C.Distance, C.HeldAt, C.Flushed, C.AcceptUnordered;
    var expected := C.NextId(c.receivers[channel].expected);
    FlushedKeeps(c.(receivers := c.receivers[channel := c.receivers[channel].(expected := expected)]), channel);
  }

  datatype Outcome = Processed | Malformed | Replayed | Unauthenticated | BadPayload | AlreadyClosed

  datatype Handled = Handled(conn: Conn, delivered: seq<C.Delivery>, outcome: Outcome)

  predicate HeaderShaped(h: Header) {
    h.sequence < WIRE && (h.ack.Some? ==> h.ack.value < WIRE) && |h.ackBits| == ACK_BITS
  }

  /** The sequence a header abbreviates, near the newest one opened. */
  function SequenceOf(crypto: Crypto, h: Header): Option<nat>
    requires HeaderShaped(h)
  {
    var r := Reconstruct(crypto.replay.newest, h.sequence);
    if r.Some? && r.value >= 1 then r else None
  }

  /** A sealed packet opens only under its own header and at its own sequence. */
  predicate Opens(d: Datagram, sequence: nat) { d.sealed.header == d.header && d.sealed.sequence == sequence }

  function HandleAck(c: Conn, now: nat, h: Header): (c': Conn)
    requires Shaped(c) && HeaderShaped(h)
  {
    var ack := if h.ack.Some? then ResolveAck(c.crypto.nextSequence - 1, h.ack.value) else None;
    if ack.None? then c
    else
      var o := L.OnAck(c.delivery, now, ack.value, DecodeAckDelay(h.ackDelay), h.ackBits);
      Resolved(c, o.ledger, o.notes)
  }

  function RecordEliciting(crypto: Crypto, sequence: nat, now: nat): Crypto {
    crypto.(newestAckedAt := if sequence > crypto.acked.newest then now else crypto.newestAckedAt,
            acked := crypto.acked.Inserted(sequence))
  }

  /** A packet from a new address is challenged there, once. */
  function AddressChanged(c: Conn, now: nat, from: nat, token: nat): Conn {
    match c.role
    case Client(_) => c
    case Server(probe) =>
      if probe.Some? && probe.value.addr == from then c
      else c.(role := Server(Some(Probe(from, token, now))), control := c.control.(challenge := Some(token)))
  }

  /** The body of a datagram that has authenticated as `sequence`. */
  function HandleBody(c: Conn, now: nat, from: nat, d: Datagram, sequence: nat, inOrder: bool, token: nat): Handled
    requires Shaped(c) && HeaderShaped(d.header)
  {
    var c1 := HandleAck(c.(lastReceived := now), now, d.header);
    HandleAckKeeps(c.(lastReceived := now), now, d.header);
    var parsed := Parse(c.channels.kinds, d.sealed.body, 0);
    ParseEncodable(c.channels.kinds, d.sealed.body, 0);
    var r := ReadFrames(c1, now, parsed.frames);
    if !(r.ok && parsed.ok) then Handled(RequestClose(r.conn, PROTOCOL_VIOLATION), r.delivered, BadPayload)
    else
      var c2 := if parsed.frames == [] then r.conn
                else r.conn.(crypto := RecordEliciting(r.conn.crypto, sequence, now),
                             acks := r.conn.acks.Record(now, inOrder));
      Handled(if from != c2.addr then AddressChanged(c2, now, from, token) else c2, r.delivered, Processed)
  }

  /** A datagram that is closed out, unreadable, repeated or forged changes nothing. */
  function HandleDatagram(c: Conn, now: nat, from: nat, d: Datagram, token: nat): Handled
    requires Shaped(c) && HeaderShaped(d.header)
  {
    if c.lifecycle.Closed? then Handled(c, [], AlreadyClosed)
    else
      var s := SequenceOf(c.crypto, d.header);
      if s.None? then Handled(c, [], Malformed)
      else if c.crypto.replay.Check(s.value) != Fresh then Handled(c, [], Replayed)
      else if !Opens(d, s.value) then Handled(c, [], Unauthenticated)
      else
        var newest := c.crypto.replay.newest;
        var c1 := c.(crypto := c.crypto.(replay := c.crypto.replay.Inserted(s.value)));
        HandleBody(c1, now, from, d, s.value, newest == 0 || s.value == newest + 1, token)
  }

  /** An acknowledgement touches only the ledger, the budget and the send queue. */
  lemma HandleAckKeeps(c: Conn, now: nat, h: Header)
    requires Shaped(c) && HeaderShaped(h)
    ensures var r := HandleAck(c, now, h);
            Shaped(r) && r == c.(delivery := r.delivery, budget := r.budget,
                                 channels := c.channels.(pending := r.channels.pending))
  {
    hide L.Named, L.AckedCount, Rtt.Update, L.LostNotes, L.FirstInFlight, ApplyNotes, ResolveAck;
  }

  // ----- Sending -----

  /** The time from which polling has something to send: any time for control frames, a close or a
  probe; else the acknowledgement's deadline or the time the first message is affordable. */
  function TransmitAt(c: Conn): Option<nat>
    requires c.budget.refill > 0
  {
    if c.lifecycle.Closed? then None
    else if c.pendingProbes > 0 || c.lifecycle.Closing? || c.control != NO_CONTROL then Some(0)
    else
      var len := C.NextUnsentLen(c.channels.kinds, c.channels.pending, 0);
      Earlier(c.acks.Deadline(), if len.Some? then Some(B.ReadyFor(c.budget, len.value)) else None)
  }

  const NO_CONTROL := Control(false, None, None, None)

  function BuildHeader(c: Conn, now: nat): (h: Header)
    ensures HeaderShaped(h)
  {
    var acked := c.crypto.acked;
    if acked.newest == 0 then Header(c.crypto.nextSequence % WIRE, None, 0, seq(ACK_BITS, _ => false))
    else Header(c.crypto.nextSequence % WIRE, Some(acked.newest % WIRE),
                EncodeAckDelay(Since(now, c.crypto.newestAckedAt)), acked.AckBits())
  }

  /** Seven bytes always; three more to acknowledge; four more if a history bit is set. */
  function HeaderLen(h: Header): (n: nat)
    ensures 7 <= n <= B.HEADER_MAX
  {
    if h.ack.None? then 7 else if exists i :: 0 <= i < |h.ackBits| && h.ackBits[i] then 14 else 10
  }

  /** The bits of body a datagram has room for behind this header. */
  function Room(h: Header): nat { 8 * (B.MAX_DATAGRAM - B.TAG_LEN - HeaderLen(h)) }

  /** A body in progress: the frames in it. */
  function TryWrite(kinds: Kinds, frames: seq<Frame>, f: Option<Frame>, room: nat): (r: seq<Frame>)
    requires AllEncodable(kinds, frames) && (f.Some? ==> Encodable(kinds, f.value))
    ensures AllEncodable(kinds, r)
    ensures r == frames || (f.Some? && r == frames + [f.value])
  {
    if f.None? then frames
    else if |Body(kinds, frames)| + |Encoded(kinds, f.value, |Body(kinds, frames)|)| > room then frames
    else frames + [f.value]
  }

  predicate ControlValid(c: Conn) {
    && (c.lifecycle.Closing? ==> c.lifecycle.reason < REASONS)
    && (c.control.challenge.Some? ==> c.control.challenge.value < U64)
    && (c.control.response.Some? ==> c.control.response.value < U64)
    && (c.control.ticket.Some? ==> |c.control.ticket.value| <= MAX_BLOB)
  }

  /** The control frames owed, in the order they are written: close, smallest first, ping. */
  function Owed(c: Conn): (frames: seq<Option<Frame>>)
    ensures |frames| == 6
  {
    [if c.lifecycle.Closing? then Some(Close(c.lifecycle.reason)) else None,
     if c.control.accepted then Some(Frame.Accepted) else None,
     if c.control.challenge.Some? then Some(PathChallenge(c.control.challenge.value)) else None,
     if c.control.response.Some? then Some(PathResponse(c.control.response.value)) else None,
     if c.control.ticket.Some? then Some(ResumeTicket(c.control.ticket.value)) else None,
     if c.pendingProbes > 0 then Some(Ping) else None]
  }

  /** The frames written after the first `k` owed ones were tried. */
  function WriteControl(c: Conn, room: nat, k: nat): (r: seq<Frame>)
    requires ControlValid(c) && k <= 6
    ensures AllEncodable(c.channels.kinds, r) && |r| <= k
  {
    if k == 0 then []
    else
      OwedEncodable(c, k - 1);
      TryWrite(c.channels.kinds, WriteControl(c, room, k - 1), Owed(c)[k - 1], room)
  }

  /** What is still owed: a frame that did not fit stays queued. */
  function ControlLeft(c: Conn, frames: seq<Frame>): Conn {
    c.(control := Control(c.control.accepted && Frame.Accepted !in frames,
                          if c.control.challenge.Some? && PathChallenge(c.control.challenge.value) in frames
                          then None else c.control.challenge,
                          if c.control.response.Some? && PathResponse(c.control.response.value) in frames
                          then None else c.control.response,
                          if c.control.ticket.Some? && ResumeTicket(c.control.ticket.value) in frames
                          then None else c.control.ticket),
       pendingProbes := if c.pendingProbes > 0 && Ping in frames then c.pendingProbes - 1 else c.pendingProbes)
  }

  /** A packet before sealing: its control frames and the messages staged in it. */
  datatype Draft = Draft(header: Header, control: seq<Frame>, staging: C.Staging, allowance: nat)

  /** The queue as the packet finds it: for a probe, some of the flight waits again. */
  function QueueFor(c: Conn): seq<C.Pending> {
    if c.pendingProbes > 0 then C.Requeued(c.channels.pending, PROBE_MESSAGES) else c.channels.pending
  }

  predicate Transmittable(c: Conn) {
    && Shaped(c) && ControlValid(c) && c.budget.refill > 0
    && (forall i | 0 <= i < |c.channels.pending| :: C.Sendable(c.channels.kinds, c.channels.pending[i]))
  }

  function Drafted(c: Conn, now: nat): (d: Draft)
    requires Transmittable(c)
  {
    var kinds := c.channels.kinds;
    var allowance := B.Available(B.Advance(c.budget, now));
    var header := BuildHeader(c, now);
    var control := WriteControl(c, Room(header), 6);
    var body := Body(kinds, control);
    var limit := SatSub(allowance, HeaderLen(header) + B.TAG_LEN + CeilBytes(|body|));
    QueueSendable(c);
    var s := C.Staging(QueueFor(c), body, []);
    Draft(header, control,
          if c.lifecycle.Open? && limit > 0 then C.Fill(kinds, s, |body|, Room(header), limit, 0) else s,
          allowance)
  }

  lemma {:induction false} RequeuedSendable(kinds: Kinds, pending: seq<C.Pending>, max: nat)
    requires C.AllSendable(kinds, pending)
    ensures C.AllSendable(kinds, C.Requeued(pending, max))
  {
    if pending != [] && max > 0 {
      RequeuedSendable(kinds, pending[1..], if pending[0].inFlight then max - 1 else max);
    }
  }

  lemma QueueSendable(c: Conn)
    requires Transmittable(c)
    ensures C.AllSendable(c.channels.kinds, QueueFor(c))
  {
    RequeuedSendable(c.channels.kinds, c.channels.pending, PROBE_MESSAGES);
  }

  /** The body as sealed: the padding kind if it fits, then zeros to a whole byte. */
  function Sealed(body: seq<bool>, room: nat): (r: seq<bool>) {
    var padded := if |body| + KIND_BITS <= room then body + Zeros(KIND_BITS) else body;
    padded + Zeros(Pad(|padded|))
  }

  function DatagramLen(p: Packet): nat { HeaderLen(p.header) + CeilBytes(|p.body|) + B.TAG_LEN }

  datatype Polled = Polled(conn: Conn, packet: Option<Packet>)

  /** Commits a drafted packet: the queue, the ledger, the budget, and what is owed. */
  function Committed(c: Conn, now: nat, d: Draft): (r: Polled)
    requires Shaped(c) && C.AllSendable(c.channels.kinds, d.staging.staged)
  {
    var kinds, sequence := c.channels.kinds, c.crypto.nextSequence;
    var eliciting := d.control != [] || d.staging.staged != [];
    var packet := Packet(sequence, d.header, Sealed(d.staging.body, Room(d.header)));
    var sent := c.channels.(pending := C.Committed(kinds, d.staging.pending, d.staging.staged));
    var o := L.OnSent(c.delivery, now, sequence,
                      if eliciting then L.Eliciting(C.RecordOf(kinds, d.staging.staged)) else L.AckOnly);
    var c1 := Resolved(ControlLeft(c, d.control).(channels := sent, budget := B.Advance(c.budget, now)), o.ledger,
                       o.notes);
    var c2 := c1.(budget := B.OnSent(c1.budget, DatagramLen(packet), eliciting),
                  acks := c.acks.Sent(now, eliciting),
                  crypto := c.crypto.(nextSequence := sequence + 1));
    Polled(if !c.lifecycle.Closing? then c2
           else if c.lifecycle.remaining <= 1
           then c2.(lifecycle := Closed, events := Push(c.events, ClosedEvent(c.lifecycle.reason)))
           else c2.(lifecycle := Closing(c.lifecycle.reason, c.lifecycle.remaining - 1)),
           Some(packet))
  }

  function Assessed(c: Conn, now: nat): Conn { c.(budget := B.Assess(c.budget, now, c.delivery.rtt)) }

  /** A packet given up because it would say nothing. */
  function Aborted(c: Conn, now: nat, d: Draft): Polled
    requires C.AllSendable(c.channels.kinds, d.staging.staged)
  {
    var keys := C.KeysWhere(c.channels.kinds, d.staging.staged, true)
        + C.KeysWhere(c.channels.kinds, d.staging.staged, false);
    Polled(ControlLeft(c, d.control).(budget := B.Advance(c.budget, now),
                                      channels := c.channels.(pending := C.MarkedLostAll(d.staging.pending, keys))),
           None)
  }

  /** The rate is judged, then whether a packet is due, then the packet is drafted and committed. */
  function PollTransmit(c: Conn, now: nat): Polled
    requires Transmittable(c) && B.Consistent(c.budget)
  {
    var c1 := Assessed(c, now);
    B.OperationsConsistent(c.budget, now, 0, false, c.delivery.rtt);
    B.OperationsConsistent(c1.budget, now, 0, false, c.delivery.rtt);
    if !Due(TransmitAt(c1), now) then Polled(c1, None)
    else
      var d := Drafted(c1, now);
      DraftStaged(c1, now);
      if d.control == [] && d.staging.staged == [] && !Due(c1.acks.Deadline(), now) then Aborted(c1, now, d)
      else Committed(c1, now, d)
  }

  lemma BodyAppend(kinds: Kinds, frames: seq<Frame>, f: Frame)
    requires AllEncodable(kinds, frames) && Encodable(kinds, f)
    ensures AllEncodable(kinds, frames + [f])
    ensures Body(kinds, frames + [f]) == Body(kinds, frames) + Encoded(kinds, f, |Body(kinds, frames)|)
  {
    hide Encodable, Encoded;
    assert (frames + [f])[..|frames|] == frames;
  }

  lemma {:induction false} ControlFits(c: Conn, room: nat, k: nat)
    requires ControlValid(c) && k <= 6
    ensures |Body(c.channels.kinds, WriteControl(c, room, k))| <= room
  {
    hide Encoded, Encodable, ControlValid;
    if k > 0 {
      ControlFits(c, room, k - 1);
      var frames, f := WriteControl(c, room, k - 1), Owed(c)[k - 1];
      OwedEncodable(c, k - 1);
      if f.Some? {
        BodyAppend(c.channels.kinds, frames, f.value);
      }
    }
  }

  lemma OwedEncodable(c: Conn, k: nat)
    requires ControlValid(c) && k < 6
    ensures Owed(c)[k].Some? ==> Encodable(c.channels.kinds, Owed(c)[k].value)
  {
  }

  lemma StartFilled(kinds: Kinds, control: seq<Frame>, pending: seq<C.Pending>)
    requires AllEncodable(kinds, control) && C.AllSendable(kinds, pending)
    ensures Q.Filled(kinds, control, pending, C.Staging(pending, Body(kinds, control), []))
  {
    hide Encodable, Body;
    assert control + Q.FramesOf(kinds, []) == control;
  }

  /** A draft prints its control frames and then its staged messages, and fits. */
  lemma DraftStaged(c: Conn, now: nat)
    requires Transmittable(c)
    ensures var d := Drafted(c, now);
            && Q.Filled(c.channels.kinds, d.control, QueueFor(c), d.staging)
            && |d.staging.body| <= Room(d.header)
  {
    hide Q.Filled, Body, WriteControl, B.Advance, BuildHeader, HeaderLen, QueueFor, CeilBytes, C.Fill;
    var kinds, d := c.channels.kinds, Drafted(c, now);
    QueueSendable(c);
    StartFilled(kinds, d.control, QueueFor(c));
    ControlFits(c, Room(d.header), 6);
    var body := Body(kinds, d.control);
    var limit := SatSub(d.allowance, HeaderLen(d.header) + B.TAG_LEN + CeilBytes(|body|));
    Q.FillFilled(kinds, d.control, QueueFor(c), C.Staging(QueueFor(c), body, []), |body|, Room(d.header), limit, 0);
  }

  // ----- Timers -----

  function HandleTimeout(c: Conn, now: nat): Conn
    requires Shaped(c)
  {
    if c.lifecycle.Closed? then c
    else if Since(now, c.lastReceived) >= c.idleTimeout then
      c.(lifecycle := Closed, events := Push(c.events, ClosedEvent(TIMED_OUT)))
    else
      var t := L.OnTimeout(c.delivery, now);
      var c1 := Resolved(c, t.ledger, t.notes);
      var probes := Max(c.pendingProbes, t.probes);
      var idle := Since(now, c1.delivery.lastEliciting) >= c.keepalive;
      c1.(pendingProbes := if idle then Max(probes, 1) else probes,
          role := if c.role.Server? && c.role.probe.Some? && Since(now, c.role.probe.value.started) >= PATH_TIMEOUT
                  then Server(None) else c.role)
  }

  function NextTimeout(c: Conn): Option<nat>
    requires Shaped(c) && c.budget.refill > 0
  {
    if c.lifecycle.Closed? then None
    else
      var role := if c.role.Server? && c.role.probe.Some?
                  then Some(SatAdd(c.role.probe.value.started, PATH_TIMEOUT)) else None;
      Earlier(Some(SatAdd(c.lastReceived, c.idleTimeout)),
              Earlier(TransmitAt(c),
                      Earlier(L.NextTimeout(c.delivery),
                              Earlier(role, Some(SatAdd(c.delivery.lastEliciting, c.keepalive))))))
  }
}
