/** Two connections and a network between them that loses, duplicates, reorders and delays
what it carries, and may put any header in front of it. Messages flow from `a` to `b` and
acknowledgements back; since either side may be the client, the other direction is the same.
*/
module TwoParty {
  import opened Machine
  import opened Sequences
  import opened Frames
  import opened BitStream
  import opened Connection
  import opened PacketReading
  import opened OrderedDelivery
  import L = Ledger
  import B = Budget
  import C = Channels
  import A = Arena
  import Q = SendQueue
  import N = LedgerNotes
  import I = ConnectionInvariant
  import T = Transmit
  import F = QueueFlow

  /** A packet `a` sent: its control frames, its messages under their full ids, and how many
  messages each channel had accepted by then. */
  datatype Sent = Sent(packet: Packet, control: seq<Frame>, staged: seq<C.Pending>, nextIds: seq<nat>)

  /** A packet `b` sent, and the full sequence its acknowledgement names, 0 for none. */
  datatype Reply = Reply(packet: Packet, ack: nat)

  datatype World = World(
    kinds: Kinds,
    a: Conn,
    b: Conn,
    sent: seq<Sent>,
    replies: seq<Reply>,
    accepted: PerChannel,
    delivered: PerChannel,
    unsealed: set<nat>,
    read: set<nat>,
    aClock: nat,
    bClock: nat)

  datatype Step =
    | Submit(channel: nat, payload: Bytes)
    | TransmitA(now: nat)
    | ExpireA(now: nat)
    | CloseA(reason: nat)
    | QueueA(control: Control)
    | Return(j: nat, header: Header, now: nat, from: nat, token: nat)
    | SubmitB(channel: nat, payload: Bytes)
    | TransmitB(now: nat)
    | ExpireB(now: nat)
    | CloseB(reason: nat)
    | QueueB(control: Control)
    | Arrive(i: nat, header: Header, now: nat, from: nat, token: nat)

  function Start(a: Conn, b: Conn, aClock: nat, bClock: nat): World {
    World(a.channels.kinds, a, b, [], [], seq(MAX_CHANNELS, _ => []), seq(MAX_CHANNELS, _ => []), {}, {}, aClock,
          bClock)
  }

  predicate Ticks(clock: nat, now: nat) { clock <= now < U64_MAX }

  predicate ControlOk(k: Control) {
    && (k.challenge.Some? ==> k.challenge.value < U64)
    && (k.response.Some? ==> k.response.value < U64)
    && (k.ticket.Some? ==> |k.ticket.value| <= MAX_BLOB)
  }

  /** Time does not run backwards, counters do not run out, and only what was sent arrives. */
  ghost predicate Allowed(w: World, s: Step)
    requires C.Sized(w.a.channels) && C.Sized(w.b.channels)
  {
    match s
    case Submit(channel, _) => channel < |w.a.channels.kinds| ==> w.a.channels.nextIds[channel] < U32_MAX
    case SubmitB(channel, _) => channel < |w.b.channels.kinds| ==> w.b.channels.nextIds[channel] < U32_MAX
    case TransmitA(now) => Ticks(w.aClock, now) && |w.sent| < U64_MAX
    case ExpireA(now) => Ticks(w.aClock, now)
    case TransmitB(now) => Ticks(w.bClock, now)
    case ExpireB(now) => Ticks(w.bClock, now)
    case CloseA(reason) => reason < REASONS
    case CloseB(reason) => reason < REASONS
    case QueueA(control) => ControlOk(control)
    case QueueB(control) => ControlOk(control)
    case Arrive(i, header, now, _, token) =>
      i < |w.sent| && HeaderShaped(header) && Ticks(w.bClock, now) && token < U64
    case Return(j, header, now, _, token) =>
      j < |w.replies| && HeaderShaped(header) && Ticks(w.aClock, now) && token < U64
  }

  /** Whether `b` opens a copy of `a`'s packet `i` behind this header. */
  predicate OpensAtB(w: World, i: nat, header: Header)
    requires i < |w.sent| && HeaderShaped(header)
  {
    var s := SequenceOf(w.b.crypto, header);
    && !w.b.lifecycle.Closed? && s.Some? && w.b.crypto.replay.Check(s.value) == Fresh
    && Opens(Datagram(header, w.sent[i].packet), s.value)
  }

  function Stepped(w: World, s: Step): World
    requires Shaped(w.a) && Shaped(w.b)
    requires s.TransmitA? ==> Transmittable(w.a) && B.Consistent(w.a.budget)
    requires s.TransmitB? ==> Transmittable(w.b) && B.Consistent(w.b.budget)
    requires s.Arrive? ==> s.i < |w.sent| && HeaderShaped(s.header)
    requires s.Return? ==> s.j < |w.replies| && HeaderShaped(s.header)
  {
    match s
    case Submit(channel, payload) =>
      var r := C.Send(w.a.channels, channel, payload);
      w.(a := w.a.(channels := r.channels),
         accepted := if r.result.Queued? then w.accepted[channel := w.accepted[channel] + [payload]] else w.accepted)
    case SubmitB(channel, payload) =>
      w.(b := w.b.(channels := C.Send(w.b.channels, channel, payload).channels))
    case TransmitA(now) =>
      B.OperationsConsistent(w.a.budget, now, 0, false, w.a.delivery.rtt);
      B.OperationsConsistent(Assessed(w.a, now).budget, now, 0, false, None);
      var r := PollTransmit(w.a, now);
      var d := Drafted(Assessed(w.a, now), now);
      w.(a := r.conn, aClock := now,
         sent := if r.packet.None? then w.sent
                 else w.sent + [Sent(r.packet.value, d.control, d.staging.staged, w.a.channels.nextIds)])
    case TransmitB(now) =>
      var r := PollTransmit(w.b, now);
      w.(b := r.conn, bClock := now,
         replies := if r.packet.None? then w.replies else w.replies + [Reply(r.packet.value, w.b.crypto.acked.newest)])
    case ExpireA(now) => w.(a := HandleTimeout(w.a, now), aClock := now)
    case ExpireB(now) => w.(b := HandleTimeout(w.b, now), bClock := now)
    case CloseA(reason) => w.(a := RequestClose(w.a, reason))
    case CloseB(reason) => w.(b := RequestClose(w.b, reason))
    case QueueA(control) => w.(a := w.a.(control := control))
    case QueueB(control) => w.(b := w.b.(control := control))
    case Return(j, header, now, from, token) =>
      w.(a := HandleDatagram(w.a, now, from, Datagram(header, w.replies[j].packet), token).conn, aClock := now)
    case Arrive(i, header, now, from, token) =>
      var h := HandleDatagram(w.b, now, from, Datagram(header, w.sent[i].packet), token);
      var unsealed := OpensAtB(w, i, header);
      var all := h.outcome.Processed? && (w.sent[i].control != [] || w.sent[i].staged != []);
      w.(b := h.conn, bClock := now,
         delivered := Extended(w.delivered, h.delivered),
         unsealed := if unsealed then w.unsealed + {i + 1} else w.unsealed,
         read := if unsealed && all then w.read + {i + 1} else w.read)
  }

  // ----- The invariant -----

  /** `a` queues exactly what it accepted, numbered by position. */
  ghost predicate SenderOk(a: C.Channels, accepted: PerChannel)
    requires C.Sized(a)
  {
    && (forall ch | 0 <= ch < |a.kinds| :: a.nextIds[ch] == |accepted[ch]| <= U32_MAX)
    && AllGenuine(accepted, a.pending)
  }

  ghost predicate NoMessages(control: seq<Frame>) { forall i | 0 <= i < |control| :: !control[i].Message? }

  /** A logged packet is what its frames print, and its messages are genuine. */
  ghost predicate EntryOk(kinds: Kinds, e: Sent, q: nat, accepted: PerChannel) {
    && e.packet.sequence == q && HeaderShaped(e.packet.header) && e.packet.header.sequence == q % WIRE
    && AllEncodable(kinds, e.control) && NoMessages(e.control)
    && C.AllSendable(kinds, e.staged) && |e.staged| <= C.MAX_MESSAGES_PER_PACKET
    && AllGenuine(accepted, e.staged)
    && AllEncodable(kinds, e.control + Q.FramesOf(kinds, e.staged))
    && e.packet.body == Sealed(Body(kinds, e.control + Q.FramesOf(kinds, e.staged)), Room(e.packet.header))
  }

  ghost predicate LogOk(kinds: Kinds, sent: seq<Sent>, accepted: PerChannel) {
    forall s | 0 <= s < |sent| :: EntryOk(kinds, sent[s], s + 1, accepted)
  }

  /** The ledger's records are those of the packets it tracks. */
  ghost predicate FlightOk(kinds: Kinds, ring: L.Ring<Record>, sent: seq<Sent>)
    requires |ring| > 0
  {
    forall q: nat | L.IsInFlight(ring, q) ::
      && 1 <= q <= |sent| && C.AllSendable(kinds, sent[q - 1].staged)
      && L.Get(ring, q).value.state.record == C.RecordOf(kinds, sent[q - 1].staged)
  }

  /** `b`'s two windows stand for the packets it opened and the ones it owes word of. */
  ghost predicate WindowsOk(crypto: Crypto, unsealed: set<nat>, read: set<nat>, n: nat) {
    && crypto.replay.Refines(unsealed) && crypto.acked.Refines(read)
    && read <= unsealed && (forall q | q in unsealed :: q <= n)
  }

  /** An acknowledgement names only packets read. */
  ghost predicate ReplyOk(r: Reply, read: set<nat>) {
    && |r.packet.header.ackBits| == ACK_BITS
    && (r.ack == 0 ==> r.packet.header.ack.None?)
    && (r.ack > 0 ==>
          && r.packet.header.ack == Some(r.ack % WIRE) && r.ack in read
          && (forall i | 0 <= i < ACK_BITS && r.packet.header.ackBits[i] :: r.ack > i + 1 && r.ack - 1 - i in read))
  }

  ghost predicate RepliesOk(replies: seq<Reply>, read: set<nat>) {
    forall j | 0 <= j < |replies| :: ReplyOk(replies[j], read)
  }

  ghost predicate Inv(w: World) {
    && I.Valid(w.a, w.aClock) && I.Valid(w.b, w.bClock)
    && w.a.channels.kinds == w.kinds && w.b.channels.kinds == w.kinds
    && w.a.crypto.nextSequence == |w.sent| + 1 <= U64_MAX + 1
    && SenderOk(w.a.channels, w.accepted)
    && LogOk(w.a.channels.kinds, w.sent, w.accepted)
    && FlightOk(w.a.channels.kinds, w.a.delivery.ring, w.sent)
    && WindowsOk(w.b.crypto, w.unsealed, w.read, |w.sent|)
    && RepliesOk(w.replies, w.read)
    && AllInOrder(w.b.channels, w.accepted, w.delivered)
  }

  /** The condition under which the wire form of ids is enough: where a packet is opened, none
  of its ordered messages is misresolved. */
  ghost predicate ReadExactly(w: World, s: Step)
    requires C.Sized(w.b.channels)
  {
    s.Arrive? && s.i < |w.sent| && HeaderShaped(s.header) && OpensAtB(w, s.i, s.header) ==>
      && C.AllSendable(w.b.channels.kinds, w.sent[s.i].staged)
      && ReadsExactly(w.b.channels, w.sent[s.i].staged)
  }

  lemma StartInv(aRole: Role, bRole: Role, aAddr: nat, bAddr: nat, kinds: Kinds, aCfg: Config, bCfg: Config,
                 aClock: nat, bClock: nat)
    requires ConfigValid(aCfg) && ConfigValid(bCfg)
    ensures Inv(Start(New(aClock, aRole, aAddr, kinds, aCfg), New(bClock, bRole, bAddr, kinds, bCfg), aClock, bClock))
  {
    hide I.Valid;
    I.NewValid(aClock, aRole, aAddr, kinds, aCfg);
    I.NewValid(bClock, bRole, bAddr, kinds, bCfg);
  }

  // ----- Steps of `a` -----

  lemma GenuineMore(accepted: PerChannel, channel: nat, payload: Bytes, m: C.Pending)
    requires channel < MAX_CHANNELS && Genuine(accepted, m)
    ensures Genuine(accepted[channel := accepted[channel] + [payload]], m)
  {
  }

  lemma LogMore(kinds: Kinds, sent: seq<Sent>, accepted: PerChannel, channel: nat, payload: Bytes)
    requires channel < MAX_CHANNELS && LogOk(kinds, sent, accepted)
    ensures LogOk(kinds, sent, accepted[channel := accepted[channel] + [payload]])
  {
    hide Body, Sealed, Encodable, Genuine, C.AllSendable;
    var more := accepted[channel := accepted[channel] + [payload]];
    forall s | 0 <= s < |sent|
      ensures EntryOk(kinds, sent[s], s + 1, more)
    {
      assert EntryOk(kinds, sent[s], s + 1, accepted);
      forall m | m in sent[s].staged
        ensures Genuine(more, m)
      {
        GenuineMore(accepted, channel, payload, m);
      }
    }
  }

  lemma InOrderMore(c: C.Channels, accepted: PerChannel, delivered: PerChannel, channel: nat, payload: Bytes)
    requires C.Sized(c) && channel < MAX_CHANNELS && AllInOrder(c, accepted, delivered)
    requires |accepted[channel]| + 1 < U32
    ensures AllInOrder(c, accepted[channel := accepted[channel] + [payload]], delivered)
  {
    var more := accepted[channel := accepted[channel] + [payload]];
    forall ch | 0 <= ch < |c.kinds| && c.kinds[ch].ReliableOrdered?
      ensures InOrder(c, ch, more[ch], delivered[ch])
    {
      assert InOrder(c, ch, accepted[ch], delivered[ch]);
      assert ch == channel ==> more[ch][..|delivered[ch]|] == accepted[ch][..|delivered[ch]|];
    }
  }

  lemma SubmitInv(w: World, channel: nat, payload: Bytes)
    requires Inv(w) && Allowed(w, Submit(channel, payload))
    ensures Inv(Stepped(w, Submit(channel, payload)))
  {
    hide I.Valid, LogOk, FlightOk, AllInOrder, Genuine, A.BlocksFor, C.PendingBlocks, WindowsOk, RepliesOk;
    assert C.Sized(w.a.channels) && |w.a.delivery.ring| > 0 by { ValidSized(w.a, w.aClock); }
    I.SendValid(w.a, w.aClock, channel, payload);
    var r := C.Send(w.a.channels, channel, payload);
    if r.result.Queued? {
      var more := w.accepted[channel := w.accepted[channel] + [payload]];
      LogMore(w.a.channels.kinds, w.sent, w.accepted, channel, payload);
      ValidSized(w.b, w.bClock);
      InOrderMore(w.b.channels, w.accepted, w.delivered, channel, payload);
      forall m | m in r.channels.pending
        ensures Genuine(more, m)
      {
        if m in w.a.channels.pending {
          GenuineMore(w.accepted, channel, payload, m);
        } else {
          NewGenuine(w.accepted, channel, payload, m);
        }
      }
    }
  }

  lemma NewGenuine(accepted: PerChannel, channel: nat, payload: Bytes, m: C.Pending)
    requires channel < MAX_CHANNELS && m == C.Pending(channel, |accepted[channel]|, payload, false)
    ensures Genuine(accepted[channel := accepted[channel] + [payload]], m)
  {
  }

  lemma ValidSized(c: Conn, clock: nat)
    requires I.Valid(c, clock)
    ensures Shaped(c) && C.Sized(c.channels) && Transmittable(c) && B.Consistent(c.budget)
    ensures C.AllSendable(c.channels.kinds, c.channels.pending) && Q.Ordered(c.channels.pending)
  {
    hide L.Valid, I.NoneStranded, B.Consistent;
    I.ValidShaped(c, clock);
  }

  lemma GenuineFrom(accepted: PerChannel, before: seq<C.Pending>, after: seq<C.Pending>)
    requires AllGenuine(accepted, before) && F.From(before, after)
    ensures AllGenuine(accepted, after)
  {
    forall p | p in after
      ensures Genuine(accepted, p)
    {
      var q := if p in before then p else p.(inFlight := !p.inFlight);
      assert Genuine(accepted, q);
    }
  }

  lemma {:induction false} ControlNoMessages(c: Conn, room: nat, k: nat)
    requires ControlValid(c) && k <= 6
    ensures NoMessages(WriteControl(c, room, k))
  {
    hide Body, Encoded, ControlValid, Encodable;
    if k > 0 {
      ControlNoMessages(c, room, k - 1);
    }
  }

  lemma HeaderSequence(c: Conn, now: nat)
    ensures BuildHeader(c, now).sequence == c.crypto.nextSequence % WIRE
  {
  }

  /** What a drafted packet logs. */
  lemma DraftEntryOk(c: Conn, clock: nat, now: nat, accepted: PerChannel)
    requires I.Valid(c, clock) && Transmittable(c) && AllGenuine(accepted, c.channels.pending)
    ensures var d := Drafted(c, now);
            var packet := Packet(c.crypto.nextSequence, d.header, Sealed(d.staging.body, Room(d.header)));
            EntryOk(c.channels.kinds, Sent(packet, d.control, d.staging.staged, c.channels.nextIds),
                    c.crypto.nextSequence, accepted)
  {
    hide Body, Sealed, Encodable, Genuine, C.Fill, WriteControl, B.Advance, B.Available, QueueFor, HeaderLen,
         I.Valid, BitStream.CeilBytes;
    var kinds, d := c.channels.kinds, Drafted(c, now);
    DraftStaged(c, now);
    HeaderSequence(c, now);
    ControlNoMessages(c, Room(d.header), 6);
    I.QueueForSame(c);
    F.SameFlows(kinds, c.channels.pending, QueueFor(c));
    GenuineFrom(accepted, c.channels.pending, QueueFor(c));
    FramesEncodable(kinds, d.control, d.staging.staged);
  }

  lemma FramesEncodable(kinds: Kinds, control: seq<Frame>, staged: seq<C.Pending>)
    requires AllEncodable(kinds, control) && C.AllSendable(kinds, staged)
    ensures AllEncodable(kinds, control + Q.FramesOf(kinds, staged))
  {
    hide Encodable, C.FrameOf;
    var frames := control + Q.FramesOf(kinds, staged);
    forall i | 0 <= i < |frames|
      ensures Encodable(kinds, frames[i])
    {
      if i >= |control| {
        assert frames[i] == C.FrameOf(kinds, staged[i - |control|]);
      }
    }
  }

  /** Only the packet just sent joins the flight, under its own record. */
  lemma FlightAfterSend(kinds: Kinds, ring: L.Ring<Record>, ring': L.Ring<Record>, sent: seq<Sent>, e: Sent)
    requires |ring| > 0 && |ring'| > 0 && FlightOk(kinds, ring, sent)
    requires C.AllSendable(kinds, e.staged)
    requires forall p: nat | L.IsInFlight(ring', p) && p != |sent| + 1 :: L.Get(ring', p) == L.Get(ring, p)
    requires L.IsInFlight(ring', |sent| + 1) ==>
               L.Get(ring', |sent| + 1).value.state.record == C.RecordOf(kinds, e.staged)
    ensures FlightOk(kinds, ring', sent + [e])
  {
    hide C.RecordOf, C.AllSendable;
    forall q: nat | L.IsInFlight(ring', q)
      ensures 1 <= q <= |sent| + 1 && C.AllSendable(kinds, (sent + [e])[q - 1].staged)
      ensures L.Get(ring', q).value.state.record == C.RecordOf(kinds, (sent + [e])[q - 1].staged)
    {
      if q != |sent| + 1 {
        assert L.IsInFlight(ring, q);
        assert (sent + [e])[q - 1] == sent[q - 1];
      } else {
        assert (sent + [e])[q - 1] == e;
      }
    }
  }

  /** The ledger part of a commit. */
  lemma CommitFlight(c: Conn, clock: nat, now: nat, d: Draft, sent: seq<Sent>, e: Sent)
    requires I.Valid(c, clock) && now >= clock && Q.Filled(c.channels.kinds, d.control, QueueFor(c), d.staging)
    requires c.crypto.nextSequence == |sent| + 1 && e.staged == d.staging.staged
    requires |c.delivery.ring| > 0 && FlightOk(c.channels.kinds, c.delivery.ring, sent)
    ensures C.AllSendable(c.channels.kinds, d.staging.staged)
    ensures var r := Committed(c, now, d).conn;
            && |r.delivery.ring| > 0 && FlightOk(c.channels.kinds, r.delivery.ring, sent + [e])
            && r.crypto == c.crypto.(nextSequence := |sent| + 2)
            && r.channels == c.channels.(pending := r.channels.pending)
  {
    hide L.OnSent, ApplyNotes, C.Committed, C.RecordOf, B.Advance, QueueFor, L.Valid, I.NoneStranded, I.QueueValid,
         B.Consistent, Committed, Q.Filled, FlightOk;
    I.FilledSendable(c, d);
    F.CommittedParts(c, now, d);
    var kinds, q, staged := c.channels.kinds, c.crypto.nextSequence, d.staging.staged;
    var outgoing := if d.control != [] || staged != [] then L.Eliciting(C.RecordOf(kinds, staged)) else L.AckOnly;
    I.RingNonEmpty(c.delivery, clock);
    N.OnSentReported(c.delivery, clock, now, q, outgoing);
    if outgoing.AckOnly? {
      NotInFlightYet(kinds, c.delivery.ring, sent);
    }
    FlightAfterSend(kinds, c.delivery.ring, L.OnSent(c.delivery, now, q, outgoing).ledger.ring, sent, e);
  }

  lemma NotInFlightYet(kinds: Kinds, ring: L.Ring<Record>, sent: seq<Sent>)
    requires |ring| > 0 && FlightOk(kinds, ring, sent)
    ensures !L.IsInFlight(ring, |sent| + 1)
  {
  }

  lemma LogAppend(kinds: Kinds, sent: seq<Sent>, accepted: PerChannel, e: Sent)
    requires LogOk(kinds, sent, accepted) && EntryOk(kinds, e, |sent| + 1, accepted)
    ensures LogOk(kinds, sent + [e], accepted)
  {
    hide EntryOk;
  }

  /** What `a`'s side of the invariant needs of its connection. */
  ghost predicate ASide(a: Conn, aClock: nat, sent: seq<Sent>, accepted: PerChannel) {
    && I.Valid(a, aClock) && Shaped(a)
    && a.crypto.nextSequence == |sent| + 1 <= U64_MAX + 1
    && SenderOk(a.channels, accepted)
    && LogOk(a.channels.kinds, sent, accepted)
    && FlightOk(a.channels.kinds, a.delivery.ring, sent)
  }

  lemma InvASide(w: World)
    requires Inv(w)
    ensures ASide(w.a, w.aClock, w.sent, w.accepted)
  {
    hide I.Valid, SenderOk, LogOk, FlightOk, RepliesOk, WindowsOk, AllInOrder;
    ValidSized(w.a, w.aClock);
  }

  lemma InvFrom(w: World, v: World)
    requires Inv(w) && ASide(v.a, v.aClock, v.sent, v.accepted)
    requires v.a.channels.kinds == w.a.channels.kinds && v.kinds == w.kinds && |w.sent| <= |v.sent|
    requires v.b == w.b && v.bClock == w.bClock && v.replies == w.replies && v.accepted == w.accepted
    requires v.delivered == w.delivered && v.unsealed == w.unsealed && v.read == w.read
    ensures Inv(v)
  {
    hide I.Valid, SenderOk, LogOk, FlightOk, RepliesOk, AllInOrder;
    ValidSized(w.b, w.bClock);
  }

  lemma SendTransmits(a: Conn, aClock: nat, sent: seq<Sent>, accepted: PerChannel, now: nat)
    requires ASide(a, aClock, sent, accepted) && Ticks(aClock, now) && |sent| < U64_MAX
    requires Transmittable(a) && B.Consistent(a.budget)
    ensures Assessed(a, now).budget.refill > 0
    ensures var r := PollTransmit(a, now);
            var d := Drafted(Assessed(a, now), now);
            var sent' := if r.packet.None? then sent
                         else sent + [Sent(r.packet.value, d.control, d.staging.staged, a.channels.nextIds)];
            ASide(r.conn, now, sent', accepted) && r.conn.channels.kinds == a.channels.kinds
            && r.conn.crypto.replay == a.crypto.replay && r.conn.crypto.acked == a.crypto.acked
            && r.conn.channels.nextIds == a.channels.nextIds
            && F.Retains(a.channels.kinds, a.channels.pending, r.conn.channels.pending)
            && F.From(a.channels.pending, r.conn.channels.pending)
            && r.conn.channels == a.channels.(pending := r.conn.channels.pending)
  {
    hide I.Valid, LogOk, FlightOk, Drafted, Committed, TransmitAt, Genuine, B.Assess, Aborted, F.From,
         F.Retains, EntryOk;
    T.PollExact(a, aClock, now);
    T.PollValid(a, aClock, now);
    T.AssessedValid(a, aClock, now);
    var c := Assessed(a, now);
    F.FlowSelf(a.channels.kinds, a.channels.pending);
    ValidSized(PollTransmit(a, now).conn, now);
    if Due(TransmitAt(c), now) {
      ValidSized(c, now);
      var d := Drafted(c, now);
      DraftStaged(c, now);
      DraftEntryOk(c, now, now, accepted);
      T.DueDraft(c, now, now);
      T.CommittedSends(c, now, d);
      var e := Sent(PollTransmit(a, now).packet.value, d.control, d.staging.staged, a.channels.nextIds);
      F.CommitFlows(c, now, now, d);
      CommitFlight(c, now, now, d, sent, e);
      LogAppend(a.channels.kinds, sent, accepted, e);
      GenuineFrom(accepted, a.channels.pending, PollTransmit(a, now).conn.channels.pending);
    }
  }

  lemma TransmitAInv(w: World, now: nat)
    requires Inv(w) && Ticks(w.aClock, now) && |w.sent| < U64_MAX
    ensures Shaped(w.a) && Shaped(w.b) && Transmittable(w.a) && B.Consistent(w.a.budget)
    ensures Inv(Stepped(w, TransmitA(now)))
  {
    hide I.Valid, ASide, PollTransmit, Drafted, B.Consistent, LogOk, FlightOk, SenderOk, RepliesOk,
         WindowsOk, AllInOrder;
    ValidSized(w.a, w.aClock);
    ValidSized(w.b, w.bClock);
    InvASide(w);
    SendTransmits(w.a, w.aClock, w.sent, w.accepted, now);
    InvFrom(w, Stepped(w, TransmitA(now)));
  }

  lemma ExpireAInv(w: World, now: nat)
    requires Inv(w) && Ticks(w.aClock, now)
    ensures Shaped(w.a) && Shaped(w.b)
    ensures Inv(Stepped(w, ExpireA(now)))
  {
    hide I.Valid, HandleTimeout, LogOk, Genuine, RepliesOk, WindowsOk, AllInOrder, F.From, F.Retains, C.RecordOf;
    ValidSized(w.a, w.aClock);
    ValidSized(w.b, w.bClock);
    I.TimeoutValid(w.a, w.aClock, now);
    F.TimeoutFlows(w.a, w.aClock, now);
    var r := HandleTimeout(w.a, now);
    ValidSized(r, now);
    GenuineFrom(w.accepted, w.a.channels.pending, r.channels.pending);
    FlightLess(w.a.channels.kinds, w.a.delivery.ring, r.delivery.ring, w.sent);
    InvFrom(w, Stepped(w, ExpireA(now)));
  }

  lemma FlightLess(kinds: Kinds, ring: L.Ring<Record>, ring': L.Ring<Record>, sent: seq<Sent>)
    requires |ring| > 0 && |ring'| > 0 && FlightOk(kinds, ring, sent) && N.NoNewFlight(ring, ring')
    ensures FlightOk(kinds, ring', sent)
  {
    hide C.RecordOf, C.AllSendable;
    forall q: nat | L.IsInFlight(ring', q)
      ensures L.Get(ring', q) == L.Get(ring, q) && L.IsInFlight(ring, q)
    {
    }
  }

  lemma ControlKept(c: Conn, clock: nat, d: Conn)
    requires I.Valid(c, clock) && d == c.(control := d.control, lifecycle := d.lifecycle) && ControlValid(d)
    ensures I.Valid(d, clock)
  {
    hide L.Valid, I.NoneStranded, B.Consistent, I.QueueValid;
  }

  /** Closing, or queueing control frames, at either side. */
  lemma RequestsKept(c: Conn, clock: nat, reason: nat, control: Control)
    requires I.Valid(c, clock) && reason < REASONS && ControlOk(control)
    ensures I.Valid(RequestClose(c, reason), clock)
    ensures I.Valid(c.(control := control), clock)
  {
    hide L.Valid, I.NoneStranded, B.Consistent, I.QueueValid;
    ControlKept(c, clock, RequestClose(c, reason));
    ControlKept(c, clock, c.(control := control));
  }

  lemma RequestAInv(w: World, reason: nat, control: Control)
    requires Inv(w) && reason < REASONS && ControlOk(control)
    ensures Shaped(w.a) && Shaped(w.b)
    ensures Inv(Stepped(w, CloseA(reason))) && Inv(Stepped(w, QueueA(control)))
  {
    hide I.Valid, LogOk, FlightOk, SenderOk, RepliesOk, WindowsOk, AllInOrder, ControlOk;
    ValidSized(w.a, w.aClock);
    ValidSized(w.b, w.bClock);
    InvASide(w);
    RequestsKept(w.a, w.aClock, reason, control);
    InvFrom(w, Stepped(w, CloseA(reason)));
    InvFrom(w, Stepped(w, QueueA(control)));
  }

  lemma ReturnInv(w: World, j: nat, header: Header, now: nat, from: nat, token: nat)
    requires Inv(w) && j < |w.replies| && HeaderShaped(header) && Ticks(w.aClock, now) && token < U64
    ensures Shaped(w.a) && Shaped(w.b)
    ensures Inv(Stepped(w, Return(j, header, now, from, token)))
  {
    hide I.Valid, HandleDatagram, LogOk, Genuine, RepliesOk, WindowsOk, AllInOrder, F.From, F.LeavesByAck, C.RecordOf,
         F.AckNames;
    ValidSized(w.a, w.aClock);
    ValidSized(w.b, w.bClock);
    var d := Datagram(header, w.replies[j].packet);
    I.HandleDatagramValid(w.a, w.aClock, now, from, d, token);
    F.HandleDatagramFlows(w.a, w.aClock, now, from, d, token);
    var r := HandleDatagram(w.a, now, from, d, token).conn;
    ValidSized(r, now);
    GenuineFrom(w.accepted, w.a.channels.pending, r.channels.pending);
    FlightLess(w.a.channels.kinds, w.a.delivery.ring, r.delivery.ring, w.sent);
    InvFrom(w, Stepped(w, Return(j, header, now, from, token)));
  }

  // ----- Steps of `b` other than an arrival -----

  /** Steps that leave `b`'s receive side alone. */
  lemma InvFromB(w: World, v: World)
    requires Inv(w) && I.Valid(v.b, v.bClock)
    requires v == w.(b := v.b, bClock := v.bClock, replies := v.replies)
    requires v.b.channels == w.b.channels.(pending := v.b.channels.pending, nextIds := v.b.channels.nextIds)
    requires v.b.crypto.replay == w.b.crypto.replay && v.b.crypto.acked == w.b.crypto.acked
    requires RepliesOk(v.replies, v.read)
    ensures Inv(v)
  {
    hide I.Valid, SenderOk, LogOk, FlightOk, RepliesOk, InOrder;
    ValidSized(w.b, w.bClock);
    ValidSized(v.b, v.bClock);
    forall ch | 0 <= ch < |v.b.channels.kinds| && v.b.channels.kinds[ch].ReliableOrdered?
      ensures InOrder(v.b.channels, ch, v.accepted[ch], v.delivered[ch])
    {
      assert InOrder(w.b.channels, ch, w.accepted[ch], w.delivered[ch]);
      InOrderSame(w.b.channels, v.b.channels, ch, w.accepted[ch], w.delivered[ch]);
    }
  }

  lemma InOrderSame(c: C.Channels, d: C.Channels, ch: nat, accepted: seq<Bytes>, delivered: seq<Bytes>)
    requires C.Sized(c) && C.Sized(d) && ch < MAX_CHANNELS && InOrder(c, ch, accepted, delivered)
    requires d == c.(pending := d.pending, nextIds := d.nextIds)
    ensures InOrder(d, ch, accepted, delivered)
  {
  }

  lemma SubmitBInv(w: World, channel: nat, payload: Bytes)
    requires Inv(w) && Allowed(w, SubmitB(channel, payload))
    ensures Shaped(w.a) && Shaped(w.b)
    ensures Inv(Stepped(w, SubmitB(channel, payload)))
  {
    hide I.Valid, LogOk, FlightOk, SenderOk, RepliesOk, WindowsOk, AllInOrder, C.PendingBlocks, A.BlocksFor;
    ValidSized(w.a, w.aClock);
    ValidSized(w.b, w.bClock);
    I.SendValid(w.b, w.bClock, channel, payload);
    InvFromB(w, Stepped(w, SubmitB(channel, payload)));
  }

  lemma RequestBInv(w: World, reason: nat, control: Control)
    requires Inv(w) && reason < REASONS && ControlOk(control)
    ensures Shaped(w.a) && Shaped(w.b)
    ensures Inv(Stepped(w, CloseB(reason))) && Inv(Stepped(w, QueueB(control)))
  {
    hide I.Valid, LogOk, FlightOk, SenderOk, RepliesOk, WindowsOk, AllInOrder, ControlOk;
    ValidSized(w.a, w.aClock);
    ValidSized(w.b, w.bClock);
    RequestsKept(w.b, w.bClock, reason, control);
    InvFromB(w, Stepped(w, CloseB(reason)));
    InvFromB(w, Stepped(w, QueueB(control)));
  }

  lemma ExpireBInv(w: World, now: nat)
    requires Inv(w) && Ticks(w.bClock, now)
    ensures Shaped(w.a) && Shaped(w.b)
    ensures Inv(Stepped(w, ExpireB(now)))
  {
    hide I.Valid, HandleTimeout, LogOk, FlightOk, SenderOk, RepliesOk, WindowsOk, AllInOrder, F.From, F.Retains;
    ValidSized(w.a, w.aClock);
    ValidSized(w.b, w.bClock);
    I.TimeoutValid(w.b, w.bClock, now);
    F.TimeoutFlows(w.b, w.bClock, now);
    InvFromB(w, Stepped(w, ExpireB(now)));
  }

  /** The header of an acknowledging packet names exactly what the window of packets read holds. */
  lemma HeaderAcks(c: Conn, now: nat, read: set<nat>, packet: Packet)
    requires c.crypto.acked.Refines(read) && packet.header == BuildHeader(c, now)
    ensures ReplyOk(Reply(packet, c.crypto.acked.newest), read)
  {
    hide EncodeAckDelay, Window.Refines, Window.AckBits;
    var acked, h := c.crypto.acked, packet.header;
    if acked.newest > 0 {
      assert acked.newest in read by { NewestSeen(acked, read); }
      forall i | 0 <= i < ACK_BITS && h.ackBits[i]
        ensures acked.newest > i + 1 && acked.newest - 1 - i in read
      {
        AckBitsExact(acked, read, i);
      }
    }
  }

  lemma NewestSeen(w: Window, seen: set<nat>)
    requires w.Refines(seen) && w.newest > 0
    ensures w.newest in seen
  {
  }

  /** What polling changes in a connection, and the header it puts on a packet. */
  lemma PollParts(c: Conn, clock: nat, now: nat)
    requires I.Valid(c, clock) && Ticks(clock, now)
    ensures Transmittable(c) && B.Consistent(c.budget)
    ensures var r := PollTransmit(c, now);
            && I.Valid(r.conn, now)
            && r.conn.channels == c.channels.(pending := r.conn.channels.pending)
            && r.conn.crypto == c.crypto.(nextSequence := r.conn.crypto.nextSequence)
            && (r.packet.Some? ==> r.packet.value.header == BuildHeader(c, now))
  {
    hide I.Valid, Committed, TransmitAt, B.Assess, Aborted, WriteControl, C.Fill, BuildHeader, B.Advance;
    T.PollExact(c, clock, now);
    T.PollValid(c, clock, now);
    T.AssessedValid(c, clock, now);
    var c1 := Assessed(c, now);
    if Due(TransmitAt(c1), now) {
      ValidSized(c1, now);
      DraftStaged(c1, now);
      var d := Drafted(c1, now);
      T.DueDraft(c1, now, now);
      T.CommittedSends(c1, now, d);
      F.CommittedParts(c1, now, d);
      SameHeader(c, c1, now);
    }
  }

  lemma SameHeader(c: Conn, d: Conn, now: nat)
    requires c.crypto == d.crypto
    ensures BuildHeader(c, now) == BuildHeader(d, now)
  {
  }

  lemma TransmitBInv(w: World, now: nat)
    requires Inv(w) && Ticks(w.bClock, now)
    ensures Shaped(w.a) && Shaped(w.b) && Transmittable(w.b) && B.Consistent(w.b.budget)
    ensures Inv(Stepped(w, TransmitB(now)))
  {
    hide I.Valid, PollTransmit, BuildHeader, B.Consistent, LogOk, FlightOk, SenderOk, ReplyOk,
         Window.Refines, AllInOrder;
    ValidSized(w.a, w.aClock);
    ValidSized(w.b, w.bClock);
    PollParts(w.b, w.bClock, now);
    var r := PollTransmit(w.b, now);
    if r.packet.Some? {
      HeaderAcks(w.b, now, w.read, r.packet.value);
    }
    InvFromB(w, Stepped(w, TransmitB(now)));
  }
}
