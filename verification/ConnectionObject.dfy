/** The connection as the program keeps it: one object over the packet layer, the ledger, the
budget and the channels, each updated in place, reading and writing packets bit by bit. Every
method is proved to make exactly the step module `Connection` gives on values, so what is
proved of runs of those steps holds of the object. */
module ConnectionObject {
  import opened Machine
  import opened Sequences
  import opened Bits
  import opened BitStream
  import opened Frames
  import opened Connection
  import FrameIO
  import I = ConnectionInvariant
  import L = Ledger
  import B = Budget
  import C = Channels
  import T = Transmit
  import LO = LedgerObject
  import BO = BudgetObject
  import CO = ChannelsObject
  import PO = PacketObject

  /** `apply_resolution`, for each outcome in turn. */
  method ApplyResolutions(channels: CO.ChannelState, budget: BO.SendBudget, notes: seq<L.Note<Record>>)
    requires channels.SendValid() && budget.Valid()
    modifies channels`pending, channels.sendArena, channels.sendArena.next, budget
    ensures channels.SendValid() && budget.Valid()
    ensures Applied(channels.Queue(), budget.View()) ==
            ApplyNotes(Applied(old(channels.Queue()), old(budget.View())), notes)
  {
    hide CO.ChannelState.SendValid, CO.ChannelState.Queue, BO.SendBudget.Valid, BO.SendBudget.View,
         C.ReleasedAll, C.MarkedLostAll, B.OnLost, B.OnSpurious;
    ghost var a := Applied(channels.Queue(), budget.View());
    assert notes[..0] == [];
    for i := 0 to |notes|
      invariant channels.SendValid() && budget.Valid()
      invariant Applied(channels.Queue(), budget.View()) == ApplyNotes(a, notes[..i])
    {
      assert notes[..i + 1][..i] == notes[..i];
      match notes[i].what {
        case Acked(record) =>
          channels.OnAcked(record);
        case Lost(record) =>
          budget.OnLost();
          channels.OnLost(record);
        case Spurious =>
          budget.OnSpurious();
      }
    }
    assert notes[..|notes|] == notes;
  }

  lemma FirstWritten(c: Conn, room: nat)
    requires ControlValid(c)
    ensures WriteControl(c, room, 0) == [] && Body(c.channels.kinds, []) == []
  {
  }

  lemma HeaderSame(c: Conn, d: Conn, now: nat)
    requires c.crypto == d.crypto
    ensures BuildHeader(c, now) == BuildHeader(d, now)
  {
  }

  /** Preparing a packet changes nothing its header and control frames depend on. */
  lemma {:induction false} PreparedWrites(c: Conn, d: Conn, room: nat, k: nat)
    requires ControlValid(c) && k <= 6
    requires d == c.(budget := d.budget, channels := c.channels.(pending := d.channels.pending))
    ensures ControlValid(d) && WriteControl(d, room, k) == WriteControl(c, room, k)
  {
    hide TryWrite;
    if k > 0 {
      PreparedWrites(c, d, room, k - 1);
      OwedEncodable(c, k - 1);
    }
  }

  /** The draft of a packet, as the object has it. */
  ghost predicate Built(c: Conn, now: nat, header: Header, wrote: bool, s: C.Staging, after: Conn)
    requires Transmittable(c)
  {
    var d := Drafted(c, now);
    && header == d.header && s == d.staging && (wrote <==> d.control != [])
    && after == ControlLeft(c, d.control).(budget := B.Advance(c.budget, now),
                                           channels := c.channels.(pending := d.staging.pending))
  }

  /** The first half of the draft, as the object has it. */
  ghost predicate Begun(c: Conn, now: nat, header: Header, wrote: bool, limit: nat, body: seq<bool>, after: Conn)
    requires ControlValid(c)
  {
    var frames := WriteControl(c, Room(header), 6);
    && header == BuildHeader(c, now) && (wrote <==> frames != []) && body == Body(c.channels.kinds, frames)
    && limit == SatSub(B.Available(B.Advance(c.budget, now)), HeaderLen(header) + B.TAG_LEN + CeilBytes(|body|))
    && after == ControlLeft(c.(budget := B.Advance(c.budget, now), channels := c.channels.(pending := QueueFor(c))),
                            frames)
  }

  lemma BegunKeeps(c: Conn, now: nat, header: Header, wrote: bool, limit: nat, body: seq<bool>, after: Conn)
    requires ControlValid(c) && Begun(c, now, header, wrote, limit, body, after)
    ensures after.channels == c.channels.(pending := QueueFor(c)) && after.lifecycle == c.lifecycle
  {
    hide Body, WriteControl, B.Advance, B.Available, BuildHeader, HeaderLen, QueueFor, CeilBytes;
  }

  lemma BuiltFrom(c: Conn, now: nat, header: Header, wrote: bool, limit: nat, body: seq<bool>, c2: Conn, s: C.Staging,
                  after: Conn)
    requires Transmittable(c) && C.AllSendable(c.channels.kinds, QueueFor(c))
    requires Begun(c, now, header, wrote, limit, body, c2)
    requires s == (if c.lifecycle.Open? && limit > 0
                   then C.Fill(c.channels.kinds, C.Staging(QueueFor(c), body, []), |body|, Room(header), limit, 0)
                   else C.Staging(QueueFor(c), body, []))
    requires after == c2.(channels := c2.channels.(pending := s.pending))
    ensures Built(c, now, header, wrote, s, after)
  {
    hide Body, WriteControl, B.Advance, B.Available, BuildHeader, HeaderLen, QueueFor, CeilBytes, C.Fill, C.Sendable;
  }

  /** A packet as it leaves: its sequence, header and body, in bytes. */
  datatype SealedPacket = SealedPacket(sequence: nat, header: Header, body: Bytes) {
    ghost function Value(): Packet { Packet(sequence, header, ByteBits(body)) }
  }

  /** The ledger, budget and queue after a packet is sent. */
  ghost function Tracked(c: Conn, now: nat, sequence: nat, eliciting: bool, messages: seq<C.Pending>): Conn
    requires |c.delivery.ring| > 0 && C.AllSendable(c.channels.kinds, messages)
  {
    var kinds := c.channels.kinds;
    var o := L.OnSent(c.delivery, now, sequence,
                      if eliciting then L.Eliciting(C.RecordOf(kinds, messages)) else L.AckOnly);
    Resolved(c.(channels := c.channels.(pending := C.Committed(kinds, c.channels.pending, messages))), o.ledger,
             o.notes)
  }

  lemma WholeBytes(body: Bytes)
    ensures CeilBytes(|ByteBits(body)|) == |body|
  {
    CeilBytesAdd(|body|, 0);
  }

  /** The padding kind if it fits, then zeros to a whole byte. */
  method SealBody(w: BitWriter) returns (body: Bytes)
    requires w.Valid()
    modifies w, w.buf
    ensures ByteBits(body) == Connection.Sealed(old(w.Stream()), 8 * w.buf.Length)
  {
    hide BitWriter.Stream, ByteBits, CeilBytes;
    ZeroBits(KIND_BITS);
    var padding := w.WriteBits(0, KIND_BITS);
    var len := w.Finish();
    body := w.buf[..len];
  }

  /** What the lifecycle and the application hear of a packet that left while closing. */
  function AfterClose(c: Conn): Conn {
    if !c.lifecycle.Closing? then c
    else if c.lifecycle.remaining <= 1
    then c.(lifecycle := Closed, events := Push(c.events, ClosedEvent(c.lifecycle.reason)))
    else c.(lifecycle := Closing(c.lifecycle.reason, c.lifecycle.remaining - 1))
  }

  /** Committing a draft, in the order the object does it. */
  lemma CommittedParts(c: Conn, now: nat, header: Header, wrote: bool, s: C.Staging, built: Conn, body: Bytes)
    requires Transmittable(c) && Built(c, now, header, wrote, s, built) && C.AllSendable(c.channels.kinds, s.staged)
    requires ByteBits(body) == Connection.Sealed(s.body, Room(header))
    ensures C.AllSendable(c.channels.kinds, Drafted(c, now).staging.staged)
    ensures |built.delivery.ring| > 0 && built.channels.kinds == c.channels.kinds
    ensures var sequence := built.crypto.nextSequence;
            var eliciting := wrote || s.staged != [];
            var sealed := built.(crypto := built.crypto.(nextSequence := sequence + 1));
            var t := Tracked(sealed, now, sequence, eliciting, s.staged);
            var u := t.(budget := B.OnSent(t.budget, HeaderLen(header) + |body| + B.TAG_LEN, eliciting),
                        acks := t.acks.Sent(now, eliciting));
            Committed(c, now, Drafted(c, now)) == Polled(AfterClose(u), Some(Packet(sequence, header, ByteBits(body))))
  {
    hide Connection.Sealed, HeaderLen, ByteBits, Drafted, B.OnSent, Push, B.Advance, C.Sendable, L.OnSent,
         ApplyNotes, C.Committed, C.RecordOf, CeilBytes;
    WholeBytes(body);
  }

  /** Polling a valid connection. */
  ghost function Poll(c: Conn, clock: nat, now: nat): Polled
    requires I.Valid(c, clock) && clock <= now < U64_MAX
  {
    T.PollValid(c, clock, now);
    PollTransmit(c, now)
  }

  /** Giving up a packet in which nothing was staged. */
  lemma AbortedParts(c: Conn, now: nat, header: Header, wrote: bool, s: C.Staging, built: Conn)
    requires Transmittable(c) && Built(c, now, header, wrote, s, built) && s.staged == []
    ensures C.AllSendable(c.channels.kinds, Drafted(c, now).staging.staged)
    ensures Aborted(c, now, Drafted(c, now)) ==
            Polled(built.(channels := built.channels.(pending := C.MarkedLostAll(s.pending, CO.StagedKeys([])))), None)
  {
    hide Drafted, B.Advance, ControlLeft, Transmittable;
    assert CO.StagedKeys([]) == C.KeysWhere(c.channels.kinds, [], true) + C.KeysWhere(c.channels.kinds, [], false);
  }

  /** The packet of a connection that has one due. */
  ghost function Produced(c: Conn, now: nat): Polled
    requires Transmittable(c)
  {
    var d := Drafted(c, now);
    DraftStaged(c, now);
    if d.control == [] && d.staging.staged == [] && !Due(c.acks.Deadline(), now) then Aborted(c, now, d)
    else Committed(c, now, d)
  }

  lemma PollParts(c: Conn, now: nat)
    requires Transmittable(c) && B.Consistent(c.budget) && Transmittable(Assessed(c, now))
    ensures var c1 := Assessed(c, now);
            PollTransmit(c, now) == if !Due(TransmitAt(c1), now) then Polled(c1, None) else Produced(c1, now)
  {
    hide B.Assess, TransmitAt, Drafted, Committed, Aborted;
  }

  lemma BuiltSays(c: Conn, now: nat, header: Header, wrote: bool, s: C.Staging, built: Conn)
    requires Transmittable(c) && Built(c, now, header, wrote, s, built)
    ensures Drafted(c, now).staging == s && (wrote <==> Drafted(c, now).control != []) && built.acks == c.acks
  {
    hide Drafted, B.Advance;
  }

  lemma SameShape(c: Conn)
    requires Shaped(c)
    ensures |c.delivery.ring| > 0
  {
  }

  datatype Turn = Ended | Failed | Went

  lemma ProgressKinds(c: Conn, now: nat, bits: seq<bool>, at: nat, frames: seq<Frame>, r: Read)
    requires Progress(c, now, bits, at, frames, r)
    ensures r.conn.channels.kinds == c.channels.kinds
  {
    hide Parse, Connection.ReadFrames;
  }

  // ----- Control frames -----

  /** The packet gained the k-th owed frame. */
  predicate Grew(c: Conn, room: nat, k: nat)
    requires ControlValid(c) && k < 6
  {
    WriteControl(c, room, k + 1) != WriteControl(c, room, k)
  }

  lemma GrewOwed(c: Conn, room: nat, k: nat)
    requires ControlValid(c) && k < 6
    ensures Grew(c, room, k) ==> Owed(c)[k].Some?
    ensures |WriteControl(c, room, k + 1)| == |WriteControl(c, room, k)| + if Grew(c, room, k) then 1 else 0
  {
    hide ControlValid, Owed, TryWrite;
    OwedEncodable(c, k);
  }

  /** No two owed frames are alike, so a frame found in the packet is the one that was tried. */
  lemma OwedDistinct(c: Conn, i: nat, j: nat)
    requires i < 6 && j < 6 && Owed(c)[i].Some? && Owed(c)[i] == Owed(c)[j]
    ensures i == j
  {
  }

  lemma OwedExact(c: Conn)
    ensures Owed(c)[0] == if c.lifecycle.Closing? then Some(Close(c.lifecycle.reason)) else None
    ensures Owed(c)[1] == if c.control.accepted then Some(Frame.Accepted) else None
    ensures Owed(c)[2] == if c.control.challenge.Some? then Some(PathChallenge(c.control.challenge.value)) else None
    ensures Owed(c)[3] == if c.control.response.Some? then Some(PathResponse(c.control.response.value)) else None
    ensures Owed(c)[4] == if c.control.ticket.Some? then Some(ResumeTicket(c.control.ticket.value)) else None
    ensures Owed(c)[5] == if c.pendingProbes > 0 then Some(Ping) else None
  {
  }

  lemma {:induction false} WrittenFrom(c: Conn, room: nat, m: nat, f: Frame)
    requires ControlValid(c) && m <= 6 && f in WriteControl(c, room, m)
    ensures exists j: nat :: j < m && Owed(c)[j] == Some(f)
  {
    hide ControlValid, Owed, TryWrite;
    if m > 0 {
      var before := WriteControl(c, room, m - 1);
      if f in before {
        WrittenFrom(c, room, m - 1, f);
        var j: nat :| j < m - 1 && Owed(c)[j] == Some(f);
        assert j < m;
      } else {
        OwedEncodable(c, m - 1);
        assert Owed(c)[m - 1] == Some(f);
      }
    }
  }

  /** A frame is in the packet exactly when its own try added it. */
  lemma {:induction false} WrittenExact(c: Conn, room: nat, k: nat, m: nat)
    requires ControlValid(c) && k < m <= 6 && Owed(c)[k].Some?
    ensures Owed(c)[k].value in WriteControl(c, room, m) <==> Grew(c, room, k)
    decreases m
  {
    hide ControlValid, Owed, TryWrite;
    var f := Owed(c)[k].value;
    OwedEncodable(c, m - 1);
    if f in WriteControl(c, room, k) {
      WrittenFrom(c, room, k, f);
      var j: nat :| j < k && Owed(c)[j] == Some(f);
      OwedDistinct(c, j, k);
    }
    if m > k + 1 {
      WrittenExact(c, room, k, m - 1);
      if Owed(c)[m - 1] == Some(f) {
        OwedDistinct(c, m - 1, k);
      }
    }
  }

  /** One owed frame tried: the packet gains exactly that frame, or is as it was. */
  method TryOwed(w: BitWriter, f: Option<Frame>, ghost c: Conn, ghost k: nat) returns (wrote: bool)
    requires w.Valid() && ControlValid(c) && k < 6 && Owed(c)[k] == f
    requires w.Stream() == Body(c.channels.kinds, WriteControl(c, 8 * w.buf.Length, k))
    modifies w, w.buf
    ensures w.Valid() && (wrote ==> f.Some?)
    ensures w.Stream() == Body(c.channels.kinds, WriteControl(c, 8 * w.buf.Length, k + 1))
    ensures wrote <==> Grew(c, 8 * w.buf.Length, k)
  {
    hide BitWriter.Stream, BitWriter.Valid, ControlValid, Owed, Encoded, Body, Encodable;
    ghost var frames := WriteControl(c, 8 * w.buf.Length, k);
    OwedEncodable(c, k);
    if f.None? {
      return false;
    }
    OwedControl(c, k);
    BodyAppend(c.channels.kinds, frames, f.value);
    wrote := FrameIO.WriteControlFrame(w, f.value, c.channels.kinds);
    FrameIO.Nothing(Body(c.channels.kinds, frames));
  }

  lemma OwedControl(c: Conn, k: nat)
    requires k < 6 && Owed(c)[k].Some?
    ensures !Owed(c)[k].value.Message?
  {
  }

  /** What stays owed, by which tries added a frame. */
  lemma LeftExact(c: Conn, room: nat)
    requires ControlValid(c)
    ensures WriteControl(c, room, 6) != [] <==> exists k: nat :: k < 6 && Grew(c, room, k)
    ensures ControlLeft(c, WriteControl(c, room, 6)) ==
            c.(control := Control(c.control.accepted && !Grew(c, room, 1),
                                  if Grew(c, room, 2) then None else c.control.challenge,
                                  if Grew(c, room, 3) then None else c.control.response,
                                  if Grew(c, room, 4) then None else c.control.ticket),
               pendingProbes := if Grew(c, room, 5) then Max(c.pendingProbes, 1) - 1 else c.pendingProbes)
  {
    hide ControlValid, WriteControl, Grew;
    FirstWritten(c, room);
    forall k: nat | k < 6
      ensures Grew(c, room, k) ==> Owed(c)[k].Some?
      ensures |WriteControl(c, room, k + 1)| == |WriteControl(c, room, k)| + if Grew(c, room, k) then 1 else 0
      ensures Owed(c)[k].Some? ==> (Owed(c)[k].value in WriteControl(c, room, 6) <==> Grew(c, room, k))
    {
      GrewOwed(c, room, k);
      if Owed(c)[k].Some? {
        WrittenExact(c, room, k, 6);
      }
    }
    CountGrown(c, room);
  }

  lemma CountGrown(c: Conn, room: nat)
    requires ControlValid(c)
    ensures WriteControl(c, room, 6) != [] <==> exists k: nat :: k < 6 && Grew(c, room, k)
  {
    hide ControlValid, WriteControl, Grew, Owed;
    FirstWritten(c, room);
    GrewOwed(c, room, 0);
    GrewOwed(c, room, 1);
    GrewOwed(c, room, 2);
    GrewOwed(c, room, 3);
    GrewOwed(c, room, 4);
    GrewOwed(c, room, 5);
  }

  /** Tries the six kinds of control frame in turn; what does not fit is returned as still owed. */
  method WriteOwed(w: BitWriter, lifecycle: Lifecycle, control: Control, probes: nat, ghost c: Conn)
    returns (wrote: bool, left: Control, probesLeft: nat)
    requires ControlValid(c) && c.lifecycle == lifecycle && c.control == control && c.pendingProbes == probes
    requires w.Valid() && w.Stream() == []
    modifies w, w.buf
    ensures w.Valid()
    ensures var frames := WriteControl(c, 8 * w.buf.Length, 6);
            && (wrote <==> frames != [])
            && w.Stream() == Body(c.channels.kinds, frames)
            && ControlLeft(c, frames) == c.(control := left, pendingProbes := probesLeft)
  {
    hide BitWriter.Stream, BitWriter.Valid, ControlValid, WriteControl, Grew, ControlLeft, Body, Owed;
    ghost var room := 8 * w.buf.Length;
    FirstWritten(c, room);
    OwedExact(c);
    LeftExact(c, room);
    left, probesLeft := control, probes;
    wrote := TryOwed(w, if lifecycle.Closing? then Some(Close(lifecycle.reason)) else None, c, 0);
    var ok := TryOwed(w, if control.accepted then Some(Frame.Accepted) else None, c, 1);
    left, wrote := left.(accepted := control.accepted && !ok), wrote || ok;
    ok := TryOwed(w, if control.challenge.Some? then Some(PathChallenge(control.challenge.value)) else None, c, 2);
    left, wrote := left.(challenge := if ok then None else control.challenge), wrote || ok;
    ok := TryOwed(w, if control.response.Some? then Some(PathResponse(control.response.value)) else None, c, 3);
    left, wrote := left.(response := if ok then None else control.response), wrote || ok;
    ok := TryOwed(w, if control.ticket.Some? then Some(ResumeTicket(control.ticket.value)) else None, c, 4);
    left, wrote := left.(ticket := if ok then None else control.ticket), wrote || ok;
    ok := TryOwed(w, if probes > 0 then Some(Ping) else None, c, 5);
    if ok {
      probesLeft, wrote := probes - 1, true;
    }
  }

  class ConnectionState {
    var role: Role
    var addr: nat
    var lifecycle: Lifecycle
    const crypto: PO.PacketCrypto
    const delivery: LO.Delivery<Record>
    const budget: BO.SendBudget
    const channels: CO.ChannelState
    var control: Control
    var acks: Acks
    const idleTimeout: nat
    const keepalive: nat
    var lastReceived: nat
    var pendingProbes: nat
    var events: seq<Event>

    ghost function Footprint(): set<object> {
      {this, crypto, crypto.replay, crypto.acked, delivery, delivery.sent, budget} + channels.Footprint()
    }

    ghost predicate Apart() {
      {this, crypto, crypto.replay, crypto.acked, delivery, delivery.sent, budget} !! channels.Footprint()
    }

    ghost function View(): Conn
      requires channels.Valid()
      reads this, crypto, crypto.replay, crypto.acked, delivery, delivery.sent, budget, channels.Footprint()
    {
      Conn(role, addr, lifecycle, crypto.View(), delivery.View(), budget.View(), channels.View(), control, acks,
           idleTimeout, keepalive, lastReceived, pendingProbes, events)
    }

    ghost predicate Valid(clock: nat)
      reads this, crypto, crypto.replay, crypto.acked, delivery, delivery.sent, budget, channels.Footprint()
    {
      && Apart() && crypto.Valid() && channels.Valid()
      && I.Valid(View(), clock)
    }

    constructor (now: nat, role: Role, addr: nat, kinds: Kinds, cfg: Config)
      requires ConfigValid(cfg)
      ensures Valid(now) && View() == New(now, role, addr, kinds, cfg)
      ensures fresh(Footprint())
    {
      hide I.Valid, CO.ChannelState.Valid, CO.ChannelState.View, L.Valid, B.Consistent, L.New, B.New, C.New,
           PO.PacketCrypto.Valid, BO.SendBudget.Valid, LO.Delivery.Valid;
      this.role, this.addr, lifecycle := role, addr, Open;
      crypto := new PO.PacketCrypto();
      delivery := new LO.Delivery(TRACKED, now, cfg.maxAckDelay);
      budget := new BO.SendBudget(now, cfg.budget);
      channels := new CO.ChannelState(kinds);
      control, acks := Control(role.Server?, None, None, None), Acks(Nothing, cfg.maxAckDelay, 0);
      idleTimeout, keepalive, lastReceived := cfg.idleTimeout, cfg.keepalive, now;
      pendingProbes, events := 0, [];
      new;
      I.NewValid(now, role, addr, kinds, cfg);
    }

    /** The parts of a valid connection are valid. */
    lemma Parts(clock: nat)
      requires Valid(clock)
      ensures channels.Valid() && budget.Valid() && delivery.Valid(clock) && Shaped(View()) && Transmittable(View())
      ensures crypto.nextSequence == delivery.largestSent + 1 && delivery.sent.Length > 0
      ensures ControlValid(View()) && View().channels.kinds == channels.kinds && budget.refill > 0
    {
      hide L.Valid, B.Consistent, I.NoneStranded, I.QueueValid, CO.ChannelState.SendValid, CO.ChannelState.RecvValid;
      I.ValidShaped(View(), clock);
    }

    /** A connection nothing of which changed is as it was. */
    twostate lemma Untouched(clock: nat)
      requires old(Valid(clock)) && unchanged(Footprint())
      ensures Valid(clock) && channels.Valid() && View() == old(View())
    {
      hide I.Valid, CO.ChannelState.SendValid, CO.ChannelState.RecvValid, PO.PacketCrypto.Valid;
    }

    /** The application offers a message. */
    method Send(channel: nat, payload: Bytes, ghost clock: nat) returns (result: C.SendResult)
      requires Valid(clock) && (channel < |channels.kinds| ==> channels.nextIds[channel] < U32_MAX)
      modifies channels.Footprint()
      ensures Valid(clock)
      ensures var s := C.Send(old(View()).channels, channel, payload);
              result == s.result && View() == old(View()).(channels := s.channels)
    {
      hide I.Valid, CO.ChannelState.Valid, C.Send, PO.PacketCrypto.Valid;
      I.SendValid(View(), clock, channel, payload);
      result := channels.Send(channel, payload);
    }

    method RequestClose(reason: nat, ghost clock: nat)
      requires Valid(clock) && reason < REASONS
      modifies this`lifecycle
      ensures Valid(clock) && View() == Connection.RequestClose(old(View()), reason)
    {
      hide L.Valid, B.Consistent, I.NoneStranded, I.QueueValid, CO.ChannelState.Valid, PO.PacketCrypto.Valid;
      if lifecycle.Open? {
        lifecycle := Closing(reason, CLOSE_SENDS);
      }
    }

    // ----- Receiving -----

    method HandleAck(now: nat, h: Header, ghost clock: nat)
      requires Valid(clock) && now >= clock && HeaderShaped(h)
      modifies channels`pending, channels.sendArena, channels.sendArena.next, budget, delivery, delivery.sent
      ensures Valid(now) && View() == Connection.HandleAck(old(View()), now, h)
    {
      hide I.Valid, L.Valid, B.Consistent, CO.ChannelState.SendValid, CO.ChannelState.RecvValid,
           CO.ChannelState.Queue, CO.ChannelState.Hold, PO.PacketCrypto.Valid, ApplyNotes, L.OnAck,
           ResolveAck, HeaderShaped, BO.SendBudget.Valid;
      I.HandleAckValid(View(), clock, now, h);
      I.ValidLater(View(), clock, now);
      Parts(clock);
      HeaderAck(h);
      if h.ack.None? {
        return;
      }
      var ack := ResolveAck(crypto.nextSequence - 1, h.ack.value);
      I.ResolveAckBounds(crypto.nextSequence - 1, h.ack.value);
      if ack.None? {
        return;
      }
      var notes := delivery.OnAck(now, ack.value, DecodeAckDelay(h.ackDelay), h.ackBits, clock);
      ApplyResolutions(channels, budget, notes);
      channels.OnlyQueueChanged();
    }

    /** A message frame goes to the channels. */
    method ReadMessage(channel: nat, id: nat, payload: Bytes) returns (delivered: seq<C.Delivery>, ok: bool)
      requires channels.Valid() && channel < |channels.kinds| && id < WIRE && |payload| <= MAX_MESSAGE
      modifies channels, channels.recvArena, channels.recvArena.blocks, channels.recvArena.next
      ensures channels.Valid()
      ensures var r := C.Receive(old(View()).channels, channel, id, payload);
              delivered == r.delivered && ok == r.ok && View() == old(View()).(channels := r.channels)
    {
      hide CO.ChannelState.Valid, CO.ChannelState.View, C.Receive;
      delivered, ok := channels.ReadMessage(channel, id, payload);
    }

    /** The peer answered from the new address, so the estimates start over. */
    method Migrate(now: nat, to: nat)
      requires channels.Valid() && budget.Valid() && Apart()
      modifies this, delivery, budget
      ensures channels.Valid() && budget.Valid()
      ensures var c := old(View());
              View() == c.(role := Server(None), addr := to,
                           delivery := L.OnPathChange(c.delivery),
                           budget := B.OnPathChange(c.budget, now),
                           events := Push(c.events, Migrated(to)))
    {
      hide CO.ChannelState.Valid, CO.ChannelState.View, B.OnPathChange, Push, BO.SendBudget.Valid;
      delivery.OnPathChange();
      budget.OnPathChange(now);
      role, addr, events := Server(None), to, Push(events, Migrated(to));
    }

    /** One frame from a packet. Each role refuses the frames meant for the other. */
    method ReadFrame(now: nat, f: Frame) returns (delivered: seq<C.Delivery>, ok: bool)
      requires Valid(now) && Encodable(channels.kinds, f)
      modifies this, delivery, budget, channels, channels.recvArena, channels.recvArena.blocks, channels.recvArena.next
      ensures Valid(now) && channels.Valid()
      ensures Read(View(), delivered, ok) == Connection.ReadFrame(old(View()), now, f)
    {
      hide I.Valid, CO.ChannelState.Valid, CO.ChannelState.View, PO.PacketCrypto.Valid, C.Receive, Push, B.OnPathChange,
           BO.SendBudget.Valid, LO.Delivery.Valid, Transmittable, ControlValid, Shaped;
      Parts(now);
      I.ReadFrameValid(View(), now, f);
      delivered, ok := [], true;
      match f {
        case Ping =>
        case Close(reason) =>
          lifecycle := Closed;
          events := Push(events, ClosedEvent(reason));
        case Message(channel, id, payload) =>
          delivered, ok := ReadMessage(channel, id, payload);
        case PathChallenge(token) =>
          if role.Client? {
            control := control.(response := Some(token));
          } else {
            ok := false;
          }
        case ResumeTicket(blob) =>
          if role.Client? {
            role := Client(Some(blob));
            events := Push(events, ResumeTicketReceived);
          } else {
            ok := false;
          }
        case Accepted =>
          ok := role.Client?;
        case PathResponse(token) =>
          if role.Client? {
            ok := false;
          } else if role.probe.Some? && role.probe.value.token == token {
            Migrate(now, role.probe.value.addr);
          }
      }
    }

    /** One turn of reading: padding, something that cannot be read or accepted, or one more
    frame acted on. */
    method ReadTurn(now: nat, r: BitReader, delivered: seq<C.Delivery>, ghost c: Conn, ghost frames: seq<Frame>)
      returns (turn: Turn, more: seq<C.Delivery>, ghost f: Frame)
      requires Valid(now) && channels.Valid() && r.Valid() && r.BitsRemaining() >= KIND_BITS && Shaped(c)
      requires Progress(c, now, r.Stream(), r.bitsRead, frames, Read(View(), delivered, true))
      modifies r, this, delivery, budget, channels, channels.recvArena, channels.recvArena.blocks,
               channels.recvArena.next
      ensures Valid(now) && channels.Valid()
      ensures turn.Ended? ==> more == [] && Parse(c.channels.kinds, r.Stream(), 0).frames == frames
      ensures !turn.Went? ==> ReadBody(c, now, r.Stream()) == Read(View(), delivered + more, turn.Ended?)
      ensures turn.Went? ==>
                && r.Valid() && old(r.bitsRead) < r.bitsRead <= |r.Stream()|
                && Progress(c, now, r.Stream(), r.bitsRead, frames + [f], Read(View(), delivered + more, true))
    {
      hide I.Valid, BitReader.Valid, BitReader.Stream, CO.ChannelState.Valid, Shaped, Progress, ReadBody,
           ConnectionState.Valid, ConnectionState.View, FrameIO.AfterKind, Parse, Connection.ReadFrame, Encodable;
      ghost var bits, at := r.Stream(), r.bitsRead;
      more, f := [], Ping;
      assert delivered + more == delivered;
      Parts(now);
      ProgressKinds(c, now, bits, at, frames, Read(View(), delivered, true));
      var kind, n := FrameIO.ReadNext(r, channels.kinds);
      Untouched(now);
      if kind == 0 {
        ProgressEnd(c, now, bits, at, frames, Read(View(), delivered, true));
        return Ended, more, f;
      }
      ProgressStep(c, now, bits, at, frames, Read(View(), delivered, true), kind);
      if n.Bad? {
        return Failed, more, f;
      }
      f := n.frame;
      var ok;
      more, ok := ReadFrame(now, n.frame);
      turn := if ok then Went else Failed;
    }

    /** `read_frames`: each frame is acted on as it is met, until padding, the end, or one that
    fails; the state is then the one the parsed body leads to. */
    method ReadFrames(now: nat, body: Bytes) returns (delivered: seq<C.Delivery>, ok: bool, eliciting: bool)
      requires Valid(now)
      modifies this, delivery, budget, channels, channels.recvArena, channels.recvArena.blocks, channels.recvArena.next
      ensures Valid(now) && channels.Valid()
      ensures Read(View(), delivered, ok) == ReadBody(old(View()), now, ByteBits(body))
      ensures ok ==> (eliciting <==> Parse(channels.kinds, ByteBits(body), 0).frames != [])
    {
      hide I.Valid, ByteBits, BitReader.Valid, CO.ChannelState.Valid, Shaped, Progress, ReadBody, ConnectionState.Valid,
           ConnectionState.View, Parse;
      Parts(now);
      ghost var c, bits := View(), ByteBits(body);
      ProgressStart(c, now, bits);
      var r := new BitReader(body);
      Untouched(now);
      delivered, ok, eliciting := [], true, false;
      ghost var frames: seq<Frame> := [];
      while r.BitsRemaining() >= KIND_BITS
        invariant Valid(now) && channels.Valid() && r.Valid() && fresh(r) && r.buffer == body && r.bitsRead <= |bits|
        invariant ok && (eliciting <==> frames != [])
        invariant Progress(c, now, bits, r.bitsRead, frames, Read(View(), delivered, true))
        decreases r.BitsRemaining()
      {
        var turn, more;
        ghost var f;
        turn, more, f := ReadTurn(now, r, delivered, c, frames);
        delivered := delivered + more;
        if !turn.Went? {
          return delivered, turn.Ended?, eliciting;
        }
        frames := frames + [f];
        eliciting := true;
      }
      ProgressEnd(c, now, bits, r.bitsRead, frames, Read(View(), delivered, true));
    }

    /** A packet from a new address is challenged there, once. */
    method AddressChanged(now: nat, from: nat, token: nat)
      requires channels.Valid()
      modifies this`role, this`control
      ensures channels.Valid() && View() == Connection.AddressChanged(old(View()), now, from, token)
    {
      hide CO.ChannelState.SendValid, CO.ChannelState.RecvValid, CO.ChannelState.Queue, CO.ChannelState.Hold;
      if role.Client? || (role.probe.Some? && role.probe.value.addr == from) {
        return;
      }
      role := Server(Some(Probe(from, token, now)));
      control := control.(challenge := Some(token));
    }

    /** What follows once the frames of a packet have all been read. */
    method Acknowledge(now: nat, from: nat, sequence: nat, eliciting: bool, inOrder: bool, token: nat)
      requires channels.Valid() && crypto.Valid() && sequence in crypto.taken && sequence >= 1
      modifies this, crypto, crypto.acked
      ensures channels.Valid() && crypto.Valid()
      ensures var c := old(View());
              var c1 := if !eliciting then c
                        else c.(crypto := RecordEliciting(c.crypto, sequence, now),
                                acks := c.acks.Record(now, inOrder));
              View() == if from != c1.addr then Connection.AddressChanged(c1, now, from, token) else c1
    {
      hide CO.ChannelState.SendValid, CO.ChannelState.RecvValid, CO.ChannelState.Queue, CO.ChannelState.Hold,
           PO.PacketCrypto.Valid, Connection.AddressChanged, RecordEliciting;
      if eliciting {
        crypto.RecordEliciting(sequence, now);
        acks := acks.Record(now, inOrder);
      }
      if from != addr {
        AddressChanged(now, from, token);
      }
    }

    method Heard(now: nat, ghost clock: nat)
      requires Valid(clock)
      modifies this`lastReceived
      ensures Valid(clock) && View() == old(View()).(lastReceived := now)
    {
      hide I.Valid, CO.ChannelState.Valid, CO.ChannelState.View, PO.PacketCrypto.Valid;
      FieldsFree(View(), View().(lastReceived := now), clock);
      lastReceived := now;
    }

    /** The body of a packet that has opened. */
    method HandleBody(now: nat, from: nat, d: Datagram, plain: Bytes, sequence: nat, inOrder: bool, token: nat,
                      ghost clock: nat) returns (delivered: seq<C.Delivery>, outcome: Outcome)
      requires Valid(clock) && now >= clock && HeaderShaped(d.header) && token < U64 && ByteBits(plain) == d.sealed.body
      requires sequence in crypto.taken && sequence >= 1
      modifies this, crypto, crypto.replay, crypto.acked, delivery, delivery.sent, budget, channels.Footprint()
      ensures Valid(now)
      ensures Handled(View(), delivered, outcome)
              == Connection.HandleBody(old(View()), now, from, d, sequence, inOrder, token)
    {
      hide I.Valid, CO.ChannelState.Valid, PO.PacketCrypto.Valid, Connection.HandleAck, ReadBody, Shaped, HeaderShaped,
           ByteBits, Parse, Connection.AddressChanged, RecordEliciting, ConnectionState.View, Connection.RequestClose;
      I.HandleBodyValid(View(), clock, now, from, d, sequence, inOrder, token);
      Parts(clock);
      Heard(now, clock);
      HandleAck(now, d.header, clock);
      ghost var c1 := View();
      Parts(now);
      var ok, eliciting;
      delivered, ok, eliciting := ReadFrames(now, plain);
      BodyIsRead(old(View()), now, from, d, sequence, inOrder, token);
      if !ok {
        RequestClose(PROTOCOL_VIOLATION, now);
        return delivered, BadPayload;
      }
      Acknowledge(now, from, sequence, eliciting, inOrder, token);
      return delivered, Processed;
    }

    /** One datagram: opened, its acknowledgement applied, its frames acted on. `plain` is what
    opening it yields. */
    method HandleDatagram(now: nat, from: nat, d: Datagram, plain: Bytes, token: nat, ghost clock: nat)
      returns (delivered: seq<C.Delivery>, outcome: Outcome)
      requires Valid(clock) && now >= clock && HeaderShaped(d.header) && token < U64 && ByteBits(plain) == d.sealed.body
      modifies this, crypto, crypto.replay, crypto.acked, delivery, delivery.sent, budget, channels.Footprint()
      ensures Valid(now)
      ensures Handled(View(), delivered, outcome) == Connection.HandleDatagram(old(View()), now, from, d, token)
    {
      hide I.Valid, CO.ChannelState.Valid, PO.PacketCrypto.Valid, Connection.HandleBody, Shaped, HeaderShaped,
           ByteBits, SequenceOf, Opens, Window.Check, Window.Inserted;
      I.HandleDatagramValid(View(), clock, now, from, d, token);
      Parts(clock);
      if lifecycle.Closed? {
        return [], AlreadyClosed;
      }
      var opening := crypto.Decrypt(d);
      if opening.outcome != Processed {
        return [], opening.outcome;
      }
      FieldsFree(old(View()), View(), clock);
      delivered, outcome := HandleBody(now, from, d, plain, opening.sequence, opening.inOrder, token, clock);
    }

    // ----- Timers -----

    /** Packets overdue are let go, and a probe is asked for if its time has come. */
    method DetectLosses(now: nat, ghost clock: nat) returns (probes: nat)
      requires channels.Valid() && budget.Valid() && delivery.Valid(clock) && now >= clock && Apart()
      requires |View().delivery.ring| > 0
      modifies channels`pending, channels.sendArena, channels.sendArena.next, budget, delivery, delivery.sent
      ensures channels.Valid()
      ensures var t := L.OnTimeout(old(View()).delivery, now);
              probes == t.probes && View() == Resolved(old(View()), t.ledger, t.notes)
    {
      hide L.Valid, CO.ChannelState.SendValid, CO.ChannelState.RecvValid, CO.ChannelState.Queue,
           CO.ChannelState.Hold, ApplyNotes, L.OnTimeout, BO.SendBudget.Valid;
      var notes;
      notes, probes := delivery.OnTimeout(now, clock);
      ApplyResolutions(channels, budget, notes);
      channels.OnlyQueueChanged();
    }

    method HandleTimeout(now: nat, ghost clock: nat)
      requires Valid(clock) && now >= clock
      modifies this, channels`pending, channels.sendArena, channels.sendArena.next, budget, delivery, delivery.sent
      ensures Valid(now)
      ensures channels.Valid() && Shaped(old(View())) && View() == Connection.HandleTimeout(old(View()), now)
    {
      hide I.Valid, CO.ChannelState.Valid, CO.ChannelState.View, PO.PacketCrypto.Valid, L.OnTimeout,
           BO.SendBudget.Valid, LO.Delivery.Valid, Push, Resolved, Shaped, Transmittable, ControlValid;
      Parts(clock);
      SameShape(View());
      I.TimeoutValid(View(), clock, now);
      I.ResolvedKeeps(View(), L.OnTimeout(View().delivery, now).ledger, L.OnTimeout(View().delivery, now).notes);
      if lifecycle.Closed? {
        return;
      }
      if Since(now, lastReceived) >= idleTimeout {
        lifecycle := Closed;
        events := Push(events, ClosedEvent(TIMED_OUT));
        return;
      }
      var probes := DetectLosses(now, clock);
      pendingProbes := Max(pendingProbes, probes);
      if Since(now, delivery.lastEliciting) >= keepalive {
        pendingProbes := Max(pendingProbes, 1);
      }
      if role.Server? && role.probe.Some? && Since(now, role.probe.value.started) >= PATH_TIMEOUT {
        role := Server(None);
      }
    }

    /** The time from which polling has something to send. */
    method TransmitAt() returns (at: Option<nat>)
      requires channels.Valid() && budget.refill > 0
      ensures at == Connection.TransmitAt(View())
    {
      hide CO.ChannelState.SendValid, CO.ChannelState.RecvValid, CO.ChannelState.Queue, CO.ChannelState.Hold,
           C.NextUnsentLen, B.ReadyFor;
      if lifecycle.Closed? {
        return None;
      }
      if pendingProbes > 0 || lifecycle.Closing? || control != NO_CONTROL {
        return Some(0);
      }
      var len := channels.NextUnsentLen();
      var data := None;
      if len.Some? {
        var ready := budget.ReadyFor(len.value);
        data := Some(ready);
      }
      return Earlier(acks.Deadline(), data);
    }

    method NextTimeout() returns (at: Option<nat>)
      requires channels.Valid() && budget.refill > 0 && Shaped(View())
      ensures at == Connection.NextTimeout(View())
    {
      hide CO.ChannelState.SendValid, CO.ChannelState.RecvValid, CO.ChannelState.Queue, CO.ChannelState.Hold,
           Connection.TransmitAt, L.NextTimeout;
      if lifecycle.Closed? {
        return None;
      }
      var transmit := TransmitAt();
      var probe := if role.Server? && role.probe.Some?
                   then Some(SatAdd(role.probe.value.started, PATH_TIMEOUT))
                   else None;
      return Earlier(Some(SatAdd(lastReceived, idleTimeout)),
                     Earlier(transmit,
                             Earlier(L.NextTimeout(delivery.View()),
                                     Earlier(probe, Some(SatAdd(delivery.lastEliciting, keepalive))))));
    }

    // ----- Sending -----

    method BuildHeader(now: nat) returns (h: Header)
      requires channels.Valid() && crypto.Valid()
      ensures h == Connection.BuildHeader(View(), now)
    {
      hide CO.ChannelState.SendValid, CO.ChannelState.RecvValid, CO.ChannelState.Queue, CO.ChannelState.Hold,
           PO.PacketCrypto.Valid, EncodeAckDelay;
      var newest, bits := crypto.AckState();
      if newest == 0 {
        return Header(crypto.nextSequence % WIRE, None, 0, seq(ACK_BITS, _ => false));
      }
      return Header(crypto.nextSequence % WIRE, Some(newest % WIRE), EncodeAckDelay(Since(now, crypto.newestAckedAt)),
                    bits);
    }

    /** The allowance as it stands, and the messages a probe is to carry again. */
    method Prepare(now: nat) returns (allowance: nat)
      requires channels.Valid() && budget.Valid()
      modifies budget, channels`pending
      ensures channels.Valid() && budget.Valid()
      ensures allowance == B.Available(B.Advance(old(View()).budget, now))
      ensures View() == old(View()).(budget := B.Advance(old(View()).budget, now),
                                     channels := old(View()).channels.(pending := QueueFor(old(View()))))
    {
      hide CO.ChannelState.SendValid, CO.ChannelState.RecvValid, CO.ChannelState.Queue, CO.ChannelState.Hold,
           BO.SendBudget.Valid, C.Requeued, B.Advance, B.Available;
      allowance := budget.Available(now);
      if pendingProbes > 0 {
        var requeued := channels.RequeueOldest(PROBE_MESSAGES);
      }
      channels.OnlyQueueChanged();
    }

    /** Objects made since leave the connection as it was. */
    twostate lemma Same()
      requires unchanged(this, crypto, crypto.replay, crypto.acked, delivery, delivery.sent, budget,
                         channels.Footprint())
      requires channels.Valid()
      ensures old(channels.Valid()) && View() == old(View())
    {
      hide CO.ChannelState.SendValid, CO.ChannelState.RecvValid;
    }

    /** The first half of a packet: its header, and the control frames that fit. */
    method StartPacket(now: nat) returns (header: Header, w: BitWriter, wrote: bool)
      requires channels.Valid() && budget.Valid() && crypto.Valid() && ControlValid(View())
      modifies this`control, this`pendingProbes
      ensures channels.Valid() && budget.Valid() && crypto.Valid()
      ensures fresh(w) && fresh(w.buf) && w.Valid() && 8 * w.buf.Length == Room(header)
      ensures header == Connection.BuildHeader(old(View()), now)
      ensures var frames := WriteControl(old(View()), Room(header), 6);
              && (wrote <==> frames != []) && w.Stream() == Body(channels.kinds, frames)
              && View() == ControlLeft(old(View()), frames)
    {
      hide CO.ChannelState.Valid, PO.PacketCrypto.Valid, BO.SendBudget.Valid, ControlValid, WriteControl,
           ControlLeft, Body, BitWriter.Stream, BitWriter.Valid, HeaderLen, Connection.BuildHeader,
           ConnectionState.View;
      ghost var c := View();
      FieldsOf();
      header := BuildHeader(now);
      var buf := new byte[B.MAX_DATAGRAM - B.TAG_LEN - HeaderLen(header)];
      w := new BitWriter(buf);
      var left, probes;
      wrote, left, probes := WriteOwed(w, lifecycle, control, pendingProbes, c);
      Same();
      SetOwed(left, probes);
    }

    method SetOwed(left: Control, probes: nat)
      requires channels.Valid()
      modifies this`control, this`pendingProbes
      ensures channels.Valid() && View() == old(View()).(control := left, pendingProbes := probes)
    {
      hide CO.ChannelState.SendValid, CO.ChannelState.RecvValid, CO.ChannelState.Queue, CO.ChannelState.Hold;
      control, pendingProbes := left, probes;
    }

    lemma FieldsOf()
      requires channels.Valid()
      ensures View().lifecycle == lifecycle && View().control == control && View().pendingProbes == pendingProbes
      ensures View().channels.kinds == channels.kinds && View().acks == acks
      ensures View().crypto.nextSequence == crypto.nextSequence
    {
    }

    /** The second half: channel frames, while the connection is open and the limit allows. */
    method FillPacket(w: BitWriter, limit: nat) returns (staged: seq<CO.Staged>, ghost messages: seq<C.Pending>)
      requires channels.Valid() && w.Valid() && {w, w.buf} !! Footprint()
      requires C.AllSendable(channels.kinds, View().channels.pending)
      modifies channels`pending, w, w.buf
      ensures channels.Valid() && w.Valid()
      ensures C.AllSendable(channels.kinds, messages) && CO.Stages(channels.kinds, staged, messages)
      ensures var c := old(View());
              var s := C.Staging(c.channels.pending, old(w.Stream()), []);
              && C.Staging(View().channels.pending, w.Stream(), messages) ==
                 (if lifecycle.Open? && limit > 0
                  then C.Fill(channels.kinds, s, old(w.bitsWritten), 8 * w.buf.Length, limit, 0) else s)
              && View() == c.(channels := c.channels.(pending := View().channels.pending))
    {
      hide CO.ChannelState.SendValid, CO.ChannelState.RecvValid, CO.ChannelState.Queue, CO.ChannelState.Hold,
           BitWriter.Stream, BitWriter.Valid, C.Fill, C.Sendable;
      staged, messages := [], [];
      if lifecycle.Open? && limit > 0 {
        staged, messages := channels.WriteFrames(w, limit);
      }
      channels.OnlyQueueChanged();
    }

    /** The first half of a packet and what is left of the allowance for the second. */
    method Begin(now: nat) returns (limit: nat, header: Header, w: BitWriter, wrote: bool)
      requires channels.Valid() && budget.Valid() && crypto.Valid() && ControlValid(View())
      modifies this`control, this`pendingProbes, budget, channels`pending
      ensures channels.Valid() && budget.Valid() && crypto.Valid()
      ensures fresh(w) && fresh(w.buf) && w.Valid() && 8 * w.buf.Length == Room(header)
      ensures Begun(old(View()), now, header, wrote, limit, w.Stream(), View())
    {
      hide CO.ChannelState.Valid, PO.PacketCrypto.Valid, BO.SendBudget.Valid, ControlValid, WriteControl,
           ControlLeft, Body, BitWriter.Stream, BitWriter.Valid, HeaderLen, Connection.BuildHeader,
           ConnectionState.View, QueueFor, B.Advance, B.Available, CeilBytes;
      ghost var c := View();
      var allowance := Prepare(now);
      ghost var c1 := View();
      HeaderSame(c, c1, now);
      FieldsOf();
      PreparedWrites(c, c1, 0, 0);
      header, w, wrote := StartPacket(now);
      PreparedWrites(c, c1, Room(header), 6);
      limit := SatSub(allowance, HeaderLen(header) + B.TAG_LEN + CeilBytes(w.bitsWritten));
    }

    /** The whole packet before it is sealed: exactly the draft the step gives. */
    method BuildPacket(now: nat)
      returns (header: Header, w: BitWriter, wrote: bool, staged: seq<CO.Staged>, ghost messages: seq<C.Pending>)
      requires channels.Valid() && budget.Valid() && crypto.Valid() && Transmittable(View())
      modifies this`control, this`pendingProbes, budget, channels`pending
      ensures channels.Valid() && budget.Valid() && crypto.Valid()
      ensures fresh(w) && fresh(w.buf) && w.Valid() && 8 * w.buf.Length == Room(header)
      ensures C.AllSendable(channels.kinds, messages) && CO.Stages(channels.kinds, staged, messages)
      ensures Built(old(View()), now, header, wrote, C.Staging(View().channels.pending, w.Stream(), messages), View())
    {
      hide CO.ChannelState.Valid, PO.PacketCrypto.Valid, BO.SendBudget.Valid, ControlValid, BitWriter.Stream,
           BitWriter.Valid, HeaderLen, ConnectionState.View, Built, Begun, C.Fill, C.Sendable, QueueFor;
      ghost var c := View();
      FieldsOf();
      QueueSendable(c);
      var limit;
      limit, header, w, wrote := Begin(now);
      ghost var c2, body := View(), w.Stream();
      BegunKeeps(c, now, header, wrote, limit, body, c2);
      FieldsOf();
      staged, messages := FillPacket(w, limit);
      BuiltFrom(c, now, header, wrote, limit, body, c2, C.Staging(View().channels.pending, w.Stream(), messages),
                View());
    }

    /** The queue and the ledger learn of a packet sent; what the ledger lets go is applied. */
    method Track(now: nat, sequence: nat, eliciting: bool, staged: seq<CO.Staged>, ghost messages: seq<C.Pending>)
      requires channels.Valid() && budget.Valid() && delivery.Valid(now) && sequence > delivery.largestSent && Apart()
      requires C.AllSendable(channels.kinds, messages) && CO.Stages(channels.kinds, staged, messages)
      modifies channels`pending, channels.sendArena, channels.sendArena.next, budget, delivery, delivery.sent
      ensures channels.Valid() && budget.Valid()
      ensures View() == Tracked(old(View()), now, sequence, eliciting, messages)
    {
      hide L.Valid, B.Consistent, CO.ChannelState.SendValid, CO.ChannelState.RecvValid,
           CO.ChannelState.Queue, CO.ChannelState.Hold, ApplyNotes, L.OnSent, BO.SendBudget.Valid,
           C.Committed, C.RecordOf, CO.Stages, C.Sendable;
      var record := channels.OnPacketSent(staged, messages);
      var notes := delivery.OnSent(now, sequence, if eliciting then L.Eliciting(record) else L.AckOnly, now);
      ApplyResolutions(channels, budget, notes);
      channels.OnlyQueueChanged();
    }

    /** What is spent and no longer owed, and the close notice counted. */
    method Settle(now: nat, len: nat, eliciting: bool)
      requires channels.Valid() && budget.Valid()
      modifies this`acks, this`lifecycle, this`events, budget
      ensures channels.Valid() && budget.Valid()
      ensures var c := old(View());
              View() == AfterClose(c.(budget := B.OnSent(c.budget, len, eliciting),
                                      acks := c.acks.Sent(now, eliciting)))
    {
      hide CO.ChannelState.SendValid, CO.ChannelState.RecvValid, CO.ChannelState.Queue, CO.ChannelState.Hold,
           BO.SendBudget.Valid, B.OnSent, Push;
      budget.OnSent(len, eliciting);
      acks := acks.Sent(now, eliciting);
      if lifecycle.Closing? {
        if lifecycle.remaining <= 1 {
          events := Push(events, ClosedEvent(lifecycle.reason));
          lifecycle := Closed;
        } else {
          lifecycle := Closing(lifecycle.reason, lifecycle.remaining - 1);
        }
      }
    }

    /** Sealing a packet takes the next sequence. */
    method TakeSequence(ghost clock: nat) returns (sequence: nat)
      requires channels.Valid() && budget.Valid() && crypto.Valid() && delivery.Valid(clock)
      modifies crypto`nextSequence
      ensures channels.Valid() && budget.Valid() && crypto.Valid() && delivery.Valid(clock)
      ensures sequence == old(crypto.nextSequence)
      ensures View() == old(View()).(crypto := old(View()).crypto.(nextSequence := sequence + 1))
    {
      hide CO.ChannelState.SendValid, CO.ChannelState.RecvValid, CO.ChannelState.Queue, CO.ChannelState.Hold,
           PO.PacketCrypto.Valid, BO.SendBudget.Valid, LO.Delivery.Valid;
      sequence := crypto.Encrypt();
    }

    /** Everything a sealed packet settles. */
    method Commit(now: nat, header: Header, body: Bytes, wrote: bool, staged: seq<CO.Staged>,
                  ghost messages: seq<C.Pending>, ghost c: Conn, ghost stream: seq<bool>) returns (packet: SealedPacket)
      requires channels.Valid() && budget.Valid() && crypto.Valid() && delivery.Valid(now) && Apart()
      requires C.AllSendable(channels.kinds, messages) && CO.Stages(channels.kinds, staged, messages)
      requires Transmittable(c) && crypto.nextSequence == delivery.largestSent + 1 && c.channels.kinds == channels.kinds
      requires Built(c, now, header, wrote, C.Staging(View().channels.pending, stream, messages), View())
      requires ByteBits(body) == Connection.Sealed(stream, Room(header))
      modifies this, crypto, crypto.replay, crypto.acked, delivery, delivery.sent, budget, channels.Footprint()
      ensures channels.Valid() && budget.Valid() && crypto.Valid()
      ensures C.AllSendable(c.channels.kinds, Drafted(c, now).staging.staged)
      ensures Polled(View(), Some(packet.Value())) == Committed(c, now, Drafted(c, now))
    {
      hide CO.ChannelState.Valid, PO.PacketCrypto.Valid, BO.SendBudget.Valid, L.Valid, Tracked,
           Connection.Sealed, HeaderLen, ByteBits, Drafted, ControlLeft, B.OnSent, B.Advance, C.Sendable,
           CO.Stages, Transmittable, AfterClose, Built, ConnectionState.View, LO.Delivery.Valid;
      ghost var before := View();
      FieldsOf();
      CommittedParts(c, now, header, wrote, C.Staging(before.channels.pending, stream, messages), before, body);
      CO.SameLength(channels.kinds, staged, messages);
      var eliciting := wrote || staged != [];
      var sequence := TakeSequence(now);
      Track(now, sequence, eliciting, staged, messages);
      Settle(now, HeaderLen(header) + |body| + B.TAG_LEN, eliciting);
      packet := SealedPacket(sequence, header, body);
    }

    /** A packet that is due: built and committed, or given up if it would say nothing. */
    method Produce(now: nat) returns (packet: Option<SealedPacket>)
      requires Valid(now)
      modifies this, crypto, crypto.replay, crypto.acked, delivery, delivery.sent, budget, channels.Footprint()
      ensures channels.Valid() && crypto.Valid()
      ensures Transmittable(old(View()))
      ensures var p := Produced(old(View()), now);
              View() == p.conn && p.packet == if packet.Some? then Some(packet.value.Value()) else None
    {
      hide I.Valid, CO.ChannelState.Valid, PO.PacketCrypto.Valid, BO.SendBudget.Valid, LO.Delivery.Valid,
           Drafted, Committed, Aborted, BitWriter.Stream, BitWriter.Valid, C.Sendable, Transmittable,
           CO.Stages, Built, ByteBits, Connection.Sealed, HeaderLen, SealedPacket.Value,
           ConnectionState.View;
      Parts(now);
      ghost var c := View();
      FieldsOf();
      var header, w, wrote, staged;
      ghost var messages;
      header, w, wrote, staged, messages := BuildPacket(now);
      label built:
      ghost var after, stream := View(), w.Stream();
      CO.SameLength(channels.kinds, staged, messages);
      BuiltSays(c, now, header, wrote, C.Staging(after.channels.pending, stream, messages), after);
      FieldsOf();
      if !wrote && staged == [] && !Due(acks.Deadline(), now) {
        AbortedParts(c, now, header, wrote, C.Staging(after.channels.pending, stream, messages), after);
        Abandon(staged);
        return None;
      }
      var body := SealBody(w);
      Same@built();
      var sealed := Commit(now, header, body, wrote, staged, messages, c, stream);
      return Some(sealed);
    }

    method Abandon(staged: seq<CO.Staged>)
      requires channels.Valid()
      modifies channels`pending
      ensures channels.Valid()
      ensures var c := old(View());
              var left := C.MarkedLostAll(c.channels.pending, CO.StagedKeys(staged));
              View() == c.(channels := c.channels.(pending := left))
    {
      hide CO.ChannelState.SendValid, CO.ChannelState.RecvValid, CO.ChannelState.Queue, CO.ChannelState.Hold,
           C.MarkedLostAll;
      channels.OnPacketAborted(staged);
      channels.OnlyQueueChanged();
    }

    /** Polling: the step's packet, its body in bytes. */
    method PollTransmit(now: nat, ghost clock: nat) returns (packet: Option<SealedPacket>)
      requires Valid(clock) && clock <= now < U64_MAX
      modifies this, crypto, crypto.replay, crypto.acked, delivery, delivery.sent, budget, channels.Footprint()
      ensures Valid(now)
      ensures var p := Poll(old(View()), clock, now);
              && View() == p.conn
              && p.packet == if packet.Some? then Some(packet.value.Value()) else None
    {
      hide I.Valid, CO.ChannelState.Valid, PO.PacketCrypto.Valid, BO.SendBudget.Valid, LO.Delivery.Valid, B.Consistent,
           Connection.TransmitAt, B.Assess, Transmittable, SealedPacket.Value, Produced;
      T.PollValid(View(), clock, now);
      T.AssessedValid(View(), clock, now);
      Parts(clock);
      ghost var c := View();
      I.ValidShaped(Assessed(c, now), now);
      PollParts(c, now);
      budget.Assess(now, delivery.rtt);
      Parts(now);
      var at := TransmitAt();
      if !Due(at, now) {
        return None;
      }
      packet := Produce(now);
    }

    lemma HeaderAck(h: Header)
      requires HeaderShaped(h)
      ensures h.ack.Some? ==> h.ack.value < WIRE
    {
    }
  }

  /** What reading a whole body leads to, and whether all of it could be read. */
  function ReadBody(c: Conn, now: nat, bits: seq<bool>): Read
    requires Shaped(c)
  {
    var parsed := Parse(c.channels.kinds, bits, 0);
    ParseEncodable(c.channels.kinds, bits, 0);
    var r := Connection.ReadFrames(c, now, parsed.frames);
    Read(r.conn, r.delivered, r.ok && parsed.ok)
  }

  /** Reading has met `frames` before bit `at` and come to `r`. */
  ghost predicate Progress(c: Conn, now: nat, bits: seq<bool>, at: nat, frames: seq<Frame>, r: Read) {
    && Shaped(c) && AllEncodable(c.channels.kinds, frames) && r.conn.channels.kinds == c.channels.kinds
    && Shaped(r.conn)
    && r.ok && r == Connection.ReadFrames(c, now, frames)
    && var rest := Parse(c.channels.kinds, bits, at);
       Parse(c.channels.kinds, bits, 0) == Parsed(frames + rest.frames, rest.ok)
  }

  lemma ProgressStart(c: Conn, now: nat, bits: seq<bool>)
    requires Shaped(c)
    ensures Progress(c, now, bits, 0, [], Read(c, [], true))
  {
    hide Parse;
    var p := Parse(c.channels.kinds, bits, 0);
    assert [] + p.frames == p.frames;
  }

  lemma ProgressEnd(c: Conn, now: nat, bits: seq<bool>, at: nat, frames: seq<Frame>, r: Read)
    requires Progress(c, now, bits, at, frames, r) && Shaped(c)
    requires Field(bits, at, KIND_BITS) in {None, Some(0)}
    ensures ReadBody(c, now, bits) == r && Parse(c.channels.kinds, bits, 0).frames == frames
  {
    hide Connection.ReadFrames, Encodable, Parse;
    FrameIO.ParseTurn(c.channels.kinds, bits, at);
    FrameIO.NoFrames(frames);
  }

  /** One turn: a body that cannot be parsed further, a frame that fails, or one more frame. */
  lemma ProgressStep(c: Conn, now: nat, bits: seq<bool>, at: nat, frames: seq<Frame>, r: Read, kind: nat)
    requires Progress(c, now, bits, at, frames, r) && Shaped(c) && Shaped(r.conn)
    requires Field(bits, at, KIND_BITS) == Some(kind) && kind != 0
    ensures var n := FrameIO.AfterKind(c.channels.kinds, bits, at, kind);
            if n.Bad? then ReadBody(c, now, bits) == Read(r.conn, r.delivered, false)
            else
              && Encodable(r.conn.channels.kinds, n.frame)
              && var last := Connection.ReadFrame(r.conn, now, n.frame);
                 var all := Read(last.conn, r.delivered + last.delivered, last.ok);
                 if last.ok then Progress(c, now, bits, n.at, frames + [n.frame], all)
                 else ReadBody(c, now, bits) == all
  {
    hide Connection.ReadFrames, Connection.ReadFrame, Encodable, Parse, FrameIO.AfterKind;
    var kinds := c.channels.kinds;
    var n := FrameIO.AfterKind(kinds, bits, at, kind);
    ParseEncodable(kinds, bits, 0);
    FrameIO.ParseTurn(kinds, bits, at);
    FrameIO.NoFrames(frames);
    if n.Next? {
      var rest := Parse(kinds, bits, n.at);
      FrameIO.FramesMore(frames, n.frame, rest.frames);
      NextEncodable(kinds, frames, n.frame, rest.frames);
      ReadOneMore(c, now, frames, n.frame);
      ReadKeeps(r.conn, now, n.frame);
      if !Connection.ReadFrame(r.conn, now, n.frame).ok {
        ReadStops(c, now, frames + [n.frame], rest.frames);
      }
    }
  }

  /** The body's step, through `ReadBody`. */
  lemma BodyIsRead(c: Conn, now: nat, from: nat, d: Datagram, sequence: nat, inOrder: bool, token: nat)
    requires Shaped(c) && HeaderShaped(d.header)
    ensures var c1 := Connection.HandleAck(c.(lastReceived := now), now, d.header);
            && Shaped(c1) && c1.channels.kinds == c.channels.kinds
            && var r := ReadBody(c1, now, d.sealed.body);
               var c2 := if Parse(c.channels.kinds, d.sealed.body, 0).frames == [] then r.conn
                         else r.conn.(crypto := RecordEliciting(r.conn.crypto, sequence, now),
                                      acks := r.conn.acks.Record(now, inOrder));
               Connection.HandleBody(c, now, from, d, sequence, inOrder, token) ==
               if !r.ok then Handled(RequestClose(r.conn, PROTOCOL_VIOLATION), r.delivered, BadPayload)
               else Handled(if from != c2.addr then AddressChanged(c2, now, from, token) else c2, r.delivered,
                            Processed)
  {
    hide Connection.HandleAck, Parse, Connection.ReadFrames, RequestClose, AddressChanged, RecordEliciting,
         HeaderShaped;
    HandleAckKeeps(c.(lastReceived := now), now, d.header);
  }

  /** The invariant does not speak of these. */
  lemma FieldsFree(c: Conn, d: Conn, clock: nat)
    requires I.Valid(c, clock)
    requires d == c.(lastReceived := d.lastReceived, crypto := c.crypto.(replay := d.crypto.replay))
    ensures I.Valid(d, clock)
  {
    hide L.Valid, B.Consistent, I.NoneStranded, I.QueueValid;
  }

  lemma NextEncodable(kinds: Kinds, a: seq<Frame>, f: Frame, b: seq<Frame>)
    requires AllEncodable(kinds, a + [f] + b)
    ensures AllEncodable(kinds, a + [f]) && Encodable(kinds, f)
  {
    hide Encodable;
    assert (a + [f] + b)[|a|] == f;
    forall i | 0 <= i < |a + [f]| ensures Encodable(kinds, (a + [f])[i]) {
      assert (a + [f] + b)[i] == (a + [f])[i];
    }
  }

  /** Reading one frame more. */
  lemma ReadOneMore(c: Conn, now: nat, frames: seq<Frame>, f: Frame)
    requires Shaped(c) && AllEncodable(c.channels.kinds, frames + [f]) && AllEncodable(c.channels.kinds, frames)
    requires Encodable(c.channels.kinds, f) && Connection.ReadFrames(c, now, frames).ok
    ensures var init := Connection.ReadFrames(c, now, frames);
            var last := Connection.ReadFrame(init.conn, now, f);
            Connection.ReadFrames(c, now, frames + [f]) == Read(last.conn, init.delivered + last.delivered, last.ok)
  {
    hide Encodable, Connection.ReadFrame;
    assert (frames + [f])[..|frames|] == frames;
  }

  /** What follows a frame that fails is never read. */
  lemma {:induction false} ReadStops(c: Conn, now: nat, frames: seq<Frame>, rest: seq<Frame>)
    requires Shaped(c) && AllEncodable(c.channels.kinds, frames + rest) && AllEncodable(c.channels.kinds, frames)
    requires !Connection.ReadFrames(c, now, frames).ok
    ensures Connection.ReadFrames(c, now, frames + rest) == Connection.ReadFrames(c, now, frames)
    decreases |rest|
  {
    hide Encodable, Connection.ReadFrame;
    if rest == [] {
      assert frames + rest == frames;
    } else {
      var init := rest[..|rest| - 1];
      assert (frames + rest)[..|frames + rest| - 1] == frames + init;
      ReadStops(c, now, frames, init);
    }
  }
}
