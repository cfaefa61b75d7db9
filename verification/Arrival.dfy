/** What a packet's arrival does to the receiver: the frames printed into it are the frames
read back out, and reading them is reading its messages one by one. */
module Arrival {
  import opened Machine
  import opened Sequences
  import opened Frames
  import opened BitStream
  import opened Connection
  import opened PacketReading
  import opened OrderedDelivery
  import C = Channels
  import A = Arena
  import Q = SendQueue
  import F = QueueFlow
  import opened TwoParty

  // ----- The receive side does not look at the send queue -----

  function WithPending(r: C.Received, pending: seq<C.Pending>): C.Received {
    r.(channels := r.channels.(pending := pending))
  }

  lemma {:induction false} FlushedPending(c: C.Channels, channel: nat, pending: seq<C.Pending>)
    requires C.Sized(c) && channel < MAX_CHANNELS
    ensures C.Flushed(c.(pending := pending), channel) == WithPending(C.Flushed(c, channel), pending)
    decreases |c.held|
  {
    hide C.NextId;
    var at := C.HeldAt(c.held, channel, c.receivers[channel].expected, 0);
    if at.Some? {
      FlushedPending(Taken(c, channel, at.value), channel, pending);
      assert Taken(c, channel, at.value).(pending := pending) == Taken(c.(pending := pending), channel, at.value);
    }
  }

  lemma ReceivePending(c: C.Channels, channel: nat, wire: nat, payload: Bytes, pending: seq<C.Pending>)
    requires C.Sized(c) && channel < |c.kinds| && wire < WIRE
    ensures C.Receive(c.(pending := pending), channel, wire, payload)
            == WithPending(C.Receive(c, channel, wire, payload), pending)
  {
    hide C.FromWire, C.Distance, C.HeldAt, C.Flushed, C.AcceptUnordered, C.NextId, A.BlocksFor, C.HeldBlocks;
    var expected := C.NextId(c.receivers[channel].expected);
    FlushedPending(c.(receivers := c.receivers[channel := c.receivers[channel].(expected := expected)]), channel,
                   pending);
  }

  lemma {:induction false} ReadMessagesPending(c: C.Channels, staged: seq<C.Pending>, pending: seq<C.Pending>)
    requires C.Sized(c) && C.AllSendable(c.kinds, staged)
    ensures ReadMessages(c.(pending := pending), staged) == WithPending(ReadMessages(c, staged), pending)
    ensures ReadsExactly(c, staged) ==> ReadsExactly(c.(pending := pending), staged)
  {
    hide C.Receive, C.FrameOf, C.FromWire;
    if staged != [] {
      var n := |staged| - 1;
      ReadMessagesPending(c, staged[..n], pending);
      var init := ReadMessages(c, staged[..n]);
      assert ReadMessages(c.(pending := pending), staged[..n]) == WithPending(init, pending);
      if init.ok {
        var f := C.FrameOf(c.kinds, staged[n]);
        ReceivePending(init.channels, f.channel, f.id, f.payload, pending);
      }
    }
  }

  // ----- Frames and messages -----

  lemma {:induction false} ReadControl(c: Conn, now: nat, control: seq<Frame>)
    requires Shaped(c) && AllEncodable(c.channels.kinds, control) && NoMessages(control)
    ensures var r := ReadFrames(c, now, control);
            r.conn.channels == c.channels && r.delivered == []
  {
    hide Encodable;
    if control != [] {
      ReadControl(c, now, control[..|control| - 1]);
    }
  }

  /** Reading control frames and then messages: the messages meet the channels as they were. */
  lemma {:induction false} ReadSplit(c: Conn, now: nat, control: seq<Frame>, staged: seq<C.Pending>)
    requires Shaped(c) && AllEncodable(c.channels.kinds, control) && NoMessages(control)
    requires C.AllSendable(c.channels.kinds, staged)
    requires AllEncodable(c.channels.kinds, control + Q.FramesOf(c.channels.kinds, staged))
    ensures var r := ReadFrames(c, now, control + Q.FramesOf(c.channels.kinds, staged));
            var r0, m := ReadFrames(c, now, control), ReadMessages(c.channels, staged);
            if r0.ok then r == Read(r0.conn.(channels := m.channels), m.delivered, m.ok) else r == r0
  {
    hide Encodable, C.Receive, C.FrameOf, NoMessages;
    var kinds := c.channels.kinds;
    ReadControl(c, now, control);
    if staged == [] {
      assert control + Q.FramesOf(kinds, staged) == control;
    } else {
      var n := |staged| - 1;
      FramesSplit(kinds, control, staged);
      var all, init := control + Q.FramesOf(kinds, staged), control + Q.FramesOf(kinds, staged[..n]);
      assert all[..|all| - 1] == init;
      ReadSplit(c, now, control, staged[..n]);
    }
  }

  lemma FramesSplit(kinds: Kinds, control: seq<Frame>, staged: seq<C.Pending>)
    requires C.AllSendable(kinds, staged) && staged != []
    ensures var n := |staged| - 1;
            control + Q.FramesOf(kinds, staged)
            == control + Q.FramesOf(kinds, staged[..n]) + [C.FrameOf(kinds, staged[n])]
  {
    hide C.FrameOf;
  }

  // ----- One datagram -----

  /** The parts of a handled body the peer cares about. */
  lemma BodyParts(c: Conn, now: nat, from: nat, d: Datagram, sequence: nat, inOrder: bool, token: nat)
    requires Shaped(c) && HeaderShaped(d.header)
    ensures var parsed := Parse(c.channels.kinds, d.sealed.body, 0);
            var c1 := HandleAck(c.(lastReceived := now), now, d.header);
            && AllEncodable(c.channels.kinds, parsed.frames)
            && Shaped(c1) && c1.channels == c.channels.(pending := c1.channels.pending)
            && var r := ReadFrames(c1, now, parsed.frames);
               var h := HandleBody(c, now, from, d, sequence, inOrder, token);
               && h.conn.channels == r.conn.channels && h.delivered == r.delivered
               && (h.outcome.Processed? <==> r.ok && parsed.ok)
               && h.conn.crypto.replay == c.crypto.replay
               && h.conn.crypto.acked == if h.outcome.Processed? && parsed.frames != []
                                         then c.crypto.acked.Inserted(sequence) else c.crypto.acked
  {
    hide HandleAck, Parse, ReadFrames, Window.Inserted, Encodable;
    HandleAckKeeps(c.(lastReceived := now), now, d.header);
    ParseEncodable(c.channels.kinds, d.sealed.body, 0);
    var c1 := HandleAck(c.(lastReceived := now), now, d.header);
    F.ReadFramesKeep(c1, now, Parse(c.channels.kinds, d.sealed.body, 0).frames);
  }

  lemma ParseSealed(kinds: Kinds, frames: seq<Frame>, room: nat)
    requires AllEncodable(kinds, frames)
    ensures Parse(kinds, Sealed(Body(kinds, frames), room), 0) == Parsed(frames, true)
  {
    hide Encodable, Body, Parse, Zeros, Pad;
    var body := Body(kinds, frames);
    var extra := if |body| + KIND_BITS <= room then KIND_BITS else 0;
    var padded := if |body| + KIND_BITS <= room then body + Zeros(KIND_BITS) else body;
    ZerosJoin(body, extra, Pad(|padded|));
    RoundTrip(kinds, frames, extra + Pad(|padded|));
  }

  lemma ZerosJoin(body: seq<bool>, a: nat, b: nat)
    ensures body + Zeros(a + b) == body + Zeros(a) + Zeros(b)
    ensures a == 0 ==> body + Zeros(a) == body
  {
  }

  /** An opened packet of `a`, as `b` reads it. */
  lemma BodyReads(c: Conn, now: nat, from: nat, d: Datagram, sequence: nat, inOrder: bool, token: nat,
                  e: Sent, accepted: PerChannel, delivered: PerChannel)
    requires Shaped(c) && HeaderShaped(d.header) && d.sealed == e.packet
    requires EntryOk(c.channels.kinds, e, sequence, accepted)
    requires AllInOrder(c.channels, accepted, delivered) && ReadsExactly(c.channels, e.staged)
    ensures var h := HandleBody(c, now, from, d, sequence, inOrder, token);
            var all := h.outcome.Processed? && (e.control != [] || e.staged != []);
            && C.Sized(h.conn.channels) && h.conn.channels.kinds == c.channels.kinds
            && AllInOrder(h.conn.channels, accepted, Extended(delivered, h.delivered))
            && AllKept(c.channels, h.conn.channels) && c.channels.dropped <= h.conn.channels.dropped
            && (h.outcome.Processed? && h.conn.channels.dropped == c.channels.dropped
                ==> HasAll(h.conn.channels, e.staged))
            && h.conn.crypto.replay == c.crypto.replay
            && h.conn.crypto.acked == if all then c.crypto.acked.Inserted(sequence) else c.crypto.acked
  {
    hide HandleAck, Parse, Body, Sealed, ReadFrames, HandleBody, Encodable, ReadsExactly, AllInOrder, AllKept, HasAll,
         Extended, C.AllSendable, Window.Inserted, ReadMessages, Room;
    var kinds := c.channels.kinds;
    BodyParts(c, now, from, d, sequence, inOrder, token);
    var frames := e.control + Q.FramesOf(kinds, e.staged);
    ParseSealed(kinds, frames, Room(e.packet.header));
    var c1 := HandleAck(c.(lastReceived := now), now, d.header);
    ReadControl(c1, now, e.control);
    ReadSplit(c1, now, e.control, e.staged);
    SameReceiver(c.channels, c1.channels, accepted, delivered);
    ReadMessagesPending(c.channels, e.staged, c1.channels.pending);
    ReadMessagesOk(c1.channels, accepted, delivered, e.staged);
    ExtendedNothing(delivered);
    KeptSelf(c1.channels);
    SameKept(c.channels, c1.channels, HandleBody(c, now, from, d, sequence, inOrder, token).conn.channels);
  }

  lemma SameReceiver(c: C.Channels, d: C.Channels, accepted: PerChannel, delivered: PerChannel)
    requires C.Sized(c) && AllInOrder(c, accepted, delivered) && d == c.(pending := d.pending)
    ensures AllInOrder(d, accepted, delivered)
  {
    hide InOrder;
    forall ch | 0 <= ch < |c.kinds| && c.kinds[ch].ReliableOrdered?
      ensures InOrder(d, ch, accepted[ch], delivered[ch])
    {
      InOrderSame(c, d, ch, accepted[ch], delivered[ch]);
    }
  }

  lemma SameKept(c: C.Channels, d: C.Channels, r: C.Channels)
    requires C.Sized(c) && C.Sized(r) && d == c.(pending := d.pending) && AllKept(d, r)
    ensures AllKept(c, r)
  {
    hide Has;
    forall ch | 0 <= ch < |c.kinds| && c.kinds[ch].ReliableOrdered?
      ensures KeepsAll(c, r, ch)
    {
      assert KeepsAll(d, r, ch);
      forall id: nat | Has(c, ch, id)
        ensures Has(r, ch, id)
      {
        HasSame(c, d, ch, id);
      }
    }
  }

  lemma HasSame(c: C.Channels, d: C.Channels, ch: nat, id: nat)
    requires C.Sized(c) && d == c.(pending := d.pending, nextIds := d.nextIds) && C.Sized(d) && ch < MAX_CHANNELS
    ensures Has(c, ch, id) <==> Has(d, ch, id)
  {
  }

  /** An opened packet gives `b` the messages in it and no others. */
  lemma BodyGains(c: Conn, now: nat, from: nat, d: Datagram, sequence: nat, inOrder: bool, token: nat,
                  e: Sent, accepted: PerChannel, delivered: PerChannel)
    requires Shaped(c) && HeaderShaped(d.header) && d.sealed == e.packet && |c.channels.held| <= C.MAX_HELD
    requires EntryOk(c.channels.kinds, e, sequence, accepted)
    requires AllInOrder(c.channels, accepted, delivered) && ReadsExactly(c.channels, e.staged)
    ensures var h := HandleBody(c, now, from, d, sequence, inOrder, token);
            && C.Sized(h.conn.channels) && |h.conn.channels.held| <= C.MAX_HELD
            && Gained(c.channels, h.conn.channels, e.staged)
  {
    hide HandleAck, Parse, Body, Sealed, ReadFrames, HandleBody, Encodable, ReadsExactly, AllInOrder, Gained,
         C.AllSendable, Window.Inserted, ReadMessages, Room;
    var kinds := c.channels.kinds;
    BodyParts(c, now, from, d, sequence, inOrder, token);
    var frames := e.control + Q.FramesOf(kinds, e.staged);
    ParseSealed(kinds, frames, Room(e.packet.header));
    var c1 := HandleAck(c.(lastReceived := now), now, d.header);
    ReadControl(c1, now, e.control);
    ReadSplit(c1, now, e.control, e.staged);
    SameReceiver(c.channels, c1.channels, accepted, delivered);
    ReadMessagesPending(c.channels, e.staged, c1.channels.pending);
    ReadMessagesGains(c1.channels, accepted, delivered, e.staged);
    GainedNothing(c1.channels);
    GainedMore(c1.channels, c1.channels, [], e.staged);
    SameGained(c.channels, c1.channels, HandleBody(c, now, from, d, sequence, inOrder, token).conn.channels, e.staged);
  }

  lemma SameGained(c: C.Channels, d: C.Channels, r: C.Channels, staged: seq<C.Pending>)
    requires C.Sized(c) && C.Sized(r) && d == c.(pending := d.pending) && Gained(d, r, staged)
    ensures Gained(c, r, staged)
  {
    hide Has;
    forall ch: nat, id: nat | ch < |c.kinds| && c.kinds[ch].ReliableOrdered? && Has(r, ch, id)
      ensures Has(c, ch, id) || Among(staged, ch, id)
    {
      HasSame(c, d, ch, id);
    }
  }
}
