/** Two states a fresh connection reaches that show what polling does not promise: in one its
datagram costs a byte more than its allowance, and in the other a message is due and yet put off. */
module Overruns {
  import opened Machine
  import opened Sequences
  import opened BitStream
  import opened Bits
  import opened Frames
  import opened Connection
  import opened ConnectionRuns
  import opened LoneSends
  import A = Arena
  import B = Budget
  import C = Channels
  import CO = ChannelsObject
  import FrameIO
  import I = ConnectionInvariant
  import L = Ledger
  import T = Transmit

  /** Eight kilobytes a second, in datagrams of at most `maxPacket`. */
  function At8000(maxPacket: nat): Config {
    Config(B.Config(8000, maxPacket), MAX_ACK_DELAY, 10_000_000_000, 1_000_000_000)
  }

  function Fresh(kinds: Kinds, maxPacket: nat): Conn { New(0, Client(None), 0, kinds, At8000(maxPacket)) }

  function Blank(n: nat): (b: Bytes)
    ensures |b| == n
  {
    seq(n, _ => 0)
  }

  lemma FrameBytes(kinds: Kinds, p: C.Pending, at: nat)
    requires C.Sendable(kinds, p) && at % 8 == 0
    ensures |Encoded(kinds, C.FrameOf(kinds, p), at)|
            == (if kinds[p.channel].NeedsId() then 40 else 24) + 8 * |p.payload|
  {
    hide BitsOf, ByteBits;
    var f := C.FrameOf(kinds, p);
    FrameIO.MessageLength(kinds, f, at);
    assert |Fields(kinds, f)| == if kinds[p.channel].NeedsId() then 33 else 17;
    PadOf(at, |Fields(kinds, f)|);
  }

  lemma PadOf(at: nat, n: nat)
    requires at % 8 == 0
    ensures n == 33 ==> Pad(at + n) == 7
    ensures n == 17 ==> Pad(at + n) == 7
  {
  }

  lemma WholeBytes(n: nat)
    ensures CeilBytes(8 * n) == n && Pad(8 * n) == 0
  {
    CeilBytesIsDivCeil(8 * n);
  }

  /** A header with nothing to acknowledge is seven bytes. */
  lemma PlainHeader(c: Conn, now: nat)
    requires c.crypto.acked.newest == 0
    ensures HeaderLen(BuildHeader(c, now)) == 7
  {
  }

  // ----- One byte over -----

  const ORDERED: Kinds := [ReliableOrdered]

  const FIRST: C.Pending := C.Pending(0, 0, Blank(1024), false)
  const SECOND: C.Pending := C.Pending(0, 1, Blank(43), false)

  /** Two messages queued, which with a plain header and the tag cost exactly 1100 bytes. */
  function Pressed(): Conn {
    var c := Fresh(ORDERED, 1100);
    c.(channels := c.channels.(pending := [FIRST, SECOND], nextIds := c.channels.nextIds[0 := 2]))
  }

  lemma Presses()
    ensures Reaches(Fresh(ORDERED, 1100), 0, Timed(Pressed(), 0)) && I.Valid(Pressed(), 0)
  {
    hide I.Valid, Reaches;
    var c := Fresh(ORDERED, 1100);
    I.NewValid(0, Client(None), 0, ORDERED, At8000(1100));
    ReachesStart(c, 0);
    assert A.BlocksFor(1024) == 16 && A.BlocksFor(43) == 1;
    var one := c.(channels := c.channels.(pending := [FIRST], nextIds := c.channels.nextIds[0 := 1]));
    assert C.Send(c.channels, 0, Blank(1024)).channels == one.channels by {
      assert c.channels.pending + [FIRST] == [FIRST];
    }
    Goes(c, 0, Timed(c, 0), Submit(0, Blank(1024)));
    assert C.PendingBlocks([FIRST]) == 16 by { assert [FIRST][1..] == []; }
    assert C.Send(one.channels, 0, Blank(43)).channels == Pressed().channels by {
      assert [FIRST] + [SECOND] == [FIRST, SECOND];
      assert c.channels.nextIds[0 := 1][0 := 2] == c.channels.nextIds[0 := 2];
    }
    Goes(c, 0, Timed(one, 0), Submit(0, Blank(43)));
    ReachesValid(c, 0, Timed(Pressed(), 0));
  }

  /** Two messages on the ordered channel, of these lengths. */
  predicate Two(p: C.Pending, q: C.Pending) {
    && p.channel == 0 && !p.inFlight && |p.payload| == 1024
    && q.channel == 0 && !q.inFlight && |q.payload| == 43
  }

  lemma FillsFirst(p: C.Pending, q: C.Pending, room: nat)
    requires Two(p, q) && room >= 9360
    ensures C.Sendable(ORDERED, p) && C.AllSendable(ORDERED, [p, q]) && C.AllSendable(ORDERED, Marked([p, q], 0))
    ensures var body := Encoded(ORDERED, C.FrameOf(ORDERED, p), 0);
            && |body| == 8 * 1029
            && C.Fill(ORDERED, C.Staging([p, q], [], []), 0, room, 1077, 0)
               == C.Fill(ORDERED, C.Staging(Marked([p, q], 0), body, [p]), 0, room, 1077, 0)
  {
    hide Encoded, CeilBytes, C.FrameOf, C.Fill;
    var s, body := C.Staging([p, q], [], []), Encoded(ORDERED, C.FrameOf(ORDERED, p), 0);
    FrameBytes(ORDERED, p, 0);
    WholeBytes(0);
    WholeBytes(1029);
    CO.FillStep(ORDERED, s, 0, room, 1077, 0);
    assert [] + body == body && [] + [p] == [p];
  }

  lemma FillsSecond(p: C.Pending, q: C.Pending, body: seq<bool>, room: nat)
    requires Two(p, q) && room >= 9360 && |body| == 8 * 1029 && C.AllSendable(ORDERED, Marked([p, q], 0))
    ensures var s := C.Fill(ORDERED, C.Staging(Marked([p, q], 0), body, [p]), 0, room, 1077, 0);
            s.staged == [p, q] && |s.body| == 8 * 1077
  {
    hide Encoded, CeilBytes, C.FrameOf, C.Fill;
    var marked := Marked([p, q], 0);
    assert marked[1] == q && Lone(marked, 1);
    FirstIsLone(marked, 1, 0);
    FrameBytes(ORDERED, q, |body|);
    WholeBytes(1029);
    WholeBytes(1077);
    CO.FillStep(ORDERED, C.Staging(marked, body, [p]), 0, room, 1077, 0);
    assert [p] + [q] == [p, q];
    var both := C.Staging(Marked(marked, 1), body + Encoded(ORDERED, C.FrameOf(ORDERED, q), |body|), [p, q]);
    FillNone(ORDERED, both, 0, room, 1077, 0);
  }

  lemma PressedAllowance()
    ensures Assessed(Pressed(), 0) == Pressed() && B.Advance(Pressed().budget, 0) == Pressed().budget
    ensures B.Available(Pressed().budget) == 1100 && Pressed().budget.refill > 0 && Due(TransmitAt(Pressed()), 0)
  {
    hide Blank, B.Refill;
    B.RateBounds(8000, B.Config(8000, 1100));
    assert C.FirstUnsent([FIRST, SECOND], 0, 0) == Some(0);
  }

  lemma PressedDraft()
    requires Transmittable(Pressed())
    ensures var d := Drafted(Pressed(), 0);
            && d.header == BuildHeader(Pressed(), 0) && d.allowance == 1100
            && d.staging.staged == [FIRST, SECOND] && |d.staging.body| == 8 * 1077
  {
    hide BuildHeader, HeaderLen, C.Fill, B.Advance, B.Available, Drafted, Blank, Transmittable, Room, Encoded,
         C.FrameOf;
    PressedAllowance();
    IdleDraft(Pressed(), 0);
    PlainHeader(Pressed(), 0);
    T.RoomEnough(BuildHeader(Pressed(), 0));
    var room := Room(BuildHeader(Pressed(), 0));
    FillsFirst(FIRST, SECOND, room);
    FillsSecond(FIRST, SECOND, Encoded(ORDERED, C.FrameOf(ORDERED, FIRST), 0), room);
  }

  /** A fresh connection is given 1024 bytes to send, and 43 bytes. It may send 1100, and the
  datagram is 1101 bytes long. */
  lemma OneByteOver()
    ensures Reaches(Fresh(ORDERED, 1100), 0, Timed(Pressed(), 0))
    ensures Transmittable(Pressed()) && B.Consistent(Pressed().budget)
    ensures B.Available(B.Advance(Assessed(Pressed(), 0).budget, 0)) == 1100
    ensures var r := PollTransmit(Pressed(), 0); r.packet.Some? && DatagramLen(r.packet.value) == 1101
  {
    hide Pressed, Reaches, I.Valid, Drafted, Committed, TransmitAt, HeaderLen, CeilBytes, Aborted, B.Assess, B.Advance,
         B.Available, BuildHeader, Blank;
    Presses();
    PressedAllowance();
    I.ValidShaped(Pressed(), 0);
    T.PollExact(Pressed(), 0, 0);
    PressedDraft();
    PressedHeader();
    WholeBytes(1077);
    DraftStaged(Pressed(), 0);
    T.RoomEnough(BuildHeader(Pressed(), 0));
    T.AllowanceExact(Pressed(), 0);
  }

  lemma PressedHeader()
    ensures HeaderLen(BuildHeader(Pressed(), 0)) == 7
  {
    hide HeaderLen, Blank;
    PlainHeader(Pressed(), 0);
  }

  // ----- Due, and put off -----

  const LOSSY: Kinds := [Unreliable]

  /** What is left after `n` packets of 27 bytes, the ledger having evicted all but 64 of them. */
  function Spent(n: nat): B.Budget
    requires n <= 66
  {
    B.New(0, B.Config(8000, 1200)).(tokens := (2000 - 27 * n) * B.FRACTION,
                                    windowSent := n, windowLost := SatSub(n, 64))
  }

  /** The last 64 of `n` packets are tracked, and nothing waits for any of them. */
  ghost predicate Tracks(ring: L.Ring<Record>, n: nat) {
    && |ring| == TRACKED
    && (forall q | 1 <= q <= n < q + TRACKED :: L.IsInFlight(ring, q) && L.Get(ring, q).value.state.record == [])
    && (forall q | n < q <= TRACKED :: ring[q % TRACKED].None?)
  }

  /** `n` packets sent at time 0. */
  ghost predicate Burst(c: Conn, n: nat)
    requires n <= 66
  {
    && I.Valid(c, 0) && Idle(c)
    && c.channels.kinds == LOSSY && c.channels.pending == [] && c.channels.nextIds[0] == n
    && c.crypto.nextSequence == n + 1 && c.crypto.acked.newest == 0 && c.delivery.rtt.None? && c.acks.owed.Nothing?
    && c.budget == Spent(n) && Tracks(c.delivery.ring, n)
  }

  lemma BurstStart()
    ensures Burst(Fresh(LOSSY, 1200), 0)
  {
    hide I.Valid, B.Refill;
    I.NewValid(0, Client(None), 0, LOSSY, At8000(1200));
  }

  /** The next packet evicts the one 64 before it, which counts as lost. */
  lemma TracksNext(l: L.Ledger<Record>, now: nat, n: nat)
    requires Tracks(l.ring, n)
    ensures var o := L.OnSent(l, now, n + 1, L.Eliciting([]));
            && Tracks(o.ledger.ring, n + 1) && o.ledger.rtt == l.rtt
            && if n < TRACKED then o.notes == [] else |o.notes| == 1 && o.notes[0].what == L.Lost([])
  {
    hide L.FirstInFlight;
    var o := L.OnSent(l, now, n + 1, L.Eliciting([]));
    if n >= TRACKED {
      var q := n + 1 - TRACKED;
      assert L.IsInFlight(l.ring, q) && q % TRACKED == (n + 1) % TRACKED;
    } else {
      assert l.ring[(n + 1) % TRACKED].None?;
    }
    forall q | 1 <= q <= n + 1 < q + TRACKED
      ensures L.IsInFlight(o.ledger.ring, q) && L.Get(o.ledger.ring, q).value.state.record == []
    {
      if q <= n {
        assert L.IsInFlight(l.ring, q);
        Apart(q, n + 1);
      }
    }
    forall q | n + 1 < q <= TRACKED
      ensures o.ledger.ring[q % TRACKED].None?
    {
      Apart(n + 1, q);
    }
  }

  lemma Apart(p: nat, q: nat)
    requires p < q < p + TRACKED
    ensures p % TRACKED != q % TRACKED
  {
  }

  lemma EmptyFrame(header: Header, q: nat)
    requires HeaderLen(header) == 7
    ensures C.Sendable(LOSSY, C.Pending(0, q, [], false))
    ensures var body := Encoded(LOSSY, C.FrameOf(LOSSY, C.Pending(0, q, [], false)), 0);
            forall s :: DatagramLen(Packet(s, header, Sealed(body, Room(header)))) == 27
  {
    hide Encoded, CeilBytes, C.FrameOf, HeaderLen, Sealed;
    var p := C.Pending(0, q, [], false);
    FrameBytes(LOSSY, p, 0);
    WholeBytes(3);
    T.RoomEnough(header);
    T.SealedLength(Encoded(LOSSY, C.FrameOf(LOSSY, p), 0), Room(header));
  }

  function Queueing(c: Conn, p: C.Pending): Conn
    requires C.Sized(c.channels) && p.channel < MAX_CHANNELS
  {
    c.(channels := c.channels.(pending := [p], nextIds := c.channels.nextIds[p.channel := C.NextId(p.id)]))
  }

  /** With an empty queue every message fits. */
  lemma Queues(c: Conn, payload: Bytes)
    requires C.Sized(c.channels) && c.channels.kinds != [] && c.channels.pending == [] && |payload| <= MAX_MESSAGE
    ensures C.Send(c.channels, 0, payload).channels
            == Queueing(c, C.Pending(0, c.channels.nextIds[0], payload, false)).channels
  {
    hide C.NextId;
    assert A.BlocksFor(|payload|) <= 16;
  }

  lemma SpentReady(n: nat)
    requires n < 66
    ensures B.Assess(Spent(n), 0, None) == Spent(n) && Spent(n).refill > 0 && B.Advance(Spent(n), 0) == Spent(n)
    ensures B.ReadyFor(Spent(n), 0) == 0
    ensures B.OnSent(if n < 64 then Spent(n) else B.OnLost(Spent(n)), 27, true) == Spent(n + 1)
  {
    hide B.Refill;
    B.RateBounds(8000, B.Config(8000, 1200));
  }

  lemma AppliesLoss(budget: B.Budget, notes: seq<L.Note<Record>>)
    requires notes == [] || (|notes| == 1 && notes[0].what == L.Lost([]))
    ensures ApplyNotes(Applied([], budget), notes) == Applied([], if notes == [] then budget else B.OnLost(budget))
  {
    if notes != [] {
      assert notes[..0] == [] && ApplyNotes(Applied([], budget), notes[..0]) == Applied([], budget);
    }
  }

  /** A message queued by such a connection goes out at once, in a packet of 27 bytes. */
  lemma BurstPolls(c: Conn, n: nat)
    requires n < 66 && Burst(c, n) && C.Sized(c.channels)
    requires I.Valid(Queueing(c, C.Pending(0, n, [], false)), 0)
    ensures var d := Queueing(c, C.Pending(0, n, [], false));
            Transmittable(d) && B.Consistent(d.budget) && Burst(PollTransmit(d, 0).conn, n + 1)
  {
    hide I.Valid, B.Refill, PollTransmit, Tracks, L.OnSent, BuildHeader, HeaderLen, Spent, Encoded, C.FrameOf, Sealed,
         DatagramLen, ApplyNotes, C.Committed, C.RecordOf, B.Assess, B.ReadyFor, B.Advance, B.OnSent;
    var p := C.Pending(0, n, [], false);
    var d := Queueing(c, p);
    SpentReady(n);
    assert Lone([p], 0);
    LonePoll(d, 0, 0, 0);
    LeavesAtOnce(LOSSY, p);
    TracksNext(c.delivery, 0, n);
    PlainHeader(d, 0);
    EmptyFrame(BuildHeader(d, 0), n);
    AppliesLoss(Spent(n), L.OnSent(c.delivery, 0, n + 1, L.Eliciting([])).notes);
    T.PollValid(d, 0, 0);
    assert Marked([p], 0) == [p.(inFlight := true)];
  }

  lemma {:induction false} Bursts(n: nat) returns (c: Conn)
    requires n <= 66
    ensures Reaches(Fresh(LOSSY, 1200), 0, Timed(c, 0)) && Burst(c, n)
  {
    hide I.Valid, Reaches, Burst, C.Send, PollTransmit;
    var first := Fresh(LOSSY, 1200);
    if n == 0 {
      c := first;
      ReachesStart(first, 0);
      BurstStart();
    } else {
      var b := Bursts(n - 1);
      I.NewValid(0, Client(None), 0, LOSSY, At8000(1200));
      c := BurstSends(first, b, n - 1);
    }
  }

  lemma BurstSends(first: Conn, b: Conn, n: nat) returns (c: Conn)
    requires n < 66 && Burst(b, n) && I.Valid(first, 0) && Reaches(first, 0, Timed(b, 0))
    ensures Reaches(first, 0, Timed(c, 0)) && Burst(c, n + 1)
  {
    hide I.Valid, Reaches, C.Send, PollTransmit, Tracks, Spent;
    I.ValidShaped(b, 0);
    var d := Queueing(b, C.Pending(0, n, [], false));
    Queues(b, []);
    Goes(first, 0, Timed(b, 0), Submit(0, []));
    ReachesValid(first, 0, Timed(d, 0));
    BurstPolls(b, n);
    Goes(first, 0, Timed(d, 0), Poll(0));
    c := PollTransmit(d, 0).conn;
  }

  /** 66 small packets are sent at once, of which the ledger loses track of two. Then a long message
  is queued. It comes due; the poll then lowers the rate for the losses, and it is due no longer. */
  lemma AssessmentCanDefer()
    ensures exists c, now ::
              && Reaches(Fresh(LOSSY, 1200), 0, Timed(c, 0)) && Transmittable(c) && B.Consistent(c.budget)
              && Due(TransmitAt(c), now) && PollTransmit(c, now).packet.None?
  {
    hide I.Valid, Reaches, C.Send, PollTransmit, Tracks, B.Assess, B.ReadyFor, Spent, C.NextUnsentLen, Blank;
    var first, now := Fresh(LOSSY, 1200), 120_000_000;
    var b := Bursts(66);
    I.NewValid(0, Client(None), 0, LOSSY, At8000(1200));
    I.ValidShaped(b, 0);
    Queues(b, Blank(1024));
    Goes(first, 0, Timed(b, 0), Submit(0, Blank(1024)));
    var p := C.Pending(0, 66, Blank(1024), false);
    var c := Queueing(b, p);
    ReachesValid(first, 0, Timed(c, 0));
    LossyBudget();
    assert Lone([p], 0);
    NextLenLone(LOSSY, [p], 0, 0);
    T.PollExact(c, 0, now);
  }

  lemma LossyBudget()
    ensures var b, now := Spent(66), 120_000_000;
            && B.Consistent(b) && b.refill > 0 && B.ReadyFor(b, 1024) <= now
            && B.Assess(b, now, None).refill > 0 && B.ReadyFor(B.Assess(b, now, None), 1024) > now
  {
    assert B.Refill(8000) == 34359 && B.Refill(6000) == 25769;
  }
}
