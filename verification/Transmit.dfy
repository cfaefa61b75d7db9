/** When a packet is owed, one goes out: `TransmitAt` is the only judgement, and polling acts
on it exactly. And what a packet costs against the send allowance. */
module Transmit {
  import opened Machine
  import opened BitStream
  import opened Bits
  import opened Frames
  import opened Connection
  import I = ConnectionInvariant
  import L = Ledger
  import B = Budget
  import C = Channels
  import Q = SendQueue
  import Rtt

  // ----- Sizes -----

  lemma FrameSize(kinds: Kinds, f: Frame, at: nat)
    requires Encodable(kinds, f)
    ensures f.Ping? || f.Accepted? ==> |Encoded(kinds, f, at)| == 6
    ensures f.Close? ==> |Encoded(kinds, f, at)| == 9
    ensures f.PathChallenge? || f.PathResponse? ==> |Encoded(kinds, f, at)| == 70
    ensures f.ResumeTicket? ==> |Encoded(kinds, f, at)| <= 23 + 8 * MAX_BLOB
    ensures f.Message? ==> |Encoded(kinds, f, at)| <= 40 + 8 * |f.payload|
  {
    hide BitsOf, ByteBits, Zeros, AlignUp;
  }

  lemma {:induction false} CeilBytesLess(a: nat, b: nat)
    requires a <= 8 * b
    ensures CeilBytes(a) <= b
  {
  }

  lemma CeilBytesSum(a: nat, b: nat)
    ensures CeilBytes(a + b) <= CeilBytes(a) + CeilBytes(b)
  {
    CeilBytesLess(a + b, CeilBytes(a) + CeilBytes(b));
  }

  // ----- Every control frame owed is written -----

  /** An upper bound on the bits of the first `k` control frames. */
  function ControlBits(k: nat): nat { [0, 9, 15, 85, 155, 155 + 23 + 8 * MAX_BLOB, 161 + 23 + 8 * MAX_BLOB][Min(k, 6)] }

  function OwedFrames(c: Conn, k: nat): seq<Frame>
    requires k <= 6
  {
    if k == 0 then [] else OwedFrames(c, k - 1) + if Owed(c)[k - 1].Some? then [Owed(c)[k - 1].value] else []
  }

  lemma OwedSize(c: Conn, k: nat, at: nat)
    requires ControlValid(c) && k < 6
    ensures Owed(c)[k].Some? ==>
              && Encodable(c.channels.kinds, Owed(c)[k].value)
              && |Encoded(c.channels.kinds, Owed(c)[k].value, at)| <= ControlBits(k + 1) - ControlBits(k)
  {
    hide Encoded;
    OwedEncodable(c, k);
    if Owed(c)[k].Some? {
      FrameSize(c.channels.kinds, Owed(c)[k].value, at);
    }
  }

  lemma ControlBitsGrow(k: nat)
    ensures k < 6 ==> ControlBits(k) <= ControlBits(k + 1) <= ControlBits(6)
    ensures ControlBits(0) == 0
  {
  }

  lemma {:induction false} AllControlWritten(c: Conn, room: nat, k: nat)
    requires ControlValid(c) && k <= 6 && room >= ControlBits(6)
    ensures WriteControl(c, room, k) == OwedFrames(c, k)
    ensures |Body(c.channels.kinds, WriteControl(c, room, k))| <= ControlBits(k)
  {
    hide Encodable, Encoded, Body, ControlValid, ControlBits, Owed;
    EmptyBody(c.channels.kinds);
    ControlBitsGrow(0);
    if k > 0 {
      AllControlWritten(c, room, k - 1);
      ControlBitsGrow(k - 1);
      var kinds, frames, f := c.channels.kinds, WriteControl(c, room, k - 1), Owed(c)[k - 1];
      OwedSize(c, k - 1, |Body(kinds, frames)|);
      if f.Some? {
        BodyAppend(kinds, frames, f.value);
      }
    }
  }

  lemma RoomEnough(h: Header)
    ensures Room(h) >= 9360 && Room(h) >= ControlBits(6)
  {
  }

  // ----- The first message waiting always goes -----

  lemma MessageFits(kinds: Kinds, p: C.Pending, limit: nat, room: nat)
    requires C.Sendable(kinds, p) && limit >= MESSAGE_FRAME_OVERHEAD + |p.payload| && room >= 9360
    ensures |Encoded(kinds, C.FrameOf(kinds, p), 0)| <= room
    ensures CeilBytes(|Encoded(kinds, C.FrameOf(kinds, p), 0)|) <= limit
  {
    hide Encoded, CeilBytes;
    var f := C.FrameOf(kinds, p);
    FrameSize(kinds, f, 0);
    CeilBytesLess(|Encoded(kinds, f, 0)|, limit);
  }

  lemma {:induction false} FillSendsFirst(kinds: Kinds, pending: seq<C.Pending>, room: nat, limit: nat, ch: nat)
    requires C.AllSendable(kinds, pending) && room >= 9360
    requires var len := C.NextUnsentLen(kinds, pending, ch);
             len.Some? && limit >= MESSAGE_FRAME_OVERHEAD + len.value
    ensures C.Fill(kinds, C.Staging(pending, [], []), 0, room, limit, ch).staged != []
    decreases |kinds| - ch
  {
    hide Encoded, Encodable, C.FrameOf, CeilBytes, C.FirstUnsent;
    assert CeilBytes(0) <= 0 by { CeilBytesLess(0, 0); }
    var at := C.FirstUnsent(pending, ch, 0);
    if at.None? {
      FillSendsFirst(kinds, pending, room, limit, ch + 1);
    } else {
      var p := pending[at.value];
      Q.AllSendableAt(kinds, pending, at.value);
      MessageFits(kinds, p, limit, room);
      var body := [] + Encoded(kinds, C.FrameOf(kinds, p), 0);
      assert body == Encoded(kinds, C.FrameOf(kinds, p), 0);
      C.UnsentMarked(pending, at.value);
      var next := C.Staging(pending[at.value := p.(inFlight := true)], body, [] + [p]);
      Q.FillKeepsStaged(kinds, next, 0, room, limit, ch);
    }
  }

  /** Data that is due is staged: the allowance covers the first message waiting. */
  lemma DueDataStaged(c: Conn, clock: nat, now: nat, len: nat)
    requires I.Valid(c, clock) && clock <= now < U64_MAX && c.lifecycle.Open?
    requires Owed(c) == seq(6, _ => None) && c.pendingProbes == 0
    requires C.NextUnsentLen(c.channels.kinds, c.channels.pending, 0) == Some(len) && len <= MAX_MESSAGE
    requires c.budget.refill > 0 && B.ReadyFor(c.budget, len) <= now
    ensures Transmittable(c) && Drafted(c, now).staging.staged != []
  {
    hide I.NoneStranded, L.Valid, B.Consistent, B.ReadyFor, B.Advance, B.Available, Encodable, WriteControl, Body,
         C.Fill, BuildHeader, HeaderLen, C.NextUnsentLen, CeilBytes, C.Sendable, B.Needed;
    I.ValidShaped(c, clock);
    B.ReadyForExact(c.budget, len, now);
    NeededEnough(c.budget, len);
    var kinds, header := c.channels.kinds, BuildHeader(c, now);
    RoomEnough(header);
    AllControlWritten(c, Room(header), 6);
    NoneOwed(c, 6);
    EmptyBody(kinds);
    var limit := SatSub(B.Available(B.Advance(c.budget, now)), HeaderLen(header) + B.TAG_LEN + 0);
    FillSendsFirst(kinds, c.channels.pending, Room(header), limit, 0);
  }

  lemma EmptyBody(kinds: Kinds)
    ensures Body(kinds, []) == [] && CeilBytes(0) == 0
  {
  }

  lemma NeededEnough(b: B.Budget, len: nat)
    requires B.Consistent(b) && len <= MAX_MESSAGE
    ensures B.Needed(b, len) == B.HEADER_MAX + B.TAG_LEN + MESSAGE_FRAME_OVERHEAD + len
  {
    hide B.Refill, B.CapacityFor;
  }

  lemma {:induction false} NoneOwed(c: Conn, k: nat)
    requires k <= 6 && forall i | 0 <= i < k :: Owed(c)[i].None?
    ensures OwedFrames(c, k) == []
  {
    if k > 0 {
      NoneOwed(c, k - 1);
    }
  }

  lemma {:induction false} SomeOwed(c: Conn, i: nat, k: nat)
    requires i < k <= 6 && Owed(c)[i].Some?
    ensures OwedFrames(c, k) != []
    decreases k
  {
    if i < k - 1 {
      SomeOwed(c, i, k - 1);
    }
  }

  lemma {:induction false} NextUnsentSendable(kinds: Kinds, pending: seq<C.Pending>, ch: nat)
    requires C.AllSendable(kinds, pending)
    ensures var len := C.NextUnsentLen(kinds, pending, ch); len.Some? ==> len.value <= MAX_MESSAGE
    decreases |kinds| - ch
  {
    if ch < |kinds| && C.FirstUnsent(pending, ch, 0).None? {
      NextUnsentSendable(kinds, pending, ch + 1);
    } else if ch < |kinds| {
      Q.AllSendableAt(kinds, pending, C.FirstUnsent(pending, ch, 0).value);
    }
  }

  // ----- The rule -----

  /** A due connection drafts a packet worth sending. */
  lemma DueDraft(c: Conn, clock: nat, now: nat)
    requires I.Valid(c, clock) && clock <= now < U64_MAX && Transmittable(c) && Due(TransmitAt(c), now)
    ensures var d := Drafted(c, now);
            d.control != [] || d.staging.staged != [] || Due(c.acks.Deadline(), now)
  {
    hide I.NoneStranded, L.Valid, B.Consistent, B.ReadyFor, B.Advance, B.Available, WriteControl, Body,
         C.Fill, BuildHeader, HeaderLen, C.NextUnsentLen, CeilBytes, C.Sendable, OwedFrames;
    var header := BuildHeader(c, now);
    RoomEnough(header);
    AllControlWritten(c, Room(header), 6);
    if i :| 0 <= i < 6 && Owed(c)[i].Some? {
      SomeOwed(c, i, 6);
    } else {
      NotOwed(c);
      var len := C.NextUnsentLen(c.channels.kinds, c.channels.pending, 0);
      NextUnsentSendable(c.channels.kinds, c.channels.pending, 0);
      if len.Some? && B.ReadyFor(c.budget, len.value) <= now {
        DueDataStaged(c, clock, now, len.value);
      }
    }
  }

  lemma NotOwed(c: Conn)
    requires forall i | 0 <= i < 6 :: Owed(c)[i].None?
    ensures c.pendingProbes == 0 && !c.lifecycle.Closing? && c.control == NO_CONTROL
    ensures Owed(c) == seq(6, _ => None)
  {
    assert Owed(c)[0].None? && Owed(c)[1].None? && Owed(c)[2].None?;
    assert Owed(c)[3].None? && Owed(c)[4].None? && Owed(c)[5].None?;
  }

  lemma AssessedValid(c: Conn, clock: nat, now: nat)
    requires I.Valid(c, clock) && now >= clock
    ensures I.Valid(Assessed(c, now), now)
  {
    hide I.NoneStranded, B.Consistent, L.Valid, I.QueueValid, B.Assess;
    I.ValidLater(c, clock, now);
    B.OperationsConsistent(c.budget, now, 0, false, c.delivery.rtt);
    AssessKeepsRefill(c.budget, now, c.delivery.rtt);
  }

  lemma AssessKeepsRefill(b: B.Budget, now: nat, rtt: Rtt.Rtt)
    ensures B.Assess(b, now, rtt).lastRefill == b.lastRefill
  {
  }

  /** Polling produces a packet exactly when one is due at the assessed rate; when it does not,
  nothing is due, so a driver woken by the deadline cannot spin. */
  lemma PollExact(c: Conn, clock: nat, now: nat)
    requires I.Valid(c, clock) && clock <= now < U64_MAX
    ensures Transmittable(c) && B.Consistent(c.budget) && Assessed(c, now).budget.refill > 0
    ensures PollTransmit(c, now).packet.Some? <==> Due(TransmitAt(Assessed(c, now)), now)
    ensures var r := PollTransmit(c, now);
            r.packet.None? ==> r.conn == Assessed(c, now) && !Due(TransmitAt(r.conn), now)
  {
    hide I.NoneStranded, L.Valid, TransmitAt, Drafted, Committed, Aborted;
    var c1 := Assessed(c, now);
    AssessedValid(c, clock, now);
    I.ValidShaped(c, clock);
    I.ValidShaped(c1, now);
    if Due(TransmitAt(c1), now) {
      DueDraft(c1, now, now);
      DraftStaged(c1, now);
      CommittedSends(c1, now, Drafted(c1, now));
    }
  }

  lemma CommittedSends(c: Conn, now: nat, d: Draft)
    requires Shaped(c) && C.AllSendable(c.channels.kinds, d.staging.staged)
    ensures Committed(c, now, d).packet
            == Some(Packet(c.crypto.nextSequence, d.header, Sealed(d.staging.body, Room(d.header))))
  {
    hide L.OnSent, ApplyNotes, Sealed;
  }

  /** Polling keeps the connection's invariant. */
  lemma PollValid(c: Conn, clock: nat, now: nat)
    requires I.Valid(c, clock) && clock <= now < U64_MAX
    ensures Transmittable(c) && B.Consistent(c.budget)
    ensures I.Valid(PollTransmit(c, now).conn, now)
  {
    hide I.Valid, TransmitAt, Drafted, Committed, Aborted;
    AssessedValid(c, clock, now);
    PollExact(c, clock, now);
    var c1 := Assessed(c, now);
    if Due(TransmitAt(c1), now) {
      I.ValidShaped(c1, now);
      DraftStaged(c1, now);
      I.CommittedValid(c1, now, now, Drafted(c1, now));
      DueDraft(c1, now, now);
    }
  }

  // ----- What a packet costs -----

  lemma SealedLength(body: seq<bool>, room: nat)
    requires |body| <= room
    ensures CeilBytes(|Sealed(body, room)|)
            == CeilBytes(|body|) + if |body| + KIND_BITS <= room && Pad(|body|) < KIND_BITS then 1 else 0
  {
    var n := |body|;
    var padded := if n + KIND_BITS <= room then n + KIND_BITS else n;
    assert |Sealed(body, room)| == 8 * CeilBytes(padded);
    CeilBytesLess(8 * CeilBytes(padded), CeilBytes(padded));
  }

  lemma {:induction false} MessageBodyAligned(kinds: Kinds, frames: seq<Frame>)
    requires AllEncodable(kinds, frames) && frames != [] && Run(frames[|frames| - 1]).Some?
    ensures Pad(|Body(kinds, frames)|) == 0
  {
    hide Encodable, Encoded, Fields, AlignUp;
    var n := |frames| - 1;
    var at, f := |Body(kinds, frames[..n])|, frames[n];
    var fields := at + |Fields(kinds, f)|;
    RunEnds(kinds, f, at, fields);
    assert |Body(kinds, frames)| == AlignUp(fields) + 8 * |Run(f).value|;
    WholeBytesAligned(fields, |Run(f).value|, |Body(kinds, frames)|);
  }

  lemma WholeBytesAligned(fields: nat, bytes: nat, len: nat)
    requires len == AlignUp(fields) + 8 * bytes
    ensures Pad(len) == 0
  {
    CeilBytesLess(len, CeilBytes(fields) + bytes);
  }

  /** A datagram with messages never exceeds the allowance by more than one byte: the padding
  kind always opens a byte of its own behind a message and is not counted. It exceeds the
  allowance exactly when the frames use all of it and the padding kind still has room. */
  lemma AllowanceExact(c: Conn, now: nat)
    requires Transmittable(c) && C.AllSendable(c.channels.kinds, Drafted(c, now).staging.staged)
    requires Drafted(c, now).staging.staged != []
    ensures var d := Drafted(c, now);
            var len := DatagramLen(Committed(c, now, d).packet.value);
            var counted := HeaderLen(d.header) + B.TAG_LEN + CeilBytes(|d.staging.body|);
            && counted <= d.allowance
            && len == counted + (if |d.staging.body| + KIND_BITS <= Room(d.header) then 1 else 0)
            && len <= d.allowance + 1
            && (len > d.allowance <==> counted == d.allowance && |d.staging.body| + KIND_BITS <= Room(d.header))
  {
    hide B.Advance, B.Available, WriteControl, Body, C.Fill, BuildHeader, HeaderLen, CeilBytes, Q.Filled, QueueFor,
         Encodable, L.OnSent, ApplyNotes, C.Committed, C.RecordOf, B.OnSent, ControlLeft, Sealed;
    var kinds, d := c.channels.kinds, Drafted(c, now);
    var start := |Body(kinds, d.control)|;
    DraftStaged(c, now);
    QueueSendable(c);
    StartFilled(kinds, d.control, QueueFor(c));
    ControlFits(c, Room(d.header), 6);
    var s := C.Staging(QueueFor(c), Body(kinds, d.control), []);
    var limit := SatSub(d.allowance, HeaderLen(d.header) + B.TAG_LEN + CeilBytes(start));
    assert CeilBytes(start - start) <= limit by { CeilBytesLess(0, 0); }
    Q.FillFilled(kinds, d.control, QueueFor(c), s, start, Room(d.header), limit, 0);
    CeilBytesSum(start, |d.staging.body| - start);
    StagedBodyAligned(kinds, d.control, QueueFor(c), d.staging);
    SealedLength(d.staging.body, Room(d.header));
  }

  lemma StagedBodyAligned(kinds: Kinds, before: seq<Frame>, pending: seq<C.Pending>, s: C.Staging)
    requires Q.Filled(kinds, before, pending, s) && s.staged != []
    ensures Pad(|s.body|) == 0
  {
    hide Body, Encodable;
    var frames := before + Q.FramesOf(kinds, s.staged);
    assert frames[|frames| - 1] == C.FrameOf(kinds, s.staged[|s.staged| - 1]);
    MessageBodyAligned(kinds, frames);
  }
}
