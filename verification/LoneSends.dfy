/** A connection with nothing to say but one message: what polling it does, field by field. Runs of
any length are made of such steps. */
module LoneSends {
  import opened Machine
  import opened BitStream
  import opened Frames
  import opened Connection
  import B = Budget
  import C = Channels
  import CO = ChannelsObject
  import I = ConnectionInvariant
  import L = Ledger
  import T = Transmit

  /** Open, and owing no control frame and no probe. */
  predicate Idle(c: Conn) { c.lifecycle.Open? && c.control == NO_CONTROL && c.pendingProbes == 0 }

  /** The message at `at` waits, and no other. */
  ghost predicate Lone(pending: seq<C.Pending>, at: nat) {
    at < |pending| && !pending[at].inFlight && forall k | 0 <= k < |pending| && k != at :: pending[k].inFlight
  }

  function Marked(pending: seq<C.Pending>, at: nat): seq<C.Pending>
    requires at < |pending|
  {
    pending[at := pending[at].(inFlight := true)]
  }

  // ----- The draft -----

  lemma {:induction false} FirstIsLone(pending: seq<C.Pending>, at: nat, i: nat)
    requires Lone(pending, at) && i <= at
    ensures C.FirstUnsent(pending, pending[at].channel, i) == Some(at)
    decreases at - i
  {
    if i < at {
      FirstIsLone(pending, at, i + 1);
    }
  }

  lemma {:induction false} NextLenLone(kinds: Kinds, pending: seq<C.Pending>, at: nat, ch: nat)
    requires Lone(pending, at) && ch <= pending[at].channel < |kinds|
    ensures C.NextUnsentLen(kinds, pending, ch) == Some(|pending[at].payload|)
    decreases |kinds| - ch
  {
    hide C.FirstUnsent;
    if ch == pending[at].channel {
      FirstIsLone(pending, at, 0);
    } else {
      NextLenLone(kinds, pending, at, ch + 1);
    }
  }

  lemma {:induction false} FillNone(kinds: Kinds, s: C.Staging, start: nat, room: nat, limit: nat, ch: nat)
    requires C.AllSendable(kinds, s.pending) && start <= |s.body|
    requires forall k | 0 <= k < |s.pending| :: s.pending[k].inFlight
    ensures C.Fill(kinds, s, start, room, limit, ch) == s
    decreases |kinds| - ch
  {
    hide C.FirstUnsent, CeilBytes, Encoded, C.FrameOf, C.Fill;
    if ch < |kinds| {
      CO.FillStep(kinds, s, start, room, limit, ch);
      FillNone(kinds, s, start, room, limit, ch + 1);
    } else {
      CO.FillEnd(kinds, s, start, room, limit, ch);
    }
  }

  /** A packet takes the one message that waits. */
  lemma {:induction false} FillLone(kinds: Kinds, pending: seq<C.Pending>, at: nat, room: nat, limit: nat, ch: nat)
    requires C.AllSendable(kinds, pending) && Lone(pending, at) && ch <= pending[at].channel
    requires room >= 9360 && limit >= MESSAGE_FRAME_OVERHEAD + |pending[at].payload|
    ensures C.Sendable(kinds, pending[at])
    ensures C.Fill(kinds, C.Staging(pending, [], []), 0, room, limit, ch)
            == C.Staging(Marked(pending, at), Encoded(kinds, C.FrameOf(kinds, pending[at]), 0), [pending[at]])
    decreases |kinds| - ch
  {
    hide C.FirstUnsent, Encoded, CeilBytes, C.FrameOf, C.Fill;
    var p, s := pending[at], C.Staging(pending, [], []);
    assert C.Sendable(kinds, p);
    T.CeilBytesLess(0, 0);
    CO.FillStep(kinds, s, 0, room, limit, ch);
    if ch < p.channel {
      FillLone(kinds, pending, at, room, limit, ch + 1);
    } else {
      var body := Encoded(kinds, C.FrameOf(kinds, p), 0);
      FirstIsLone(pending, at, 0);
      T.MessageFits(kinds, p, limit, room);
      assert [] + body == body && [] + [p] == [p];
      FillNone(kinds, C.Staging(Marked(pending, at), body, [p]), 0, room, limit, ch);
    }
  }

  lemma {:induction false} NothingWritten(c: Conn, room: nat, k: nat)
    requires ControlValid(c) && k <= 6 && forall i | 0 <= i < 6 :: Owed(c)[i].None?
    ensures WriteControl(c, room, k) == []
  {
    hide Owed, ControlValid;
    if k > 0 {
      NothingWritten(c, room, k - 1);
    }
  }

  lemma NothingOwed(c: Conn, room: nat)
    requires ControlValid(c) && Idle(c)
    ensures WriteControl(c, room, 6) == [] && Body(c.channels.kinds, []) == []
  {
    NothingWritten(c, room, 6);
  }

  /** With nothing else owed, the draft is the packet filled from the queue. */
  lemma IdleDraft(c: Conn, now: nat)
    requires Transmittable(c) && Idle(c)
    ensures var d, header := Drafted(c, now), BuildHeader(c, now);
            var allowance := B.Available(B.Advance(c.budget, now));
            var limit := SatSub(allowance, HeaderLen(header) + B.TAG_LEN);
            && d.header == header && d.control == [] && d.allowance == allowance
            && (limit > 0 ==> d.staging == C.Fill(c.channels.kinds, C.Staging(c.channels.pending, [], []), 0,
                                                  Room(header), limit, 0))
  {
    hide BuildHeader, HeaderLen, C.Fill, B.Advance, B.Available, WriteControl, Body, CeilBytes;
    NothingOwed(c, Room(BuildHeader(c, now)));
    T.CeilBytesLess(0, 0);
  }

  /** What a due connection with one message waiting drafts: that message, and nothing else. */
  lemma LoneDraft(c: Conn, clock: nat, now: nat, at: nat)
    requires I.Valid(c, clock) && clock <= now < U64_MAX && Transmittable(c) && Idle(c)
    requires Lone(c.channels.pending, at) && B.ReadyFor(c.budget, |c.channels.pending[at].payload|) <= now
    ensures var d, p := Drafted(c, now), c.channels.pending[at];
            && C.Sendable(c.channels.kinds, p)
            && d.header == BuildHeader(c, now) && d.control == []
            && d.staging == C.Staging(Marked(c.channels.pending, at),
                                      Encoded(c.channels.kinds, C.FrameOf(c.channels.kinds, p), 0), [p])
  {
    hide L.Valid, I.NoneStranded, I.QueueValid, B.ReadyFor, B.Advance, B.Available, BuildHeader, HeaderLen, C.Fill,
         CeilBytes, Drafted, Encoded, C.FrameOf;
    var p, header := c.channels.pending[at], BuildHeader(c, now);
    assert C.Sendable(c.channels.kinds, p);
    B.ReadyForExact(c.budget, |p.payload|, now);
    IdleDraft(c, now);
    T.RoomEnough(header);
    assert B.Needed(c.budget, |p.payload|) == B.HEADER_MAX + B.TAG_LEN + MESSAGE_FRAME_OVERHEAD + |p.payload|;
    FillLone(c.channels.kinds, c.channels.pending, at, Room(header),
             SatSub(B.Available(B.Advance(c.budget, now)), HeaderLen(header) + B.TAG_LEN), 0);
  }

  // ----- The packet -----

  /** Everything the packet changes. */
  ghost predicate SentAlone(c: Conn, now: nat, at: nat, r: Polled)
    requires Shaped(c) && at < |c.channels.pending| && C.Sendable(c.channels.kinds, c.channels.pending[at])
  {
    var kinds, p := c.channels.kinds, c.channels.pending[at];
    var pending := C.Committed(kinds, Marked(c.channels.pending, at), [p]);
    var o := L.OnSent(c.delivery, now, c.crypto.nextSequence, L.Eliciting(C.RecordOf(kinds, [p])));
    var body := Encoded(kinds, C.FrameOf(kinds, p), 0);
    var header := BuildHeader(c, now);
    var packet := Packet(c.crypto.nextSequence, header, Sealed(body, Room(header)));
    var a := ApplyNotes(Applied(pending, B.Advance(c.budget, now)), o.notes);
    && r.packet == Some(packet)
    && r.conn == c.(channels := c.channels.(pending := a.pending), delivery := o.ledger,
                    budget := B.OnSent(a.budget, DatagramLen(packet), true),
                    acks := c.acks.Sent(now, true),
                    crypto := c.crypto.(nextSequence := c.crypto.nextSequence + 1))
  }

  lemma CommitLone(c: Conn, now: nat, at: nat, d: Draft)
    requires Shaped(c) && Idle(c) && at < |c.channels.pending| && C.Sendable(c.channels.kinds, c.channels.pending[at])
    requires d.header == BuildHeader(c, now) && d.control == []
    requires var p := c.channels.pending[at];
             d.staging == C.Staging(Marked(c.channels.pending, at),
                                    Encoded(c.channels.kinds, C.FrameOf(c.channels.kinds, p), 0), [p])
    ensures SentAlone(c, now, at, Committed(c, now, d))
  {
    hide L.OnSent, ApplyNotes, Sealed, C.Committed, C.RecordOf, B.Advance, B.OnSent, HeaderLen, BuildHeader, Encoded,
         C.FrameOf, CeilBytes;
  }

  /** Polling an idle connection whose only waiting message is affordable sends that message. */
  lemma LonePoll(c: Conn, clock: nat, now: nat, at: nat)
    requires I.Valid(c, clock) && clock <= now < U64_MAX && Idle(c) && Lone(c.channels.pending, at)
    requires Assessed(c, now).budget.refill > 0
    requires B.ReadyFor(Assessed(c, now).budget, |c.channels.pending[at].payload|) <= now
    ensures Transmittable(c) && B.Consistent(c.budget) && Transmittable(Assessed(c, now))
    ensures C.Sendable(c.channels.kinds, c.channels.pending[at])
    ensures SentAlone(Assessed(c, now), now, at, PollTransmit(c, now))
    ensures Drafted(Assessed(c, now), now).control == []
    ensures var s := Drafted(Assessed(c, now), now).staging;
            s.staged == [c.channels.pending[at]] && s.pending == Marked(c.channels.pending, at)
  {
    hide L.Valid, I.NoneStranded, B.ReadyFor, B.Assess, B.Consistent, Drafted, Committed, Aborted, SentAlone,
         BuildHeader, Encoded, C.FrameOf, C.NextUnsentLen;
    var c1 := Assessed(c, now);
    T.AssessedValid(c, clock, now);
    I.ValidShaped(c, clock);
    I.ValidShaped(c1, now);
    NextLenLone(c.channels.kinds, c.channels.pending, at, 0);
    LoneDraft(c1, now, now, at);
    CommitLone(c1, now, at, Drafted(c1, now));
  }

  // ----- What is remembered of one message -----

  lemma OnlyKey(kinds: Kinds, p: C.Pending)
    requires C.Sendable(kinds, p)
    ensures C.AllSendable(kinds, [p])
    ensures C.KeysWhere(kinds, [p], kinds[p.channel].IsReliable()) == [C.KeyOf(p)]
    ensures C.KeysWhere(kinds, [p], !kinds[p.channel].IsReliable()) == []
  {
    var one := [p];
    assert one[..0] == [];
    assert C.KeysWhere(kinds, one[..0], true) == [] && C.KeysWhere(kinds, one[..0], false) == [];
  }

  /** An unreliable message is gone once sent, and nothing is remembered of it. */
  lemma LeavesAtOnce(kinds: Kinds, p: C.Pending)
    requires C.Sendable(kinds, p) && !kinds[p.channel].IsReliable()
    ensures C.AllSendable(kinds, [p]) && C.RecordOf(kinds, [p]) == []
    ensures C.Committed(kinds, [p.(inFlight := true)], [p]) == []
  {
    OnlyKey(kinds, p);
    var marked, keys := [p.(inFlight := true)], [C.KeyOf(p)];
    assert keys[..0] == [] && C.ReleasedAll(marked, []) == marked;
    assert marked[1..] == [];
  }
}
