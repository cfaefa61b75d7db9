/** Particular steps of two connections, followed field by field: a lone message sent, a packet of
one message read, an acknowledgement sent by itself and read. Long runs of the two are built of
these. */
module WorldSteps {
  import opened Machine
  import opened Sequences
  import opened BitStream
  import opened Frames
  import opened Connection
  import opened PacketReading
  import opened OrderedDelivery
  import opened TwoParty
  import opened Arrival
  import opened TwoPartyRuns
  import opened LoneSends
  import L = Ledger
  import B = Budget
  import C = Channels
  import A = Arena
  import Q = SendQueue
  import N = LedgerNotes
  import I = ConnectionInvariant
  import T = Transmit
  import F = QueueFlow

  // ----- Reach -----

  /** Some run from `o` in which no id is misread ends in `w`. */
  ghost predicate Reaches(o: World, w: World) {
    exists ws, ss :: IsRun(ws, ss) && AlwaysExact(ws, ss) && ws[0] == o && ws[|ss|] == w
  }

  lemma ReachesStart(o: World)
    ensures Reaches(o, o)
  {
    var ws, ss: seq<Step> := [o], [];
    assert IsRun(ws, ss) && AlwaysExact(ws, ss) && ws[|ss|] == o;
  }

  lemma Goes(o: World, w: World, s: Step)
    requires Reaches(o, w) && Runnable(w, s) && Allowed(w, s) && ReadExactly(w, s)
    ensures Reaches(o, Stepped(w, s))
  {
    hide Allowed, Stepped, ReadExactly, Transmittable, B.Consistent;
    var ws, ss :| IsRun(ws, ss) && AlwaysExact(ws, ss) && ws[0] == o && ws[|ss|] == w;
    var us, more := ws + [Stepped(w, s)], ss + [s];
    forall k | 0 <= k < |more|
      ensures Runnable(us[k], more[k]) && Allowed(us[k], more[k]) && ReadExactly(us[k], more[k])
      ensures us[k + 1] == Stepped(us[k], more[k])
    {
      if k < |ss| {
        assert us[k] == ws[k] && us[k + 1] == ws[k + 1] && more[k] == ss[k];
      }
    }
    assert IsRun(us, more) && us[|more|] == Stepped(w, s);
  }

  lemma ReachesInv(o: World, w: World)
    requires Inv(o) && Reaches(o, w)
    ensures Inv(w) && C.Sized(w.a.channels) && C.Sized(w.b.channels)
  {
    hide Inv, Runnable, Allowed, Stepped, ReadExactly;
    var ws, ss :| IsRun(ws, ss) && AlwaysExact(ws, ss) && ws[0] == o && ws[|ss|] == w;
    RunInv(ws, ss, |ss|);
    InvSized(w);
  }

  lemma InvSized(w: World)
    requires Inv(w)
    ensures C.Sized(w.a.channels) && C.Sized(w.b.channels)
  {
    hide I.Valid, SenderOk, LogOk, FlightOk, WindowsOk, RepliesOk, AllInOrder;
    ValidSized(w.a, w.aClock);
    ValidSized(w.b, w.bClock);
  }

  // ----- One connection -----

  /** A second earns enough for any message, whatever the rate has sunk to. */
  lemma SecondEarns(b: B.Budget, len: nat, now: nat)
    requires B.Consistent(b) && len <= MAX_MESSAGE && b.lastRefill + 1_000_000_000 <= now < U64_MAX && b.refill > 0
    ensures B.ReadyFor(b, len) <= now
  {
    hide B.CapacityFor;
    var needed, elapsed := B.Needed(b, len) * B.FRACTION, now - b.lastRefill;
    assert b.refill >= 8000;
    assert elapsed * b.refill >= 1_000_000_000 * 8000;
    B.CeilDivExact(SatSub(needed, b.tokens), b.refill, elapsed);
  }

  /** With nothing to say but an acknowledgement that is due, that is what is sent. */
  lemma AckPoll(c: Conn, clock: nat, now: nat)
    requires I.Valid(c, clock) && Ticks(clock, now) && Idle(c) && c.channels.pending == []
    requires Due(c.acks.Deadline(), now)
    ensures Transmittable(c) && B.Consistent(c.budget)
    ensures var r, header := PollTransmit(c, now), BuildHeader(c, now);
            && r.packet == Some(Packet(c.crypto.nextSequence, header, Sealed(Body(c.channels.kinds, []), Room(header))))
            && Idle(r.conn) && r.conn.channels == c.channels && r.conn.addr == c.addr && r.conn.acks.owed.Nothing?
            && r.conn.acks.delay == c.acks.delay && r.conn.acks.aloneAfter == SatAdd(now, c.acks.delay)
            && r.conn.crypto == c.crypto.(nextSequence := c.crypto.nextSequence + 1)
  {
    hide L.Valid, I.NoneStranded, B.Assess, B.Consistent, B.ReadyFor, B.Advance, B.Available, Drafted, Aborted,
         BuildHeader, HeaderLen, C.Fill, Sealed, Body, Committed;
    var c1 := Assessed(c, now);
    T.AssessedValid(c, clock, now);
    I.ValidShaped(c, clock);
    I.ValidShaped(c1, now);
    SilentDraft(c1, now);
    HeaderSame(c, c1, now);
    CommitAck(c1, now, Drafted(c1, now));
  }

  lemma HeaderSame(c: Conn, d: Conn, now: nat)
    requires d.crypto == c.crypto
    ensures BuildHeader(d, now) == BuildHeader(c, now)
  {
  }

  lemma CommitAck(c: Conn, now: nat, d: Draft)
    requires Shaped(c) && Idle(c) && c.channels.pending == [] && d.header == BuildHeader(c, now) && d.control == []
    requires d.staging == C.Staging([], Body(c.channels.kinds, []), [])
    ensures C.AllSendable(c.channels.kinds, d.staging.staged)
    ensures var r, header := Committed(c, now, d), BuildHeader(c, now);
            && r.packet == Some(Packet(c.crypto.nextSequence, header, Sealed(Body(c.channels.kinds, []), Room(header))))
            && Idle(r.conn) && r.conn.channels == c.channels && r.conn.addr == c.addr
            && r.conn.acks == c.acks.Sent(now, false)
            && r.conn.crypto == c.crypto.(nextSequence := c.crypto.nextSequence + 1)
  {
    hide BuildHeader, HeaderLen, Sealed, Body, B.Advance, B.OnSent;
    assert C.KeysWhere(c.channels.kinds, [], false) == [] && C.ReleasedAll([], []) == [];
  }

  lemma SilentDraft(c: Conn, now: nat)
    requires Transmittable(c) && Idle(c) && c.channels.pending == []
    ensures var d := Drafted(c, now);
            && d.header == BuildHeader(c, now) && d.control == []
            && d.staging == C.Staging([], Body(c.channels.kinds, []), [])
  {
    hide BuildHeader, HeaderLen, C.Fill, B.Advance, B.Available, WriteControl, Body, CeilBytes;
    var header := BuildHeader(c, now);
    NothingOwed(c, Room(header));
    var allowance := B.Available(B.Advance(c.budget, now));
    FillNone(c.channels.kinds, C.Staging([], [], []), 0, Room(header),
             SatSub(allowance, HeaderLen(header) + B.TAG_LEN + CeilBytes(0)), 0);
  }

  /** The connection as it meets the header of a packet opened at `s`. */
  function Opening(c: Conn, now: nat, s: nat): Conn {
    c.(crypto := c.crypto.(replay := c.crypto.replay.Inserted(s)), lastReceived := now)
  }

  /** A packet without frames does what its acknowledgement does. */
  lemma HearsAck(c: Conn, now: nat, d: Datagram, s: nat, room: nat, token: nat)
    requires Shaped(c) && HeaderShaped(d.header) && F.OpensAt(c, d) && SequenceOf(c.crypto, d.header) == Some(s)
    requires d.sealed.body == Sealed(Body(c.channels.kinds, []), room)
    ensures HandleDatagram(c, now, c.addr, d, token)
            == Handled(HandleAck(Opening(c, now, s), now, d.header), [], Processed)
  {
    hide HandleAck, Sealed, Body, Parse, Window.Check, Window.Inserted, SequenceOf;
    HandleAckKeeps(Opening(c, now, s), now, d.header);
    ParseSealed(c.channels.kinds, [], room);
  }

  /** A packet of one message is acknowledged for, then received. */
  lemma HearsMessage(c: Conn, now: nat, d: Datagram, s: nat, m: C.Pending, room: nat, token: nat)
    requires Shaped(c) && HeaderShaped(d.header) && F.OpensAt(c, d) && SequenceOf(c.crypto, d.header) == Some(s)
    requires C.Sendable(c.channels.kinds, m)
    requires d.sealed.body == Sealed(Body(c.channels.kinds, [C.FrameOf(c.channels.kinds, m)]), room)
    ensures var c1 := HandleAck(Opening(c, now, s), now, d.header);
            var f := C.FrameOf(c.channels.kinds, m);
            && Shaped(c1) && c1.channels.kinds == c.channels.kinds
            && var r := C.Receive(c1.channels, f.channel, f.id, f.payload);
               r.ok ==> HandleDatagram(c, now, c.addr, d, token)
                        == Handled(c1.(channels := r.channels, crypto := RecordEliciting(c1.crypto, s, now),
                                       acks := c.acks.Record(now, c.crypto.replay.newest == 0
                                                                  || s == c.crypto.replay.newest + 1)),
                                   r.delivered, Processed)
  {
    hide HandleAck, Sealed, Body, Parse, Window.Check, Window.Inserted, SequenceOf, C.Receive, C.FrameOf, ReadFrames;
    var kinds, f := c.channels.kinds, C.FrameOf(c.channels.kinds, m);
    var c1 := HandleAck(Opening(c, now, s), now, d.header);
    HandleAckKeeps(Opening(c, now, s), now, d.header);
    ParseSealed(kinds, [f], room);
    ReadsFrame(c1, now, f);
  }

  lemma ReadsFrame(c: Conn, now: nat, f: Frame)
    requires Shaped(c) && f.Message? && Encodable(c.channels.kinds, f)
    ensures AllEncodable(c.channels.kinds, [f])
    ensures var r := C.Receive(c.channels, f.channel, f.id, f.payload);
            ReadFrames(c, now, [f]) == Read(c.(channels := r.channels), r.delivered, r.ok)
  {
    hide C.Receive;
    var one := [f];
    assert one[..0] == [] && ReadFrames(c, now, one[..0]) == Read(c, [], true);
    var r := C.Receive(c.channels, f.channel, f.id, f.payload);
    assert [] + r.delivered == r.delivered;
  }

  /** An empty queue stays empty whatever is acknowledged. */
  lemma NothingQueued(c: Conn, clock: nat, now: nat, h: Header)
    requires I.Valid(c, clock) && now >= clock && HeaderShaped(h) && c.channels.pending == []
    ensures Shaped(c) && HandleAck(c, now, h).channels == c.channels
  {
    hide I.Valid, HandleAck, F.LeavesByAck, F.LetGo, F.AckNames;
    F.HandleAckFlows(c, clock, now, h);
    HandleAckKeeps(c, now, h);
    FromNothing(c.channels.pending, HandleAck(c, now, h).channels.pending);
  }

  lemma FromNothing(before: seq<C.Pending>, after: seq<C.Pending>)
    requires F.From(before, after) && before == []
    ensures after == []
  {
    assert after == [] || after[0] in before || after[0].(inFlight := !after[0].inFlight) in before;
  }

  // ----- The two of them -----

  /** A message is accepted by a sender whose queue is short. */
  lemma Submits(o: World, w: World, ch: nat, payload: Bytes)
    requires Inv(o) && Reaches(o, w) && C.Sized(w.a.channels) && ch < |w.kinds| && w.a.channels.kinds == w.kinds
    requires w.a.channels.nextIds[ch] < U32_MAX && |payload| <= MAX_MESSAGE && |w.a.channels.pending| <= 1
    requires forall p | p in w.a.channels.pending :: |p.payload| <= BLOCK
    ensures var p := C.Pending(ch, w.a.channels.nextIds[ch], payload, false);
            Reaches(o, w.(a := w.a.(channels := w.a.channels.(pending := w.a.channels.pending + [p],
                                                              nextIds := w.a.channels.nextIds[ch := p.id + 1])),
                          accepted := w.accepted[ch := w.accepted[ch] + [payload]]))
  {
    hide Inv, Reaches;
    ReachesInv(o, w);
    AllowedRuns(w, Submit(ch, payload));
    ShortQueue(w.a.channels.pending);
    assert A.BlocksFor(|payload|) <= 16;
    Goes(o, w, Submit(ch, payload));
  }

  const BLOCK: nat := A.BLOCK

  lemma ShortQueue(pending: seq<C.Pending>)
    requires |pending| <= 1 && forall p | p in pending :: |p.payload| <= BLOCK
    ensures C.PendingBlocks(pending) <= 1
  {
    if pending != [] {
      assert pending[0] in pending && pending[1..] == [];
      assert A.BlocksFor(|pending[0].payload|) == 1;
    }
  }

  /** What a lone message leaves behind when it is sent. */
  ghost predicate Transmitted(w: World, at: nat, v: World) {
    && at < |w.a.channels.pending| && |v.sent| == |w.sent| + 1 && 0 < |v.a.delivery.ring| == |w.a.delivery.ring|
    && var p, e, q := w.a.channels.pending[at], v.sent[|w.sent|], |v.sent|;
       && v == w.(a := v.a, aClock := v.aClock, sent := w.sent + [e])
       && e.control == [] && e.staged == [p] && C.AllSendable(w.kinds, [p])
       && Idle(v.a) && v.a.addr == w.a.addr && v.a.crypto == w.a.crypto.(nextSequence := q + 1)
       && v.a.channels == w.a.channels.(pending := v.a.channels.pending)
       && F.From(w.a.channels.pending, v.a.channels.pending)
       && F.Retains(w.kinds, w.a.channels.pending, v.a.channels.pending)
       && |v.a.channels.pending| <= |C.Committed(w.kinds, Marked(w.a.channels.pending, at), [p])|
       && L.IsInFlight(v.a.delivery.ring, q)
       && L.Get(v.a.delivery.ring, q).value.state.record == C.RecordOf(w.kinds, [p])
       && OnlyNew(w.a.delivery.ring, v.a.delivery.ring, q)
       && F.AltersByLeaving(w.a.delivery.ring, C.Committed(w.kinds, Marked(w.a.channels.pending, at), [p]),
                            v.a.delivery.ring, v.a.channels.pending)
  }

  /** Nothing has joined the flight but `q`. */
  ghost predicate OnlyNew(ring: L.Ring<Record>, ring': L.Ring<Record>, q: nat) {
    && |ring| > 0 && |ring'| > 0
    && forall p: nat | L.IsInFlight(ring', p) && p != q :: L.Get(ring', p) == L.Get(ring, p)
  }

  lemma SendsLone(o: World, w: World, at: nat) returns (v: World)
    requires Inv(o) && Reaches(o, w) && Inv(w) && Idle(w.a) && Lone(w.a.channels.pending, at)
    requires |w.sent| < U64_MAX && w.aClock + 1_000_000_000 < U64_MAX
    ensures Reaches(o, v) && Inv(v) && Transmitted(w, at, v) && v.aClock == w.aClock + 1_000_000_000
  {
    hide I.Valid, LogOk, FlightOk, SenderOk, RepliesOk, WindowsOk, AllInOrder, Reaches, PollTransmit, Drafted,
         Transmitted, B.Assess, B.ReadyFor, B.Consistent, SentAlone, Transmittable;
    var now := w.aClock + 1_000_000_000;
    InvSized(w);
    AllowedRuns(w, TransmitA(now));
    Affordable(w.a, w.aClock, at);
    LonePoll(w.a, w.aClock, now, at);
    Goes(o, w, TransmitA(now));
    SentParts(w, at, now);
    v := Stepped(w, TransmitA(now));
    ReachesInv(o, v);
  }

  lemma Affordable(c: Conn, clock: nat, at: nat)
    requires I.Valid(c, clock) && clock + 1_000_000_000 < U64_MAX && at < |c.channels.pending|
    ensures var b := Assessed(c, clock + 1_000_000_000).budget;
            b.refill > 0 && B.ReadyFor(b, |c.channels.pending[at].payload|) <= clock + 1_000_000_000
  {
    hide L.Valid, I.NoneStranded, B.Assess, B.ReadyFor;
    var now := clock + 1_000_000_000;
    B.OperationsConsistent(c.budget, now, 0, false, c.delivery.rtt);
    B.OperationsConsistent(Assessed(c, now).budget, now, 0, false, None);
    T.AssessKeepsRefill(c.budget, now, c.delivery.rtt);
    assert C.Sendable(c.channels.kinds, c.channels.pending[at]);
    SecondEarns(Assessed(c, now).budget, |c.channels.pending[at].payload|, now);
  }

  lemma SentParts(w: World, at: nat, now: nat)
    requires Inv(w) && Idle(w.a) && Lone(w.a.channels.pending, at) && Ticks(w.aClock, now) && |w.sent| < U64_MAX
    requires C.Sized(w.a.channels) && Runnable(w, TransmitA(now)) && Transmittable(Assessed(w.a, now))
    requires C.Sendable(w.kinds, w.a.channels.pending[at])
    requires SentAlone(Assessed(w.a, now), now, at, PollTransmit(w.a, now))
    requires Drafted(Assessed(w.a, now), now).control == []
    requires var s := Drafted(Assessed(w.a, now), now).staging;
             s.staged == [w.a.channels.pending[at]] && s.pending == Marked(w.a.channels.pending, at)
    ensures Transmitted(w, at, Stepped(w, TransmitA(now)))
  {
    hide I.Valid, LogOk, FlightOk, SenderOk, RepliesOk, WindowsOk, AllInOrder, PollTransmit, Drafted, B.Assess,
         B.Consistent, L.OnSent, ApplyNotes, C.Committed, C.RecordOf, Transmittable, DatagramLen, F.From, F.Retains,
         BuildHeader, Encoded, C.FrameOf, Sealed, B.OnSent, B.Advance, ASide, OnlyNew, F.AltersByLeaving;
    var kinds, p, q := w.kinds, w.a.channels.pending[at], w.a.crypto.nextSequence;
    var c := Assessed(w.a, now);
    InvASide(w);
    SendTransmits(w.a, w.aClock, w.sent, w.accepted, now);
    T.AssessedValid(w.a, w.aClock, now);
    var record := C.RecordOf(kinds, [p]);
    TracksOne(c, now, now, at);
    NotesShrink(Applied(C.Committed(kinds, Marked(w.a.channels.pending, at), [p]), B.Advance(c.budget, now)),
                L.OnSent(w.a.delivery, now, q, L.Eliciting(record)).notes);
  }

  lemma TracksOne(c: Conn, clock: nat, now: nat, at: nat)
    requires I.Valid(c, clock) && now >= clock && Transmittable(c) && at < |c.channels.pending|
    requires C.AllSendable(c.channels.kinds, [c.channels.pending[at]])
    requires var d := Drafted(c, now);
             d.staging.staged == [c.channels.pending[at]] && d.staging.pending == Marked(c.channels.pending, at)
    ensures var kinds, q, p := c.channels.kinds, c.crypto.nextSequence, c.channels.pending[at];
            && |c.delivery.ring| > 0
            && var o := L.OnSent(c.delivery, now, q, L.Eliciting(C.RecordOf(kinds, [p])));
               var pending := C.Committed(kinds, Marked(c.channels.pending, at), [p]);
               var ring := o.ledger.ring;
               && |ring| == |c.delivery.ring| && L.IsInFlight(ring, q)
               && L.Get(ring, q).value.state.record == C.RecordOf(kinds, [p])
               && OnlyNew(c.delivery.ring, ring, q)
               && F.AltersByLeaving(c.delivery.ring, pending, ring,
                                    ApplyNotes(Applied(pending, B.Advance(c.budget, now)), o.notes).pending)
  {
    hide I.NoneStranded, B.Consistent, I.QueueValid, L.OnSent, C.RecordOf, C.Committed, Drafted, B.Advance, ApplyNotes,
         I.Settled, F.AltersByLeaving, Q.Filled;
    var kinds, q, p := c.channels.kinds, c.crypto.nextSequence, c.channels.pending[at];
    var d := Drafted(c, now);
    I.RingNonEmpty(c.delivery, clock);
    SentLength(c.delivery, now, q, C.RecordOf(kinds, [p]));
    var record, pending := C.RecordOf(kinds, [p]), C.Committed(kinds, Marked(c.channels.pending, at), [p]);
    N.OnSentReported(c.delivery, clock, now, q, L.Eliciting(record));
    DraftStaged(c, now);
    I.CommittedQueue(c, clock, d);
    I.QueueOrdered(c.channels.(pending := pending));
    var o := L.OnSent(c.delivery, now, q, L.Eliciting(record));
    var a := Applied(pending, B.Advance(c.budget, now));
    I.NotesSettle(a, o.notes);
    F.SettledAlters(c.delivery.ring, pending, o.ledger.ring, ApplyNotes(a, o.notes).pending, o.notes);
  }

  lemma SentLength(l: L.Ledger<Record>, now: nat, q: nat, record: Record)
    requires |l.ring| > 0
    ensures |L.OnSent(l, now, q, L.Eliciting(record)).ledger.ring| == |l.ring|
  {
    hide L.FirstInFlight;
  }

  lemma {:induction false} KeysShrink(pending: seq<C.Pending>, keys: seq<C.Key>)
    ensures |C.ReleasedAll(pending, keys)| <= |pending| && |C.MarkedLostAll(pending, keys)| == |pending|
  {
    if keys != [] {
      var n := |keys| - 1;
      KeysShrink(pending, keys[..n]);
      KeyShrinks(C.ReleasedAll(pending, keys[..n]), keys[n]);
      KeyShrinks(C.MarkedLostAll(pending, keys[..n]), keys[n]);
    }
  }

  lemma {:induction false} KeyShrinks(pending: seq<C.Pending>, key: C.Key)
    ensures |C.Released(pending, key)| <= |pending| && |C.MarkedLost(pending, key)| == |pending|
  {
    if pending != [] {
      KeyShrinks(pending[1..], key);
    }
  }

  lemma {:induction false} NotesShrink(a: Applied, notes: seq<L.Note<Record>>)
    ensures |ApplyNotes(a, notes).pending| <= |a.pending|
  {
    hide C.ReleasedAll, C.MarkedLostAll;
    if notes != [] {
      var n := |notes| - 1;
      NotesShrink(a, notes[..n]);
      if !notes[n].what.Spurious? {
        KeysShrink(ApplyNotes(a, notes[..n]).pending, notes[n].what.record);
      }
    }
  }

  /** The receiver opens a packet of the log behind its own header while it is new and near. */
  lemma OpensOwn(w: World, i: nat)
    requires Inv(w) && i < |w.sent| && w.b.lifecycle.Open? && i < U64_MAX
    requires i + 1 !in w.unsealed && w.b.crypto.replay.newest < i + 1 + WINDOW
    requires i + 1 < w.b.crypto.replay.newest + HALF_WIRE
    ensures HeaderShaped(w.sent[i].packet.header) && OpensAtB(w, i, w.sent[i].packet.header)
    ensures SequenceOf(w.b.crypto, w.sent[i].packet.header) == Some(i + 1)
  {
    hide I.Valid, SenderOk, FlightOk, RepliesOk, AllInOrder, Reconstruct, AllEncodable, AllGenuine, Body, Sealed,
         C.AllSendable, Window.Check, Window.Refines;
    assert EntryOk(w.a.channels.kinds, w.sent[i], i + 1, w.accepted);
    ReconstructExact(w.b.crypto.replay.newest, i + 1);
    CheckExact(w.b.crypto.replay, w.unsealed, i + 1);
  }

  /** A packet of one message, as a receiver that has nothing to send takes it. */
  ghost predicate Landed(w: World, i: nat, m: C.Pending, v: World)
    requires C.Sized(w.b.channels) && C.Sendable(w.b.channels.kinds, m)
  {
    var f, newest := C.FrameOf(w.b.channels.kinds, m), w.b.crypto.replay.newest;
    var r := C.Receive(w.b.channels, f.channel, f.id, f.payload);
    && v == w.(b := v.b, bClock := v.bClock, delivered := Extended(w.delivered, r.delivered),
               unsealed := w.unsealed + {i + 1}, read := w.read + {i + 1})
    && Idle(v.b) && v.b.addr == w.b.addr && v.b.channels == r.channels
    && v.b.acks == w.b.acks.Record(v.bClock, newest == 0 || i == newest)
    && v.b.crypto.nextSequence == w.b.crypto.nextSequence
    && v.b.crypto.replay == w.b.crypto.replay.Inserted(i + 1)
    && v.b.crypto.acked == w.b.crypto.acked.Inserted(i + 1)
  }

  lemma LandsOne(w: World, i: nat, m: C.Pending, now: nat)
    requires Inv(w) && i < |w.sent| && HeaderShaped(w.sent[i].packet.header) && Ticks(w.bClock, now)
    requires OpensAtB(w, i, w.sent[i].packet.header) && Idle(w.b) && w.b.channels.pending == []
    requires w.sent[i].control == [] && w.sent[i].staged == [m] && C.Sized(w.b.channels)
    requires C.Sendable(w.b.channels.kinds, m)
    requires var f := C.FrameOf(w.b.channels.kinds, m); C.Receive(w.b.channels, f.channel, f.id, f.payload).ok
    ensures var s := Arrive(i, w.sent[i].packet.header, now, w.b.addr, 0);
            Runnable(w, s) && Allowed(w, s) && Landed(w, i, m, Stepped(w, s)) && Stepped(w, s).bClock == now
  {
    hide I.Valid, SenderOk, FlightOk, RepliesOk, AllInOrder, C.Receive, C.FrameOf, HandleAck, HandleDatagram, Body,
         Sealed, AllEncodable, AllGenuine, Extended, Window.Check, Window.Inserted, Window.Refines, WindowsOk;
    InvSized(w);
    ValidSized(w.a, w.aClock);
    ValidSized(w.b, w.bClock);
    var kinds, header := w.b.channels.kinds, w.sent[i].packet.header;
    OpenedOnce(w, i, header);
    assert EntryOk(w.a.channels.kinds, w.sent[i], i + 1, w.accepted);
    OneFrame(kinds, m);
    HearsMessage(w.b, now, Datagram(header, w.sent[i].packet), i + 1, m, Room(header), 0);
    var c := Opening(w.b, now, i + 1);
    F.ReplayValid(w.b, w.bClock, c);
    NothingQueued(c, w.bClock, now, header);
    HandleAckKeeps(c, now, header);
  }

  /** A packet of one message that is not misread. */
  lemma Lands(o: World, w: World, i: nat, m: C.Pending, now: nat) returns (v: World)
    requires Inv(o) && Reaches(o, w) && Inv(w) && i < |w.sent| && i < U64_MAX && Ticks(w.bClock, now)
    requires i + 1 !in w.unsealed && w.b.crypto.replay.newest < i + 1 + WINDOW
    requires i + 1 < w.b.crypto.replay.newest + HALF_WIRE && Idle(w.b) && w.b.channels.pending == []
    requires w.sent[i].control == [] && w.sent[i].staged == [m] && C.Sized(w.b.channels)
    requires C.Sendable(w.b.channels.kinds, m) && Exact(w.b.channels, m)
    requires var f := C.FrameOf(w.b.channels.kinds, m); C.Receive(w.b.channels, f.channel, f.id, f.payload).ok
    ensures Reaches(o, v) && Inv(v) && Landed(w, i, m, v) && v.bClock == now
  {
    hide Inv, Reaches, Landed, OpensAtB, C.Receive, Stepped, Exact;
    OpensOwn(w, i);
    LandsOne(w, i, m, now);
    var s := Arrive(i, w.sent[i].packet.header, now, w.b.addr, 0);
    ReadsOneExactly(w.b.channels, m);
    Goes(o, w, s);
    v := Stepped(w, s);
    ReachesInv(o, v);
  }

  lemma ReadsOneExactly(c: C.Channels, m: C.Pending)
    requires C.Sized(c) && C.Sendable(c.kinds, m) && Exact(c, m)
    ensures C.AllSendable(c.kinds, [m]) && ReadsExactly(c, [m])
  {
    hide Exact;
    var one := [m];
    assert one[..0] == [] && ReadMessages(c, one[..0]) == C.Received(c, [], true);
  }

  lemma OneFrame(kinds: Kinds, m: C.Pending)
    requires C.Sendable(kinds, m)
    ensures C.AllSendable(kinds, [m]) && [] + Q.FramesOf(kinds, [m]) == [C.FrameOf(kinds, m)]
  {
    hide C.FrameOf;
    var one := [m];
    assert one[..0] == [] && Q.FramesOf(kinds, one[..0]) == [];
  }

  /** The acknowledgement the receiver owes goes back by itself. */
  ghost predicate Answered(w: World, v: World) {
    && |v.replies| == |w.replies| + 1
    && var r, header := v.replies[|w.replies|], BuildHeader(w.b, v.bClock);
       && v == w.(b := v.b, bClock := v.bClock, replies := w.replies + [r])
       && r == Reply(Packet(w.b.crypto.nextSequence, header, Sealed(Body(w.b.channels.kinds, []), Room(header))),
                     w.b.crypto.acked.newest)
       && Idle(v.b) && v.b.addr == w.b.addr && v.b.channels == w.b.channels
       && v.b.acks == Acks(Nothing, w.b.acks.delay, SatAdd(v.bClock, w.b.acks.delay))
       && v.b.crypto == w.b.crypto.(nextSequence := w.b.crypto.nextSequence + 1)
  }

  lemma Answers(o: World, w: World, now: nat) returns (v: World)
    requires Inv(o) && Reaches(o, w) && Inv(w) && Idle(w.b) && w.b.channels.pending == [] && Ticks(w.bClock, now)
    requires Due(w.b.acks.Deadline(), now)
    ensures Reaches(o, v) && Inv(v) && Answered(w, v) && v.bClock == now
  {
    hide I.Valid, LogOk, FlightOk, SenderOk, RepliesOk, WindowsOk, AllInOrder, Reaches, PollTransmit, B.Consistent,
         Transmittable, BuildHeader, Sealed, Body;
    InvSized(w);
    AllowedRuns(w, TransmitB(now));
    AckPoll(w.b, w.bClock, now);
    Goes(o, w, TransmitB(now));
    v := Stepped(w, TransmitB(now));
    ReachesInv(o, v);
  }

  /** The sender opens a reply behind its own header, and does what it acknowledges. */
  ghost predicate Returned(w: World, j: nat, v: World)
    requires Shaped(w.a) && j < |w.replies| && HeaderShaped(w.replies[j].packet.header)
  {
    var r := w.replies[j].packet;
    && v == w.(a := v.a, aClock := v.aClock)
    && Idle(v.a) && v.a.addr == w.a.addr && v.a.channels == w.a.channels.(pending := v.a.channels.pending)
    && v.a.crypto == w.a.crypto.(replay := w.a.crypto.replay.Inserted(r.sequence))
    && F.From(w.a.channels.pending, v.a.channels.pending)
    && F.LeavesByAck(w.a.delivery.ring, w.a.channels.pending, v.a.channels.pending, F.AckNames(w.a, r.header))
    && F.LetGo(w.a.delivery.ring, v.a.channels.pending, F.AckNames(w.a, r.header))
    && |v.a.delivery.ring| == |w.a.delivery.ring| && N.NoNewFlight(w.a.delivery.ring, v.a.delivery.ring)
    && F.AltersByLeaving(w.a.delivery.ring, w.a.channels.pending, v.a.delivery.ring, v.a.channels.pending)
  }

  lemma Returns(o: World, w: World, j: nat, room: nat) returns (v: World)
    requires Inv(o) && Reaches(o, w) && Inv(w) && Idle(w.a) && j < |w.replies| && w.aClock < U64_MAX
    requires var r := w.replies[j].packet;
             && HeaderShaped(r.header) && r.header.sequence == r.sequence % WIRE
             && w.a.crypto.replay.newest < r.sequence < w.a.crypto.replay.newest + HALF_WIRE && r.sequence <= U64_MAX
             && r.body == Sealed(Body(w.kinds, []), room)
    ensures Reaches(o, v) && Inv(v) && Shaped(w.a) && Returned(w, j, v) && v.aClock == w.aClock
  {
    hide I.Valid, LogOk, FlightOk, SenderOk, RepliesOk, WindowsOk, AllInOrder, Reaches, HandleDatagram, HandleAck,
         Sealed, Body, Window.Inserted, F.From, F.LeavesByAck, F.LetGo, F.AckNames, Reconstruct, N.NoNewFlight,
         F.AltersByLeaving;
    var r := w.replies[j].packet;
    var d, s := Datagram(r.header, r), Return(j, r.header, w.aClock, w.a.addr, 0);
    InvSized(w);
    AllowedRuns(w, s);
    ReconstructExact(w.a.crypto.replay.newest, r.sequence);
    HearsAck(w.a, w.aClock, d, r.sequence, room, 0);
    HandleAckKeeps(Opening(w.a, w.aClock, r.sequence), w.aClock, r.header);
    AckLength(Opening(w.a, w.aClock, r.sequence), w.aClock, r.header);
    F.HandleDatagramFlows(w.a, w.aClock, w.aClock, w.a.addr, d, 0);
    Goes(o, w, s);
    v := Stepped(w, s);
    ReachesInv(o, v);
  }

  lemma AckLength(c: Conn, now: nat, h: Header)
    requires Shaped(c) && HeaderShaped(h)
    ensures |HandleAck(c, now, h).delivery.ring| == |c.delivery.ring|
  {
    hide L.Named, L.AckedCount, L.LostNotes, L.FirstInFlight, ApplyNotes, ResolveAck, L.ResolveAll, L.Swept;
  }
}
