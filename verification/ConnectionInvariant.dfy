/** What every step of a connection keeps: above all, that no message is ever stranded. A
message marked in flight is always in the record of some packet the ledger still tracks, so
an acknowledgement or a loss is sure to reach it. */
module ConnectionInvariant {
  import opened Machine
  import opened Sequences
  import opened Frames
  import opened Connection
  import L = Ledger
  import N = LedgerNotes
  import B = Budget
  import C = Channels
  import A = Arena
  import Q = SendQueue

  /** Some packet in flight carries the message. */
  ghost predicate Carried(ring: L.Ring<Record>, key: C.Key)
    requires |ring| > 0
  {
    exists q: nat :: L.IsInFlight(ring, q) && key in L.Get(ring, q).value.state.record
  }

  /** Every message marked in flight is reliable and carried by a packet in flight. */
  ghost predicate NoneStranded(kinds: Kinds, pending: seq<C.Pending>, ring: L.Ring<Record>)
    requires |ring| > 0
  {
    forall p | p in pending && p.inFlight ::
      p.channel < |kinds| && kinds[p.channel].IsReliable() && Carried(ring, C.KeyOf(p))
  }

  /** The send queue: in order, within capacity, every id already issued. */
  ghost predicate QueueValid(c: C.Channels)
    requires C.Sized(c)
  {
    && Q.Ordered(c.pending)
    && C.AllSendable(c.kinds, c.pending)
    && |c.pending| <= C.MAX_PENDING
    && (forall p | p in c.pending :: p.channel < |c.kinds| && p.id < c.nextIds[p.channel])
  }

  ghost predicate Valid(c: Conn, clock: nat) {
    && Shaped(c)
    && ControlValid(c) && c.idleTimeout > 0
    && B.Consistent(c.budget) && c.budget.lastRefill <= clock
    && L.Valid(c.delivery, clock) && c.crypto.nextSequence == c.delivery.largestSent + 1
    && QueueValid(c.channels)
    && NoneStranded(c.channels.kinds, c.channels.pending, c.delivery.ring)
  }

  lemma NewValid(now: nat, role: Role, addr: nat, kinds: Kinds, cfg: Config)
    requires ConfigValid(cfg)
    ensures Valid(New(now, role, addr, kinds, cfg), now)
  {
    hide B.Refill, B.CapacityFor, L.CountInFlight;
    L.NewValid<Record>(TRACKED, now, cfg.maxAckDelay);
    B.NewConsistent(now, cfg.budget);
  }

  // ----- Outcomes applied to the queue -----

  /** The notification takes the message out of the queue, or back to waiting. */
  ghost predicate Settles(note: L.Note<Record>, key: C.Key) { !note.what.Spurious? && key in note.what.record }

  ghost predicate Acknowledges(note: L.Note<Record>, key: C.Key) { note.what.Acked? && key in note.what.record }

  /** How a queue looks after notifications: a message still in flight was untouched by them, one
  they do not touch stays as it was, and exactly the acknowledged ones are gone. */
  ghost predicate Settled(before: seq<C.Pending>, after: seq<C.Pending>, notes: seq<L.Note<Record>>) {
    && Q.Ordered(after) && |after| <= |before|
    && (forall p | p in after :: p in before || (!p.inFlight && p.(inFlight := true) in before))
    && (forall p | p in after && p.inFlight :: forall k | 0 <= k < |notes| :: !Settles(notes[k], C.KeyOf(p)))
    && (forall p, k | p in after && 0 <= k < |notes| :: !Acknowledges(notes[k], C.KeyOf(p)))
    && (forall p | p in before && p !in after :: exists k :: 0 <= k < |notes| && Settles(notes[k], C.KeyOf(p)))
    && (forall p | p in before ::
          || p in after || p.(inFlight := false) in after
          || exists k :: 0 <= k < |notes| && Acknowledges(notes[k], C.KeyOf(p)))
  }

  lemma AckSettles(pending: seq<C.Pending>, note: L.Note<Record>)
    requires Q.Ordered(pending) && note.what.Acked?
    ensures Settled(pending, C.ReleasedAll(pending, note.what.record), [note])
  {
    hide C.ReleasedAll, Q.Ordered;
    var after := C.ReleasedAll(pending, note.what.record);
    Q.ReleasedAllExact(pending, note.what.record);
    assert [note][0] == note;
  }

  lemma LossSettles(pending: seq<C.Pending>, note: L.Note<Record>)
    requires Q.Ordered(pending) && note.what.Lost?
    ensures Settled(pending, C.MarkedLostAll(pending, note.what.record), [note])
  {
    hide C.MarkedLostAll, Q.Ordered;
    var after, record := C.MarkedLostAll(pending, note.what.record), note.what.record;
    Q.MarkedLostAllExact(pending, record);
    forall p | p in after
      ensures p in pending || (!p.inFlight && p.(inFlight := true) in pending)
      ensures p.inFlight ==> C.KeyOf(p) !in record
    {
      var i :| 0 <= i < |after| && after[i] == p;
      assert pending[i] in pending;
      if p != pending[i] {
        assert p.(inFlight := true) == pending[i];
      }
    }
    forall p | p in pending
      ensures p in after || p.(inFlight := false) in after
      ensures p !in after ==> Settles([note][0], C.KeyOf(p))
    {
      var i :| 0 <= i < |pending| && pending[i] == p;
      assert after[i] in after;
    }
    assert forall p | p in after :: !Acknowledges([note][0], C.KeyOf(p));
  }

  lemma NoteSettles(a: Applied, note: L.Note<Record>)
    requires Q.Ordered(a.pending)
    ensures Settled(a.pending, ApplyNote(a, note.what).pending, [note])
  {
    match note.what
    case Acked(_) => AckSettles(a.pending, note);
    case Lost(_) => LossSettles(a.pending, note);
    case Spurious =>
  }

  lemma SettledTrans(a: seq<C.Pending>, b: seq<C.Pending>, c: seq<C.Pending>,
                     first: seq<L.Note<Record>>, last: L.Note<Record>)
    requires Settled(a, b, first) && Settled(b, c, [last])
    ensures Settled(a, c, first + [last])
  {
    var notes := first + [last];
    forall p | p in c && p.inFlight
      ensures p in a
      ensures forall k | 0 <= k < |notes| :: !Settles(notes[k], C.KeyOf(p))
    {
      assert p in b;
      forall k | 0 <= k < |notes|
        ensures !Settles(notes[k], C.KeyOf(p))
      {
        if k < |first| {
          assert notes[k] == first[k];
        } else {
          assert notes[k] == [last][0];
        }
      }
    }
    forall p, k | p in c && 0 <= k < |notes|
      ensures !Acknowledges(notes[k], C.KeyOf(p))
    {
      if k < |first| {
        var q := if p in b then p else p.(inFlight := true);
        assert q in b && C.KeyOf(q) == C.KeyOf(p) && notes[k] == first[k];
      } else {
        assert notes[k] == [last][0];
      }
    }
    forall p | p in a && p !in c
      ensures exists k :: 0 <= k < |notes| && Settles(notes[k], C.KeyOf(p))
    {
      if p in b {
        assert Settles([last][0], C.KeyOf(p));
        assert Settles(notes[|first|], C.KeyOf(p));
      } else {
        var k :| 0 <= k < |first| && Settles(first[k], C.KeyOf(p));
        assert Settles(notes[k], C.KeyOf(p));
      }
    }
    forall p | p in a
      ensures p in c || p.(inFlight := false) in c
              || exists k :: 0 <= k < |notes| && Acknowledges(notes[k], C.KeyOf(p))
    {
      if k :| 0 <= k < |first| && Acknowledges(first[k], C.KeyOf(p)) {
        assert Acknowledges(notes[k], C.KeyOf(p));
      } else {
        var q := if p in b then p else p.(inFlight := false);
        assert q in b;
        if q !in c && q.(inFlight := false) !in c {
          assert Acknowledges([last][0], C.KeyOf(q));
          assert Acknowledges(notes[|first|], C.KeyOf(p));
        }
      }
    }
  }

  lemma {:induction false} NotesSettle(a: Applied, notes: seq<L.Note<Record>>)
    requires Q.Ordered(a.pending)
    ensures Settled(a.pending, ApplyNotes(a, notes).pending, notes)
    ensures B.Consistent(a.budget) ==> B.Consistent(ApplyNotes(a, notes).budget)
    ensures ApplyNotes(a, notes).budget.lastRefill == a.budget.lastRefill
  {
    hide B.Consistent, C.ReleasedAll, C.MarkedLostAll;
    if notes != [] {
      var n := |notes| - 1;
      NotesSettle(a, notes[..n]);
      var mid := ApplyNotes(a, notes[..n]);
      NoteSettles(mid, notes[n]);
      SettledTrans(a.pending, mid.pending, ApplyNotes(a, notes).pending, notes[..n], notes[n]);
      assert notes[..n] + [notes[n]] == notes;
      if B.Consistent(mid.budget) {
        B.OperationsConsistent(mid.budget, 0, 0, false, None);
      }
    }
  }

  lemma SettledKeepsQueue(c: C.Channels, after: seq<C.Pending>, notes: seq<L.Note<Record>>)
    requires C.Sized(c) && QueueValid(c) && Settled(c.pending, after, notes)
    ensures QueueValid(c.(pending := after))
  {
    forall i | 0 <= i < |after|
      ensures C.Sendable(c.kinds, after[i])
    {
      assert after[i] in after;
      var p := if after[i] in c.pending then after[i] else after[i].(inFlight := true);
      assert p in c.pending;
      var j :| 0 <= j < |c.pending| && c.pending[j] == p;
      assert C.Sendable(c.kinds, c.pending[j]);
    }
  }

  /** When every packet that leaves the flight is reported, no message is left behind by it. */
  lemma SettledStrandsNone(kinds: Kinds, before: seq<C.Pending>, after: seq<C.Pending>,
                           ring: L.Ring<Record>, ring': L.Ring<Record>, notes: seq<L.Note<Record>>)
    requires |ring| > 0 && |ring'| > 0
    requires NoneStranded(kinds, before, ring) && Settled(before, after, notes) && N.AllAccounted(ring, ring', notes)
    ensures NoneStranded(kinds, after, ring')
  {
    forall p | p in after && p.inFlight
      ensures p.channel < |kinds| && kinds[p.channel].IsReliable() && Carried(ring', C.KeyOf(p))
    {
      assert p in before;
      var q: nat :| L.IsInFlight(ring, q) && C.KeyOf(p) in L.Get(ring, q).value.state.record;
      assert N.Accounted(ring, ring', notes, q);
      if L.Get(ring', q) != L.Get(ring, q) {
        var k :| 0 <= k < |notes| && notes[k].num == q && !notes[k].what.Spurious?
                 && notes[k].what.record == L.Get(ring, q).value.state.record;
        assert Settles(notes[k], C.KeyOf(p));
        assert false;
      }
      assert L.IsInFlight(ring', q);
    }
  }

  /** A ledger step and its notifications, applied together. */
  lemma ResolvedValid(c: Conn, clock: nat, now: nat, ledger: L.Ledger<Record>, notes: seq<L.Note<Record>>)
    requires Valid(c, clock) && now >= clock
    requires L.Valid(ledger, now) && ledger.largestSent == c.delivery.largestSent
    requires N.AllAccounted(c.delivery.ring, ledger.ring, notes)
    ensures Valid(Resolved(c, ledger, notes), now)
  {
    hide B.Consistent, L.Valid, QueueValid, NoneStranded, ApplyNotes, Settled, N.AllAccounted, ControlValid;
    assert Q.Ordered(c.channels.pending) by { QueueOrdered(c.channels); }
    RingNonEmpty(ledger, now);
    var a := Applied(c.channels.pending, c.budget);
    NotesSettle(a, notes);
    var after := ApplyNotes(a, notes).pending;
    SettledKeepsQueue(c.channels, after, notes);
    SettledStrandsNone(c.channels.kinds, c.channels.pending, after, c.delivery.ring, ledger.ring, notes);
    ControlSame(c, Resolved(c, ledger, notes));
  }

  lemma QueueOrdered(c: C.Channels)
    requires C.Sized(c) && QueueValid(c)
    ensures Q.Ordered(c.pending) && C.AllSendable(c.kinds, c.pending)
  {
  }

  lemma RingNonEmpty(l: L.Ledger<Record>, clock: nat)
    requires L.Valid(l, clock)
    ensures |l.ring| > 0 && L.Sound(l, clock)
  {
  }

  lemma ControlSame(c: Conn, d: Conn)
    requires ControlValid(c) && d.lifecycle == c.lifecycle && d.control == c.control
    ensures ControlValid(d)
  {
  }

  // ----- The steps -----

  /** The application queues a message; its id has not run out. */
  lemma SendValid(c: Conn, clock: nat, channel: nat, payload: Bytes)
    requires Valid(c, clock) && (channel < |c.channels.kinds| ==> c.channels.nextIds[channel] < U32_MAX)
    ensures Valid(c.(channels := C.Send(c.channels, channel, payload).channels), clock)
  {
    hide L.Valid, B.Consistent, A.BlocksFor, C.PendingBlocks;
    var s := C.Send(c.channels, channel, payload);
    if s.result.Queued? {
      var before, after := c.channels.pending, s.channels.pending;
      forall i, j | 0 <= i < j < |after| && after[i].channel == after[j].channel
        ensures after[i].id < after[j].id
      {
        assert after[i] in before;
      }
      assert forall p | p in after :: p in before || p == after[|before|];
    }
  }

  lemma HandleAckValid(c: Conn, clock: nat, now: nat, h: Header)
    requires Valid(c, clock) && now >= clock && HeaderShaped(h)
    ensures Valid(HandleAck(c, now, h), now)
  {
    hide L.Valid, QueueValid, NoneStranded, B.Consistent, ResolveAck, L.OnAck, Resolved;
    var ack := if h.ack.Some? then ResolveAck(c.crypto.nextSequence - 1, h.ack.value) else None;
    if ack.None? {
      ValidLater(c, clock, now);
    } else {
      ResolveAckBounds(c.crypto.nextSequence - 1, h.ack.value);
      var delay := DecodeAckDelay(h.ackDelay);
      RingNonEmpty(c.delivery, clock);
      L.OnAckValid(c.delivery, clock, now, ack.value, delay, h.ackBits);
      N.OnAckReported(c.delivery, clock, now, ack.value, delay, h.ackBits);
      L.OnAckKeepsSent(c.delivery, now, ack.value, delay, h.ackBits);
      var o := L.OnAck(c.delivery, now, ack.value, delay, h.ackBits);
      ResolvedValid(c, clock, now, o.ledger, o.notes);
    }
  }

  lemma ResolveAckBounds(newest: nat, wire: nat)
    requires wire < WIRE
    ensures ResolveAck(newest, wire).Some? ==> 1 <= ResolveAck(newest, wire).value <= newest
  {
  }

  lemma ValidLater(c: Conn, clock: nat, now: nat)
    requires Valid(c, clock) && now >= clock
    ensures Valid(c, now)
  {
    hide B.Consistent, QueueValid, NoneStranded, L.CountInFlight, L.OldestBound;
  }

  lemma ReadFrameValid(c: Conn, now: nat, f: Frame)
    requires Valid(c, now) && Encodable(c.channels.kinds, f)
    ensures Valid(ReadFrame(c, now, f).conn, now)
  {
    hide L.Valid, B.Consistent, QueueValid, NoneStranded, C.Receive, B.OnPathChange;
    ReadKeeps(c, now, f);
    PathChangeValid(c.delivery, now);
    B.OperationsConsistent(c.budget, now, 0, false, None);
    PathChangeKeepsRefill(c.budget, now);
    var r := ReadFrame(c, now, f).conn;
    QueueSame(c.channels, r.channels);
  }

  lemma PathChangeKeepsRefill(b: B.Budget, now: nat)
    ensures B.OnPathChange(b, now).lastRefill == b.lastRefill
  {
  }

  lemma QueueSame(a: C.Channels, b: C.Channels)
    requires C.Sized(a) && C.Sized(b) && QueueValid(a)
    requires b.pending == a.pending && b.kinds == a.kinds && b.nextIds == a.nextIds
    ensures QueueValid(b)
  {
  }

  lemma PathChangeValid(l: L.Ledger<Record>, clock: nat)
    requires L.Valid(l, clock)
    ensures L.Valid(L.OnPathChange(l), clock) && L.OnPathChange(l).ring == l.ring
  {
    hide L.CountInFlight, L.Chronological;
  }

  lemma {:induction false} ReadFramesValid(c: Conn, now: nat, frames: seq<Frame>)
    requires Valid(c, now) && AllEncodable(c.channels.kinds, frames)
    ensures Valid(ReadFrames(c, now, frames).conn, now)
    ensures ReadFrames(c, now, frames).conn.crypto == c.crypto
  {
    hide Valid, Encodable, ReadFrame;
    ValidShaped(c, now);
    if frames != [] {
      var n := |frames| - 1;
      ReadFramesValid(c, now, frames[..n]);
      var init := ReadFrames(c, now, frames[..n]);
      ValidShaped(init.conn, now);
      if init.ok {
        ReadKeeps(init.conn, now, frames[n]);
        ReadFrameValid(init.conn, now, frames[n]);
      }
    }
  }

  /** A datagram, whatever it is and whoever sent it. */
  lemma HandleDatagramValid(c: Conn, clock: nat, now: nat, from: nat, d: Datagram, token: nat)
    requires Valid(c, clock) && now >= clock && HeaderShaped(d.header) && token < U64
    ensures Valid(HandleDatagram(c, now, from, d, token).conn, now)
  {
    hide Parse, ReadFrames, HandleAck, L.Valid, QueueValid, NoneStranded, B.Consistent;
    ValidLater(c, clock, now);
    var s := SequenceOf(c.crypto, d.header);
    if s.Some? {
      var c1 := c.(crypto := c.crypto.(replay := c.crypto.replay.Inserted(s.value)));
      HandleBodyValid(c1, clock, now, from, d, s.value,
                      c.crypto.replay.newest == 0 || s.value == c.crypto.replay.newest + 1, token);
    }
  }

  lemma HandleBodyValid(c: Conn, clock: nat, now: nat, from: nat, d: Datagram, sequence: nat, inOrder: bool, token: nat)
    requires Valid(c, clock) && now >= clock && HeaderShaped(d.header) && token < U64
    ensures Valid(HandleBody(c, now, from, d, sequence, inOrder, token).conn, now)
  {
    hide Parse, ReadFrames, HandleAck, L.Valid, QueueValid, NoneStranded, B.Consistent;
    var c0 := c.(lastReceived := now);
    HandleAckKeeps(c0, now, d.header);
    HandleAckValid(c0, clock, now, d.header);
    var c1 := HandleAck(c0, now, d.header);
    ParseEncodable(c.channels.kinds, d.sealed.body, 0);
    ReadFramesValid(c1, now, Parse(c.channels.kinds, d.sealed.body, 0).frames);
  }

  lemma TimeoutValid(c: Conn, clock: nat, now: nat)
    requires Valid(c, clock) && now >= clock
    ensures Valid(HandleTimeout(c, now), now)
  {
    hide L.Valid, QueueValid, NoneStranded, B.Consistent, L.OnTimeout, Resolved;
    ValidLater(c, clock, now);
    RingNonEmpty(c.delivery, clock);
    L.OnTimeoutValid(c.delivery, clock, now);
    N.OnTimeoutReported(c.delivery, clock, now);
    L.OnTimeoutKeepsSent(c.delivery, now);
    var t := L.OnTimeout(c.delivery, now);
    ResolvedValid(c, clock, now, t.ledger, t.notes);
    ResolvedKeeps(c, t.ledger, t.notes);
  }

  lemma ResolvedKeeps(c: Conn, ledger: L.Ledger<Record>, notes: seq<L.Note<Record>>)
    ensures var r := Resolved(c, ledger, notes);
            r == c.(delivery := ledger, budget := r.budget, channels := c.channels.(pending := r.channels.pending))
  {
  }

  lemma ValidShaped(c: Conn, clock: nat)
    requires Valid(c, clock)
    ensures Shaped(c) && Transmittable(c)
  {
    hide L.Valid, NoneStranded, C.Sendable;
    B.RateBounds(c.budget.rate, c.budget.config);
  }

  // ----- Transmitting -----

  /** What committing leaves in flight: messages that were, and reliable ones just staged. */
  lemma CommittedFlight(kinds: Kinds, before: seq<Frame>, pending: seq<C.Pending>, s: C.Staging)
    requires Q.Filled(kinds, before, pending, s) && Q.Ordered(pending)
    ensures var after := C.Committed(kinds, s.pending, s.staged);
            && Q.Ordered(after) && |after| <= |pending|
            && (forall p | p in after :: p in s.pending)
            && (forall p | p in after && p.inFlight ::
                  p in pending || (kinds[p.channel].IsReliable() && C.KeyOf(p) in C.RecordOf(kinds, s.staged)))
  {
    hide Body, Encodable, C.ReleasedAll, C.KeysWhere;
    Q.SameMessagesKeeps(kinds, pending, s.pending);
    var dropped := C.KeysWhere(kinds, s.staged, false);
    Q.ReleasedAllExact(s.pending, dropped);
    Q.KeysWhereExact(kinds, s.staged, false);
    Q.KeysWhereExact(kinds, s.staged, true);
    var after := C.Committed(kinds, s.pending, s.staged);
    forall p | p in after && p.inFlight && p !in pending
      ensures kinds[p.channel].IsReliable() && C.KeyOf(p) in C.RecordOf(kinds, s.staged)
    {
      var i :| 0 <= i < |s.pending| && s.pending[i] == p;
      assert pending[i] in pending && Q.SameMessage(pending[i], s.pending[i]);
      assert pending[i] in s.staged;
      var k :| 0 <= k < |s.staged| && s.staged[k] == pending[i];
      assert C.KeyOf(s.staged[k]) == C.KeyOf(p) && s.staged[k].channel == p.channel;
    }
  }

  lemma QueueForSame(c: Conn)
    ensures Q.SameMessages(c.channels.pending, QueueFor(c))
    ensures forall p | p in QueueFor(c) && p.inFlight :: p in c.channels.pending
    ensures |QueueFor(c)| == |c.channels.pending|
  {
    var before, after := c.channels.pending, QueueFor(c);
    Q.RequeuedSame(before, PROBE_MESSAGES);
    forall p | p in after && p.inFlight
      ensures p in before
    {
      var i :| 0 <= i < |after| && after[i] == p;
      assert Q.SameMessage(before[i], after[i]) && before[i] == p;
    }
  }

  /** The queue after a commit, before the ledger speaks. */
  lemma CommittedQueue(c: Conn, clock: nat, d: Draft)
    requires Valid(c, clock) && Q.Filled(c.channels.kinds, d.control, QueueFor(c), d.staging)
    ensures QueueValid(c.channels.(pending := C.Committed(c.channels.kinds, d.staging.pending, d.staging.staged)))
    ensures Q.Ordered(QueueFor(c))
  {
    hide L.Valid, B.Consistent, NoneStranded, Body, Encodable, QueueFor, C.Committed;
    var kinds, s := c.channels.kinds, d.staging;
    QueueForSame(c);
    Q.SameMessagesKeeps(kinds, c.channels.pending, QueueFor(c));
    Q.SameMessagesKeeps(kinds, QueueFor(c), s.pending);
    CommittedFlight(kinds, d.control, QueueFor(c), s);
    var after := C.Committed(kinds, s.pending, s.staged);
    forall p | p in after
      ensures C.Sendable(kinds, p) && p.id < c.channels.nextIds[p.channel]
    {
      var i :| 0 <= i < |s.pending| && s.pending[i] == p;
      assert Q.SameMessage(QueueFor(c)[i], s.pending[i]) && Q.SameMessage(c.channels.pending[i], QueueFor(c)[i]);
      assert c.channels.pending[i] in c.channels.pending;
      assert C.Sendable(kinds, c.channels.pending[i]);
    }
    assert forall i | 0 <= i < |after| :: after[i] in after;
  }

  lemma CommittedStrandsNone(c: Conn, clock: nat, now: nat, d: Draft)
    requires Valid(c, clock) && now >= clock && Q.Filled(c.channels.kinds, d.control, QueueFor(c), d.staging)
    ensures var r := Committed(c, now, d).conn;
            |r.delivery.ring| > 0 && NoneStranded(r.channels.kinds, r.channels.pending, r.delivery.ring)
  {
    hide L.Valid, B.Consistent, QueueFor, C.Committed, L.OnSent, ApplyNotes, Settled, B.Advance, Sealed, BuildHeader,
         HeaderLen, C.RecordOf, NoneStranded, QueueValid, N.AllAccounted, N.AllSourced, Q.Filled, Q.Ordered;
    var kinds, s, q := c.channels.kinds, d.staging, c.crypto.nextSequence;
    FilledSendable(c, d);
    QueueForSame(c);
    CommittedQueue(c, clock, d);
    CommittedFlight(kinds, d.control, QueueFor(c), s);
    RingNonEmpty(c.delivery, clock);
    var pending := C.Committed(kinds, s.pending, s.staged);
    QueueChannels(c.channels.(pending := pending));
    var eliciting := d.control != [] || s.staged != [];
    var record := C.RecordOf(kinds, s.staged);
    RecordNeedsMessages(kinds, s.staged);
    var outgoing := if eliciting then L.Eliciting(record) else L.AckOnly;
    N.OnSentReported(c.delivery, clock, now, q, outgoing);
    var o := L.OnSent(c.delivery, now, q, outgoing);
    var a := Applied(pending, B.Advance(c.budget, now));
    NotesSettle(a, o.notes);
    SentStrandsNone(kinds, c.channels.pending, pending, ApplyNotes(a, o.notes).pending, c.delivery.ring, o.ledger.ring,
                    o.notes, q, record);
  }

  lemma RecordNeedsMessages(kinds: Kinds, staged: seq<C.Pending>)
    requires C.AllSendable(kinds, staged)
    ensures C.RecordOf(kinds, staged) != [] ==> staged != []
  {
  }

  lemma QueueChannels(c: C.Channels)
    requires C.Sized(c) && QueueValid(c)
    ensures forall p | p in c.pending :: p.channel < |c.kinds|
  {
  }

  lemma SentStrandsNone(kinds: Kinds, before: seq<C.Pending>, pending: seq<C.Pending>, after: seq<C.Pending>,
                        ring: L.Ring<Record>, ring': L.Ring<Record>, notes: seq<L.Note<Record>>, q: nat, record: Record)
    requires |ring| > 0 && |ring'| > 0
    requires NoneStranded(kinds, before, ring) && Settled(pending, after, notes) && N.AllAccounted(ring, ring', notes)
    requires forall p | p in pending :: p.channel < |kinds|
    requires forall p | p in pending && p.inFlight ::
               p in before || (kinds[p.channel].IsReliable() && C.KeyOf(p) in record)
    requires record != [] ==> L.IsInFlight(ring', q) && L.Get(ring', q).value.state.record == record
    ensures NoneStranded(kinds, after, ring')
  {
    forall p | p in after && p.inFlight
      ensures p.channel < |kinds| && kinds[p.channel].IsReliable() && Carried(ring', C.KeyOf(p))
    {
      assert p in pending;
      if p in before {
        var w: nat :| L.IsInFlight(ring, w) && C.KeyOf(p) in L.Get(ring, w).value.state.record;
        assert N.Accounted(ring, ring', notes, w);
        if L.Get(ring', w) != L.Get(ring, w) {
          var k :| 0 <= k < |notes| && notes[k].num == w && !notes[k].what.Spurious?
                   && notes[k].what.record == L.Get(ring, w).value.state.record;
          assert Settles(notes[k], C.KeyOf(p));
          assert false;
        }
        assert L.IsInFlight(ring', w);
      } else {
        assert L.IsInFlight(ring', q) && C.KeyOf(p) in L.Get(ring', q).value.state.record;
      }
    }
  }

  lemma CommittedValid(c: Conn, clock: nat, now: nat, d: Draft)
    requires Valid(c, clock) && now >= clock && Q.Filled(c.channels.kinds, d.control, QueueFor(c), d.staging)
    ensures Valid(Committed(c, now, d).conn, now)
  {
    hide L.Valid, B.Consistent, Body, Encodable, QueueFor, C.Committed, L.OnSent, ApplyNotes, Settled, B.Advance,
         B.OnSent, Sealed, BuildHeader, HeaderLen, C.RecordOf, NoneStranded, QueueValid, Q.Filled, Q.Ordered;
    var kinds, s, q := c.channels.kinds, d.staging, c.crypto.nextSequence;
    FilledSendable(c, d);
    CommittedQueue(c, clock, d);
    CommittedStrandsNone(c, clock, now, d);
    var pending := C.Committed(kinds, s.pending, s.staged);
    var sent := c.channels.(pending := pending);
    var eliciting := d.control != [] || s.staged != [];
    var outgoing := if eliciting then L.Eliciting(C.RecordOf(kinds, s.staged)) else L.AckOnly;
    L.OnSentValid(c.delivery, clock, now, q, outgoing);
    var o := L.OnSent(c.delivery, now, q, outgoing);
    RingNonEmpty(o.ledger, now);
    var a := Applied(pending, B.Advance(c.budget, now));
    QueueOrdered(sent);
    NotesSettle(a, o.notes);
    SettledKeepsQueue(sent, ApplyNotes(a, o.notes).pending, o.notes);
    B.OperationsConsistent(c.budget, now, 0, false, None);
    AdvanceRefilled(c.budget, clock, now);
    var packet := Packet(q, d.header, Sealed(s.body, Room(d.header)));
    var b := ApplyNotes(a, o.notes).budget;
    B.OperationsConsistent(b, now, DatagramLen(packet), eliciting, None);
    OnSentRefilled(b, DatagramLen(packet), eliciting);
    var r := Committed(c, now, d).conn;
    assert r.delivery == o.ledger && r.channels == sent.(pending := ApplyNotes(a, o.notes).pending);
    assert r.budget == B.OnSent(b, DatagramLen(packet), eliciting);
  }

  lemma FilledSendable(c: Conn, d: Draft)
    requires Q.Filled(c.channels.kinds, d.control, QueueFor(c), d.staging)
    ensures C.AllSendable(c.channels.kinds, d.staging.staged)
  {
  }

  lemma AdvanceRefilled(b: B.Budget, clock: nat, now: nat)
    requires b.lastRefill <= clock <= now
    ensures B.Advance(b, now).lastRefill == now
  {
  }

  lemma OnSentRefilled(b: B.Budget, len: nat, eliciting: bool)
    ensures B.OnSent(b, len, eliciting).lastRefill == b.lastRefill
  {
  }
}
