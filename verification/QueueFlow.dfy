/** How each step of a connection moves messages through its send queue: nothing appears that
was not queued, and a reliable message leaves only when a packet carrying it is acknowledged. */
module QueueFlow {
  import opened Machine
  import opened Frames
  import opened Sequences
  import opened Connection
  import L = Ledger
  import N = LedgerNotes
  import B = Budget
  import C = Channels
  import Q = SendQueue
  import I = ConnectionInvariant

  /** Every message in `after` was in `before`, whatever its flight mark. */
  ghost predicate From(before: seq<C.Pending>, after: seq<C.Pending>) {
    forall p | p in after :: p in before || p.(inFlight := !p.inFlight) in before
  }

  /** The queue still has the message with this key. */
  ghost predicate Queued(pending: seq<C.Pending>, key: C.Key) {
    exists p :: p in pending && C.KeyOf(p) == key
  }

  /** Every reliable message of `before` is still queued. */
  ghost predicate Retains(kinds: Kinds, before: seq<C.Pending>, after: seq<C.Pending>) {
    forall p | p in before && p.channel < |kinds| && kinds[p.channel].IsReliable() :: Queued(after, C.KeyOf(p))
  }

  lemma FromTrans(a: seq<C.Pending>, b: seq<C.Pending>, c: seq<C.Pending>)
    requires From(a, b) && From(b, c)
    ensures From(a, c)
  {
    forall p | p in c
      ensures p in a || p.(inFlight := !p.inFlight) in a
    {
      var q := if p in b then p else p.(inFlight := !p.inFlight);
      assert q in b;
      assert p == q || p == q.(inFlight := !q.inFlight);
    }
  }

  lemma RetainsTrans(kinds: Kinds, a: seq<C.Pending>, b: seq<C.Pending>, c: seq<C.Pending>)
    requires Retains(kinds, a, b) && Retains(kinds, b, c)
    ensures Retains(kinds, a, c)
  {
    forall p | p in a && p.channel < |kinds| && kinds[p.channel].IsReliable()
      ensures Queued(c, C.KeyOf(p))
    {
      var q :| q in b && C.KeyOf(q) == C.KeyOf(p);
      assert Queued(c, C.KeyOf(q));
    }
  }

  lemma SameFlows(kinds: Kinds, a: seq<C.Pending>, b: seq<C.Pending>)
    requires Q.SameMessages(a, b)
    ensures From(a, b) && Retains(kinds, a, b)
  {
    forall p | p in b
      ensures p in a || p.(inFlight := !p.inFlight) in a
    {
      var i :| 0 <= i < |b| && b[i] == p;
      assert Q.SameMessage(a[i], b[i]);
      assert a[i] in a && (a[i] == p || a[i] == p.(inFlight := !p.inFlight));
    }
    forall p | p in a
      ensures Queued(b, C.KeyOf(p))
    {
      var i :| 0 <= i < |a| && a[i] == p;
      assert Q.SameMessage(a[i], b[i]);
      assert b[i] in b && C.KeyOf(b[i]) == C.KeyOf(p);
    }
  }

  lemma CommittedFlows(kinds: Kinds, pending: seq<C.Pending>, staged: seq<C.Pending>)
    requires C.AllSendable(kinds, staged) && Q.Ordered(pending)
    ensures From(pending, C.Committed(kinds, pending, staged))
    ensures Retains(kinds, pending, C.Committed(kinds, pending, staged))
  {
    hide C.KeysWhere, C.ReleasedAll, Q.Ordered;
    Q.ReleasedAllExact(pending, C.KeysWhere(kinds, staged, false));
    Q.KeysWhereExact(kinds, staged, false);
    forall p | p in pending && p.channel < |kinds| && kinds[p.channel].IsReliable()
      ensures Queued(C.Committed(kinds, pending, staged), C.KeyOf(p))
    {
      assert p in C.Committed(kinds, pending, staged);
    }
  }

  lemma SettledFlows(kinds: Kinds, before: seq<C.Pending>, after: seq<C.Pending>, notes: seq<L.Note<Record>>)
    requires I.Settled(before, after, notes)
    ensures From(before, after)
    ensures (forall k | 0 <= k < |notes| :: !notes[k].what.Acked?) ==> Retains(kinds, before, after)
  {
    if forall k | 0 <= k < |notes| :: !notes[k].what.Acked? {
      forall p | p in before
        ensures Queued(after, C.KeyOf(p))
      {
        var q := if p in after then p else p.(inFlight := false);
        assert q in after && C.KeyOf(q) == C.KeyOf(p);
      }
    }
  }

  /** The parts of a connection that matter to its peer, after a commit. */
  lemma CommittedParts(c: Conn, now: nat, d: Draft)
    requires Shaped(c) && C.AllSendable(c.channels.kinds, d.staging.staged)
    ensures var kinds, q, staged := c.channels.kinds, c.crypto.nextSequence, d.staging.staged;
            var o := L.OnSent(c.delivery, now, q,
                              if d.control != [] || staged != [] then L.Eliciting(C.RecordOf(kinds, staged))
                              else L.AckOnly);
            var r := Committed(c, now, d).conn;
            && r.delivery == o.ledger
            && r.crypto == c.crypto.(nextSequence := q + 1)
            && r.channels == c.channels.(pending :=
                 ApplyNotes(Applied(C.Committed(kinds, d.staging.pending, staged), B.Advance(c.budget, now)),
                            o.notes).pending)
  {
    hide L.OnSent, ApplyNotes, Sealed, C.Committed, C.RecordOf, B.Advance, B.OnSent, HeaderLen;
  }

  /** Sending a packet keeps every reliable message queued. */
  lemma CommitFlows(c: Conn, clock: nat, now: nat, d: Draft)
    requires I.Valid(c, clock) && now >= clock && Q.Filled(c.channels.kinds, d.control, QueueFor(c), d.staging)
    ensures C.AllSendable(c.channels.kinds, d.staging.staged)
    ensures var r := Committed(c, now, d).conn;
            && From(c.channels.pending, r.channels.pending)
            && Retains(c.channels.kinds, c.channels.pending, r.channels.pending)
  {
    hide L.OnSent, ApplyNotes, Sealed, C.Committed, C.RecordOf, B.Advance, QueueFor, From, Retains, I.Settled,
         L.Valid, I.NoneStranded, I.QueueValid, B.Consistent, Committed, Q.Filled, Q.Ordered;
    I.FilledSendable(c, d);
    CommittedParts(c, now, d);
    var kinds, q, s := c.channels.kinds, c.crypto.nextSequence, d.staging;
    I.QueueForSame(c);
    SameFlows(kinds, c.channels.pending, QueueFor(c));
    FilledSame(c, d);
    SameFlows(kinds, QueueFor(c), s.pending);
    I.CommittedQueue(c, clock, d);
    Q.SameMessagesKeeps(kinds, QueueFor(c), s.pending);
    CommittedFlows(kinds, s.pending, s.staged);
    var pending := C.Committed(kinds, s.pending, s.staged);
    var outgoing := if d.control != [] || s.staged != [] then L.Eliciting(C.RecordOf(kinds, s.staged)) else L.AckOnly;
    I.RingNonEmpty(c.delivery, clock);
    N.OnSentReported(c.delivery, clock, now, q, outgoing);
    var o := L.OnSent(c.delivery, now, q, outgoing);
    var a := Applied(pending, B.Advance(c.budget, now));
    I.QueueOrdered(c.channels.(pending := pending));
    I.NotesSettle(a, o.notes);
    var after := ApplyNotes(a, o.notes).pending;
    SettledFlows(kinds, pending, after, o.notes);
    FromTrans(c.channels.pending, QueueFor(c), s.pending);
    FromTrans(c.channels.pending, s.pending, pending);
    FromTrans(c.channels.pending, pending, after);
    RetainsTrans(kinds, c.channels.pending, QueueFor(c), s.pending);
    RetainsTrans(kinds, c.channels.pending, s.pending, pending);
    RetainsTrans(kinds, c.channels.pending, pending, after);
  }

  lemma FilledSame(c: Conn, d: Draft)
    requires Q.Filled(c.channels.kinds, d.control, QueueFor(c), d.staging)
    ensures Q.SameMessages(QueueFor(c), d.staging.pending)
  {
  }

  /** A timeout loses packets but never messages. */
  lemma TimeoutFlows(c: Conn, clock: nat, now: nat)
    requires I.Valid(c, clock) && now >= clock
    ensures var r := HandleTimeout(c, now);
            && From(c.channels.pending, r.channels.pending)
            && Retains(c.channels.kinds, c.channels.pending, r.channels.pending)
            && r.channels == c.channels.(pending := r.channels.pending)
            && r.crypto == c.crypto
            && |r.delivery.ring| > 0 && N.NoNewFlight(c.delivery.ring, r.delivery.ring)
  {
    hide L.OnTimeout, ApplyNotes, I.Settled, L.Valid, I.NoneStranded, B.Consistent, From, Retains, Q.Ordered;
    I.RingNonEmpty(c.delivery, clock);
    N.OnTimeoutReported(c.delivery, clock, now);
    var t := L.OnTimeout(c.delivery, now);
    var a := Applied(c.channels.pending, c.budget);
    I.QueueOrdered(c.channels);
    I.NotesSettle(a, t.notes);
    SettledFlows(c.channels.kinds, c.channels.pending, ApplyNotes(a, t.notes).pending, t.notes);
    FlowSelf(c.channels.kinds, c.channels.pending);
  }

  lemma FlowSelf(kinds: Kinds, pending: seq<C.Pending>)
    ensures From(pending, pending) && Retains(kinds, pending, pending)
  {
  }

  // ----- Receiving -----

  /** The sequences a header acknowledges, as this connection resolves them. */
  function AckNames(c: Conn, h: Header): seq<nat>
    requires Shaped(c) && HeaderShaped(h)
  {
    var ack := if h.ack.Some? then ResolveAck(c.crypto.nextSequence - 1, h.ack.value) else None;
    if ack.None? then [] else L.Named(ack.value, h.ackBits, |h.ackBits|)
  }

  /** A message leaves only when a packet that carried it is named by the acknowledgement. */
  ghost predicate LeavesByAck(ring: L.Ring<Record>, before: seq<C.Pending>, after: seq<C.Pending>, named: seq<nat>)
    requires |ring| > 0
  {
    forall p | p in before ::
      || Queued(after, C.KeyOf(p))
      || exists q: nat :: q in named && L.IsInFlight(ring, q) && C.KeyOf(p) in L.Get(ring, q).value.state.record
  }

  /** And every message such a packet carried leaves. */
  ghost predicate LetGo(ring: L.Ring<Record>, after: seq<C.Pending>, named: seq<nat>)
    requires |ring| > 0
  {
    forall q | q in named && L.IsInFlight(ring, q) ::
      forall key | key in L.Get(ring, q).value.state.record :: !Queued(after, key)
  }

  /** A queued message changes only when a packet that carried it leaves the flight. */
  ghost predicate AltersByLeaving(ring: L.Ring<Record>, before: seq<C.Pending>, ring': L.Ring<Record>,
                                  after: seq<C.Pending>)
    requires |ring| > 0 && |ring'| > 0
  {
    forall p | p in before && p !in after ::
      exists q: nat :: L.IsInFlight(ring, q) && C.KeyOf(p) in L.Get(ring, q).value.state.record
                       && !L.IsInFlight(ring', q)
  }

  lemma SettledAlters(ring: L.Ring<Record>, before: seq<C.Pending>, ring': L.Ring<Record>, after: seq<C.Pending>,
                      notes: seq<L.Note<Record>>)
    requires |ring| > 0 && |ring'| > 0 && I.Settled(before, after, notes)
    requires N.AllSourced(ring, notes) && N.AllLeft(ring', notes)
    ensures AltersByLeaving(ring, before, ring', after)
  {
    forall p | p in before && p !in after
      ensures exists q: nat :: L.IsInFlight(ring, q) && C.KeyOf(p) in L.Get(ring, q).value.state.record
                               && !L.IsInFlight(ring', q)
    {
      var k :| 0 <= k < |notes| && I.Settles(notes[k], C.KeyOf(p));
      assert N.Sourced(ring, notes[k]) && !L.IsInFlight(ring', notes[k].num);
    }
  }

  lemma SettledLetsGo(ring: L.Ring<Record>, before: seq<C.Pending>, after: seq<C.Pending>,
                      notes: seq<L.Note<Record>>, named: seq<nat>)
    requires |ring| > 0 && I.Settled(before, after, notes) && N.AllConfirmed(ring, named, notes)
    ensures LetGo(ring, after, named)
  {
    forall q, key | q in named && L.IsInFlight(ring, q) && key in L.Get(ring, q).value.state.record
      ensures !Queued(after, key)
    {
      var k :| 0 <= k < |notes| && notes[k].num == q && notes[k].what == L.Acked(L.Get(ring, q).value.state.record);
      assert I.Acknowledges(notes[k], key);
    }
  }

  lemma SettledLeaves(ring: L.Ring<Record>, before: seq<C.Pending>, after: seq<C.Pending>,
                      notes: seq<L.Note<Record>>, named: seq<nat>)
    requires |ring| > 0 && I.Settled(before, after, notes) && N.AllSourced(ring, notes)
    requires forall k | 0 <= k < |notes| && notes[k].what.Acked? :: notes[k].num in named
    ensures LeavesByAck(ring, before, after, named)
  {
    forall p | p in before
      ensures Queued(after, C.KeyOf(p))
              || exists q: nat :: q in named && L.IsInFlight(ring, q) && C.KeyOf(p) in L.Get(ring, q).value.state.record
    {
      if k :| 0 <= k < |notes| && I.Acknowledges(notes[k], C.KeyOf(p)) {
        assert N.Sourced(ring, notes[k]);
      } else {
        var q := if p in after then p else p.(inFlight := false);
        assert q in after && C.KeyOf(q) == C.KeyOf(p);
      }
    }
  }

  /** How an acknowledgement moves the queue and the flight. */
  ghost predicate AckFlow(c: Conn, r: Conn, named: seq<nat>) {
    && |c.delivery.ring| > 0 && |r.delivery.ring| > 0
    && From(c.channels.pending, r.channels.pending)
    && LeavesByAck(c.delivery.ring, c.channels.pending, r.channels.pending, named)
    && N.NoNewFlight(c.delivery.ring, r.delivery.ring)
    && AltersByLeaving(c.delivery.ring, c.channels.pending, r.delivery.ring, r.channels.pending)
  }

  lemma AckFlowSelf(c: Conn, r: Conn)
    requires |c.delivery.ring| > 0 && r.delivery.ring == c.delivery.ring && r.channels.pending == c.channels.pending
    ensures forall named: seq<nat> :: AckFlow(c, r, named)
  {
  }

  lemma HandleAckFlows(c: Conn, clock: nat, now: nat, h: Header)
    requires I.Valid(c, clock) && now >= clock && HeaderShaped(h)
    ensures Shaped(c) && AckFlow(c, HandleAck(c, now, h), AckNames(c, h))
    ensures LetGo(c.delivery.ring, HandleAck(c, now, h).channels.pending, AckNames(c, h))
  {
    hide L.OnAck, ApplyNotes, I.Settled, L.Valid, I.NoneStranded, B.Consistent, From, LeavesByAck, Q.Ordered,
         ResolveAck, L.Named, N.NoNewFlight, I.QueueValid, N.AllConfirmed, LetGo, AltersByLeaving;
    I.RingNonEmpty(c.delivery, clock);
    var ack := if h.ack.Some? then ResolveAck(c.crypto.nextSequence - 1, h.ack.value) else None;
    if ack.None? {
      AckFlowSelf(c, c);
      assert AckFlow(c, c, AckNames(c, h));
      LetsNothingGo(c.delivery.ring, c.channels.pending);
    } else {
      I.ResolveAckBounds(c.crypto.nextSequence - 1, h.ack.value);
      var delay := DecodeAckDelay(h.ackDelay);
      N.OnAckReported(c.delivery, clock, now, ack.value, delay, h.ackBits);
      var o := L.OnAck(c.delivery, now, ack.value, delay, h.ackBits);
      var a := Applied(c.channels.pending, c.budget);
      I.QueueOrdered(c.channels);
      I.NotesSettle(a, o.notes);
      SettledFlows(c.channels.kinds, c.channels.pending, ApplyNotes(a, o.notes).pending, o.notes);
      SettledLeaves(c.delivery.ring, c.channels.pending, ApplyNotes(a, o.notes).pending, o.notes, AckNames(c, h));
      SettledLetsGo(c.delivery.ring, c.channels.pending, ApplyNotes(a, o.notes).pending, o.notes, AckNames(c, h));
      SettledAlters(c.delivery.ring, c.channels.pending, o.ledger.ring, ApplyNotes(a, o.notes).pending, o.notes);
    }
  }

  lemma LetsNothingGo(ring: L.Ring<Record>, after: seq<C.Pending>)
    requires |ring| > 0
    ensures LetGo(ring, after, [])
  {
  }

  /** Reading frames leaves the send side alone. */
  lemma {:induction false} ReadFramesKeep(c: Conn, now: nat, frames: seq<Frame>)
    requires Shaped(c) && AllEncodable(c.channels.kinds, frames)
    ensures var r := ReadFrames(c, now, frames).conn;
            && r.channels.pending == c.channels.pending && r.channels.nextIds == c.channels.nextIds
            && r.crypto == c.crypto && r.delivery.ring == c.delivery.ring
  {
    hide ReadFrame, Encodable;
    if frames != [] {
      var n := |frames| - 1;
      ReadFramesKeep(c, now, frames[..n]);
      var init := ReadFrames(c, now, frames[..n]);
      if init.ok {
        ReadKeeps(init.conn, now, frames[n]);
      }
    }
  }

  /** The connection opens the datagram and reads it. */
  predicate OpensAt(c: Conn, d: Datagram)
    requires HeaderShaped(d.header)
  {
    var s := SequenceOf(c.crypto, d.header);
    !c.lifecycle.Closed? && s.Some? && c.crypto.replay.Check(s.value) == Fresh && Opens(d, s.value)
  }

  /** What a datagram does to the send side: what its acknowledgement names, exactly if it opens. */
  lemma HandleDatagramFlows(c: Conn, clock: nat, now: nat, from: nat, d: Datagram, token: nat)
    requires I.Valid(c, clock) && now >= clock && HeaderShaped(d.header)
    ensures Shaped(c)
    ensures var r := HandleDatagram(c, now, from, d, token).conn;
            && r.channels.nextIds == c.channels.nextIds && r.channels.kinds == c.channels.kinds
            && r.crypto.nextSequence == c.crypto.nextSequence
            && AckFlow(c, r, AckNames(c, d.header))
            && (d.header != d.sealed.header ==> r == c)
            && (OpensAt(c, d) ==> LetGo(c.delivery.ring, r.channels.pending, AckNames(c, d.header)))
  {
    hide I.Valid, AckFlow, AckNames, HandleAck, Parse, ReadFrames, LetGo;
    I.ValidShaped(c, clock);
    AckFlowSelf(c, c);
    assert AckFlow(c, c, AckNames(c, d.header));
    var s := SequenceOf(c.crypto, d.header);
    if OpensAt(c, d) {
      var c1 := c.(crypto := c.crypto.(replay := c.crypto.replay.Inserted(s.value)), lastReceived := now);
      ReplayValid(c, clock, c1);
      HandleAckFlows(c1, clock, now, d.header);
      HandleAckKeeps(c1, now, d.header);
      var c2 := HandleAck(c1, now, d.header);
      ParseEncodable(c.channels.kinds, d.sealed.body, 0);
      ReadFramesKeep(c2, now, Parse(c.channels.kinds, d.sealed.body, 0).frames);
      var r := HandleDatagram(c, now, from, d, token).conn;
      AckFlowSame(c, c1, c2, r, d.header);
    }
  }

  lemma ReplayValid(c: Conn, clock: nat, c1: Conn)
    requires I.Valid(c, clock)
    requires c1 == c.(crypto := c.crypto.(replay := c1.crypto.replay), lastReceived := c1.lastReceived)
    ensures I.Valid(c1, clock)
  {
    hide L.Valid, I.NoneStranded, B.Consistent, I.QueueValid;
  }

  lemma AckFlowSame(c: Conn, c1: Conn, c2: Conn, r: Conn, h: Header)
    requires Shaped(c) && Shaped(c1) && HeaderShaped(h)
    requires c1 == c.(crypto := c.crypto.(replay := c1.crypto.replay), lastReceived := c1.lastReceived)
    requires AckFlow(c1, c2, AckNames(c1, h))
    requires r.channels.pending == c2.channels.pending && r.delivery.ring == c2.delivery.ring
    requires LetGo(c1.delivery.ring, c2.channels.pending, AckNames(c1, h))
    ensures AckFlow(c, r, AckNames(c, h)) && LetGo(c.delivery.ring, r.channels.pending, AckNames(c, h))
  {
    hide LeavesByAck, From, ResolveAck, L.Named, LetGo, AltersByLeaving;
  }
}
