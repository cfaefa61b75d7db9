/** What it takes to lose nothing. A whole world has every accepted message with the receiver or
in the sender's queue. Then what the receiver lacks is close ahead of what it expects, so an id
is misread only in a message it has had for more than half a wire range. */
module Complete {
  import opened Machine
  import opened Counting
  import opened Sequences
  import opened Frames
  import opened Connection
  import opened PacketReading
  import opened OrderedDelivery
  import opened TwoParty
  import opened TwoPartyRuns
  import L = Ledger
  import B = Budget
  import C = Channels
  import I = ConnectionInvariant
  import F = QueueFlow

  // ----- Ids -----

  function PendingIds(pending: seq<C.Pending>): seq<nat>
  {
    seq(|pending|, i requires 0 <= i < |pending| => pending[i].id)
  }

  function HeldIds(held: seq<C.Held>): seq<nat> { seq(|held|, i requires 0 <= i < |held| => held[i].id) }

  ghost predicate FewEach(sent: seq<Sent>)
  {
    forall s | 0 <= s < |sent| :: |sent[s].staged| <= C.MAX_MESSAGES_PER_PACKET
  }

  // ----- The invariant -----

  predicate OrderedChannel(kinds: Kinds, ch: nat) { ch < |kinds| && kinds[ch].ReliableOrdered? }

  /** No accepted message is lost: the receiver has it or the sender still queues it. */
  ghost predicate NoneLost(kinds: Kinds, accepted: PerChannel, pending: seq<C.Pending>, b: C.Channels)
    requires C.Sized(b)
  {
    forall ch: nat, id: nat | OrderedChannel(kinds, ch) && id < |accepted[ch]| ::
      Has(b, ch, id) || F.Queued(pending, C.Key(ch, id))
  }

  /** A packet reported read has left everything in it with the receiver. */
  ghost predicate ReadKept(b: C.Channels, sent: seq<Sent>, read: set<nat>)
    requires C.Sized(b)
  {
    forall q | q in read :: 1 <= q <= |sent| && HasAll(b, sent[q - 1].staged)
  }

  ghost predicate Whole(w: World) {
    && Inv(w) && C.Sized(w.a.channels) && C.Sized(w.b.channels)
    && w.b.channels.dropped == 0 && |w.b.channels.held| <= C.MAX_HELD
    && NoneLost(w.kinds, w.accepted, w.a.channels.pending, w.b.channels)
    && ReadKept(w.b.channels, w.sent, w.read)
  }

  /** The receiver is never far behind: what it lacks is queued at the sender or in its own hold. */
  lemma NotFarBehind(kinds: Kinds, accepted: PerChannel, pending: seq<C.Pending>, b: C.Channels, ch: nat,
                     delivered: seq<Bytes>)
    requires C.Sized(b) && OrderedChannel(kinds, ch) && NoneLost(kinds, accepted, pending, b)
    requires InOrder(b, ch, accepted[ch], delivered)
    requires |pending| <= C.MAX_PENDING && |b.held| <= C.MAX_HELD
    ensures |accepted[ch]| - |delivered| <= C.MAX_PENDING + C.MAX_HELD
  {
    var lo, hi := |delivered|, |accepted[ch]|;
    var ids := PendingIds(pending) + HeldIds(b.held);
    forall id: nat | lo <= id < hi
      ensures id in ids
    {
      if Has(b, ch, id) {
        var h :| h in b.held && h.channel == ch && h.id == id;
        var k :| 0 <= k < |b.held| && b.held[k] == h;
        assert ids[|pending| + k] == id;
      } else {
        var p :| p in pending && C.KeyOf(p) == C.Key(ch, id);
        var k :| 0 <= k < |pending| && pending[k] == p;
        assert ids[k] == id;
      }
    }
    CoverSize(lo, hi, ids);
  }

  // ----- Which ids are read exactly -----

  /** So far behind what the receiver expects that the wire bits name a later message. It was
  delivered long ago. */
  ghost predicate Stale(c: C.Channels, m: C.Pending)
    requires C.Sized(c)
  {
    OnOrdered(c.kinds, m) && m.id + HALF_WIRE < c.receivers[m.channel].expected
  }

  /** No message of the packet is stale, each judged when it is read. */
  ghost predicate NoneStale(c: C.Channels, staged: seq<C.Pending>)
    requires C.Sized(c) && C.AllSendable(c.kinds, staged)
  {
    staged == [] ||
    (var init := staged[..|staged| - 1];
     && NoneStale(c, init)
     && (ReadMessages(c, init).ok ==> !Stale(ReadMessages(c, init).channels, staged[|staged| - 1])))
  }

  /** Where a packet is opened, it repeats nothing delivered more than half a wire range ago. */
  ghost predicate Timely(w: World, s: Step)
    requires C.Sized(w.b.channels)
  {
    s.Arrive? && s.i < |w.sent| && HeaderShaped(s.header) && OpensAtB(w, s.i, s.header) ==>
      && C.AllSendable(w.b.channels.kinds, w.sent[s.i].staged)
      && NoneStale(w.b.channels, w.sent[s.i].staged)
  }

  /** A packet of the log, as the receiver of a whole world reads it. */
  ghost predicate Readable(w: World, i: nat) {
    Whole(w) && i < |w.sent| && C.AllSendable(w.b.channels.kinds, w.sent[i].staged)
  }

  lemma ReadableParts(w: World, i: nat)
    requires Readable(w, i)
    ensures w.b.channels.kinds == w.kinds && AllInOrder(w.b.channels, w.accepted, w.delivered)
    ensures AllGenuine(w.accepted, w.sent[i].staged) && FewEach(w.sent)
    ensures |w.a.channels.pending| <= C.MAX_PENDING
    ensures forall q | q in w.unsealed :: q <= w.b.crypto.replay.newest && q <= |w.sent|
  {
    hide L.Valid, I.NoneStranded, B.Consistent, AllInOrder, SenderOk, FlightOk, RepliesOk, AllGenuine, AllEncodable,
         Body, Sealed, NoneLost, ReadKept, C.AllSendable;
    assert EntryOk(w.kinds, w.sent[i], i + 1, w.accepted);
    forall s | 0 <= s < |w.sent|
      ensures |w.sent[s].staged| <= C.MAX_MESSAGES_PER_PACKET
    {
      assert EntryOk(w.kinds, w.sent[s], s + 1, w.accepted);
    }
  }

  /** Mid-packet, the ids accepted and not delivered begin with the one expected, and are few. */
  lemma ReadSoFar(w: World, i: nat, init: seq<C.Pending>, m: C.Pending)
    requires Readable(w, i) && init + [m] <= w.sent[i].staged && C.AllSendable(w.b.channels.kinds, init)
    requires ReadsExactly(w.b.channels, init) && OnOrdered(w.b.channels.kinds, m)
    ensures var expected := ReadMessages(w.b.channels, init).channels.receivers[m.channel].expected;
            && m.id < |w.accepted[m.channel]| <= expected + C.MAX_PENDING + C.MAX_HELD
            && expected < U32 && |w.accepted[m.channel]| < U32
  {
    hide Inv, ReadsExactly, NoneLost, ReadKept, ReadMessages, AllKept;
    var r, ch := ReadMessages(w.b.channels, init), m.channel;
    ReadableParts(w, i);
    assert m == (init + [m])[|init|] && m in w.sent[i].staged;
    PrefixGenuine(w.accepted, init, m, w.sent[i].staged);
    ReadMessagesOk(w.b.channels, w.accepted, w.delivered, init);
    assert InOrder(r.channels, ch, w.accepted[ch], Extended(w.delivered, r.delivered)[ch]);
    NotFarBehind(w.kinds, w.accepted, w.a.channels.pending, w.b.channels, ch, w.delivered[ch]);
    assert Genuine(w.accepted, m);
  }

  /** The next id of an opened packet is read as itself exactly when it is not stale. */
  lemma ExactNext(w: World, i: nat, init: seq<C.Pending>, m: C.Pending)
    requires Readable(w, i) && init + [m] <= w.sent[i].staged && C.AllSendable(w.b.channels.kinds, init)
    requires ReadsExactly(w.b.channels, init)
    ensures var c := ReadMessages(w.b.channels, init).channels; Exact(c, m) <==> !Stale(c, m)
  {
    hide Readable, ReadsExactly, ReadMessages, C.FromWire;
    ReadableSized(w, i);
    var c := ReadMessages(w.b.channels, init).channels;
    if OnOrdered(w.b.channels.kinds, m) {
      ReadSoFar(w, i, init, m);
      C.WireIdExact(c.receivers[m.channel].expected, m.id);
    }
  }

  /** A message the receiver lacks is never misread. */
  lemma LackedReadExactly(w: World, i: nat, init: seq<C.Pending>, m: C.Pending)
    requires Readable(w, i) && init + [m] <= w.sent[i].staged && C.AllSendable(w.b.channels.kinds, init)
    requires ReadsExactly(w.b.channels, init) && OnOrdered(w.b.channels.kinds, m)
    requires !Has(ReadMessages(w.b.channels, init).channels, m.channel, m.id)
    ensures Exact(ReadMessages(w.b.channels, init).channels, m)
  {
    hide Readable, ReadsExactly, ReadMessages, Exact;
    ReadableSized(w, i);
    ExactNext(w, i, init, m);
  }

  lemma {:induction false} ExactPrefix(w: World, i: nat, k: nat)
    requires Readable(w, i) && k <= |w.sent[i].staged|
    ensures C.AllSendable(w.b.channels.kinds, w.sent[i].staged[..k])
    ensures ReadsExactly(w.b.channels, w.sent[i].staged[..k]) <==> NoneStale(w.b.channels, w.sent[i].staged[..k])
    decreases k
  {
    hide Readable, Exact, ReadMessages, Stale, C.Sendable;
    ReadableSized(w, i);
    var staged := w.sent[i].staged;
    if k > 0 {
      ExactPrefix(w, i, k - 1);
      assert staged[..k][..k - 1] == staged[..k - 1];
      if ReadsExactly(w.b.channels, staged[..k - 1]) {
        assert staged[..k - 1] + [staged[k - 1]] == staged[..k];
        ExactNext(w, i, staged[..k - 1], staged[k - 1]);
      }
    }
  }

  lemma ReadableSized(w: World, i: nat)
    requires Readable(w, i)
    ensures C.Sized(w.b.channels) && i < |w.sent| && C.AllSendable(w.b.channels.kinds, w.sent[i].staged)
  {
    hide Inv, C.Sendable, NoneLost, ReadKept;
  }

  /** In a whole world a step misreads an id exactly when it opens a packet with a stale message. */
  lemma ReadExactlyIff(w: World, s: Step)
    requires Whole(w)
    ensures ReadExactly(w, s) <==> Timely(w, s)
  {
    hide Inv, OpensAtB, ReadsExactly, NoneStale, NoneLost, ReadKept, C.Sendable;
    if s.Arrive? && s.i < |w.sent| && HeaderShaped(s.header) && OpensAtB(w, s.i, s.header) {
      EntrySendable(w, s.i);
      var staged := w.sent[s.i].staged;
      ExactPrefix(w, s.i, |staged|);
      assert staged[..|staged|] == staged;
    }
  }

  lemma PrefixGenuine(accepted: PerChannel, init: seq<C.Pending>, m: C.Pending, staged: seq<C.Pending>)
    requires AllGenuine(accepted, staged) && init + [m] <= staged
    ensures AllGenuine(accepted, init) && init <= staged
  {
    assert forall k | 0 <= k < |init| :: staged[k] == (init + [m])[k] == init[k];
  }

  lemma EntrySendable(w: World, i: nat)
    requires Inv(w) && i < |w.sent|
    ensures C.AllSendable(w.b.channels.kinds, w.sent[i].staged)
  {
    hide I.Valid, SenderOk, FlightOk, RepliesOk, AllInOrder, AllEncodable, AllGenuine, Body, Sealed,
         C.Sendable, WindowsOk;
    assert EntryOk(w.kinds, w.sent[i], i + 1, w.accepted);
  }
}
