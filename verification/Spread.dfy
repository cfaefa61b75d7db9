/** A condition the sender can check before it transmits: while no ordered message it queues is
too far behind its newest, no packet that still opens holds a stale one. */
module Spread {
  import opened Machine
  import opened Counting
  import opened Sequences
  import opened Frames
  import opened Connection
  import opened PacketReading
  import opened OrderedDelivery
  import opened TwoParty
  import opened TwoPartyRuns
  import opened Complete
  import C = Channels

  /** How far behind the next id a queued ordered message may be: half the wire range, less
  what 63 later packets of 8 messages can add before this one is too old to open. */
  const SPREAD: nat := 32768 - 63 * 8

  ghost predicate SpreadOk(c: C.Channels)
    requires C.Sized(c)
  {
    forall p | p in c.pending && OnOrdered(c.kinds, p) :: c.nextIds[p.channel] <= p.id + SPREAD
  }

  /** The ids in packets lo+1 to hi. */
  function SentIds(sent: seq<Sent>, lo: nat, hi: nat): seq<nat>
    requires lo <= hi <= |sent|
    decreases hi - lo
  {
    if lo == hi then [] else SentIds(sent, lo, hi - 1) + PendingIds(sent[hi - 1].staged)
  }

  lemma {:induction false} SentIdsSize(sent: seq<Sent>, lo: nat, hi: nat)
    requires lo <= hi <= |sent| && FewEach(sent)
    ensures |SentIds(sent, lo, hi)| <= 8 * (hi - lo)
    decreases hi - lo
  {
    if lo < hi {
      SentIdsSize(sent, lo, hi - 1);
    }
  }

  lemma {:induction false} SentIdsHave(sent: seq<Sent>, lo: nat, hi: nat, q: nat, m: C.Pending)
    requires lo <= hi <= |sent| && lo < q <= hi && m in sent[q - 1].staged
    ensures m.id in SentIds(sent, lo, hi)
    decreases hi - lo
  {
    if q == hi {
      var k :| 0 <= k < |sent[q - 1].staged| && sent[q - 1].staged[k] == m;
      assert PendingIds(sent[q - 1].staged)[k] == m.id;
    } else {
      SentIdsHave(sent, lo, hi - 1, q, m);
    }
  }

  // ----- The invariant -----

  /** A packet's messages are among those accepted when it was sent, and not too far back. */
  ghost predicate EntryAged(kinds: Kinds, e: Sent) {
    && |e.nextIds| == MAX_CHANNELS
    && (forall m | m in e.staged :: m.channel < |kinds| && m.id < e.nextIds[m.channel])
    && (forall m | m in e.staged && OnOrdered(kinds, m) :: e.nextIds[m.channel] <= m.id + SPREAD)
  }

  ghost predicate LogAged(kinds: Kinds, sent: seq<Sent>) { forall s | 0 <= s < |sent| :: EntryAged(kinds, sent[s]) }

  /** Ids are handed out in order: a later packet was sent with no fewer of them used. */
  ghost predicate IdsGrow(sent: seq<Sent>, nextIds: seq<nat>)
    requires |nextIds| == MAX_CHANNELS
  {
    && (forall s | 0 <= s < |sent| :: |sent[s].nextIds| == MAX_CHANNELS)
    && (forall s, ch | 0 <= s < |sent| && 0 <= ch < MAX_CHANNELS :: sent[s].nextIds[ch] <= nextIds[ch])
    && (forall s, t, ch | 0 <= s <= t < |sent| && 0 <= ch < MAX_CHANNELS :: sent[s].nextIds[ch] <= sent[t].nextIds[ch])
  }

  /** Some opened packet carried the message. */
  ghost predicate Brought(sent: seq<Sent>, unsealed: set<nat>, ch: nat, id: nat) {
    exists q: nat :: q in unsealed && 1 <= q <= |sent| && Among(sent[q - 1].staged, ch, id)
  }

  ghost predicate AllBrought(c: C.Channels, sent: seq<Sent>, unsealed: set<nat>)
    requires C.Sized(c)
  {
    forall ch: nat, id: nat | OrderedChannel(c.kinds, ch) && Has(c, ch, id) :: Brought(sent, unsealed, ch, id)
  }

  ghost predicate Near(w: World) {
    && Whole(w)
    && LogAged(w.kinds, w.sent) && IdsGrow(w.sent, w.a.channels.nextIds)
    && AllBrought(w.b.channels, w.sent, w.unsealed)
  }

  // ----- A packet that still opens is not stale -----

  /** Nor far ahead of a packet that still opens: since that packet was sent, at most 63 later
  ones can have been opened, each with at most 8 messages. */
  lemma NotFarAhead(kinds: Kinds, sent: seq<Sent>, nextIds: seq<nat>, unsealed: set<nat>, s: nat, newest: nat,
                    ch: nat, expected: nat)
    requires |nextIds| == MAX_CHANNELS && IdsGrow(sent, nextIds) && LogAged(kinds, sent) && FewEach(sent)
    requires 1 <= s <= |sent| && newest < s + WINDOW && OrderedChannel(kinds, ch)
    requires forall q | q in unsealed :: q <= newest && q <= |sent|
    requires forall id: nat | id < expected :: Brought(sent, unsealed, ch, id) || id < sent[s - 1].nextIds[ch]
    ensures expected <= sent[s - 1].nextIds[ch] + 8 * 63
  {
    var lo := sent[s - 1].nextIds[ch];
    var hi := Min(s + 63, |sent|);
    if lo < expected {
      forall id: nat | lo <= id < expected
        ensures id in SentIds(sent, s, hi)
      {
        assert Brought(sent, unsealed, ch, id);
        var q: nat :| q in unsealed && 1 <= q <= |sent| && Among(sent[q - 1].staged, ch, id);
        var m :| m in sent[q - 1].staged && m.channel == ch && m.id == id;
        assert EntryAged(kinds, sent[q - 1]);
        SentIdsHave(sent, s, hi, q, m);
      }
      CoverSize(lo, expected, SentIds(sent, s, hi));
      SentIdsSize(sent, s, hi);
    }
  }

  /** Mid-packet, the receiver has only what opened packets and this one brought. */
  lemma BroughtSoFar(w: World, i: nat, init: seq<C.Pending>, ch: nat, id: nat)
    requires Near(w) && Readable(w, i) && init <= w.sent[i].staged && ReadsExactly(w.b.channels, init)
    requires OrderedChannel(w.kinds, ch) && Has(ReadMessages(w.b.channels, init).channels, ch, id)
    ensures Brought(w.sent, w.unsealed, ch, id) || id < w.sent[i].nextIds[ch]
  {
    hide Inv, ReadsExactly, AllInOrder, NoneLost, ReadKept, IdsGrow, Has, Brought, ReadMessages, Genuine;
    ReadableParts(w, i);
    assert AllGenuine(w.accepted, init);
    ReadMessagesGains(w.b.channels, w.accepted, w.delivered, init);
    if !Has(w.b.channels, ch, id) {
      var m :| m in init && m.channel == ch && m.id == id;
      assert m in w.sent[i].staged && EntryAged(w.kinds, w.sent[i]);
    }
  }

  lemma HasExpected(c: C.Channels, ch: nat, id: nat)
    requires C.Sized(c) && ch < MAX_CHANNELS && id < c.receivers[ch].expected
    ensures Has(c, ch, id)
  {
  }

  lemma AgedSpread(kinds: Kinds, e: Sent, m: C.Pending)
    requires EntryAged(kinds, e) && m in e.staged && OnOrdered(kinds, m)
    ensures e.nextIds[m.channel] <= m.id + SPREAD
  {
  }

  /** In a near world the next id of a packet that still opens is not stale. */
  lemma NotStaleNext(w: World, i: nat, init: seq<C.Pending>, m: C.Pending)
    requires Near(w) && Readable(w, i) && w.b.crypto.replay.newest < i + 1 + WINDOW
    requires init + [m] <= w.sent[i].staged && C.AllSendable(w.b.channels.kinds, init)
    requires ReadsExactly(w.b.channels, init)
    ensures !Stale(ReadMessages(w.b.channels, init).channels, m)
  {
    hide Inv, ReadsExactly, NoneLost, AllBrought, ReadKept, Has, Brought, ReadMessages, EntryAged;
    var c, ch := ReadMessages(w.b.channels, init).channels, m.channel;
    ReadableParts(w, i);
    if OnOrdered(w.kinds, m) {
      assert m == (init + [m])[|init|] && m in w.sent[i].staged;
      PrefixGenuine(w.accepted, init, m, w.sent[i].staged);
      var expected := c.receivers[ch].expected;
      forall id: nat | id < expected
        ensures Brought(w.sent, w.unsealed, ch, id) || id < w.sent[i].nextIds[ch]
      {
        HasExpected(c, ch, id);
        BroughtSoFar(w, i, init, ch, id);
      }
      NotFarAhead(w.kinds, w.sent, w.a.channels.nextIds, w.unsealed, i + 1, w.b.crypto.replay.newest, ch, expected);
      AgedSpread(w.kinds, w.sent[i], m);
    }
  }

  lemma {:induction false} NotStalePrefix(w: World, i: nat, k: nat)
    requires Near(w) && Readable(w, i) && w.b.crypto.replay.newest < i + 1 + WINDOW && k <= |w.sent[i].staged|
    ensures C.AllSendable(w.b.channels.kinds, w.sent[i].staged[..k])
    ensures NoneStale(w.b.channels, w.sent[i].staged[..k])
    decreases k
  {
    hide Near, Readable, ReadMessages, Stale, C.Sendable, ReadsExactly;
    ReadableSized(w, i);
    var staged := w.sent[i].staged;
    if k > 0 {
      NotStalePrefix(w, i, k - 1);
      ExactPrefix(w, i, k - 1);
      assert staged[..k][..k - 1] == staged[..k - 1];
      assert staged[..k - 1] + [staged[k - 1]] == staged[..k];
      NotStaleNext(w, i, staged[..k - 1], staged[k - 1]);
    }
  }

  lemma NearTimely(w: World, s: Step)
    requires Near(w)
    ensures Timely(w, s)
  {
    hide Inv, OpensAtB, NoneStale, LogAged, IdsGrow, AllBrought, NoneLost, ReadKept, C.Sendable;
    if s.Arrive? && s.i < |w.sent| && HeaderShaped(s.header) && OpensAtB(w, s.i, s.header) {
      OpenedOnce(w, s.i, s.header);
      EntrySendable(w, s.i);
      var staged := w.sent[s.i].staged;
      NotStalePrefix(w, s.i, |staged|);
      assert staged[..|staged|] == staged;
    }
  }
}
