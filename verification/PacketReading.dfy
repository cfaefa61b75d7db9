/** Reading a packet's messages, in order, against what the sender accepted. */
module PacketReading {
  import opened Machine
  import opened Sequences
  import opened Frames
  import opened Channels
  import A = Arena
  import opened OrderedDelivery

  /** The receive side after the messages of a packet, up to the first that fails. */
  function ReadMessages(c: Channels, staged: seq<Pending>): (r: Received)
    requires Sized(c) && AllSendable(c.kinds, staged)
    ensures Sized(r.channels) && r.channels.kinds == c.kinds
  {
    if staged == [] then Received(c, [], true)
    else
      var init := ReadMessages(c, staged[..|staged| - 1]);
      if !init.ok then init
      else
        var f := FrameOf(c.kinds, staged[|staged| - 1]);
        var last := Receive(init.channels, f.channel, f.id, f.payload);
        ReceiveShape(init.channels, f.channel, f.id, f.payload);
        Received(last.channels, init.delivered + last.delivered, last.ok)
  }

  lemma ReceiveShape(c: Channels, channel: nat, wire: nat, payload: Bytes)
    requires Sized(c) && channel < |c.kinds| && wire < WIRE
    ensures var r := Receive(c, channel, wire, payload).channels;
            Sized(r) && r.kinds == c.kinds && c.dropped <= r.dropped
  {
    hide FromWire, Distance, HeldAt, Flushed, AcceptUnordered, NextId;
    var expected := NextId(c.receivers[channel].expected);
    FlushedDrops(c.(receivers := c.receivers[channel := c.receivers[channel].(expected := expected)]), channel);
  }

  lemma {:induction false} FlushedDrops(c: Channels, channel: nat)
    requires Sized(c) && channel < MAX_CHANNELS
    ensures Flushed(c, channel).channels.dropped == c.dropped && Flushed(c, channel).channels.kinds == c.kinds
    decreases |c.held|
  {
    var at := HeldAt(c.held, channel, c.receivers[channel].expected, 0);
    if at.Some? {
      FlushedDrops(Taken(c, channel, at.value), channel);
    }
  }

  predicate OnOrdered(kinds: Kinds, m: Pending) { m.channel < |kinds| && kinds[m.channel].ReliableOrdered? }

  /** The message's id, cut to sixteen bits, resolves to itself at the receiver as it stands. */
  ghost predicate Exact(c: Channels, m: Pending)
    requires Sized(c)
  {
    OnOrdered(c.kinds, m) ==> FromWire(c.receivers[m.channel].expected, ToWire(m.id)) == Some(m.id)
  }

  /** No ordered message of the packet is misresolved, each judged when it is read. */
  ghost predicate ReadsExactly(c: Channels, staged: seq<Pending>)
    requires Sized(c) && AllSendable(c.kinds, staged)
  {
    staged == [] ||
    (var init := staged[..|staged| - 1];
     && ReadsExactly(c, init)
     && (ReadMessages(c, init).ok ==> Exact(ReadMessages(c, init).channels, staged[|staged| - 1])))
  }

  /** One list per channel. */
  type PerChannel = l: seq<seq<Bytes>> | |l| == MAX_CHANNELS witness seq(MAX_CHANNELS, _ => [])

  /** The message is the one the sender accepted under its id. */
  predicate Genuine(accepted: PerChannel, m: Pending) {
    m.channel < MAX_CHANNELS && m.id < |accepted[m.channel]| && m.payload == accepted[m.channel][m.id]
  }

  ghost predicate AllGenuine(accepted: PerChannel, staged: seq<Pending>) {
    forall m | m in staged :: Genuine(accepted, m)
  }

  function Extended(delivered: PerChannel, ds: seq<Delivery>): PerChannel {
    seq(MAX_CHANNELS, ch requires 0 <= ch < MAX_CHANNELS => delivered[ch] + On(ds, ch))
  }

  ghost predicate AllInOrder(c: Channels, accepted: PerChannel, delivered: PerChannel)
    requires Sized(c)
  {
    forall ch | 0 <= ch < |c.kinds| && c.kinds[ch].ReliableOrdered? :: InOrder(c, ch, accepted[ch], delivered[ch])
  }

  /** Ordered channels forget nothing they have. */
  ghost predicate AllKept(c: Channels, d: Channels)
    requires Sized(c) && Sized(d)
  {
    forall ch | 0 <= ch < |c.kinds| && c.kinds[ch].ReliableOrdered? :: KeepsAll(c, d, ch)
  }

  lemma SameForKeeps(c: Channels, d: Channels, ch: nat, accepted: seq<Bytes>, delivered: seq<Bytes>, ds: seq<Delivery>)
    requires Sized(c) && Sized(d) && ch < MAX_CHANNELS && SameFor(c, d, ch) && On(ds, ch) == []
    requires InOrder(c, ch, accepted, delivered)
    ensures InOrder(d, ch, accepted, delivered + On(ds, ch)) && KeepsAll(c, d, ch)
  {
    assert delivered + On(ds, ch) == delivered;
  }

  /** A message on one channel leaves every other channel's receive state alone. */
  lemma ReceiveElsewhere(c: Channels, channel: nat, wire: nat, payload: Bytes, other: nat)
    requires Sized(c) && channel < |c.kinds| && wire < WIRE && other < MAX_CHANNELS && other != channel
    ensures var r := Receive(c, channel, wire, payload);
            Sized(r.channels) && SameFor(c, r.channels, other) && On(r.delivered, other) == []
  {
    hide FromWire, Distance, HeldAt, AcceptUnordered, NextId, Unique, A.BlocksFor, HeldBlocks, Flushed;
    ReceiveShape(c, channel, wire, payload);
    var expected := NextId(c.receivers[channel].expected);
    var next := c.(receivers := c.receivers[channel := c.receivers[channel].(expected := expected)]);
    FlushedElsewhere(next, channel, other);
    OnAppend([Delivery(channel, payload)], Flushed(next, channel).delivered, other);
    var resolved := FromWire(Reference(c.receivers[channel], c.kinds[channel]), wire);
    if resolved.Some? {
      UniqueMore(c.held, Held(channel, resolved.value, payload), other);
    }
  }

  lemma UniqueMore(held: seq<Held>, h: Held, other: nat)
    requires h.channel != other
    ensures Unique(held, other) ==> Unique(held + [h], other)
  {
  }

  /** What one message does to every ordered channel. */
  lemma ReceiveOk(c: Channels, accepted: PerChannel, delivered: PerChannel, m: Pending)
    requires Sized(c) && Sendable(c.kinds, m) && Genuine(accepted, m)
    requires AllInOrder(c, accepted, delivered) && Exact(c, m)
    ensures var f := FrameOf(c.kinds, m);
            var r := Receive(c, f.channel, f.id, f.payload);
            && Sized(r.channels) && r.channels.kinds == c.kinds
            && AllInOrder(r.channels, accepted, Extended(delivered, r.delivered))
            && AllKept(c, r.channels)
            && (OnOrdered(c.kinds, m) && r.channels.dropped == c.dropped ==> Has(r.channels, m.channel, m.id))
            && (OnOrdered(c.kinds, m) ==> r.ok)
  {
    hide FromWire, HeldAt, AcceptUnordered, NextId, InOrder, KeepsAll, SameFor, ReceiveOrdered, On, Has;
    var f := FrameOf(c.kinds, m);
    var r := Receive(c, f.channel, f.id, f.payload);
    ReceiveShape(c, f.channel, f.id, f.payload);
    forall ch | 0 <= ch < |c.kinds| && c.kinds[ch].ReliableOrdered?
      ensures InOrder(r.channels, ch, accepted[ch], Extended(delivered, r.delivered)[ch])
      ensures KeepsAll(c, r.channels, ch)
      ensures ch == m.channel ==> (r.channels.dropped == c.dropped ==> Has(r.channels, m.channel, m.id)) && r.ok
    {
      if ch == m.channel {
        OrderedIds(c, ch, accepted[ch], delivered[ch]);
        WireIdExact(c.receivers[ch].expected, m.id);
        ReceiveOrderedOk(c, ch, accepted[ch], delivered[ch], m.id);
      } else {
        ReceiveElsewhere(c, f.channel, f.id, f.payload, ch);
        SameForKeeps(c, r.channels, ch, accepted[ch], delivered[ch], r.delivered);
      }
    }
  }

  lemma OrderedIds(c: Channels, ch: nat, accepted: seq<Bytes>, delivered: seq<Bytes>)
    requires Sized(c) && ch < MAX_CHANNELS && InOrder(c, ch, accepted, delivered)
    ensures c.receivers[ch].expected == |delivered| <= |accepted| < U32
  {
  }

  /** Every ordered message among `staged` has reached the receiver. */
  ghost predicate HasAll(c: Channels, staged: seq<Pending>)
    requires Sized(c)
  {
    forall m | m in staged && OnOrdered(c.kinds, m) :: Has(c, m.channel, m.id)
  }

  lemma HasAllMore(c: Channels, d: Channels, staged: seq<Pending>, m: Pending)
    requires Sized(c) && Sized(d) && d.kinds == c.kinds && AllKept(c, d) && HasAll(c, staged)
    requires OnOrdered(c.kinds, m) ==> Has(d, m.channel, m.id)
    ensures HasAll(d, staged + [m])
  {
    hide Has;
    forall k | k in staged + [m] && OnOrdered(d.kinds, k)
      ensures Has(d, k.channel, k.id)
    {
      if k in staged {
        assert KeepsAll(c, d, k.channel);
      }
    }
  }

  /** A whole packet: every ordered channel's deliveries stay a prefix of what was accepted,
  and a packet read to its end without a drop leaves the receiver with all its messages. */
  lemma {:induction false} ReadMessagesOk(c: Channels, accepted: PerChannel, delivered: PerChannel,
                                          staged: seq<Pending>)
    requires Sized(c) && AllSendable(c.kinds, staged) && AllGenuine(accepted, staged)
    requires AllInOrder(c, accepted, delivered) && ReadsExactly(c, staged)
    ensures var r := ReadMessages(c, staged);
            && AllInOrder(r.channels, accepted, Extended(delivered, r.delivered))
            && AllKept(c, r.channels) && c.dropped <= r.channels.dropped
            && (r.ok && r.channels.dropped == c.dropped ==> HasAll(r.channels, staged))
  {
    hide AllInOrder, Receive, Has, FrameOf, Exact, Genuine, On, HasAll, AllKept, Extended;
    if staged == [] {
      ExtendedNothing(delivered);
      KeptSelf(c);
      HasNothing(c);
    } else {
      var n := |staged| - 1;
      var m, init := staged[n], ReadMessages(c, staged[..n]);
      ReadMessagesOk(c, accepted, delivered, staged[..n]);
      if init.ok {
        assert m in staged && Sendable(c.kinds, m);
        var d := Extended(delivered, init.delivered);
        ReceiveOk(init.channels, accepted, d, m);
        var f := FrameOf(c.kinds, m);
        var last := Receive(init.channels, f.channel, f.id, f.payload);
        ReceiveShape(init.channels, f.channel, f.id, f.payload);
        ExtendedTwice(delivered, init.delivered, last.delivered);
        KeptTrans(c, init.channels, last.channels);
        if last.ok && last.channels.dropped == c.dropped {
          HasAllMore(init.channels, last.channels, staged[..n], m);
          assert staged[..n] + [m] == staged;
        }
      }
    }
  }

  lemma HasNothing(c: Channels)
    requires Sized(c)
    ensures HasAll(c, [])
  {
  }

  lemma ExtendedNothing(delivered: PerChannel)
    ensures Extended(delivered, []) == delivered
  {
    forall ch | 0 <= ch < MAX_CHANNELS
      ensures Extended(delivered, [])[ch] == delivered[ch]
    {
      OnNothing(ch, delivered[ch]);
    }
  }

  lemma ExtendedTwice(delivered: PerChannel, a: seq<Delivery>, b: seq<Delivery>)
    ensures Extended(Extended(delivered, a), b) == Extended(delivered, a + b)
  {
    forall ch | 0 <= ch < MAX_CHANNELS
      ensures Extended(Extended(delivered, a), b)[ch] == Extended(delivered, a + b)[ch]
    {
      OnAppend(a, b, ch);
    }
  }

  lemma KeptSelf(c: Channels)
    requires Sized(c)
    ensures AllKept(c, c)
  {
  }

  lemma KeptTrans(a: Channels, b: Channels, c: Channels)
    requires Sized(a) && Sized(b) && Sized(c) && b.kinds == a.kinds && AllKept(a, b) && AllKept(b, c)
    ensures AllKept(a, c)
  {
    hide Has;
    forall ch | 0 <= ch < |a.kinds| && a.kinds[ch].ReliableOrdered?
      ensures KeepsAll(a, c, ch)
    {
      assert KeepsAll(a, b, ch) && KeepsAll(b, c, ch);
    }
  }

  // ----- Where what the receiver has came from -----

  ghost predicate Among(staged: seq<Pending>, channel: nat, id: nat) {
    exists m :: m in staged && m.channel == channel && m.id == id
  }

  /** On ordered channels the receiver has only what it had and what was just read. */
  ghost predicate Gained(c: Channels, d: Channels, staged: seq<Pending>)
    requires Sized(c) && Sized(d)
  {
    forall ch: nat, id: nat | ch < |c.kinds| && c.kinds[ch].ReliableOrdered? && Has(d, ch, id) ::
      Has(c, ch, id) || Among(staged, ch, id)
  }

  lemma ReceiveHolds(c: Channels, channel: nat, wire: nat, payload: Bytes)
    requires Sized(c) && channel < |c.kinds| && wire < WIRE && |c.held| <= MAX_HELD
    ensures |Receive(c, channel, wire, payload).channels.held| <= MAX_HELD
  {
    hide FromWire, Distance, HeldAt, AcceptUnordered, NextId, A.BlocksFor, HeldBlocks, Flushed;
    var expected := NextId(c.receivers[channel].expected);
    FlushedGains(c.(receivers := c.receivers[channel := c.receivers[channel].(expected := expected)]), channel);
  }

  lemma SameForHas(c: Channels, d: Channels, ch: nat, id: nat)
    requires Sized(c) && Sized(d) && ch < MAX_CHANNELS && SameFor(c, d, ch) && Has(d, ch, id)
    ensures Has(c, ch, id)
  {
    if id >= d.receivers[ch].expected {
      var h :| h in d.held && h.channel == ch && h.id == id;
      assert h in c.held;
    }
  }

  lemma ReceiveGains(c: Channels, m: Pending)
    requires Sized(c) && Sendable(c.kinds, m) && |c.held| <= MAX_HELD && Exact(c, m)
    requires OnOrdered(c.kinds, m) ==> c.receivers[m.channel].expected < U32 && m.id < U32
    ensures var f := FrameOf(c.kinds, m);
            var r := Receive(c, f.channel, f.id, f.payload);
            Sized(r.channels) && Gained(c, r.channels, [m]) && |r.channels.held| <= MAX_HELD
  {
    hide FromWire, AcceptUnordered, NextId, SameFor, ReceiveOrdered, On, Has;
    var f := FrameOf(c.kinds, m);
    var r := Receive(c, f.channel, f.id, f.payload);
    ReceiveShape(c, f.channel, f.id, f.payload);
    ReceiveHolds(c, f.channel, f.id, f.payload);
    forall ch: nat, id: nat | ch < |c.kinds| && c.kinds[ch].ReliableOrdered? && Has(r.channels, ch, id)
      ensures Has(c, ch, id) || Among([m], ch, id)
    {
      if ch == m.channel {
        WireIdExact(c.receivers[ch].expected, m.id);
        ReceiveOrderedGains(c, ch, m.id, m.payload);
        assert m in [m];
      } else {
        ReceiveElsewhere(c, f.channel, f.id, f.payload, ch);
        SameForHas(c, r.channels, ch, id);
      }
    }
  }

  lemma GainedTrans(a: Channels, b: Channels, c: Channels, s: seq<Pending>, t: seq<Pending>)
    requires Sized(a) && Sized(b) && Sized(c) && b.kinds == a.kinds && Gained(a, b, s) && Gained(b, c, t)
    ensures Gained(a, c, s + t)
  {
    hide Has;
    forall ch: nat, id: nat | ch < |a.kinds| && a.kinds[ch].ReliableOrdered? && Has(c, ch, id)
      ensures Has(a, ch, id) || Among(s + t, ch, id)
    {
      if Has(b, ch, id) {
        if !Has(a, ch, id) {
          var m :| m in s && m.channel == ch && m.id == id;
          assert m in s + t;
        }
      } else {
        var m :| m in t && m.channel == ch && m.id == id;
        assert m in s + t;
      }
    }
  }

  lemma {:induction false} ReadMessagesGains(c: Channels, accepted: PerChannel, delivered: PerChannel,
                                             staged: seq<Pending>)
    requires Sized(c) && AllSendable(c.kinds, staged) && AllGenuine(accepted, staged) && |c.held| <= MAX_HELD
    requires AllInOrder(c, accepted, delivered) && ReadsExactly(c, staged)
    ensures var r := ReadMessages(c, staged);
            Gained(c, r.channels, staged) && |r.channels.held| <= MAX_HELD
  {
    hide AllInOrder, Receive, FrameOf, Exact, Genuine, Gained, Extended;
    if staged == [] {
      GainedNothing(c);
    } else {
      var n := |staged| - 1;
      var m, init := staged[n], ReadMessages(c, staged[..n]);
      assert AllGenuine(accepted, staged[..n]);
      ReadMessagesGains(c, accepted, delivered, staged[..n]);
      if init.ok {
        assert m in staged && Sendable(c.kinds, m);
        ReadMessagesOk(c, accepted, delivered, staged[..n]);
        OrderedBounded(init.channels, accepted, Extended(delivered, init.delivered), m);
        ReceiveGains(init.channels, m);
        var f := FrameOf(c.kinds, m);
        GainedTrans(c, init.channels, Receive(init.channels, f.channel, f.id, f.payload).channels, staged[..n], [m]);
        assert staged[..n] + [m] == staged;
      } else {
        GainedMore(c, init.channels, staged[..n], staged);
      }
    }
  }

  lemma OrderedBounded(c: Channels, accepted: PerChannel, delivered: PerChannel, m: Pending)
    requires Sized(c) && AllInOrder(c, accepted, delivered) && Genuine(accepted, m)
    ensures OnOrdered(c.kinds, m) ==> c.receivers[m.channel].expected < U32 && m.id < U32
  {
    if OnOrdered(c.kinds, m) {
      OrderedIds(c, m.channel, accepted[m.channel], delivered[m.channel]);
    }
  }

  lemma GainedNothing(c: Channels)
    requires Sized(c)
    ensures Gained(c, c, [])
  {
  }

  lemma GainedMore(c: Channels, d: Channels, s: seq<Pending>, t: seq<Pending>)
    requires Sized(c) && Sized(d) && Gained(c, d, s) && s <= t
    ensures Gained(c, d, t)
  {
    hide Has;
    forall ch: nat, id: nat | ch < |c.kinds| && c.kinds[ch].ReliableOrdered? && Has(d, ch, id)
      ensures Has(c, ch, id) || Among(t, ch, id)
    {
      if !Has(c, ch, id) {
        var m :| m in s && m.channel == ch && m.id == id;
        assert m in t;
      }
    }
  }
}
