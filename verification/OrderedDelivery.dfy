/** The receive side of an ordered channel against the list of messages its sender accepted:
what has been delivered is a prefix of it, and what is held lies ahead of the gap. */
module OrderedDelivery {
  import opened Machine
  import opened Frames
  import opened Channels
  import A = Arena

  /** The payloads among `ds` delivered on `channel`, in order. */
  function On(ds: seq<Delivery>, channel: nat): seq<Bytes> {
    if ds == [] then []
    else On(ds[..|ds| - 1], channel) + if ds[|ds| - 1].channel == channel then [ds[|ds| - 1].payload] else []
  }

  lemma {:induction false} OnAppend(a: seq<Delivery>, b: seq<Delivery>, channel: nat)
    ensures On(a + b, channel) == On(a, channel) + On(b, channel)
  {
    if b == [] {
      assert a + b == a;
    } else {
      var n := |b| - 1;
      assert (a + b)[..|a| + n] == a + b[..n];
      OnAppend(a, b[..n], channel);
    }
  }

  /** No message of the channel is held twice. */
  ghost predicate Unique(held: seq<Held>, channel: nat) {
    forall i, j | 0 <= i < j < |held| && held[i].channel == channel && held[j].channel == channel ::
      held[i].id != held[j].id
  }

  /** Delivered so far is a prefix of what was accepted, and every held message is one that was
  accepted, ahead of the next expected, held once. */
  ghost predicate InOrder(c: Channels, channel: nat, accepted: seq<Bytes>, delivered: seq<Bytes>)
    requires Sized(c) && channel < MAX_CHANNELS
  {
    && c.receivers[channel].expected == |delivered| <= |accepted| < U32
    && delivered == accepted[..|delivered|]
    && (forall h | h in c.held && h.channel == channel ::
          |delivered| < h.id < |accepted| && h.payload == accepted[h.id])
    && Unique(c.held, channel)
  }

  /** The receiver has the message: delivered, or held behind the gap. */
  ghost predicate Has(c: Channels, channel: nat, id: nat)
    requires Sized(c) && channel < MAX_CHANNELS
  {
    id < c.receivers[channel].expected || exists h :: h in c.held && h.channel == channel && h.id == id
  }

  /** Nothing the receiver has is forgotten. */
  ghost predicate KeepsAll(c: Channels, d: Channels, channel: nat)
    requires Sized(c) && Sized(d) && channel < MAX_CHANNELS
  {
    forall id: nat | Has(c, channel, id) :: Has(d, channel, id)
  }

  /** Like `InOrder`, but the next expected message may itself be held: where a delivery has
  just moved the gap and the flush has yet to run. */
  ghost predicate BeforeFlush(c: Channels, channel: nat, accepted: seq<Bytes>, delivered: seq<Bytes>)
    requires Sized(c) && channel < MAX_CHANNELS
  {
    && c.receivers[channel].expected == |delivered| <= |accepted| < U32
    && delivered == accepted[..|delivered|]
    && (forall h | h in c.held && h.channel == channel ::
          |delivered| <= h.id < |accepted| && h.payload == accepted[h.id])
    && Unique(c.held, channel)
  }

  /** One held message taken out to be delivered. */
  function Taken(c: Channels, channel: nat, at: nat): Channels
    requires Sized(c) && channel < MAX_CHANNELS && at < |c.held|
  {
    c.(held := c.held[..at] + c.held[at + 1..],
       receivers := c.receivers[channel := c.receivers[channel].(expected := NextId(c.held[at].id))])
  }

  lemma HeldWithout(held: seq<Held>, at: nat, h: Held)
    requires at < |held|
    ensures h in held[..at] + held[at + 1..] ==> h in held
    ensures h in held && h != held[at] ==> h in held[..at] + held[at + 1..]
  {
    var rest := held[..at] + held[at + 1..];
    if h in held && h != held[at] {
      var i :| 0 <= i < |held| && held[i] == h;
      assert rest[if i < at then i else i - 1] == h;
    }
  }

  lemma TakenOk(c: Channels, channel: nat, accepted: seq<Bytes>, delivered: seq<Bytes>, at: nat)
    requires Sized(c) && channel < MAX_CHANNELS && BeforeFlush(c, channel, accepted, delivered)
    requires at < |c.held| && c.held[at].channel == channel && c.held[at].id == c.receivers[channel].expected
    ensures BeforeFlush(Taken(c, channel, at), channel, accepted, delivered + [c.held[at].payload])
  {
    var t, entry := Taken(c, channel, at), c.held[at];
    assert entry in c.held && NextId(entry.id) == entry.id + 1;
    UniqueWithout(c.held, at, channel);
    forall h | h in t.held && h.channel == channel
      ensures |delivered| + 1 <= h.id < |accepted| && h.payload == accepted[h.id]
    {
      HeldWithout(c.held, at, h);
      var i :| 0 <= i < |t.held| && t.held[i] == h;
      assert c.held[if i < at then i else i + 1] == h;
    }
  }

  lemma TakenKeeps(c: Channels, channel: nat, at: nat)
    requires Sized(c) && channel < MAX_CHANNELS && at < |c.held| && c.held[at].id + 1 < U32
    requires c.held[at].channel == channel && c.held[at].id == c.receivers[channel].expected
    ensures KeepsAll(c, Taken(c, channel, at), channel)
  {
    var t, entry := Taken(c, channel, at), c.held[at];
    assert NextId(entry.id) == entry.id + 1;
    forall id: nat | Has(c, channel, id)
      ensures Has(t, channel, id)
    {
      if id > entry.id {
        var h :| h in c.held && h.channel == channel && h.id == id;
        HeldWithout(c.held, at, h);
      }
    }
  }

  lemma GapRemains(c: Channels, channel: nat, accepted: seq<Bytes>, delivered: seq<Bytes>)
    requires Sized(c) && channel < MAX_CHANNELS && BeforeFlush(c, channel, accepted, delivered)
    requires HeldAt(c.held, channel, c.receivers[channel].expected, 0).None?
    ensures InOrder(c, channel, accepted, delivered)
  {
    hide HeldAt;
    forall h | h in c.held && h.channel == channel
      ensures h.id != |delivered|
    {
      var i :| 0 <= i < |c.held| && c.held[i] == h;
      assert !(c.held[i].channel == channel && c.held[i].id == c.receivers[channel].expected);
    }
  }

  lemma OnDelivered(payload: Bytes, rest: seq<Delivery>, channel: nat, delivered: seq<Bytes>)
    ensures delivered + On([Delivery(channel, payload)] + rest, channel) == delivered + [payload] + On(rest, channel)
  {
    OnAppend([Delivery(channel, payload)], rest, channel);
    assert On([Delivery(channel, payload)], channel) == [payload];
  }

  /** The flush delivers, in order, as far as the held messages reach. */
  lemma {:induction false} FlushedOk(c: Channels, channel: nat, accepted: seq<Bytes>, delivered: seq<Bytes>)
    requires Sized(c) && channel < MAX_CHANNELS && BeforeFlush(c, channel, accepted, delivered)
    ensures var r := Flushed(c, channel);
            && InOrder(r.channels, channel, accepted, delivered + On(r.delivered, channel))
            && KeepsAll(c, r.channels, channel)
    decreases |c.held|
  {
    hide NextId, BeforeFlush, InOrder, Has, On;
    var at := HeldAt(c.held, channel, c.receivers[channel].expected, 0);
    if at.None? {
      GapRemains(c, channel, accepted, delivered);
      OnNothing(channel, delivered);
    } else {
      var entry, t := c.held[at.value], Taken(c, channel, at.value);
      TakenOk(c, channel, accepted, delivered, at.value);
      HeldBounded(c, channel, accepted, delivered, at.value);
      TakenKeeps(c, channel, at.value);
      FlushedOk(t, channel, accepted, delivered + [entry.payload]);
      OnDelivered(entry.payload, Flushed(t, channel).delivered, channel, delivered);
    }
  }

  lemma HeldBounded(c: Channels, channel: nat, accepted: seq<Bytes>, delivered: seq<Bytes>, at: nat)
    requires Sized(c) && channel < MAX_CHANNELS && BeforeFlush(c, channel, accepted, delivered)
    requires at < |c.held| && c.held[at].channel == channel
    ensures c.held[at].id + 1 < U32
  {
    assert c.held[at] in c.held;
  }

  lemma OnNothing(channel: nat, delivered: seq<Bytes>)
    ensures delivered + On([], channel) == delivered
  {
  }

  /** Another channel's receive state is as it was. */
  ghost predicate SameFor(c: Channels, d: Channels, other: nat)
    requires Sized(c) && Sized(d) && other < MAX_CHANNELS
  {
    && d.receivers[other] == c.receivers[other]
    && (forall h: Held | h.channel == other :: h in d.held <==> h in c.held)
    && (Unique(c.held, other) ==> Unique(d.held, other))
  }

  lemma TakenElsewhere(c: Channels, channel: nat, other: nat, at: nat)
    requires Sized(c) && channel < MAX_CHANNELS && other < MAX_CHANNELS && other != channel
    requires at < |c.held| && c.held[at].channel == channel
    ensures SameFor(c, Taken(c, channel, at), other)
  {
    forall h: Held | h.channel == other
      ensures h in Taken(c, channel, at).held <==> h in c.held
    {
      HeldWithout(c.held, at, h);
    }
    if Unique(c.held, other) {
      UniqueWithout(c.held, at, other);
    }
  }

  /** A flush concerns one channel only. */
  lemma {:induction false} FlushedElsewhere(c: Channels, channel: nat, other: nat)
    requires Sized(c) && channel < MAX_CHANNELS && other < MAX_CHANNELS && other != channel
    ensures var r := Flushed(c, channel);
            SameFor(c, r.channels, other) && On(r.delivered, other) == []
    decreases |c.held|
  {
    hide NextId, Unique;
    var at := HeldAt(c.held, channel, c.receivers[channel].expected, 0);
    if at.Some? {
      var t, entry := Taken(c, channel, at.value), c.held[at.value];
      FlushedElsewhere(t, channel, other);
      TakenElsewhere(c, channel, other, at.value);
      OnAppend([Delivery(channel, entry.payload)], Flushed(t, channel).delivered, other);
    }
  }

  lemma UniqueWithout(held: seq<Held>, at: nat, channel: nat)
    requires at < |held| && Unique(held, channel)
    ensures Unique(held[..at] + held[at + 1..], channel)
  {
    var rest := held[..at] + held[at + 1..];
    forall i, j | 0 <= i < j < |rest| && rest[i].channel == channel && rest[j].channel == channel
      ensures rest[i].id != rest[j].id
    {
      assert held[if i < at then i else i + 1] == rest[i];
      assert held[if j < at then j else j + 1] == rest[j];
    }
  }

  lemma ExpectedArrives(c: Channels, channel: nat, accepted: seq<Bytes>, delivered: seq<Bytes>)
    requires Sized(c) && channel < MAX_CHANNELS && InOrder(c, channel, accepted, delivered) && |delivered| < |accepted|
    ensures var next := c.(receivers := c.receivers[channel := c.receivers[channel].(expected := NextId(|delivered|))]);
            && BeforeFlush(next, channel, accepted, delivered + [accepted[|delivered|]])
            && KeepsAll(c, next, channel) && Has(next, channel, |delivered|)
  {
    assert NextId(|delivered|) == |delivered| + 1;
  }

  lemma HeldArrives(c: Channels, channel: nat, accepted: seq<Bytes>, delivered: seq<Bytes>, id: nat)
    requires Sized(c) && channel < MAX_CHANNELS && InOrder(c, channel, accepted, delivered)
    requires |delivered| < id < |accepted| && HeldAt(c.held, channel, id, 0).None?
    ensures var more := c.(held := c.held + [Held(channel, id, accepted[id])]);
            && InOrder(more, channel, accepted, delivered) && KeepsAll(c, more, channel) && Has(more, channel, id)
  {
    hide HeldAt;
    var more := c.(held := c.held + [Held(channel, id, accepted[id])]);
    forall h | h in c.held
      ensures h in more.held && !(h.channel == channel && h.id == id)
    {
      var i :| 0 <= i < |c.held| && c.held[i] == h;
      assert more.held[i] == h;
    }
    assert more.held[|c.held|] in more.held;
    assert forall h | h in more.held :: h in c.held || h == more.held[|c.held|];
  }

  /** An ordered message whose id resolved exactly: the prefix grows in order, and unless the
  message had to be dropped the receiver now has it. */
  lemma ReceiveOrderedOk(c: Channels, channel: nat, accepted: seq<Bytes>, delivered: seq<Bytes>, id: nat)
    requires Sized(c) && channel < MAX_CHANNELS && InOrder(c, channel, accepted, delivered) && id < |accepted|
    requires Distance(id, c.receivers[channel].expected) == id - c.receivers[channel].expected
    ensures var r := ReceiveOrdered(c, channel, id, accepted[id]);
            && Sized(r.channels) && InOrder(r.channels, channel, accepted, delivered + On(r.delivered, channel))
            && KeepsAll(c, r.channels, channel)
            && (r.channels.dropped == c.dropped ==> Has(r.channels, channel, id))
  {
    hide Distance, A.BlocksFor, HeldBlocks, Flushed, HeldAt, BeforeFlush, Unique, On;
    var expected := c.receivers[channel].expected;
    OnNothing(channel, delivered);
    if id == expected {
      var next := c.(receivers := c.receivers[channel := c.receivers[channel].(expected := NextId(expected))]);
      ExpectedArrives(c, channel, accepted, delivered);
      FlushedOk(next, channel, accepted, delivered + [accepted[id]]);
      OnDelivered(accepted[id], Flushed(next, channel).delivered, channel, delivered);
    } else if id > expected {
      var at := HeldAt(c.held, channel, id, 0);
      if at.Some? {
        assert c.held[at.value] in c.held;
      } else {
        HeldArrives(c, channel, accepted, delivered, id);
      }
    }
  }

  /** The converse of forgetting nothing: what the receiver has came from somewhere. */
  lemma TakenGains(c: Channels, channel: nat, at: nat)
    requires Sized(c) && channel < MAX_CHANNELS && at < |c.held|
    requires c.held[at].channel == channel && c.held[at].id == c.receivers[channel].expected
    ensures KeepsAll(Taken(c, channel, at), c, channel)
  {
    var t, entry := Taken(c, channel, at), c.held[at];
    assert NextId(entry.id) <= entry.id + 1;
    forall id: nat | Has(t, channel, id)
      ensures Has(c, channel, id)
    {
      if id == entry.id {
        assert entry in c.held;
      } else if id >= t.receivers[channel].expected {
        var h :| h in t.held && h.channel == channel && h.id == id;
        HeldWithout(c.held, at, h);
      }
    }
  }

  lemma {:induction false} FlushedGains(c: Channels, channel: nat)
    requires Sized(c) && channel < MAX_CHANNELS
    ensures KeepsAll(Flushed(c, channel).channels, c, channel)
    ensures |Flushed(c, channel).channels.held| <= |c.held|
    decreases |c.held|
  {
    hide NextId, Has;
    var at := HeldAt(c.held, channel, c.receivers[channel].expected, 0);
    if at.Some? {
      TakenGains(c, channel, at.value);
      FlushedGains(Taken(c, channel, at.value), channel);
    }
  }

  /** Receiving a message gives the receiver that message and no other. */
  lemma ReceiveOrderedGains(c: Channels, channel: nat, id: nat, payload: Bytes)
    requires Sized(c) && channel < MAX_CHANNELS && |c.held| <= MAX_HELD
    requires Distance(id, c.receivers[channel].expected) == id - c.receivers[channel].expected
    ensures var r := ReceiveOrdered(c, channel, id, payload);
            && Sized(r.channels) && |r.channels.held| <= MAX_HELD
            && forall k: nat | Has(r.channels, channel, k) :: Has(c, channel, k) || k == id
  {
    hide Distance, A.BlocksFor, HeldBlocks, Flushed, HeldAt;
    var expected := c.receivers[channel].expected;
    var next := c.(receivers := c.receivers[channel := c.receivers[channel].(expected := NextId(expected))]);
    FlushedGains(next, channel);
    assert NextId(expected) <= expected + 1;
    var r := ReceiveOrdered(c, channel, id, payload);
    forall k: nat | Has(r.channels, channel, k)
      ensures Has(c, channel, k) || k == id
    {
      if id == expected {
        assert Has(next, channel, k);
      }
    }
  }
}
