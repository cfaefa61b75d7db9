/** Where the ordered channel's documentation promises more than its code keeps: the hold can
overflow, with a run of two connections in which it does, and an id can be misread, with when. */
module Limits {
  import opened Machine
  import opened Sequences
  import opened Frames
  import opened PacketReading
  import opened OrderedDelivery
  import opened TwoParty
  import opened WorldSteps
  import opened Meeting
  import opened Laggards
  import C = Channels
  import A = Arena
  import F = QueueFlow

  // ----- The hold -----

  /** A message is dropped exactly when it lies ahead of the gap, is not already held, and there
  is no slot or no storage left to hold it. */
  lemma DroppedExact(c: C.Channels, channel: nat, id: nat, payload: Bytes)
    requires C.Sized(c) && channel < MAX_CHANNELS
    ensures var r := C.ReceiveOrdered(c, channel, id, payload).channels;
            && (r.dropped == c.dropped || r.dropped == c.dropped + 1)
            && (r.dropped == c.dropped + 1 <==>
                  && C.Distance(id, c.receivers[channel].expected) > 0
                  && (forall h | h in c.held :: !(h.channel == channel && h.id == id))
                  && (|c.held| == C.MAX_HELD || A.BlocksFor(|payload|) + C.HeldBlocks(c.held) > C.ARENA_BLOCKS))
  {
    hide C.Distance, A.BlocksFor, C.HeldBlocks, C.Flushed, C.HeldAt, C.NextId;
    var expected := c.receivers[channel].expected;
    FlushDropsNothing(c.(receivers := c.receivers[channel := c.receivers[channel].(expected := C.NextId(expected))]),
                      channel);
    var at := C.HeldAt(c.held, channel, id, 0);
    if at.Some? {
      assert c.held[at.value] in c.held;
    }
  }

  lemma {:induction false} FlushDropsNothing(c: C.Channels, channel: nat)
    requires C.Sized(c) && channel < MAX_CHANNELS
    ensures C.Flushed(c, channel).channels.dropped == c.dropped
    decreases |c.held|
  {
    var at := C.HeldAt(c.held, channel, c.receivers[channel].expected, 0);
    if at.Some? {
      FlushDropsNothing(Taken(c, channel, at.value), channel);
    }
  }

  function Big(): (b: Bytes)
    ensures |b| == MAX_MESSAGE
  {
    seq(MAX_MESSAGE, _ => 0)
  }

  /** Big messages with these ids. */
  function Ahead(ids: seq<nat>): seq<C.Held> {
    seq(|ids|, i requires 0 <= i < |ids| => C.Held(0, ids[i], Big()))
  }

  /** A server that still expects message 0 and holds these. */
  function Holding(ids: seq<nat>, dropped: nat): C.Channels { C.New(MIXED).(held := Ahead(ids), dropped := dropped) }

  lemma {:induction false} AheadBlocks(ids: seq<nat>)
    ensures C.HeldBlocks(Ahead(ids)) == 16 * |ids|
  {
    hide Big;
    if ids == [] {
      assert Ahead(ids) == [];
    } else {
      AheadBlocks(ids[1..]);
      assert Ahead(ids)[1..] == Ahead(ids[1..]) && Ahead(ids)[0] == C.Held(0, ids[0], Big());
      assert A.BlocksFor(MAX_MESSAGE) == 16;
    }
  }

  /** A message ahead of the gap is held while there is room, and dropped after. */
  lemma HoldsAhead(ids: seq<nat>, id: nat)
    requires 0 < id < 1000 && id !in ids && |ids| < C.MAX_HELD
    ensures var p := C.Pending(0, id, Big(), false);
            && C.Sendable(MIXED, p) && Exact(Holding(ids, 0), p)
            && var f := C.FrameOf(MIXED, p);
               C.Receive(Holding(ids, 0), f.channel, f.id, f.payload)
               == C.Received(if |ids| < 4 then Holding(ids + [id], 0) else Holding(ids, 1), [], true)
  {
    hide C.HeldBlocks, C.HeldAt, C.FromWire, C.Distance, Big;
    AheadBlocks(ids);
    C.WireIdExact(0, id);
    assert A.BlocksFor(MAX_MESSAGE) == 16;
    assert Ahead(ids + [id]) == Ahead(ids) + [C.Held(0, id, Big())];
    assert C.HeldAt(Ahead(ids), 0, id, 0).None?;
  }

  /** One message more is held behind the gap, acknowledged, and let go by the client. */
  lemma HeldAndFreed(w: World, ids: seq<nat>, id: nat, flag: bool, z: nat) returns (v: World, flag': bool, z': nat)
    requires Lagging(w, id, flag, z) && 0 < id < 10 && 0 < |w.sent| <= 2 * id && |w.replies| <= id && 1 !in w.read
    requires w.b.channels == Holding(ids, 0) && id !in ids && |ids| < 10
    ensures Lagging(v, id + 1, flag', z') && 0 < |v.sent| <= 2 * (id + 1) && |v.replies| <= id + 1 && 1 !in v.read
    ensures v.b.channels == if |ids| < 4 then Holding(ids + [id], 0) else Holding(ids, 1)
  {
    hide Lagging, C.Receive, Holding, Big, Exact, C.FrameOf;
    var p := C.Pending(0, id, Big(), false);
    HoldingShape(ids);
    HoldsAhead(ids, id);
    v, flag', z' := Round(w, p, flag, z);
  }

  lemma HoldingShape(ids: seq<nat>)
    ensures C.Sized(Holding(ids, 0)) && Holding(ids, 0).kinds == MIXED
  {
  }

  /** A run of two fresh connections in which the hold overflows. No copy of message 0 arrives.
  Messages 1 to 4 arrive, are held behind it, and are acknowledged, so the client lets them go.
  Message 5 is accepted, arrives, is dropped for want of room, and is acknowledged like the rest:
  neither side has it any more. */
  lemma HoldOverflows()
    ensures exists w :: Reaches(Origin(), w) && |w.accepted[0]| == 6 && C.Sized(w.b.channels)
                        && w.b.channels.dropped == 1
                        && !Has(w.b.channels, 0, 5) && !F.Queued(w.a.channels.pending, C.Key(0, 5))
  {
    hide Lagging, Holding;
    var w0 := Sets();
    HoldsNone();
    var w1, f1, z1 := HeldAndFreed(w0, [], 1, true, 1);
    var w2, f2, z2 := HeldAndFreed(w1, [1], 2, f1, z1);
    var w3, f3, z3 := HeldAndFreed(w2, [1, 2], 3, f2, z2);
    var w4, f4, z4 := HeldAndFreed(w3, [1, 2, 3], 4, f3, z3);
    var w5, f5, z5 := HeldAndFreed(w4, [1, 2, 3, 4], 5, f4, z4);
    NeitherHas(w5, f5, z5);
  }

  lemma HoldsNone()
    ensures C.New(MIXED) == Holding([], 0) && [] + [1] == [1] && [1] + [2] == [1, 2] && [1, 2] + [3] == [1, 2, 3]
    ensures [1, 2, 3] + [4] == [1, 2, 3, 4]
  {
    assert Ahead([]) == [];
  }

  lemma NeitherHas(w: World, flag: bool, z: nat)
    requires Lagging(w, 6, flag, z) && w.b.channels == Holding([1, 2, 3, 4], 1)
    ensures Reaches(Origin(), w) && |w.accepted[0]| == 6 && C.Sized(w.b.channels) && w.b.channels.dropped == 1
    ensures !Has(w.b.channels, 0, 5) && !F.Queued(w.a.channels.pending, C.Key(0, 5))
  {
    hide Reaches, Recent, Sole, Logged, Big;
    assert forall h | h in Ahead([1, 2, 3, 4]) :: h.id <= 4;
    assert forall p | p in Queue(flag) :: p.id == 0;
  }

  // ----- Ids on the wire -----

  /** When an ordered id is read as itself, exactly; and what it is read as otherwise. */
  lemma ReadExact(expected: nat, id: nat)
    requires expected < U32 && id < U32
    ensures var r := C.FromWire(expected, C.ToWire(id));
            && (r == Some(id) <==> -HALF_WIRE <= id - expected < HALF_WIRE)
            && (r.Some? && r.value != id ==> r.value >= id + WIRE || id >= r.value + WIRE)
  {
    C.WireIdExact(expected, id);
    ReconstructNear(expected, C.ToWire(id));
    var r := C.FromWire(expected, C.ToWire(id));
    if r.Some? && r.value != id {
      SameWireFarApart(r.value, id);
    }
  }
}
