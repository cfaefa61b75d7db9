/** The channels of one connection as they are kept: payloads in two block arenas, queues of
references to them. Every operation is proved to be the step `Channels` gives on values, and
the live references are always exactly those the queues hold. */
module ChannelsObject {
  import opened Machine
  import opened Sequences
  import opened BitStream
  import opened Frames
  import FrameIO
  import C = Channels
  import A = Arena

  datatype Outbound = Outbound(channel: nat, id: nat, bytes: A.ByteRef, inFlight: bool)

  datatype Inbound = Inbound(channel: nat, id: nat, bytes: A.ByteRef)

  type Store = map<A.ByteRef, Bytes>

  // ----- Queues of references against the arena that holds their payloads -----

  /** The references are exactly the store's, each once. */
  ghost predicate Stored(refs: seq<A.ByteRef>, m: Store) {
    && (forall i | 0 <= i < |refs| :: refs[i] in m && !refs[i].IsNone())
    && (forall i, j | 0 <= i < j < |refs| :: refs[i] != refs[j])
    && (forall r | r in m :: r in refs)
  }

  function OutRefs(q: seq<Outbound>): seq<A.ByteRef> { seq(|q|, i requires 0 <= i < |q| => q[i].bytes) }

  function InRefs(q: seq<Inbound>): seq<A.ByteRef> { seq(|q|, i requires 0 <= i < |q| => q[i].bytes) }

  ghost function PayloadAt(m: Store, r: A.ByteRef): Bytes { if r in m then m[r] else [] }

  /** A queue of references, read through the store. */
  ghost function OutView(q: seq<Outbound>, m: Store): (v: seq<C.Pending>)
    ensures |v| == |q|
  {
    seq(|q|, i requires 0 <= i < |q| => C.Pending(q[i].channel, q[i].id, PayloadAt(m, q[i].bytes), q[i].inFlight))
  }

  ghost function InView(q: seq<Inbound>, m: Store): (v: seq<C.Held>)
    ensures |v| == |q|
  {
    seq(|q|, i requires 0 <= i < |q| => C.Held(q[i].channel, q[i].id, PayloadAt(m, q[i].bytes)))
  }

  lemma StoredAdded(refs: seq<A.ByteRef>, m: Store, r: A.ByteRef, payload: Bytes)
    requires Stored(refs, m) && r !in m && !r.IsNone()
    ensures Stored(refs + [r], m[r := payload])
  {
    assert forall t | t in m[r := payload] :: t == r || t in refs;
  }

  lemma StoredRemoved(refs: seq<A.ByteRef>, m: Store, at: nat)
    requires Stored(refs, m) && at < |refs|
    ensures Stored(refs[..at] + refs[at + 1..], m - {refs[at]})
    ensures forall i | 0 <= i < |refs| && i != at :: refs[i] != refs[at]
  {
    var less, m' := refs[..at] + refs[at + 1..], m - {refs[at]};
    forall i | 0 <= i < |refs| && i != at
      ensures refs[i] != refs[at]
    {
    }
    forall i | 0 <= i < |less|
      ensures less[i] == refs[Skip(at, i)] && less[i] in m' && !less[i].IsNone()
    {
    }
    forall i, j | 0 <= i < j < |less|
      ensures less[i] != less[j]
    {
      assert less[i] == refs[Skip(at, i)] && less[j] == refs[Skip(at, j)];
    }
    forall r | r in m'
      ensures r in less
    {
      var i :| 0 <= i < |refs| && refs[i] == r;
      assert less[if i < at then i else i - 1] == r;
    }
  }

  /** The index, in a list, of the i-th entry left when the one at `at` is taken out. */
  function Skip(at: nat, i: nat): nat { if i < at then i else i + 1 }

  lemma OutAdded(q: seq<Outbound>, m: Store, e: Outbound, payload: Bytes)
    requires Stored(OutRefs(q), m) && e.bytes !in m && !e.bytes.IsNone()
    ensures Stored(OutRefs(q + [e]), m[e.bytes := payload])
    ensures OutView(q + [e], m[e.bytes := payload]) == OutView(q, m) + [C.Pending(e.channel, e.id, payload, e.inFlight)]
  {
    StoredAdded(OutRefs(q), m, e.bytes, payload);
    assert OutRefs(q + [e]) == OutRefs(q) + [e.bytes];
    forall i | 0 <= i < |q|
      ensures q[i].bytes in m
    {
      assert OutRefs(q)[i] == q[i].bytes;
    }
  }

  lemma OutRemoved(q: seq<Outbound>, m: Store, at: nat)
    requires Stored(OutRefs(q), m) && at < |q|
    ensures var less, m' := q[..at] + q[at + 1..], m - {q[at].bytes};
            Stored(OutRefs(less), m') && OutView(less, m') == OutView(q, m)[..at] + OutView(q, m)[at + 1..]
  {
    hide Stored;
    var refs, less, m' := OutRefs(q), q[..at] + q[at + 1..], m - {q[at].bytes};
    StoredRemoved(refs, m, at);
    assert OutRefs(less) == refs[..at] + refs[at + 1..];
    forall i | 0 <= i < |q| && i != at
      ensures PayloadAt(m', q[i].bytes) == PayloadAt(m, q[i].bytes)
    {
      assert refs[i] != refs[at];
    }
  }

  lemma InAdded(q: seq<Inbound>, m: Store, e: Inbound, payload: Bytes)
    requires Stored(InRefs(q), m) && e.bytes !in m && !e.bytes.IsNone()
    ensures Stored(InRefs(q + [e]), m[e.bytes := payload])
    ensures InView(q + [e], m[e.bytes := payload]) == InView(q, m) + [C.Held(e.channel, e.id, payload)]
  {
    StoredAdded(InRefs(q), m, e.bytes, payload);
    assert InRefs(q + [e]) == InRefs(q) + [e.bytes];
    forall i | 0 <= i < |q|
      ensures q[i].bytes in m
    {
      assert InRefs(q)[i] == q[i].bytes;
    }
  }

  lemma InRemoved(q: seq<Inbound>, m: Store, at: nat)
    requires Stored(InRefs(q), m) && at < |q|
    ensures var less, m' := q[..at] + q[at + 1..], m - {q[at].bytes};
            Stored(InRefs(less), m') && InView(less, m') == InView(q, m)[..at] + InView(q, m)[at + 1..]
  {
    hide Stored;
    var refs, less, m' := InRefs(q), q[..at] + q[at + 1..], m - {q[at].bytes};
    StoredRemoved(refs, m, at);
    assert InRefs(less) == refs[..at] + refs[at + 1..];
    forall i | 0 <= i < |q| && i != at
      ensures PayloadAt(m', q[i].bytes) == PayloadAt(m, q[i].bytes)
    {
      assert refs[i] != refs[at];
    }
  }

  // ----- Blocks in use -----

  lemma {:induction false} PendingBlocksAppend(a: seq<C.Pending>, b: seq<C.Pending>)
    ensures C.PendingBlocks(a + b) == C.PendingBlocks(a) + C.PendingBlocks(b)
  {
    hide A.BlocksFor;
    if a == [] {
      assert a + b == b;
    } else {
      assert (a + b)[1..] == a[1..] + b;
      PendingBlocksAppend(a[1..], b);
    }
  }

  lemma PendingBlocksWithout(p: seq<C.Pending>, at: nat)
    requires at < |p|
    ensures C.PendingBlocks(p) == C.PendingBlocks(p[..at] + p[at + 1..]) + A.BlocksFor(|p[at].payload|)
  {
    hide A.BlocksFor;
    assert p == p[..at] + ([p[at]] + p[at + 1..]);
    PendingBlocksAppend(p[..at], [p[at]] + p[at + 1..]);
    PendingBlocksAppend(p[..at], p[at + 1..]);
    assert ([p[at]] + p[at + 1..])[1..] == p[at + 1..];
  }

  lemma {:induction false} HeldBlocksAppend(a: seq<C.Held>, b: seq<C.Held>)
    ensures C.HeldBlocks(a + b) == C.HeldBlocks(a) + C.HeldBlocks(b)
  {
    hide A.BlocksFor;
    if a == [] {
      assert a + b == b;
    } else {
      assert (a + b)[1..] == a[1..] + b;
      HeldBlocksAppend(a[1..], b);
    }
  }

  lemma HeldBlocksWithout(h: seq<C.Held>, at: nat)
    requires at < |h|
    ensures C.HeldBlocks(h) == C.HeldBlocks(h[..at] + h[at + 1..]) + A.BlocksFor(|h[at].payload|)
  {
    hide A.BlocksFor;
    assert h == h[..at] + ([h[at]] + h[at + 1..]);
    HeldBlocksAppend(h[..at], [h[at]] + h[at + 1..]);
    HeldBlocksAppend(h[..at], h[at + 1..]);
    assert ([h[at]] + h[at + 1..])[1..] == h[at + 1..];
  }

  lemma {:induction false} SameSizes(a: seq<C.Pending>, b: seq<C.Pending>)
    requires |a| == |b| && forall i | 0 <= i < |a| :: a[i].payload == b[i].payload
    ensures C.PendingBlocks(a) == C.PendingBlocks(b)
  {
    hide A.BlocksFor;
    if a != [] {
      SameSizes(a[1..], b[1..]);
    }
  }

  // ----- The first message with a key -----

  ghost predicate FirstAt(p: seq<C.Pending>, key: C.Key, at: nat) {
    && at <= |p| && (forall i | 0 <= i < at :: C.KeyOf(p[i]) != key)
    && (at < |p| ==> C.KeyOf(p[at]) == key)
  }

  lemma {:induction false} ReleasedAt(p: seq<C.Pending>, key: C.Key, at: nat)
    requires FirstAt(p, key, at)
    ensures C.Released(p, key) == if at < |p| then p[..at] + p[at + 1..] else p
  {
    if p != [] && at > 0 {
      assert forall i | 0 <= i < at - 1 :: C.KeyOf(p[1..][i]) == C.KeyOf(p[i + 1]);
      ReleasedAt(p[1..], key, at - 1);
      Reattached(p, at);
    }
  }

  lemma Reattached(p: seq<C.Pending>, at: nat)
    requires 0 < at <= |p|
    ensures [p[0]] + p[1..] == p
    ensures at < |p| ==> [p[0]] + (p[1..][..at - 1] + p[1..][at..]) == p[..at] + p[at + 1..]
  {
  }

  lemma {:induction false} MarkedLostAt(p: seq<C.Pending>, key: C.Key, at: nat)
    requires FirstAt(p, key, at)
    ensures C.MarkedLost(p, key) == if at < |p| then p[at := p[at].(inFlight := false)] else p
  {
    if p != [] && at > 0 {
      assert forall i | 0 <= i < at - 1 :: C.KeyOf(p[1..][i]) == C.KeyOf(p[i + 1]);
      MarkedLostAt(p[1..], key, at - 1);
      Remarked(p, at);
    }
  }

  lemma Remarked(p: seq<C.Pending>, at: nat)
    requires 0 < at <= |p|
    ensures [p[0]] + p[1..] == p
    ensures at < |p| ==> p[1..][at - 1] == p[at]
    ensures at < |p| ==> [p[0]] + p[1..][at - 1 := p[at].(inFlight := false)] == p[at := p[at].(inFlight := false)]
  {
  }

  lemma OutMarked(q: seq<Outbound>, m: Store, at: nat, inFlight: bool)
    requires at < |q|
    ensures var q' := q[at := q[at].(inFlight := inFlight)];
            && OutRefs(q') == OutRefs(q)
            && OutView(q', m) == OutView(q, m)[at := OutView(q, m)[at].(inFlight := inFlight)]
  {
  }

  lemma StoredAt(q: seq<Outbound>, m: Store, at: nat)
    requires Stored(OutRefs(q), m) && at < |q|
    ensures q[at].bytes in m && !q[at].bytes.IsNone() && OutView(q, m)[at].payload == m[q[at].bytes]
  {
    assert OutRefs(q)[at] == q[at].bytes;
  }

  lemma InStoredAt(q: seq<Inbound>, m: Store, at: nat)
    requires Stored(InRefs(q), m) && at < |q|
    ensures q[at].bytes in m && !q[at].bytes.IsNone() && InView(q, m)[at].payload == m[q[at].bytes]
  {
    assert InRefs(q)[at] == q[at].bytes;
  }

  // ----- The structure itself -----

  class ChannelState {
    const kinds: Kinds
    var nextIds: seq<nat>
    var receivers: seq<C.Receiver>
    var pending: seq<Outbound>
    var held: seq<Inbound>
    const sendArena: A.Arena
    const recvArena: A.Arena
    var dropped: nat

    ghost function Footprint(): set<object> {
      {this, sendArena, sendArena.blocks, sendArena.next, recvArena, recvArena.blocks, recvArena.next}
    }

    ghost predicate Apart()
    {
      && sendArena != recvArena && sendArena.blocks != recvArena.blocks && sendArena.next != recvArena.next
    }

    /** The send side: the queue's references are exactly the arena's live ones, each once. */
    ghost predicate SendValid()
      reads this, sendArena, sendArena.blocks, sendArena.next
    {
      && sendArena.Valid() && Stored(OutRefs(pending), sendArena.Map()) && |pending| <= C.MAX_PENDING
      && sendArena.freeCount + C.PendingBlocks(OutView(pending, sendArena.Map())) == C.ARENA_BLOCKS
    }

    ghost predicate RecvValid()
      reads this, recvArena, recvArena.blocks, recvArena.next
    {
      && recvArena.Valid() && Stored(InRefs(held), recvArena.Map()) && |held| <= C.MAX_HELD
      && (forall i | 0 <= i < |held| :: held[i].bytes.count <= MAX_MESSAGE)
      && recvArena.freeCount + C.HeldBlocks(InView(held, recvArena.Map())) == C.ARENA_BLOCKS
    }

    ghost predicate Valid()
      reads Footprint()
    {
      && Apart() && |nextIds| == MAX_CHANNELS && |receivers| == MAX_CHANNELS && SendValid() && RecvValid()
    }

    /** The queue of outgoing messages as values. */
    ghost function Queue(): seq<C.Pending>
      requires SendValid()
      reads this, sendArena, sendArena.blocks, sendArena.next
    {
      OutView(pending, sendArena.Map())
    }

    ghost function Hold(): seq<C.Held>
      requires RecvValid()
      reads this, recvArena, recvArena.blocks, recvArena.next
    {
      InView(held, recvArena.Map())
    }

    /** The channels as a value. */
    ghost function View(): C.Channels
      requires Valid()
      reads Footprint()
    {
      C.Channels(kinds, nextIds, receivers, Queue(), Hold(), dropped)
    }

    constructor (kinds: Kinds)
      ensures Valid() && View() == C.New(kinds)
      ensures fresh(Footprint())
    {
      this.kinds := kinds;
      nextIds, receivers := seq(MAX_CHANNELS, _ => 0), seq(MAX_CHANNELS, _ => C.NewReceiver());
      pending, held, dropped := [], [], 0;
      sendArena := new A.Arena(C.ARENA_BLOCKS);
      recvArena := new A.Arena(C.ARENA_BLOCKS);
    }

    /** Queues a message, or says why it cannot be. */
    method Send(channel: nat, payload: Bytes) returns (result: C.SendResult)
      requires Valid()
      modifies Footprint()
      ensures Valid()
      ensures C.Sending(View(), result) == C.Send(old(View()), channel, payload)
    {
      hide A.BlocksFor, Stored, OutRefs, InRefs, OutView, InView, C.PendingBlocks, C.HeldBlocks,
           A.Arena.Valid, A.Arena.Map;
      if |payload| > MAX_MESSAGE {
        return C.TooLarge;
      }
      if channel >= |kinds| {
        return C.NoSuchChannel;
      }
      if |pending| == C.MAX_PENDING {
        return C.WouldBlock;
      }
      ghost var m := sendArena.Map();
      var bytes := sendArena.Store(payload);
      if bytes.None? {
        return C.WouldBlock;
      }
      var id := nextIds[channel];
      var e := Outbound(channel, id, bytes.value, false);
      OutAdded(pending, m, e, payload);
      PendingBlocksAppend(OutView(pending, m), [C.Pending(channel, id, payload, false)]);
      OneBlock(C.Pending(channel, id, payload, false));
      pending := pending + [e];
      nextIds := nextIds[channel := C.NextId(id)];
      return C.Queued;
    }

    /** Where the first queued message with this key is, or the end. */
    method Position(channel: nat, id: nat) returns (at: nat)
      requires SendValid()
      ensures FirstAt(Queue(), C.Key(channel, id), at) && at <= |pending|
    {
      hide A.BlocksFor, Stored, C.PendingBlocks, A.Arena.Valid, A.Arena.Map;
      at := 0;
      while at < |pending| && !(pending[at].channel == channel && pending[at].id == id)
        invariant at <= |pending| && forall i | 0 <= i < at :: C.KeyOf(Queue()[i]) != C.Key(channel, id)
      {
        assert C.KeyOf(Queue()[at]) == C.Key(pending[at].channel, pending[at].id);
        at := at + 1;
      }
      if at < |pending| {
        assert C.KeyOf(Queue()[at]) == C.Key(pending[at].channel, pending[at].id);
      }
    }

    /** The message leaves queue and arena together. */
    method ReleasePending(channel: nat, id: nat)
      requires SendValid()
      modifies this`pending, sendArena, sendArena.next
      ensures SendValid() && Queue() == C.Released(old(Queue()), C.Key(channel, id))
    {
      hide A.BlocksFor, Stored, OutRefs, OutView, C.PendingBlocks, A.Arena.Valid, A.Arena.Map, FirstAt;
      var at := Position(channel, id);
      ReleasedAt(Queue(), C.Key(channel, id), at);
      if at < |pending| {
        ghost var m := sendArena.Map();
        OutRemoved(pending, m, at);
        PendingBlocksWithout(Queue(), at);
        StoredAt(pending, m, at);
        var outbound := pending[at];
        pending := pending[..at] + pending[at + 1..];
        sendArena.Release(outbound.bytes);
      }
    }

    method SetInFlight(at: nat, inFlight: bool)
      requires SendValid() && at < |pending|
      modifies this`pending
      ensures SendValid() && |pending| == old(|pending|)
              && Queue() == old(Queue())[at := old(Queue())[at].(inFlight := inFlight)]
      ensures pending == old(pending)[at := old(pending[at]).(inFlight := inFlight)]
    {
      hide A.BlocksFor, Stored, OutRefs, OutView, C.PendingBlocks, A.Arena.Valid, A.Arena.Map;
      ghost var q := Queue();
      OutMarked(pending, sendArena.Map(), at, inFlight);
      SameSizes(q, q[at := q[at].(inFlight := inFlight)]);
      pending := pending[at := pending[at].(inFlight := inFlight)];
    }

    method MarkLost(channel: nat, id: nat)
      requires SendValid()
      modifies this`pending
      ensures SendValid() && Queue() == C.MarkedLost(old(Queue()), C.Key(channel, id))
    {
      hide ChannelState.SendValid, ChannelState.Queue, FirstAt;
      QueueLength();
      var at := Position(channel, id);
      MarkedLostAt(Queue(), C.Key(channel, id), at);
      if at < |pending| {
        SetInFlight(at, false);
      }
    }

    lemma QueueLength()
      requires SendValid()
      ensures |Queue()| == |pending|
      ensures forall i | 0 <= i < |pending| ::
                Queue()[i].channel == pending[i].channel && Queue()[i].inFlight == pending[i].inFlight
    {
    }

    // ----- Outcomes of packets -----

    /** Every message of an acknowledged packet is released. */
    method OnAcked(record: seq<C.Key>)
      requires SendValid()
      modifies this`pending, sendArena, sendArena.next
      ensures SendValid() && Queue() == C.ReleasedAll(old(Queue()), record)
    {
      hide ChannelState.SendValid, ChannelState.Queue, C.Released;
      ghost var q := Queue();
      assert record[..0] == [];
      for i := 0 to |record|
        invariant SendValid() && Queue() == C.ReleasedAll(q, record[..i])
      {
        ReleasePending(record[i].channel, record[i].id);
        assert record[..i + 1][..i] == record[..i];
      }
      assert record[..|record|] == record;
    }

    /** Every message of a lost packet waits again. */
    method OnLost(record: seq<C.Key>)
      requires SendValid()
      modifies this`pending
      ensures SendValid() && Queue() == C.MarkedLostAll(old(Queue()), record)
    {
      hide ChannelState.SendValid, ChannelState.Queue, C.MarkedLost;
      ghost var q := Queue();
      assert record[..0] == [];
      for i := 0 to |record|
        invariant SendValid() && Queue() == C.MarkedLostAll(q, record[..i])
      {
        MarkLost(record[i].channel, record[i].id);
        assert record[..i + 1][..i] == record[..i];
      }
      assert record[..|record|] == record;
    }

    /** Of what was staged, the reliable part is kept as the packet's record and the rest let go. */
    method OnPacketSent(staged: seq<Staged>, ghost messages: seq<C.Pending>) returns (record: seq<C.Key>)
      requires SendValid() && C.AllSendable(kinds, messages) && Stages(kinds, staged, messages)
      modifies this`pending, sendArena, sendArena.next
      ensures SendValid() && Queue() == C.Committed(kinds, old(Queue()), messages)
      ensures record == C.RecordOf(kinds, messages)
    {
      hide ChannelState.SendValid, ChannelState.Queue, C.Released;
      ghost var q := Queue();
      record := [];
      for i := 0 to |staged|
        invariant SendValid() && record == C.KeysWhere(kinds, messages[..i], true)
        invariant Queue() == C.ReleasedAll(q, C.KeysWhere(kinds, messages[..i], false))
      {
        var msg := staged[i];
        KeysSnoc(kinds, messages, i, q);
        if msg.reliable {
          record := record + [C.Key(msg.channel, msg.id)];
        } else {
          ReleasePending(msg.channel, msg.id);
        }
      }
      assert messages[..|staged|] == messages;
    }

    /** Undoes the staging of a packet that is given up. */
    method OnPacketAborted(staged: seq<Staged>)
      requires SendValid()
      modifies this`pending
      ensures SendValid() && Queue() == C.MarkedLostAll(old(Queue()), StagedKeys(staged))
    {
      hide ChannelState.SendValid, ChannelState.Queue, C.MarkedLost;
      OnLost(StagedKeys(staged));
    }

    /** Work on the send side leaves the rest of the channels as it was. */
    twostate lemma OnlyQueueChanged()
      requires old(Valid()) && SendValid()
      requires unchanged(this`nextIds, this`receivers, this`held, this`dropped)
      requires unchanged(recvArena, recvArena.blocks, recvArena.next)
      ensures Valid() && View() == old(View()).(pending := Queue())
    {
      hide A.BlocksFor, Stored, OutRefs, InRefs, OutView, InView, C.PendingBlocks, C.HeldBlocks,
           A.Arena.Valid, A.Arena.Map;
    }

    /** The first `max` messages in flight wait again. */
    method RequeueOldest(max: nat) returns (requeued: nat)
      requires SendValid()
      modifies this`pending
      ensures SendValid() && Queue() == C.Requeued(old(Queue()), max) && requeued <= max
    {
      hide ChannelState.SendValid, ChannelState.Queue, C.Requeued;
      requeued := 0;
      ghost var q := Queue();
      QueueLength();
      var at := 0;
      SliceAll(q);
      while at < |pending| && requeued < max
        invariant SendValid() && at <= |pending| == |q| == |Queue()| && requeued <= max
        invariant Queue()[..at] + C.Requeued(q[at..], max - requeued) == C.Requeued(q, max)
        invariant Queue()[at..] == q[at..]
      {
        QueueLength();
        RequeueStep(Queue(), q, at, max - requeued);
        if pending[at].inFlight {
          SetInFlight(at, false);
          requeued := requeued + 1;
        }
        at := at + 1;
      }
      RequeueDone(Queue(), q, at, max - requeued);
    }

    /** The first waiting message of a channel. */
    method FindUnsent(channel: nat) returns (at: Option<nat>)
      requires SendValid()
      ensures at == C.FirstUnsent(Queue(), channel, 0)
    {
      hide A.BlocksFor, Stored, C.PendingBlocks, A.Arena.Valid, A.Arena.Map, OutRefs, OutView;
      var i := 0;
      while i < |pending|
        invariant i <= |pending| == |Queue()|
        invariant C.FirstUnsent(Queue(), channel, 0) == C.FirstUnsent(Queue(), channel, i)
      {
        OutMarkAt(pending, sendArena.Map(), i);
        if pending[i].channel == channel && !pending[i].inFlight {
          return Some(i);
        }
        i := i + 1;
      }
      return None;
    }

    /** How long the first message is that filling a packet would look at. */
    method NextUnsentLen() returns (len: Option<nat>)
      requires SendValid()
      ensures len == C.NextUnsentLen(kinds, Queue(), 0)
    {
      hide A.BlocksFor, Stored, C.PendingBlocks, A.Arena.Valid, OutRefs, OutView, C.FirstUnsent;
      for channel := 0 to |kinds|
        invariant C.NextUnsentLen(kinds, Queue(), 0) == C.NextUnsentLen(kinds, Queue(), channel)
      {
        var at := FindUnsent(channel);
        if at.Some? {
          StoredAt(pending, sendArena.Map(), at.value);
          return Some(pending[at.value].bytes.count);
        }
      }
      return None;
    }

    // ----- Filling a packet -----

    /** Tries one message: written and marked in flight, or the packet and queue as they were. */
    method StageOne(w: BitWriter, at: nat, startBits: nat, limit: nat) returns (outcome: Attempt)
      requires SendValid() && w.Valid() && {w, w.buf} !! Footprint()
      requires at < |pending| && startBits <= w.bitsWritten && C.Sendable(kinds, Queue()[at])
      modifies this`pending, w, w.buf
      ensures SendValid() && w.Valid() && |pending| == old(|pending|)
              && pending[at] == old(pending[at]).(inFlight := pending[at].inFlight)
      ensures var q, body := old(Queue()), old(w.Stream());
              var e := Encoded(kinds, C.FrameOf(kinds, q[at]), |body|);
              && (outcome.NoRoom? <==> |body + e| > 8 * w.buf.Length)
              && (outcome.Fits? <==> |body + e| <= 8 * w.buf.Length && CeilBytes(|body + e| - startBits) <= limit)
              && w.Stream() == (if outcome.Fits? then body + e else body)
              && Queue() == (if outcome.Fits? then q[at := q[at].(inFlight := true)] else q)
    {
      hide A.BlocksFor, Stored, C.PendingBlocks, A.Arena.Valid, A.Arena.Map, OutRefs, OutView,
           BitWriter.Stream, BitWriter.Valid, Frames.Encoded, CeilBytes, Encodable;
      ghost var q, body, m := Queue(), w.Stream(), sendArena.Map();
      StoredAt(pending, m, at);
      OutKeyAt(pending, m, at);
      ghost var f := C.FrameOf(kinds, q[at]);
      var p := pending[at];
      var checkpoint := w.Checkpoint();
      var chunks := sendArena.Chunks(p.bytes);
      var wire := if kinds[p.channel].NeedsId() then C.ToWire(p.id) else 0;
      var ok := FrameIO.WriteMessageFrame(w, kinds, p.channel, wire, p.bytes.count, chunks, f);
      if !ok {
        w.Rollback(checkpoint);
        assert w.Stream() == body;
        return NoRoom;
      }
      if CeilBytes(w.bitsWritten - startBits) > limit {
        w.Rollback(checkpoint);
        assert w.Stream() == body;
        return OverLimit;
      }
      SetInFlight(at, true);
      return Fits;
    }

    /** Fills the packet with waiting messages, channels in configured order, within `limit`
    bytes: exactly the messages and bits `Fill` gives. */
    method WriteFrames(w: BitWriter, limit: nat) returns (staged: seq<Staged>, ghost messages: seq<C.Pending>)
      requires SendValid() && w.Valid() && {w, w.buf} !! Footprint() && C.AllSendable(kinds, Queue())
      modifies this`pending, w, w.buf
      ensures SendValid() && w.Valid()
      ensures C.AllSendable(kinds, messages) && Stages(kinds, staged, messages)
      ensures C.Staging(Queue(), w.Stream(), messages)
              == C.Fill(kinds, C.Staging(old(Queue()), old(w.Stream()), []), old(w.bitsWritten), 8 * w.buf.Length,
                        limit, 0)
    {
      hide A.BlocksFor, Stored, C.PendingBlocks, A.Arena.Valid, A.Arena.Map, OutRefs, OutView, C.FirstUnsent, C.Fill,
           BitWriter.Stream, BitWriter.Valid, Frames.Encoded, C.FrameOf, CeilBytes, C.Sendable;
      staged, messages := [], [];
      var startBits := w.bitsWritten;
      ghost var capacity := 8 * w.buf.Length;
      ghost var full := C.Fill(kinds, C.Staging(Queue(), w.Stream(), []), startBits, capacity, limit, 0);
      var channel := 0;
      while channel < |kinds|
        invariant SendValid() && w.Valid() && startBits <= w.bitsWritten && channel <= |kinds|
        invariant C.AllSendable(kinds, Queue()) && C.AllSendable(kinds, messages) && Stages(kinds, staged, messages)
        invariant C.Fill(kinds, C.Staging(Queue(), w.Stream(), messages), startBits, capacity, limit, channel) == full
        decreases |kinds| - channel, C.Unsent(Queue())
      {
        ghost var s := C.Staging(Queue(), w.Stream(), messages);
        FillStep(kinds, s, startBits, capacity, limit, channel);
        if |staged| >= C.MAX_MESSAGES_PER_PACKET || CeilBytes(w.bitsWritten - startBits) >= limit {
          return;
        }
        var found := FindUnsent(channel);
        if found.None? {
          channel := channel + 1;
          continue;
        }
        var at := found.value;
        OutKeyAt(pending, sendArena.Map(), at);
        var outcome := StageOne(w, at, startBits, limit);
        if outcome.NoRoom? {
          channel := channel + 1;
          continue;
        }
        if outcome.OverLimit? {
          return;
        }
        staged := staged + [Staged(pending[at].channel, pending[at].id, kinds[channel].IsReliable())];
        messages := messages + [s.pending[at]];
        C.UnsentMarked(s.pending, at);
        MarkedSendable(kinds, s.pending, at);
      }
      FillEnd(kinds, C.Staging(Queue(), w.Stream(), messages), startBits, capacity, limit, channel);
    }

    // ----- Receiving -----

    method FindHeld(channel: nat, id: nat) returns (at: Option<nat>)
      requires RecvValid()
      ensures at == C.HeldAt(Hold(), channel, id, 0)
    {
      hide A.BlocksFor, Stored, C.HeldBlocks, A.Arena.Valid, A.Arena.Map, InRefs, InView;
      var i := 0;
      while i < |held|
        invariant i <= |held| == |Hold()|
        invariant C.HeldAt(Hold(), channel, id, 0) == C.HeldAt(Hold(), channel, id, i)
      {
        InKeyAt(held, recvArena.Map(), i);
        if held[i].channel == channel && held[i].id == id {
          return Some(i);
        }
        i := i + 1;
      }
      return None;
    }

    /** Takes one held message out of the hold and frees its storage. */
    method TakeHeld(channel: nat, at: nat) returns (payload: Bytes)
      requires Valid() && channel < MAX_CHANNELS && at < |held|
      modifies this`held, this`receivers, recvArena, recvArena.next
      ensures Valid() && |held| == old(|held|) - 1
      ensures payload == old(View()).held[at].payload && View() == TakenOut(old(View()), channel, at)
    {
      hide A.BlocksFor, Stored, OutRefs, InRefs, OutView, InView, C.PendingBlocks, C.HeldBlocks,
           A.Arena.Valid, A.Arena.Map;
      ghost var m, h := recvArena.Map(), Hold();
      InStoredAt(held, m, at);
      InKeyAt(held, m, at);
      InRemoved(held, m, at);
      HeldBlocksWithout(h, at);
      var entry := held[at];
      var staging := new byte[MAX_MESSAGE];
      var len := recvArena.Load(entry.bytes, staging);
      payload := staging[..entry.bytes.count];
      held := held[..at] + held[at + 1..];
      receivers := receivers[channel := receivers[channel].(expected := C.NextId(entry.id))];
      recvArena.Release(entry.bytes);
    }

    /** The run of held messages that now follows the last one delivered. */
    method FlushOrdered(channel: nat) returns (delivered: seq<C.Delivery>)
      requires Valid() && channel < MAX_CHANNELS
      modifies this`held, this`receivers, recvArena, recvArena.next
      ensures Valid() && C.Received(View(), delivered, true) == C.Flushed(old(View()), channel)
    {
      hide ChannelState.SendValid, ChannelState.RecvValid, C.HeldAt, C.Flushed, TakenOut;
      delivered := [];
      ghost var whole := C.Flushed(View(), channel);
      var next := FindHeld(channel, receivers[channel].expected);
      FlushStart(View(), channel);
      while next.Some?
        invariant Valid() && next == C.HeldAt(Hold(), channel, receivers[channel].expected, 0)
        invariant next.Some? ==> next.value < |held|
        invariant var rest := C.Flushed(View(), channel);
                  whole == C.Received(rest.channels, delivered + rest.delivered, true)
        decreases |held|
      {
        ghost var c := View();
        FlushStep(c, channel, next.value);
        var payload := TakeHeld(channel, next.value);
        ghost var rest := C.Flushed(View(), channel);
        assert delivered + ([C.Delivery(channel, payload)] + rest.delivered)
            == delivered + [C.Delivery(channel, payload)] + rest.delivered;
        delivered := delivered + [C.Delivery(channel, payload)];
        next := FindHeld(channel, receivers[channel].expected);
      }
      FlushEnd(View(), channel);
      assert delivered + [] == delivered;
    }

    /** An ordered message whose id has been resolved. */
    method ReceiveOrdered(channel: nat, id: nat, payload: Bytes) returns (delivered: seq<C.Delivery>)
      requires Valid() && channel < MAX_CHANNELS && |payload| <= MAX_MESSAGE
      modifies this, recvArena, recvArena.blocks, recvArena.next
      ensures Valid() && C.Received(View(), delivered, true) == C.ReceiveOrdered(old(View()), channel, id, payload)
    {
      hide ChannelState.SendValid, ChannelState.RecvValid, C.HeldAt, C.NextId, C.Flushed, C.Distance, C.HeldBlocks,
           A.BlocksFor;
      var distance := C.Distance(id, receivers[channel].expected);
      if distance < 0 {
        return [];
      }
      if distance == 0 {
        SetReceiver(channel, receivers[channel].(expected := C.NextId(receivers[channel].expected)));
        var flushed := FlushOrdered(channel);
        return [C.Delivery(channel, payload)] + flushed;
      }
      var already := FindHeld(channel, id);
      if already.Some? {
        return [];
      }
      HoldMessage(channel, id, payload);
      return [];
    }

    /** Keeps a message ahead of the gap, or counts it dropped. */
    method HoldMessage(channel: nat, id: nat, payload: Bytes)
      requires Valid() && |payload| <= MAX_MESSAGE
      modifies this`held, this`dropped, recvArena, recvArena.blocks, recvArena.next
      ensures Valid()
      ensures var c := old(View());
              View() == if |c.held| == C.MAX_HELD || A.BlocksFor(|payload|) + C.HeldBlocks(c.held) > C.ARENA_BLOCKS
                        then c.(dropped := c.dropped + 1)
                        else c.(held := c.held + [C.Held(channel, id, payload)])
    {
      hide A.BlocksFor, Stored, OutRefs, InRefs, OutView, InView, C.PendingBlocks, C.HeldBlocks,
           A.Arena.Valid, A.Arena.Map;
      if |held| == C.MAX_HELD {
        dropped := dropped + 1;
        return;
      }
      ghost var m, h := recvArena.Map(), Hold();
      var bytes := recvArena.Store(payload);
      if bytes.None? {
        dropped := dropped + 1;
        return;
      }
      var e := Inbound(channel, id, bytes.value);
      InAdded(held, m, e, payload);
      HeldBlocksAppend(h, [C.Held(channel, id, payload)]);
      OneHeld(C.Held(channel, id, payload));
      held := held + [e];
    }

    /** One message frame, as read from a packet. */
    method ReadMessage(channel: nat, wire: nat, payload: Bytes) returns (delivered: seq<C.Delivery>, ok: bool)
      requires Valid() && channel < |kinds| && wire < WIRE && |payload| <= MAX_MESSAGE
      modifies this, recvArena, recvArena.blocks, recvArena.next
      ensures Valid() && C.Received(View(), delivered, ok) == C.Receive(old(View()), channel, wire, payload)
    {
      hide ChannelState.SendValid, ChannelState.RecvValid, C.ReceiveOrdered, C.Distance, C.AcceptUnordered, C.FromWire,
           ChannelState.Queue, ChannelState.Hold;
      var kind := kinds[channel];
      if !kind.NeedsId() {
        return [C.Delivery(channel, payload)], true;
      }
      var resolved := C.FromWire(C.Reference(receivers[channel], kind), wire);
      if resolved.None? {
        return [], false;
      }
      var id := resolved.value;
      ok := true;
      if kind.ReliableOrdered? {
        delivered := ReceiveOrdered(channel, id, payload);
      } else if kind.ReliableUnordered? {
        var f := C.AcceptUnordered(receivers[channel], id);
        SetReceiver(channel, f.receiver);
        delivered := if f.isNew then [C.Delivery(channel, payload)] else [];
      } else {
        var state := receivers[channel];
        if state.hasNewest && C.Distance(id, state.newest) <= 0 {
          return [], true;
        }
        SetReceiver(channel, state.(newest := id, hasNewest := true));
        delivered := [C.Delivery(channel, payload)];
      }
    }

    method SetReceiver(channel: nat, state: C.Receiver)
      requires Valid() && channel < MAX_CHANNELS
      modifies this`receivers
      ensures Valid() && View() == old(View()).(receivers := old(receivers)[channel := state])
    {
      receivers := receivers[channel := state];
    }
  }

  lemma InKeyAt(q: seq<Inbound>, m: Store, at: nat)
    requires at < |q|
    ensures InView(q, m)[at].channel == q[at].channel && InView(q, m)[at].id == q[at].id
  {
  }

  lemma OneHeld(h: C.Held)
    ensures C.HeldBlocks([h]) == A.BlocksFor(|h.payload|)
  {
    assert [h][1..] == [];
  }

  lemma FlushStart(c: C.Channels, channel: nat)
    requires C.Sized(c) && channel < MAX_CHANNELS
    ensures var whole := C.Flushed(c, channel); whole == C.Received(whole.channels, [] + whole.delivered, true)
  {
    assert [] + C.Flushed(c, channel).delivered == C.Flushed(c, channel).delivered;
  }

  /** A held message is taken out, and the one after it is expected. */
  ghost function TakenOut(c: C.Channels, channel: nat, at: nat): C.Channels
    requires C.Sized(c) && channel < MAX_CHANNELS && at < |c.held|
  {
    c.(held := c.held[..at] + c.held[at + 1..],
       receivers := c.receivers[channel := c.receivers[channel].(expected := C.NextId(c.held[at].id))])
  }

  lemma FlushStep(c: C.Channels, channel: nat, at: nat)
    requires C.Sized(c) && channel < MAX_CHANNELS && at < |c.held|
    requires C.HeldAt(c.held, channel, c.receivers[channel].expected, 0) == Some(at)
    ensures C.Sized(TakenOut(c, channel, at))
    ensures var rest := C.Flushed(TakenOut(c, channel, at), channel);
            C.Flushed(c, channel)
            == C.Received(rest.channels, [C.Delivery(channel, c.held[at].payload)] + rest.delivered, true)
  {
    hide C.HeldAt, C.NextId;
  }

  lemma FlushEnd(c: C.Channels, channel: nat)
    requires C.Sized(c) && channel < MAX_CHANNELS && C.HeldAt(c.held, channel, c.receivers[channel].expected, 0).None?
    ensures C.Flushed(c, channel) == C.Received(c, [], true)
  {
    hide C.HeldAt;
  }

  datatype Attempt = NoRoom | OverLimit | Fits

  lemma OutKeyAt(q: seq<Outbound>, m: Store, at: nat)
    requires at < |q|
    ensures var v := OutView(q, m)[at]; v.channel == q[at].channel && v.id == q[at].id && v.inFlight == q[at].inFlight
  {
  }

  lemma MarkedSendable(kinds: Kinds, q: seq<C.Pending>, at: nat)
    requires C.AllSendable(kinds, q) && at < |q|
    ensures C.AllSendable(kinds, q[at := q[at].(inFlight := true)])
  {
  }

  /** One turn of filling a packet. */
  lemma FillStep(kinds: Kinds, s: C.Staging, start: nat, capacity: nat, limit: nat, ch: nat)
    requires C.AllSendable(kinds, s.pending) && start <= |s.body| && ch < |kinds|
    ensures C.Fill(kinds, s, start, capacity, limit, ch) ==
            if |s.staged| >= C.MAX_MESSAGES_PER_PACKET || CeilBytes(|s.body| - start) >= limit then s
            else
              var at := C.FirstUnsent(s.pending, ch, 0);
              if at.None? then C.Fill(kinds, s, start, capacity, limit, ch + 1)
              else
                var p := s.pending[at.value];
                var body := s.body + Encoded(kinds, C.FrameOf(kinds, p), |s.body|);
                if |body| > capacity then C.Fill(kinds, s, start, capacity, limit, ch + 1)
                else if CeilBytes(|body| - start) > limit then s
                else C.Fill(kinds, C.Staging(s.pending[at.value := p.(inFlight := true)], body, s.staged + [p]),
                            start, capacity, limit, ch)
  {
    hide CeilBytes, C.FirstUnsent, Encoded, C.FrameOf;
  }

  lemma FillEnd(kinds: Kinds, s: C.Staging, start: nat, capacity: nat, limit: nat, ch: nat)
    requires C.AllSendable(kinds, s.pending) && start <= |s.body| && ch >= |kinds|
    ensures C.Fill(kinds, s, start, capacity, limit, ch) == s
  {
  }

  /** What the packet remembers of a message put in it. */
  datatype Staged = Staged(channel: nat, id: nat, reliable: bool)

  function StagedKeys(staged: seq<Staged>): seq<C.Key> {
    seq(|staged|, i requires 0 <= i < |staged| => C.Key(staged[i].channel, staged[i].id))
  }

  ghost predicate Stages(kinds: Kinds, staged: seq<Staged>, messages: seq<C.Pending>)
    requires C.AllSendable(kinds, messages)
  {
    && |staged| == |messages|
    && forall i | 0 <= i < |staged| ::
         staged[i] == Staged(messages[i].channel, messages[i].id, kinds[messages[i].channel].IsReliable())
  }

  lemma SameLength(kinds: Kinds, staged: seq<Staged>, messages: seq<C.Pending>)
    requires C.AllSendable(kinds, messages) && Stages(kinds, staged, messages)
    ensures |staged| == |messages|
  {
  }

  lemma KeysSnoc(kinds: Kinds, messages: seq<C.Pending>, i: nat, q: seq<C.Pending>)
    requires C.AllSendable(kinds, messages) && i < |messages|
    ensures var p := messages[i];
            var reliable := kinds[p.channel].IsReliable();
            && C.KeysWhere(kinds, messages[..i + 1], true)
               == C.KeysWhere(kinds, messages[..i], true) + (if reliable then [C.KeyOf(p)] else [])
            && C.ReleasedAll(q, C.KeysWhere(kinds, messages[..i + 1], false))
               == (if reliable then C.ReleasedAll(q, C.KeysWhere(kinds, messages[..i], false))
                   else C.Released(C.ReleasedAll(q, C.KeysWhere(kinds, messages[..i], false)), C.KeyOf(p)))
  {
    hide C.Released;
    assert messages[..i + 1][..i] == messages[..i];
    var keys := C.KeysWhere(kinds, messages[..i], false);
    assert keys + [] == keys;
    assert (keys + [C.KeyOf(messages[i])])[..|keys|] == keys;
  }

  lemma SliceAll(q: seq<C.Pending>)
    ensures q[0..] == q && q[..0] == []
  {
  }

  lemma OutMarkAt(q: seq<Outbound>, m: Store, at: nat)
    requires at < |q|
    ensures OutView(q, m)[at].channel == q[at].channel && OutView(q, m)[at].inFlight == q[at].inFlight
  {
  }

  lemma RequeueStep(now: seq<C.Pending>, q: seq<C.Pending>, at: nat, left: nat)
    requires |now| == |q| && at < |q| && now[at..] == q[at..] && left > 0
    ensures now[at] == q[at] && now[at + 1..] == q[at + 1..]
    ensures var marked := now[at := now[at].(inFlight := false)];
            && marked[at + 1..] == q[at + 1..]
            && now[..at] + C.Requeued(q[at..], left)
               == (if q[at].inFlight then marked[..at + 1] + C.Requeued(q[at + 1..], left - 1)
                   else now[..at + 1] + C.Requeued(q[at + 1..], left))
  {
    assert now[at] == now[at..][0] == q[at..][0];
    assert now[at + 1..] == now[at..][1..] && q[at + 1..] == q[at..][1..];
    var marked := now[at := now[at].(inFlight := false)];
    assert marked[..at + 1] == now[..at] + [marked[at]];
    assert now[..at + 1] == now[..at] + [now[at]];
  }

  lemma RequeueDone(now: seq<C.Pending>, q: seq<C.Pending>, at: nat, left: nat)
    requires |now| == |q| && at <= |q| && now[at..] == q[at..] && (at == |q| || left == 0)
    ensures now[..at] + C.Requeued(q[at..], left) == now
  {
    assert now == now[..at] + now[at..];
  }

  lemma OneBlock(p: C.Pending)
    ensures C.PendingBlocks([p]) == A.BlocksFor(|p.payload|)
  {
    assert [p][1..] == [];
  }
}