/** What each operation does to the send queue, message by message. */
module SendQueue {
  import opened BitStream
  import opened Frames
  import opened Channels

  /** Each channel's messages are queued in the order of their ids. */
  ghost predicate Ordered(pending: seq<Pending>) {
    forall i, j | 0 <= i < j < |pending| && pending[i].channel == pending[j].channel :: pending[i].id < pending[j].id
  }

  lemma OrderedTail(pending: seq<Pending>)
    requires Ordered(pending) && pending != []
    ensures Ordered(pending[1..])
    ensures forall i | 0 < i < |pending| :: KeyOf(pending[i]) != KeyOf(pending[0])
  {
  }

  /** Exactly the message with this key leaves the queue; the rest keep their order. */
  lemma {:induction false} ReleasedExact(pending: seq<Pending>, key: Key)
    requires Ordered(pending)
    ensures Ordered(Released(pending, key)) && |Released(pending, key)| <= |pending|
    ensures forall p :: p in Released(pending, key) <==> p in pending && KeyOf(p) != key
  {
    if pending != [] {
      var rest := pending[1..];
      OrderedTail(pending);
      ReleasedExact(rest, key);
      if KeyOf(pending[0]) != key {
        var r := Released(rest, key);
        forall j | 0 <= j < |r|
          ensures r[j].channel == pending[0].channel ==> pending[0].id < r[j].id
        {
          assert r[j] in rest;
          var k :| 0 <= k < |rest| && rest[k] == r[j];
          assert pending[k + 1] == r[j];
        }
      }
    }
  }

  lemma {:induction false} ReleasedAllExact(pending: seq<Pending>, keys: seq<Key>)
    requires Ordered(pending)
    ensures Ordered(ReleasedAll(pending, keys)) && |ReleasedAll(pending, keys)| <= |pending|
    ensures forall p :: p in ReleasedAll(pending, keys) <==> p in pending && KeyOf(p) !in keys
  {
    if keys != [] {
      var n := |keys| - 1;
      ReleasedAllExact(pending, keys[..n]);
      ReleasedExact(ReleasedAll(pending, keys[..n]), keys[n]);
      assert forall k :: k in keys <==> k in keys[..n] || k == keys[n];
    }
  }

  /** The message itself, except that it may no longer be marked in flight. */
  predicate SameMessage(p: Pending, q: Pending) { p.(inFlight := q.inFlight) == q }

  ghost predicate SameMessages(a: seq<Pending>, b: seq<Pending>) {
    |a| == |b| && forall i | 0 <= i < |a| :: SameMessage(a[i], b[i])
  }

  lemma SameMessagesKeeps(kinds: Kinds, a: seq<Pending>, b: seq<Pending>)
    requires SameMessages(a, b)
    ensures Ordered(a) ==> Ordered(b)
    ensures AllSendable(kinds, a) ==> AllSendable(kinds, b)
  {
    forall i | 0 <= i < |a|
      ensures a[i].channel == b[i].channel && a[i].id == b[i].id && a[i].payload == b[i].payload
    {
      assert SameMessage(a[i], b[i]);
    }
  }

  /** Exactly the message with this key is unmarked, in place. */
  lemma {:induction false} MarkedLostExact(pending: seq<Pending>, key: Key)
    requires Ordered(pending)
    ensures |MarkedLost(pending, key)| == |pending|
    ensures forall i | 0 <= i < |pending| ::
              MarkedLost(pending, key)[i]
              == if KeyOf(pending[i]) == key then pending[i].(inFlight := false) else pending[i]
  {
    if pending != [] {
      OrderedTail(pending);
      MarkedLostExact(pending[1..], key);
    }
  }

  lemma {:induction false} MarkedLostAllExact(pending: seq<Pending>, keys: seq<Key>)
    requires Ordered(pending)
    ensures |MarkedLostAll(pending, keys)| == |pending|
    ensures forall i | 0 <= i < |pending| ::
              MarkedLostAll(pending, keys)[i]
              == if KeyOf(pending[i]) in keys then pending[i].(inFlight := false) else pending[i]
    ensures Ordered(MarkedLostAll(pending, keys))
  {
    if keys != [] {
      var n := |keys| - 1;
      MarkedLostAllExact(pending, keys[..n]);
      MarkedLostExact(MarkedLostAll(pending, keys[..n]), keys[n]);
      assert forall k :: k in keys <==> k in keys[..n] || k == keys[n];
    }
  }

  lemma {:induction false} RequeuedSame(pending: seq<Pending>, max: nat)
    ensures SameMessages(pending, Requeued(pending, max))
    ensures forall i | 0 <= i < |pending| :: Requeued(pending, max)[i].inFlight ==> pending[i].inFlight
  {
    if pending != [] && max > 0 {
      RequeuedSame(pending[1..], if pending[0].inFlight then max - 1 else max);
    }
  }

  // ----- Filling a packet -----

  /** The first message waiting on a channel has none waiting there before it. */
  lemma {:induction false} FirstIsLeast(pending: seq<Pending>, ch: nat, i: nat)
    ensures var at := FirstUnsent(pending, ch, i);
            at.Some? ==> forall j | i <= j < at.value :: pending[j].channel == ch ==> pending[j].inFlight
    decreases |pending| - i
  {
    if i < |pending| {
      FirstIsLeast(pending, ch, i + 1);
    }
  }

  function FramesOf(kinds: Kinds, staged: seq<Pending>): (f: seq<Frame>)
    requires AllSendable(kinds, staged)
    ensures |f| == |staged|
    ensures forall i | 0 <= i < |f| :: f[i] == FrameOf(kinds, staged[i])
  {
    seq(|staged|, i requires 0 <= i < |staged| => FrameOf(kinds, staged[i]))
  }

  /** How a packet in progress relates to the queue it is filled from: what is newly marked in
  flight is what is staged, and the body prints the frames before it and then its messages. */
  ghost predicate Filled(kinds: Kinds, before: seq<Frame>, pending: seq<Pending>, s: Staging) {
    && AllSendable(kinds, pending) && AllSendable(kinds, s.staged) && AllEncodable(kinds, before)
    && SameMessages(pending, s.pending)
    && |s.staged| <= MAX_MESSAGES_PER_PACKET
    && (forall i | 0 <= i < |pending| ::
          s.pending[i] == pending[i] || (!pending[i].inFlight && pending[i] in s.staged))
    && (forall k | 0 <= k < |s.staged| :: s.staged[k] in pending && !s.staged[k].inFlight)
    && s.body == Body(kinds, before + FramesOf(kinds, s.staged))
  }

  lemma StageOne(kinds: Kinds, before: seq<Frame>, pending: seq<Pending>, s: Staging, at: nat)
    requires Filled(kinds, before, pending, s) && |s.staged| < MAX_MESSAGES_PER_PACKET
    requires at < |s.pending| && !s.pending[at].inFlight && AllSendable(kinds, s.pending)
    ensures var p := s.pending[at];
            Filled(kinds, before, pending,
                   Staging(s.pending[at := p.(inFlight := true)],
                           s.body + Encoded(kinds, FrameOf(kinds, p), |s.body|), s.staged + [p]))
  {
    hide Encoded, Encodable, BitStream.CeilBytes;
    var p := s.pending[at];
    assert SameMessage(pending[at], p) && pending[at] == p;
    var frames := before + FramesOf(kinds, s.staged);
    var more := before + FramesOf(kinds, s.staged + [p]);
    assert more[..|more| - 1] == frames && more[|more| - 1] == FrameOf(kinds, p);
  }

  lemma {:induction false} FillFilled(kinds: Kinds, before: seq<Frame>, pending: seq<Pending>, s: Staging,
                                      start: nat, capacity: nat, limit: nat, ch: nat)
    requires Filled(kinds, before, pending, s) && AllSendable(kinds, s.pending) && start <= |s.body|
    ensures Filled(kinds, before, pending, Fill(kinds, s, start, capacity, limit, ch))
    ensures |s.body| <= capacity ==> |Fill(kinds, s, start, capacity, limit, ch).body| <= capacity
    ensures CeilBytes(|s.body| - start) <= limit ==>
              var r := Fill(kinds, s, start, capacity, limit, ch);
              start <= |r.body| && CeilBytes(|r.body| - start) <= limit
    decreases |kinds| - ch, Unsent(s.pending)
  {
    hide Filled, Encoded, Encodable, BitStream.CeilBytes, FrameOf, AllSendable;
    if ch < |kinds| && |s.staged| < MAX_MESSAGES_PER_PACKET && CeilBytes(|s.body| - start) < limit {
      var at := FirstUnsent(s.pending, ch, 0);
      if at.None? {
        FillFilled(kinds, before, pending, s, start, capacity, limit, ch + 1);
      } else {
        var p := s.pending[at.value];
        AllSendableAt(kinds, s.pending, at.value);
        var body := s.body + Encoded(kinds, FrameOf(kinds, p), |s.body|);
        if |body| > capacity {
          FillFilled(kinds, before, pending, s, start, capacity, limit, ch + 1);
        } else if CeilBytes(|body| - start) <= limit {
          UnsentMarked(s.pending, at.value);
          StageOne(kinds, before, pending, s, at.value);
          var next := Staging(s.pending[at.value := p.(inFlight := true)], body, s.staged + [p]);
          FillFilled(kinds, before, pending, next, start, capacity, limit, ch);
        }
      }
    }
  }

  lemma {:induction false} FillKeepsStaged(kinds: Kinds, s: Staging, start: nat, capacity: nat, limit: nat, ch: nat)
    requires AllSendable(kinds, s.pending) && start <= |s.body|
    ensures s.staged <= Fill(kinds, s, start, capacity, limit, ch).staged
    decreases |kinds| - ch, Unsent(s.pending)
  {
    hide Encoded, Encodable, BitStream.CeilBytes, FrameOf, AllSendable;
    if ch < |kinds| && |s.staged| < MAX_MESSAGES_PER_PACKET && CeilBytes(|s.body| - start) < limit {
      var at := FirstUnsent(s.pending, ch, 0);
      if at.None? {
        FillKeepsStaged(kinds, s, start, capacity, limit, ch + 1);
      } else {
        var p := s.pending[at.value];
        AllSendableAt(kinds, s.pending, at.value);
        var body := s.body + Encoded(kinds, FrameOf(kinds, p), |s.body|);
        if |body| > capacity {
          FillKeepsStaged(kinds, s, start, capacity, limit, ch + 1);
        } else if CeilBytes(|body| - start) <= limit {
          UnsentMarked(s.pending, at.value);
          var next := Staging(s.pending[at.value := p.(inFlight := true)], body, s.staged + [p]);
          FillKeepsStaged(kinds, next, start, capacity, limit, ch);
          assert s.staged <= next.staged;
        }
      }
    }
  }

  lemma AllSendableAt(kinds: Kinds, pending: seq<Pending>, at: nat)
    requires AllSendable(kinds, pending) && at < |pending|
    ensures Sendable(kinds, pending[at])
    ensures AllSendable(kinds, pending[at := pending[at].(inFlight := true)])
  {
  }

  /** A record names exactly the staged messages of reliable channels. */
  lemma {:induction false} KeysWhereExact(kinds: Kinds, staged: seq<Pending>, reliable: bool)
    requires AllSendable(kinds, staged)
    ensures forall k :: k in KeysWhere(kinds, staged, reliable) <==>
              exists i :: 0 <= i < |staged| && KeyOf(staged[i]) == k
                  && kinds[staged[i].channel].IsReliable() == reliable
  {
    if staged != [] {
      var n := |staged| - 1;
      KeysWhereExact(kinds, staged[..n], reliable);
      assert forall i | 0 <= i < n :: staged[..n][i] == staged[i];
    }
  }
}
