/** A message that lags: its packets are never acknowledged, so the client sends it again and again
while others pass it. What such a client and its server keep from round to round. */
module Laggards {
  import opened Machine
  import opened Sequences
  import opened Frames
  import opened Connection
  import opened PacketReading
  import opened TwoParty
  import opened TwoPartyRuns
  import opened LoneSends
  import opened WorldSteps
  import opened Meeting
  import L = Ledger
  import N = LedgerNotes
  import C = Channels
  import Q = SendQueue
  import I = ConnectionInvariant
  import F = QueueFlow
  import CR = CompleteRuns

  const FIRST: C.Pending := C.Pending(0, 0, [7], false)
  const KEY: C.Key := C.Key(0, 0)

  function Queue(flag: bool): seq<C.Pending> { [FIRST.(inFlight := flag)] }

  // ----- Which packet carries the message -----

  ghost predicate Carries(ring: L.Ring<Record>, q: nat)
    requires |ring| > 0
  {
    L.IsInFlight(ring, q) && KEY in L.Get(ring, q).value.state.record
  }

  /** The message is in flight in packet `z` alone, or in none. */
  ghost predicate Sole(ring: L.Ring<Record>, flag: bool, z: nat)
    requires |ring| > 0
  {
    forall q: nat | Carries(ring, q) :: flag && q == z
  }

  /** Only the last 64 of `n` packets are in flight. */
  ghost predicate Recent(ring: L.Ring<Record>, n: nat) {
    |ring| == TRACKED && forall q: nat | L.IsInFlight(ring, q) :: q + TRACKED > n
  }

  lemma RecentNext(ring: L.Ring<Record>, ring': L.Ring<Record>, n: nat)
    requires Recent(ring, n) && |ring'| == |ring| && OnlyNew(ring, ring', n + 1) && L.IsInFlight(ring', n + 1)
    ensures Recent(ring', n + 1)
  {
    forall q: nat | L.IsInFlight(ring', q)
      ensures q + TRACKED > n + 1
    {
      if q != n + 1 {
        assert L.Get(ring', q) == L.Get(ring, q) && L.IsInFlight(ring, q);
        SameSlot(q);
      }
    }
  }

  lemma SameSlot(q: nat)
    ensures (q + TRACKED) % TRACKED == q % TRACKED
  {
  }

  lemma RecentFewer(ring: L.Ring<Record>, ring': L.Ring<Record>, n: nat)
    requires Recent(ring, n) && |ring'| == |ring| && N.NoNewFlight(ring, ring')
    ensures Recent(ring', n)
  {
    forall q: nat | L.IsInFlight(ring', q)
      ensures q + TRACKED > n
    {
      assert L.Get(ring', q) == L.Get(ring, q) && L.IsInFlight(ring, q);
    }
  }

  /** The message waits again only when its packet has left the flight. */
  lemma SoleKept(ring: L.Ring<Record>, flag: bool, z: nat, before: seq<C.Pending>, ring': L.Ring<Record>, flag': bool,
                 after: seq<C.Pending>)
    requires |ring| > 0 && |ring'| > 0 && Sole(ring, flag, z) && F.AltersByLeaving(ring, before, ring', after)
    requires forall q: nat | Carries(ring', q) :: L.Get(ring', q) == L.Get(ring, q)
    requires FIRST.(inFlight := flag) in before && (!flag' ==> FIRST.(inFlight := true) !in after)
    ensures Sole(ring', flag', z)
  {
    forall q: nat | Carries(ring', q)
      ensures flag' && q == z
    {
      assert Carries(ring, q);
      if !flag' {
        var e: nat :| L.IsInFlight(ring, e) && KEY in L.Get(ring, e).value.state.record && !L.IsInFlight(ring', e);
        assert Carries(ring, e);
      }
    }
  }

  // ----- The state the two stay in -----

  /** The client queues nothing but the message. */
  ghost predicate Stuck(w: World, flag: bool, z: nat) {
    && Idle(w.a) && w.a.channels.pending == Queue(flag) && w.aClock <= |w.sent| * 1_000_000_000
    && Recent(w.a.delivery.ring, |w.sent|) && Sole(w.a.delivery.ring, flag, z)
  }

  /** Every packet carries one message, and of those that carry this one only the first was read. */
  ghost predicate Logged(sent: seq<Sent>, read: set<nat>) {
    && (forall s | 0 <= s < |sent| :: sent[s].control == [] && |sent[s].staged| == 1)
    && (forall s | 0 <= s < |sent| && C.KeyOf(sent[s].staged[0]) == KEY :: sent[s].staged == [FIRST])
    && (forall q | q in read :: 1 <= q <= |sent| && (q == 1 || C.KeyOf(sent[q - 1].staged[0]) != KEY))
  }

  predicate Answerable(a: Acks, clock: nat) {
    a.delay == 0 && a.aloneAfter <= clock && (a.owed.HeldSince? ==> a.owed.since <= clock)
  }

  /** The server has nothing to send but acknowledgements. */
  ghost predicate Serving(w: World) {
    && Idle(w.b) && w.b.channels.pending == [] && Answerable(w.b.acks, w.bClock) && w.bClock <= w.aClock
    && w.b.crypto.nextSequence == |w.replies| + 1 && w.unsealed == w.read
    && w.a.crypto.replay.newest <= |w.replies| <= w.a.crypto.replay.newest + 1
    && |w.sent| <= w.b.crypto.replay.newest + 80
  }

  ghost predicate Lagging(w: World, n: nat, flag: bool, z: nat) {
    && Reaches(Origin(), w) && Inv(w) && w.kinds == MIXED
    && |w.accepted[0]| == n && |w.accepted[1]| <= |w.sent|
    && Stuck(w, flag, z) && Logged(w.sent, w.read) && Serving(w)
  }

  // ----- Sending -----

  lemma FirstStays(before: seq<C.Pending>, after: seq<C.Pending>) returns (flag: bool)
    requires F.From(before, after) && F.Retains(MIXED, before, after)
    requires FIRST.(inFlight := true) in before
    requires forall p | p in before && C.KeyOf(p) == KEY :: p.(inFlight := true) == FIRST.(inFlight := true)
    ensures FIRST.(inFlight := flag) in after
    ensures |after| <= 1 ==> after == Queue(flag)
  {
    assert F.Queued(after, KEY);
    var p :| p in after && C.KeyOf(p) == KEY;
    flag := p.inFlight;
    assert p == FIRST.(inFlight := flag);
    assert after[0] in after;
  }

  lemma LoggedMore(sent: seq<Sent>, sent': seq<Sent>, read: set<nat>, p: C.Pending)
    requires Logged(sent, read) && |sent'| == |sent| + 1 && sent'[..|sent|] == sent
    requires sent'[|sent|].control == [] && sent'[|sent|].staged == [p] && (C.KeyOf(p) == KEY ==> p == FIRST)
    ensures Logged(sent', read)
  {
    assert forall s | 0 <= s < |sent| :: sent'[s] == sent[s];
  }

  /** The message is sent once more. */
  lemma Resends(w: World, n: nat, flag: bool, z: nat) returns (v: World, y: nat)
    requires Lagging(w, n, flag, z) && |w.sent| < 1_000_000 && |w.sent| < w.b.crypto.replay.newest + 80
    ensures Lagging(v, n, true, y) && |w.sent| <= |v.sent| <= |w.sent| + 1
    ensures v.b == w.b && v.replies == w.replies && v.accepted == w.accepted && v.read == w.read
  {
    hide Inv, Reaches, Sole, Recent, Logged, F.From, F.Retains, C.Committed, C.RecordOf, F.AltersByLeaving, OnlyNew;
    if flag {
      v, y := w, z;
    } else {
      OriginInv();
      assert Lone(w.a.channels.pending, 0);
      v := SendsLone(Origin(), w, 0);
      y := |v.sent|;
      assert v.sent[..|w.sent|] == w.sent;
      LoggedMore(w.sent, v.sent, w.read, FIRST);
      RecentNext(w.a.delivery.ring, v.a.delivery.ring, |w.sent|);
      ResentQueue(w, v, z);
    }
  }

  lemma ResentQueue(w: World, v: World, z: nat)
    requires Transmitted(w, 0, v) && w.a.channels.pending == Queue(false) && w.kinds == MIXED
    requires |w.a.delivery.ring| > 0 && Sole(w.a.delivery.ring, false, z)
    ensures v.a.channels.pending == Queue(true) && |v.a.delivery.ring| > 0 && Sole(v.a.delivery.ring, true, |v.sent|)
  {
    hide F.From, F.Retains, C.Committed, C.RecordOf, F.AltersByLeaving, OnlyNew;
    assert Marked(Queue(false), 0) == Queue(true);
    StaysQueued(Queue(true), FIRST);
    SentQueue(w.a.delivery.ring, v.a.delivery.ring, |v.sent|, v.a.channels.pending);
  }

  /** Sent from a queue of its own, the message is in flight in that packet and no other. */
  lemma SentQueue(ring: L.Ring<Record>, ring': L.Ring<Record>, q: nat, after: seq<C.Pending>)
    requires OnlyNew(ring, ring', q) && (forall e: nat :: !Carries(ring, e)) && |after| <= 1
    requires F.AltersByLeaving(ring, Queue(true), ring', after)
    ensures after == Queue(true) && Sole(ring', true, q)
  {
    assert Queue(true)[0] in Queue(true);
    Unaltered(ring, Queue(true), ring', after, FIRST.(inFlight := true));
    forall e: nat | Carries(ring', e)
      ensures e == q || Carries(ring, e)
    {
      assert e == q || L.Get(ring', e) == L.Get(ring, e);
    }
  }

  lemma Unaltered(ring: L.Ring<Record>, before: seq<C.Pending>, ring': L.Ring<Record>, after: seq<C.Pending>,
                  p: C.Pending)
    requires |ring| > 0 && |ring'| > 0 && F.AltersByLeaving(ring, before, ring', after) && p in before
    requires C.KeyOf(p) == KEY && forall q: nat :: !Carries(ring, q)
    ensures p in after
  {
    assert forall q: nat :: Carries(ring, q) <==> L.IsInFlight(ring, q) && KEY in L.Get(ring, q).value.state.record;
  }

  /** Sending leaves a reliable message queued. */
  lemma StaysQueued(pending: seq<C.Pending>, p: C.Pending)
    requires C.Sendable(MIXED, p) && p.channel == 0
    ensures C.AllSendable(MIXED, [p]) && C.Committed(MIXED, pending, [p]) == pending
  {
    OnlyKey(MIXED, p);
  }

  /** An unreliable message is sent past it. */
  lemma SendsPast(w: World, n: nat, z: nat) returns (v: World, flag: bool)
    requires Lagging(w, n, true, z) && |w.sent| < 1_000_000 && |w.sent| < w.b.crypto.replay.newest + 80
    ensures Lagging(v, n, flag, z) && |v.sent| == |w.sent| + 1 && v.b == w.b && v.replies == w.replies
    ensures v.read == w.read && v.accepted[0] == w.accepted[0]
  {
    hide Inv, Reaches, Sole, Recent, Logged, F.From, F.Retains, C.Committed, C.RecordOf, F.AltersByLeaving, OnlyNew,
         Dequeued;
    var p := C.Pending(1, |w.accepted[1]|, [], false);
    v := SendsNext(w, p);
    LoggedMore(w.sent, v.sent, w.read, p);
    RecentNext(w.a.delivery.ring, v.a.delivery.ring, |w.sent|);
    flag := PastQueue(w, v, p, z);
  }

  lemma PastQueue(w: World, v: World, p: C.Pending, z: nat) returns (flag: bool)
    requires SentNext(w, p, v) && w.a.channels.pending == Queue(true) && p.channel == 1 && !p.inFlight
    requires |w.a.delivery.ring| > 0 && Sole(w.a.delivery.ring, true, z)
    requires Dequeued(Queue(true) + [p], 1, w.a.delivery.ring, v.a.channels.pending, v.a.delivery.ring)
    ensures v.a.channels.pending == Queue(flag) && Sole(v.a.delivery.ring, flag, z)
  {
    hide C.Committed, C.RecordOf, Sole, F.AltersByLeaving;
    var before := Queue(true) + [p];
    assert before[0] in before && Marked(before, 1) == Queue(true) + [p.(inFlight := true)];
    LeavesLast(FIRST.(inFlight := true), p);
    flag := FirstStays(before, v.a.channels.pending);
    OnlyKey(MIXED, p);
    forall q: nat | Carries(v.a.delivery.ring, q)
      ensures L.Get(v.a.delivery.ring, q) == L.Get(w.a.delivery.ring, q)
    {
    }
    SoleKept(w.a.delivery.ring, true, z, Queue(true), v.a.delivery.ring, flag, v.a.channels.pending);
  }

  lemma LeavesLast(m: C.Pending, p: C.Pending)
    requires C.Sendable(MIXED, p) && p.channel == 1 && C.KeyOf(m) != C.KeyOf(p)
    ensures C.AllSendable(MIXED, [p]) && C.RecordOf(MIXED, [p]) == []
    ensures C.Committed(MIXED, [m] + [p.(inFlight := true)], [p]) == [m]
  {
    OnlyKey(MIXED, p);
    var both, last, keys := [m] + [p.(inFlight := true)], [p.(inFlight := true)], [C.KeyOf(p)];
    assert keys[..0] == [] && C.ReleasedAll(both, keys[..0]) == both;
    assert both[1..] == last && last[1..] == [] && C.Released(last, C.KeyOf(p)) == [];
    assert C.Released(both, C.KeyOf(p)) == [m] + C.Released(both[1..], C.KeyOf(p));
  }

  /** The client's first packet carries the message. */
  lemma Sets() returns (w: World)
    ensures Lagging(w, 1, true, 1) && |w.sent| == 1 && |w.replies| == 1 && w.read == {}
    ensures w.b.channels == C.New(MIXED) && w.b.crypto.replay.newest == 0 && w.sent[0].staged == [FIRST]
  {
    hide Inv, Reaches, F.From, F.Retains, C.Committed, C.RecordOf, F.AltersByLeaving, OnlyNew, NoBits;
    var met := Meets();
    OriginInv();
    MetQuiet(met);
    w := SendsNext(met, FIRST);
    assert [] + [FIRST] == [FIRST] && Marked([FIRST], 0) == Queue(true);
    StaysQueued(Queue(true), FIRST);
    FreshRing(met.a.delivery.ring);
    SentQueue(met.a.delivery.ring, w.a.delivery.ring, 1, w.a.channels.pending);
    RecentNext(met.a.delivery.ring, w.a.delivery.ring, 0);
  }

  lemma FreshRing(ring: L.Ring<Record>)
    requires ring == Origin().a.delivery.ring
    ensures Recent(ring, 0) && forall q: nat :: !Carries(ring, q)
  {
  }

  lemma LaggingParts(w: World, n: nat, flag: bool, z: nat)
    requires Lagging(w, n, flag, z)
    ensures |w.accepted[1]| <= |w.sent| <= w.b.crypto.replay.newest + 80
  {
    hide Inv, Reaches, Stuck, Logged;
  }

  // ----- A round -----

  lemma RecordOne(p: C.Pending)
    requires C.AllSendable(MIXED, [p])
    ensures C.Sendable(MIXED, p) && C.RecordOf(MIXED, [p]) == if p.channel == 0 then [C.KeyOf(p)] else []
  {
    assert C.Sendable(MIXED, [p][0]);
    OnlyKey(MIXED, p);
  }

  /** The queue holds the message, and perhaps message `n`. */
  ghost predicate Mid(pending: seq<C.Pending>, flag: bool, n: nat) {
    && FIRST.(inFlight := flag) in pending && (!flag ==> FIRST.(inFlight := true) !in pending)
    && forall p | p in pending ::
         p == FIRST || p == FIRST.(inFlight := true) || (C.KeyOf(p) == C.Key(0, n) && C.KeyOf(p) != KEY)
  }

  /** Message `n` was sent past the one that lags. */
  lemma PassQueue(w: World, v: World, p: C.Pending, z: nat, n: nat) returns (flag: bool)
    requires SentNext(w, p, v) && w.a.channels.pending == Queue(true) && p.channel == 0 && !p.inFlight && p.id == n > 0
    requires |w.a.delivery.ring| > 0 && Sole(w.a.delivery.ring, true, z)
    requires Dequeued(Queue(true) + [p], 1, w.a.delivery.ring, v.a.channels.pending, v.a.delivery.ring)
    requires Q.Ordered(v.a.channels.pending)
    ensures Mid(v.a.channels.pending, flag, n) && Sole(v.a.delivery.ring, flag, z)
  {
    hide C.Committed, C.RecordOf, Sole, F.AltersByLeaving, Q.Ordered;
    var before, left := Queue(true) + [p], Queue(true) + [p.(inFlight := true)];
    assert before[0] in before && Marked(before, 1) == left && left[0] in left;
    StaysQueued(left, p);
    flag := FirstStays(before, v.a.channels.pending);
    RecordOne(p);
    OneEntry(v.a.channels.pending, FIRST.(inFlight := flag), FIRST.(inFlight := true));
    forall q: nat | Carries(v.a.delivery.ring, q)
      ensures L.Get(v.a.delivery.ring, q) == L.Get(w.a.delivery.ring, q)
    {
    }
    SoleKept(w.a.delivery.ring, true, z, left, v.a.delivery.ring, flag, v.a.channels.pending);
    forall m | m in v.a.channels.pending
      ensures m == FIRST || m == FIRST.(inFlight := true) || (C.KeyOf(m) == C.Key(0, n) && C.KeyOf(m) != KEY)
    {
      var b := if m in before then m else m.(inFlight := !m.inFlight);
      assert b in before;
    }
  }

  /** A queue in order holds a key once. */
  lemma OneEntry(pending: seq<C.Pending>, p: C.Pending, q: C.Pending)
    requires Q.Ordered(pending) && p in pending && C.KeyOf(p) == C.KeyOf(q)
    ensures q in pending ==> q == p
  {
    var i :| 0 <= i < |pending| && pending[i] == p;
    if q in pending {
      var j :| 0 <= j < |pending| && pending[j] == q;
    }
  }

  lemma {:induction false} NamedNear(ack: nat, bits: seq<bool>, k: nat)
    requires k <= |bits|
    ensures forall q | q in L.Named(ack, bits, k) :: q + k >= ack
  {
    if k > 0 {
      NamedNear(ack, bits, k - 1);
    }
  }

  /** An acknowledgement of the newest packet names it, and no packet that carries the message. */
  lemma NamesOthers(w: World, j: nat)
    requires Inv(w) && w.kinds == MIXED && Logged(w.sent, w.read) && j < |w.replies|
    requires 1 <= |w.sent| == w.replies[j].ack <= U64_MAX && HeaderShaped(w.replies[j].packet.header)
    requires 34 < |w.sent| || 1 !in w.read
    ensures Shaped(w.a)
    ensures var named := F.AckNames(w.a, w.replies[j].packet.header);
            |w.sent| in named && forall q | q in named :: !Carries(w.a.delivery.ring, q)
  {
    hide I.Valid, SenderOk, LogOk, WindowsOk, AllInOrder, L.Named, ResolveAck, Logged;
    InvSized(w);
    ValidSized(w.a, w.aClock);
    var h, n := w.replies[j].packet.header, |w.sent|;
    assert ReplyOk(w.replies[j], w.read);
    ResolveAckExact(n, n);
    CR.AckNamesRead(w, j);
    NamedNear(n, h.ackBits, |h.ackBits|);
    var named := L.Named(n, h.ackBits, |h.ackBits|);
    assert named[0] == n && F.AckNames(w.a, h) == named;
    forall q | q in named
      ensures !Carries(w.a.delivery.ring, q)
    {
      ReadLacksFirst(w, q);
    }
  }

  lemma ReadLacksFirst(w: World, q: nat)
    requires Inv(w) && w.kinds == MIXED && Logged(w.sent, w.read) && q in w.read && q != 1 && |w.a.delivery.ring| > 0
    ensures !Carries(w.a.delivery.ring, q)
  {
    hide I.Valid, SenderOk, LogOk, WindowsOk, AllInOrder, RepliesOk, C.RecordOf;
    if L.IsInFlight(w.a.delivery.ring, q) {
      var m := w.sent[q - 1].staged[0];
      assert w.sent[q - 1].staged == [m];
      RecordOne(m);
    }
  }

  /** The acknowledgement lets message `n` go and nothing else. */
  lemma ReturnQueue(w: World, j: nat, v: World, n: nat, flag: bool, z: nat, p: C.Pending) returns (flag': bool)
    requires Shaped(w.a) && j < |w.replies| && HeaderShaped(w.replies[j].packet.header) && Returned(w, j, v)
    requires Mid(w.a.channels.pending, flag, n) && Sole(w.a.delivery.ring, flag, z) && Q.Ordered(v.a.channels.pending)
    requires var named := F.AckNames(w.a, w.replies[j].packet.header);
             |w.sent| in named && forall q | q in named :: !Carries(w.a.delivery.ring, q)
    requires C.AllSendable(MIXED, [p]) && C.KeyOf(p) == C.Key(0, n) != KEY && L.IsInFlight(w.a.delivery.ring, |w.sent|)
    requires L.Get(w.a.delivery.ring, |w.sent|).value.state.record == C.RecordOf(MIXED, [p])
    ensures v.a.channels.pending == Queue(flag') && Sole(v.a.delivery.ring, flag', z)
  {
    hide Sole, C.RecordOf, F.AltersByLeaving, F.AckNames, Q.Ordered;
    var before, after := w.a.channels.pending, v.a.channels.pending;
    var named := F.AckNames(w.a, w.replies[j].packet.header);
    RecordOne(p);
    assert C.Key(0, n) in C.RecordOf(MIXED, [p]);
    assert !F.Queued(after, C.Key(0, n));
    Kept(w.a.delivery.ring, before, after, named, FIRST.(inFlight := flag));
    flag' := OnlyFirst(before, after, flag, n);
    assert after[0] in after;
    SoleKept(w.a.delivery.ring, flag, z, before, v.a.delivery.ring, flag', after);
  }

  lemma Kept(ring: L.Ring<Record>, before: seq<C.Pending>, after: seq<C.Pending>, named: seq<nat>, p: C.Pending)
    requires |ring| > 0 && F.LeavesByAck(ring, before, after, named) && p in before && C.KeyOf(p) == KEY
    requires forall q | q in named :: !Carries(ring, q)
    ensures F.Queued(after, KEY)
  {
  }

  lemma OnlyFirst(before: seq<C.Pending>, after: seq<C.Pending>, flag: bool, n: nat) returns (flag': bool)
    requires Mid(before, flag, n) && F.From(before, after) && !F.Queued(after, C.Key(0, n)) && F.Queued(after, KEY)
    requires Q.Ordered(after)
    ensures after == Queue(flag')
  {
    var p :| p in after && C.KeyOf(p) == KEY;
    flag' := p.inFlight;
    var first := if p in before then p else p.(inFlight := !p.inFlight);
    assert first in before && C.KeyOf(first) == KEY && p == FIRST.(inFlight := flag');
    forall i | 0 <= i < |after|
      ensures after[i] == p
    {
      var m := after[i];
      assert m in after && C.KeyOf(m) != C.Key(0, n);
      var b := if m in before then m else m.(inFlight := !m.inFlight);
      assert b in before && C.KeyOf(b) == C.KeyOf(m);
      OneEntry(after, p, m);
    }
    assert |after| > 1 ==> after[0].id < after[1].id;
  }

  /** The client has sent `p` past the message that lags. */
  ghost predicate Passing(w: World, p: C.Pending, flag: bool, z: nat) {
    && Reaches(Origin(), w) && Inv(w) && w.kinds == MIXED && |w.accepted[0]| == p.id + 1 && |w.accepted[1]| <= |w.sent|
    && Idle(w.a) && Mid(w.a.channels.pending, flag, p.id) && w.aClock <= |w.sent| * 1_000_000_000
    && Recent(w.a.delivery.ring, |w.sent|) && Sole(w.a.delivery.ring, flag, z) && Logged(w.sent, w.read)
    && p.channel == 0 && p.id > 0 && C.AllSendable(MIXED, [p]) && |w.sent| > 0 && w.sent[|w.sent| - 1].staged == [p]
    && L.IsInFlight(w.a.delivery.ring, |w.sent|)
    && L.Get(w.a.delivery.ring, |w.sent|).value.state.record == C.RecordOf(MIXED, [p])
  }

  lemma Passes(w: World, p: C.Pending, z: nat) returns (v: World, flag: bool)
    requires Lagging(w, p.id, true, z) && 0 < p.id < 1_000_000 && |w.sent| < 1_000_000
    requires p.channel == 0 && !p.inFlight && |p.payload| <= MAX_MESSAGE && |w.sent| < w.b.crypto.replay.newest + 80
    ensures Passing(v, p, flag, z) && Serving(v) && |v.sent| == |w.sent| + 1
    ensures v.b == w.b && v.read == w.read && v.replies == w.replies
    ensures v.accepted[0] == w.accepted[0] + [p.payload]
  {
    hide Inv, Reaches, Sole, Recent, Logged, F.From, F.Retains, C.Committed, C.RecordOf, F.AltersByLeaving, OnlyNew,
         Dequeued, Mid;
    v := SendsNext(w, p);
    LoggedMore(w.sent, v.sent, w.read, p);
    RecentNext(w.a.delivery.ring, v.a.delivery.ring, |w.sent|);
    InOrderQueue(v);
    flag := PassQueue(w, v, p, z, p.id);
  }

  lemma InOrderQueue(w: World)
    requires Inv(w)
    ensures Q.Ordered(w.a.channels.pending)
  {
    hide SenderOk, LogOk, FlightOk, WindowsOk, AllInOrder, RepliesOk, L.Valid, I.NoneStranded;
  }

  /** The server has read the newest packet. */
  ghost predicate Delivered(w: World) {
    && Idle(w.b) && w.b.channels.pending == [] && Answerable(w.b.acks, w.bClock) && w.bClock <= w.aClock
    && w.b.crypto.nextSequence == |w.replies| + 1 && w.unsealed == w.read
    && w.b.crypto.replay.newest == |w.sent|
  }

  /** What the message does to the server's channels. */
  ghost function Read(w: World, p: C.Pending): C.Received
    requires C.Sized(w.b.channels) && w.b.channels.kinds == MIXED && C.Sendable(MIXED, p)
  {
    var f := C.FrameOf(MIXED, p);
    C.Receive(w.b.channels, f.channel, f.id, f.payload)
  }

  lemma ServerKinds(w: World)
    requires Inv(w) && w.kinds == MIXED
    ensures C.Sized(w.b.channels) && w.b.channels.kinds == MIXED
  {
    hide I.Valid, SenderOk, LogOk, FlightOk, WindowsOk, RepliesOk, AllInOrder;
    InvSized(w);
  }

  /** The server reads the newest packet. */
  lemma Serves(w: World, p: C.Pending, flag: bool, z: nat) returns (v: World)
    requires Passing(w, p, flag, z) && Serving(w) && |w.sent| < 1_000_000
    requires |w.sent| !in w.read && w.b.crypto.replay.newest < |w.sent|
    requires C.Sized(w.b.channels) && w.b.channels.kinds == MIXED && C.Sendable(MIXED, p)
    requires Exact(w.b.channels, p) && Read(w, p).ok
    ensures Passing(v, p, flag, z) && Delivered(v) && Due(v.b.acks.Deadline(), v.bClock)
    ensures v.b.crypto.acked.newest == |v.sent| && v.a == w.a && v.sent == w.sent && v.replies == w.replies
    ensures v.b.channels == Read(w, p).channels && v.accepted == w.accepted && v.read == w.read + {|w.sent|}
  {
    hide Inv, Reaches, Sole, Recent, Logged, F.From, F.Retains, C.Committed, C.RecordOf, Mid, C.Receive, Extended,
         Exact;
    var q := |w.sent|;
    OriginInv();
    LastControl(w.sent, w.read);
    v := Lands(Origin(), w, q - 1, p, w.aClock);
    SameNewest(w);
    ReadNewest(w, v, q);
    LoggedRead(w.sent, w.read, q);
    var f := C.FrameOf(MIXED, p);
    ReceiveKeeps(w.b.channels, f.channel, f.id, f.payload);
  }

  lemma SameNewest(w: World)
    requires Inv(w) && w.unsealed == w.read
    ensures w.b.crypto.acked.newest == w.b.crypto.replay.newest <= |w.sent|
  {
    hide I.Valid, SenderOk, LogOk, FlightOk, RepliesOk, AllInOrder;
  }

  /** A reply that acknowledges the newest packet and carries nothing else. */
  ghost predicate Prompt(w: World) {
    && |w.replies| > 0
    && var r := w.replies[|w.replies| - 1];
       && r.ack == |w.sent| && r.packet.sequence == |w.replies| && HeaderShaped(r.packet.header)
       && r.packet.header.sequence == |w.replies| % WIRE
       && r.packet.body == Sealed(Body(MIXED, []), Room(r.packet.header))
  }

  lemma Replies(w: World, p: C.Pending, flag: bool, z: nat) returns (v: World)
    requires Passing(w, p, flag, z) && Delivered(w) && Due(w.b.acks.Deadline(), w.bClock)
    requires w.b.crypto.acked.newest == |w.sent| < 1_000_000 && w.b.channels.kinds == MIXED
    ensures Passing(v, p, flag, z) && Delivered(v) && Prompt(v) && |v.replies| == |w.replies| + 1
    ensures v.a == w.a && v.sent == w.sent && v.b.channels == w.b.channels
    ensures v.accepted == w.accepted && v.read == w.read
  {
    hide Inv, Reaches, Sole, Recent, Logged, F.From, F.Retains, C.Committed, C.RecordOf, Mid, Sealed, Body, Room,
         BuildHeader;
    OriginInv();
    v := Answers(Origin(), w, w.bClock);
    AnswerHeader(w.b, w.bClock);
  }

  /** The acknowledgement arrives; `p` is done with and the other message lags one more behind. */
  lemma Settles(w: World, p: C.Pending, flag: bool, z: nat) returns (v: World, flag': bool)
    requires Passing(w, p, flag, z) && Delivered(w) && Prompt(w) && (34 < |w.sent| || 1 !in w.read)
    requires |w.sent| < 1_000_000 && w.a.crypto.replay.newest < |w.replies| < 1_000_000
    requires |w.replies| <= w.a.crypto.replay.newest + 2
    ensures Lagging(v, p.id + 1, flag', z) && v.sent == w.sent && v.b == w.b && v.replies == w.replies
    ensures v.accepted == w.accepted && v.read == w.read
  {
    hide Inv, Reaches, Sole, Recent, Logged, C.RecordOf, Mid, Sealed, Body, Room, F.From, F.LeavesByAck, F.LetGo,
         F.AckNames, F.AltersByLeaving, N.NoNewFlight, Answerable;
    OriginInv();
    var j := |w.replies| - 1;
    v := Returns(Origin(), w, j, Room(w.replies[j].packet.header));
    NamesOthers(w, j);
    InOrderQueue(v);
    flag' := ReturnQueue(w, j, v, p.id, flag, z, p);
    RecentFewer(w.a.delivery.ring, v.a.delivery.ring, |w.sent|);
    OpenedNewest(w.a.crypto.replay, |w.replies|);
  }

  lemma OpenedNewest(replay: Window, s: nat)
    requires s > replay.newest
    ensures replay.Inserted(s).newest == s
  {
  }

  /** One message more is sent, read and acknowledged, while the first stays queued. */
  lemma Round(w: World, p: C.Pending, flag: bool, z: nat) returns (v: World, flag': bool, z': nat)
    requires Lagging(w, p.id, flag, z) && 0 < p.id < 500_000 && 0 < |w.sent| < 900_000 && |w.replies| < 900_000
    requires p.channel == 0 && !p.inFlight && |p.payload| <= MAX_MESSAGE && |w.sent| <= w.b.crypto.replay.newest + 50
    requires C.Sized(w.b.channels) && w.b.channels.kinds == MIXED && C.Sendable(MIXED, p)
    requires Exact(w.b.channels, p) && Read(w, p).ok && (34 <= |w.sent| || 1 !in w.read)
    ensures Lagging(v, p.id + 1, flag', z') && |w.sent| < |v.sent| <= |w.sent| + 2 && |v.replies| == |w.replies| + 1
    ensures v.b.crypto.replay.newest == |v.sent| && v.b.channels == Read(w, p).channels
    ensures v.accepted[0] == w.accepted[0] + [p.payload] && (1 !in w.read ==> 1 !in v.read)
  {
    hide Inv, Reaches, Stuck, Logged, Mid, Sole, Recent, C.RecordOf, Answerable, Sealed, Body, Room, Exact, Read;
    var u, y := Resends(w, p.id, flag, z);
    SameNewest(u);
    var t, f := Passes(u, p, y);
    ReadBelow(u);
    SameRead(w, t, p);
    var s := Serves(t, p, f, y);
    ServerKinds(s);
    var r := Replies(s, p, f, y);
    v, flag' := Settles(r, p, f, y);
    z' := y;
  }

  lemma SameRead(w: World, v: World, p: C.Pending)
    requires C.Sized(w.b.channels) && w.b.channels.kinds == MIXED && C.Sendable(MIXED, p) && v.b == w.b
    ensures Read(v, p) == Read(w, p)
  {
  }

  lemma ReadBelow(w: World)
    requires Inv(w)
    ensures |w.sent| + 1 !in w.read
  {
    hide I.Valid, SenderOk, LogOk, FlightOk, RepliesOk, AllInOrder, Window.Refines;
  }

  lemma LastControl(sent: seq<Sent>, read: set<nat>)
    requires Logged(sent, read) && |sent| > 0
    ensures sent[|sent| - 1].control == []
  {
  }

  lemma LoggedRead(sent: seq<Sent>, read: set<nat>, q: nat)
    requires Logged(sent, read) && 1 <= q <= |sent| && C.KeyOf(sent[q - 1].staged[0]) != KEY
    ensures Logged(sent, read + {q})
  {
  }

  /** The newest packet read is now this one. */
  lemma ReadNewest(w: World, v: World, q: nat)
    requires w.b.crypto.replay.newest < q && w.b.crypto.acked.newest < q
    requires v.b.crypto.replay == w.b.crypto.replay.Inserted(q) && v.b.crypto.acked == w.b.crypto.acked.Inserted(q)
    ensures v.b.crypto.replay.newest == q == v.b.crypto.acked.newest
  {
  }

  lemma AnswerHeader(b: Conn, now: nat)
    ensures BuildHeader(b, now).sequence == b.crypto.nextSequence % WIRE
  {
  }

  /** In flight, the message is in a packet the server has not opened and still can. */
  lemma Carried(w: World, n: nat, z: nat) returns (q: nat)
    requires Lagging(w, n, true, z) && |w.sent| > TRACKED
    ensures 1 <= q <= |w.sent| && w.sent[q - 1].control == [] && w.sent[q - 1].staged == [FIRST]
    ensures q !in w.unsealed && w.b.crypto.replay.newest < q + WINDOW
  {
    hide SenderOk, LogOk, AllInOrder, RepliesOk, L.Valid, I.QueueValid, Reaches, Sole, C.RecordOf, Window.Refines;
    var ring := w.a.delivery.ring;
    SameNewest(w);
    assert FIRST.(inFlight := true) in w.a.channels.pending;
    q :| L.IsInFlight(ring, q) && KEY in L.Get(ring, q).value.state.record;
    var m := w.sent[q - 1].staged[0];
    assert w.sent[q - 1].staged == [m];
    RecordOne(m);
  }
}
