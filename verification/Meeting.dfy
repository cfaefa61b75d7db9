/** A client and a server that have just met, with an ordered and an unreliable channel between
them, and the rounds in which the client sends one message more. */
module Meeting {
  import opened Machine
  import opened Sequences
  import opened BitStream
  import opened Frames
  import opened Connection
  import opened PacketReading
  import opened TwoParty
  import opened TwoPartyRuns
  import opened LoneSends
  import opened WorldSteps
  import L = Ledger
  import B = Budget
  import C = Channels
  import I = ConnectionInvariant
  import T = Transmit
  import F = QueueFlow

  const MIXED: Kinds := [ReliableOrdered, Unreliable]

  /** Acknowledgements are not held back. */
  const PROMPT: Config := Config(B.Config(8000, 1200), 0, 10_000_000_000, 1_000_000_000)

  /** A client and a server that have just met. */
  function Origin(): World {
    Start(New(0, Client(None), 1, MIXED, PROMPT), New(0, Server(None), 2, MIXED, PROMPT), 0, 0)
  }

  lemma OriginInv()
    ensures Inv(Origin())
  {
    StartInv(Client(None), Server(None), 1, 2, MIXED, PROMPT, PROMPT, 0, 0);
  }

  // ----- The server accepts -----

  /** The server has sent its acceptance and owes nothing more. */
  ghost predicate Met(w: World) {
    && w == Origin().(b := w.b, replies := w.replies) && |w.replies| == 1
    && Idle(w.b) && w.b.addr == 2 && w.b.channels == C.New(MIXED) && w.b.acks == Acks(Nothing, 0, 0)
    && w.b.crypto == Crypto(2, EmptyWindow(), EmptyWindow(), 0)
  }

  lemma {:induction false} OnlyAccepted(c: Conn, k: nat)
    requires c == Origin().b && 2 <= k <= 6
    ensures T.OwedFrames(c, k) == [Accepted]
  {
    if k == 2 {
      assert T.OwedFrames(c, 0) == [] && T.OwedFrames(c, 1) == [];
    } else {
      OnlyAccepted(c, k - 1);
    }
  }

  lemma AcceptDraft(c: Conn)
    requires c == Origin().b && Transmittable(c)
    ensures var d := Drafted(c, 0); d.control == [Accepted] && d.staging.pending == [] && d.staging.staged == []
  {
    hide BuildHeader, HeaderLen, C.Fill, B.Advance, B.Available, WriteControl, Body, CeilBytes, T.OwedFrames;
    var header := BuildHeader(c, 0);
    T.RoomEnough(header);
    T.AllControlWritten(c, Room(header), 6);
    OnlyAccepted(c, 6);
    var body := Body(MIXED, [Accepted]);
    FillNone(MIXED, C.Staging([], body, []), |body|, Room(header),
             SatSub(B.Available(B.Advance(c.budget, 0)), HeaderLen(header) + B.TAG_LEN + CeilBytes(|body|)), 0);
  }

  lemma AcceptSent(c: Conn, d: Draft)
    requires c == Origin().b && Shaped(c)
    requires d.control == [Accepted] && d.staging.pending == [] && d.staging.staged == []
    ensures C.AllSendable(MIXED, d.staging.staged)
    ensures var r := Committed(c, 0, d).conn;
            && Idle(r) && r.addr == 2 && r.channels == C.New(MIXED) && r.acks == Acks(Nothing, 0, 0)
            && r.crypto == Crypto(2, EmptyWindow(), EmptyWindow(), 0)
  {
    hide HeaderLen, Sealed, Body, B.Advance, B.OnSent, L.FirstInFlight, NoBits;
    assert C.KeysWhere(MIXED, [], false) == [] && C.KeysWhere(MIXED, [], true) == [] && C.ReleasedAll([], []) == [];
    assert Accepted in d.control;
  }

  lemma AcceptPolled()
    ensures Shaped(Origin().a) && Shaped(Origin().b)
    ensures Transmittable(Origin().b) && B.Consistent(Origin().b.budget)
    ensures var r := PollTransmit(Origin().b, 0);
            && r.packet.Some? && Idle(r.conn) && r.conn.addr == 2 && r.conn.channels == C.New(MIXED)
            && r.conn.acks == Acks(Nothing, 0, 0) && r.conn.crypto == Crypto(2, EmptyWindow(), EmptyWindow(), 0)
  {
    hide I.Valid, Drafted, Committed, Aborted, NoBits, B.Assess, B.Refill, TransmitAt;
    var b := Origin().b;
    B.NewConsistent(0, PROMPT.budget);
    OriginB();
    AcceptDraft(b);
    AcceptSent(b, Drafted(b, 0));
    I.NewValid(0, Server(None), 2, MIXED, PROMPT);
    T.PollExact(b, 0, 0);
  }

  /** The server tells the client it is accepted. The packet gets lost, and nothing is missed. */
  lemma Meets() returns (w: World)
    ensures Reaches(Origin(), w) && Met(w) && Inv(w)
  {
    hide I.Valid, Reaches, PollTransmit, Inv, NoBits, B.Consistent, Transmittable;
    var o := Origin();
    OriginInv();
    ReachesStart(o);
    InvSized(o);
    AllowedRuns(o, TransmitB(0));
    AcceptPolled();
    Goes(o, o, TransmitB(0));
    w := Stepped(o, TransmitB(0));
    ReachesInv(o, w);
  }

  lemma OriginB()
    ensures Assessed(Origin().b, 0) == Origin().b && Transmittable(Origin().b) && Due(TransmitAt(Origin().b), 0)
  {
    hide B.Refill, I.Valid;
    I.NewValid(0, Server(None), 2, MIXED, PROMPT);
    I.ValidShaped(Origin().b, 0);
  }

  // ----- Rounds -----

  /** The client has nothing queued and nothing owed but messages. */
  ghost predicate Quiet(w: World) {
    && Reaches(Origin(), w) && Inv(w) && C.Sized(w.a.channels) && w.kinds == MIXED
    && Idle(w.a) && w.a.channels.pending == [] && w.aClock == |w.sent| * 1_000_000_000
  }

  lemma MetQuiet(w: World)
    requires Reaches(Origin(), w) && Met(w) && Inv(w)
    ensures Quiet(w)
  {
    hide Inv, Reaches;
    InvSized(w);
  }

  /** The message `p` has been accepted and sent in a packet of its own. */
  ghost predicate SentNext(w: World, p: C.Pending, v: World) {
    && p.channel < 2 && C.AllSendable(MIXED, [p]) && |v.sent| == |w.sent| + 1 && |v.a.delivery.ring| > 0
    && v == w.(a := v.a, aClock := v.aClock, sent := v.sent,
               accepted := w.accepted[p.channel := w.accepted[p.channel] + [p.payload]])
    && v.sent[..|w.sent|] == w.sent && v.sent[|w.sent|].control == [] && v.sent[|w.sent|].staged == [p]
    && Idle(v.a) && v.a.addr == w.a.addr
    && v.a.crypto == w.a.crypto.(nextSequence := w.a.crypto.nextSequence + 1)
    && L.IsInFlight(v.a.delivery.ring, |v.sent|)
    && L.Get(v.a.delivery.ring, |v.sent|).value.state.record == C.RecordOf(MIXED, [p])
    && |v.a.delivery.ring| == |w.a.delivery.ring| && OnlyNew(w.a.delivery.ring, v.a.delivery.ring, |v.sent|)
  }

  /** The queue after its message at `at` was sent. */
  ghost predicate Dequeued(before: seq<C.Pending>, at: nat, ring: L.Ring<Record>, after: seq<C.Pending>,
                           ring': L.Ring<Record>)
  {
    && |ring| > 0 && |ring'| > 0 && at < |before| && C.AllSendable(MIXED, [before[at]])
    && F.From(before, after) && F.Retains(MIXED, before, after)
    && var left := C.Committed(MIXED, Marked(before, at), [before[at]]);
       |after| <= |left| && F.AltersByLeaving(ring, left, ring', after)
  }

  /** The queue of `w` with `p` at its end. */
  function Queueing(w: World, p: C.Pending): World
    requires C.Sized(w.a.channels) && p.channel < MAX_CHANNELS
  {
    var c := w.a.channels;
    w.(a := w.a.(channels := c.(pending := c.pending + [p], nextIds := c.nextIds[p.channel := p.id + 1])),
       accepted := w.accepted[p.channel := w.accepted[p.channel] + [p.payload]])
  }

  lemma QueuedSent(w: World, p: C.Pending, v: World)
    requires C.Sized(w.a.channels) && p.channel < 2 && w.kinds == MIXED
    requires w.a.crypto.nextSequence == |w.sent| + 1
    requires Transmitted(Queueing(w, p), |w.a.channels.pending|, v)
    ensures SentNext(w, p, v) && Dequeued(w.a.channels.pending + [p], |w.a.channels.pending|, w.a.delivery.ring,
                                          v.a.channels.pending, v.a.delivery.ring)
  {
    hide F.From, F.Retains, C.Committed, C.RecordOf, C.Sendable, F.AltersByLeaving, OnlyNew;
  }

  /** One more message on channel `ch`, sent a second after the last. */
  lemma SendsNext(w: World, p: C.Pending) returns (v: World)
    requires Reaches(Origin(), w) && Inv(w) && w.kinds == MIXED && Idle(w.a) && |w.a.channels.pending| <= 1
    requires forall m | m in w.a.channels.pending :: |m.payload| <= BLOCK && m.inFlight
    requires p.channel < 2 && !p.inFlight && p.id == |w.accepted[p.channel]| < 1_000_000 && |p.payload| <= MAX_MESSAGE
    requires |w.sent| < 1_000_000 && w.aClock <= 1_000_000 * 1_000_000_000
    ensures Reaches(Origin(), v) && Inv(v) && v.aClock == w.aClock + 1_000_000_000
    ensures SentNext(w, p, v) && Dequeued(w.a.channels.pending + [p], |w.a.channels.pending|, w.a.delivery.ring,
                                          v.a.channels.pending, v.a.delivery.ring)
  {
    hide Inv, Reaches, Transmitted, SentNext, Dequeued;
    OriginInv();
    InvSized(w);
    NextIdOf(w, p.channel);
    NextSeq(w);
    Submits(Origin(), w, p.channel, p.payload);
    var u := Queueing(w, p);
    ReachesInv(Origin(), u);
    LastIsLone(w.a.channels.pending, p);
    v := SendsLone(Origin(), u, |w.a.channels.pending|);
    QueuedSent(w, p, v);
  }

  lemma LastIsLone(pending: seq<C.Pending>, p: C.Pending)
    requires !p.inFlight && forall m | m in pending :: m.inFlight
    ensures Lone(pending + [p], |pending|)
  {
    assert forall k | 0 <= k < |pending| :: (pending + [p])[k] in pending;
  }

  lemma NextIdOf(w: World, ch: nat)
    requires Inv(w) && C.Sized(w.a.channels) && ch < |w.kinds|
    ensures w.a.channels.kinds == w.kinds && w.a.channels.nextIds[ch] == |w.accepted[ch]|
  {
    hide I.Valid, LogOk, FlightOk, RepliesOk, WindowsOk, AllInOrder;
  }

  lemma NextSeq(w: World)
    requires Inv(w)
    ensures w.a.crypto.nextSequence == |w.sent| + 1
  {
    hide I.Valid, LogOk, FlightOk, RepliesOk, WindowsOk, AllInOrder, SenderOk;
  }

  /** An unreliable message leaves the client quiet again. */
  lemma SendsUnreliable(w: World) returns (v: World)
    requires Quiet(w) && |w.sent| < 1_000_000 && |w.accepted[1]| < 1_000_000
    ensures Quiet(v) && SentNext(w, C.Pending(1, |w.accepted[1]|, [], false), v)
  {
    hide Inv, Reaches, C.Committed, C.RecordOf, F.From, F.Retains, F.AltersByLeaving, OnlyNew;
    var p := C.Pending(1, |w.accepted[1]|, [], false);
    v := SendsNext(w, p);
    InvSized(v);
    assert [] + [p] == [p] && Marked([p], 0) == [p.(inFlight := true)];
    LeavesAtOnce(MIXED, p);
  }
}
