/** The messages in the packet a poll sends. */
module PacketContents {
  import opened Machine
  import opened BitStream
  import opened Frames
  import opened Connection
  import opened Deadlines
  import opened Priorities
  import B = Budget
  import C = Channels
  import I = ConnectionInvariant
  import L = Ledger
  import Q = SendQueue
  import T = Transmit
  import Arrival
  import AP = AckPacing

  /** The queue as a packet finds it: for a probe, the two oldest messages in flight wait again. */
  ghost predicate Offers(c: Conn, queue: seq<C.Pending>) {
    var pending := c.channels.pending;
    && |queue| == |pending|
    && forall i | 0 <= i < |pending| ::
         queue[i] == if c.pendingProbes > 0 && InFlight(pending[..i]) < 2
                     then pending[i].(inFlight := false) else pending[i]
  }

  lemma QueueOffers(c: Conn)
    ensures Offers(c, QueueFor(c))
  {
    hide C.Requeued;
    var pending := c.channels.pending;
    Q.RequeuedSame(pending, 2);
    forall i | 0 <= i < |pending|
      ensures QueueFor(c)[i] == if c.pendingProbes > 0 && InFlight(pending[..i]) < 2
                                then pending[i].(inFlight := false) else pending[i]
    {
      RequeuedExact(pending, 2, i);
    }
  }

  /** What the messages of a packet may use of the allowance: it is spent first on the header, the tag and the
  control frames. */
  function Share(c: Conn, now: nat): nat
    requires AllEncodable(c.channels.kinds, Owing(c))
  {
    var allowance := B.Available(B.Advance(c.budget, now));
    SatSub(allowance, HeaderLen(BuildHeader(c, now)) + 16 + CeilBytes(|Body(c.channels.kinds, Owing(c))|))
  }

  /** The packet's messages, taken from the queue offered. */
  ghost predicate Holds(c: Conn, now: nat, queue: seq<C.Pending>, s: C.Staging)
    requires AllEncodable(c.channels.kinds, Owing(c)) && C.AllSendable(c.channels.kinds, s.pending)
  {
    var kinds, start := c.channels.kinds, |Body(c.channels.kinds, Owing(c))|;
    && Offers(c, queue)
    && InPriority(s.staged) && WereWaiting(s.staged, queue, 0) && NoneOvertaken(s.staged, s.pending)
    && start <= |s.body|
    && (if c.lifecycle.Open? && Share(c, now) > 0
        then Full(kinds, s, start, Room(BuildHeader(c, now)), Share(c, now), 0) else s.staged == [])
  }

  lemma QueueOrdered(c: Conn, clock: nat)
    requires I.Valid(c, clock)
    ensures Q.Ordered(QueueFor(c))
  {
    hide C.Requeued, I.NoneStranded, B.Consistent;
    Q.RequeuedSame(c.channels.pending, PROBE_MESSAGES);
    Q.SameMessagesKeeps(c.channels.kinds, c.channels.pending, C.Requeued(c.channels.pending, PROBE_MESSAGES));
  }

  lemma DraftHolds(c: Conn, clock: nat, now: nat)
    requires I.Valid(c, clock) && Transmittable(c)
    ensures AllEncodable(c.channels.kinds, Owing(c))
    ensures var s := Drafted(c, now).staging;
            C.AllSendable(c.channels.kinds, s.pending) && Holds(c, now, QueueFor(c), s)
  {
    hide I.Valid, WriteControl, Body, C.Fill, BuildHeader, HeaderLen, CeilBytes, QueueFor, Encodable, Owing, Offers,
         InPriority, WereWaiting, NoneOvertaken, Full, B.Advance, B.Available, Transmittable;
    QueueOffers(c);
    QueueOrdered(c, clock);
    QueueSendable(c);
    DraftOwes(c, now);
    var kinds, d := c.channels.kinds, Drafted(c, now);
    var body := Body(kinds, d.control);
    var s := C.Staging(QueueFor(c), body, []);
    NothingAdded(s, 0);
    FillFull(kinds, s, |body|, Room(d.header), Share(c, now), 0);
    FillOrder(kinds, s, |body|, Room(d.header), Share(c, now), 0);
    var r := C.Fill(kinds, s, |body|, Room(d.header), Share(c, now), 0);
    assert r.staged[0..] == r.staged;
  }

  /** Whoever opens the packet a poll sends reads the control frames owed and then exactly these messages. */
  lemma PollHolds(c: Conn, clock: nat, now: nat) returns (queue: seq<C.Pending>, s: C.Staging)
    requires I.Valid(c, clock) && clock <= now < U64_MAX
    requires Transmittable(c) && B.Consistent(c.budget) && PollTransmit(c, now).packet.Some?
    ensures var c1, kinds := Assessed(c, now), c.channels.kinds;
            && AllEncodable(kinds, Owing(c1)) && C.AllSendable(kinds, s.pending) && C.AllSendable(kinds, s.staged)
            && Holds(c1, now, queue, s)
            && Parse(kinds, PollTransmit(c, now).packet.value.body, 0)
               == Parsed(Owing(c) + Q.FramesOf(kinds, s.staged), true)
  {
    hide I.Valid, TransmitAt, B.Assess, BuildHeader, B.Advance, Aborted, Committed, Parse, Body, Sealed, Drafted, Owing,
         C.FrameOf, Holds, Transmittable;
    T.PollExact(c, clock, now);
    T.AssessedValid(c, clock, now);
    var c1, kinds := Assessed(c, now), c.channels.kinds;
    I.ValidShaped(c1, now);
    DraftStaged(c1, now);
    var d := Drafted(c1, now);
    queue, s := QueueFor(c1), d.staging;
    DraftHolds(c1, now, now);
    T.DueDraft(c1, now, now);
    T.CommittedSends(c1, now, d);
    AP.DraftFrames(c1, d);
    Arrival.ParseSealed(kinds, d.control + Q.FramesOf(kinds, s.staged), Room(d.header));
    DraftOwes(c1, now);
    AssessOwes(c, now);
  }

  /** A fresh connection, whenever it is first polled or serviced: a server's says that it accepted and nothing
  more, a client's says nothing, and either is given up exactly when the idle timeout has gone by in silence. */
  lemma FirstActs(began: nat, role: Role, addr: nat, kinds: Kinds, cfg: Config, now: nat)
    requires ConfigValid(cfg) && began <= now < U64_MAX
    ensures var c := New(began, role, addr, kinds, cfg);
            && Transmittable(c) && B.Consistent(c.budget)
            && (role.Client? ==> PollTransmit(c, now).packet.None?)
            && (role.Server? ==>
                  && PollTransmit(c, now).packet.Some?
                  && Parse(kinds, PollTransmit(c, now).packet.value.body, 0) == Parsed([Frame.Accepted], true))
            && (HandleTimeout(c, now).lifecycle.Closed? <==> began + cfg.idleTimeout <= now)
  {
    hide I.Valid, PollTransmit, HandleTimeout, Parse, Holds, B.Consistent, Transmittable, ConfigValid, New,
         Owing, Sends;
    var c := New(began, role, addr, kinds, cfg);
    I.NewValid(began, role, addr, kinds, cfg);
    PollSends(c, began, now);
    FreshOwes(began, role, addr, kinds, cfg, now);
    TimeoutExact(c, began, now);
    if role.Server? {
      var queue, s := PollHolds(c, began, now);
      NothingHeld(Assessed(c, now), now, queue, s);
      assert Owing(c) + Q.FramesOf(kinds, s.staged) == [Frame.Accepted];
    }
  }

  lemma FreshOwes(began: nat, role: Role, addr: nat, kinds: Kinds, cfg: Config, now: nat)
    ensures var c := New(began, role, addr, kinds, cfg);
            && Owing(c) == (if role.Server? then [Frame.Accepted] else []) && c.channels.pending == []
            && c.channels.kinds == kinds && c.lifecycle.Open? && c.lastReceived == began
            && c.idleTimeout == cfg.idleTimeout && Assessed(c, now).channels == c.channels
            && (Sends(Assessed(c, now), now) <==> role.Server?)
  {
    hide B.Assess, L.New, B.New;
  }

  lemma NothingHeld(c: Conn, now: nat, queue: seq<C.Pending>, s: C.Staging)
    requires AllEncodable(c.channels.kinds, Owing(c)) && C.AllSendable(c.channels.kinds, s.pending)
    requires Holds(c, now, queue, s) && c.channels.pending == []
    ensures s.staged == []
  {
    hide Full, InPriority, NoneOvertaken, Owing, Body;
    if s.staged != [] {
      SomeWaited(s.staged, queue);
      assert false;
    }
  }

  lemma SomeWaited(staged: seq<C.Pending>, queue: seq<C.Pending>)
    requires WereWaiting(staged, queue, 0) && staged != []
    ensures |queue| > 0
  {
    assert staged[0] in queue;
  }
}
