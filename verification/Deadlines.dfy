/** When a connection has something to send and when it needs servicing, on its fields alone: what it
owes, what it can afford, and what time does to it. */
module Deadlines {
  import opened Machine
  import opened BitStream
  import opened Frames
  import opened Connection
  import opened LedgerTimers
  import B = Budget
  import C = Channels
  import Q = SendQueue
  import I = ConnectionInvariant
  import L = Ledger
  import Rtt
  import T = Transmit
  import Arrival
  import AP = AckPacing
  import TP = TwoParty

  // ----- What is owed -----

  /** The control frames a connection owes, in the order they go out. */
  function Owing(c: Conn): seq<Frame> {
    (if c.lifecycle.Closing? then [Close(c.lifecycle.reason)] else [])
    + (if c.control.accepted then [Frame.Accepted] else [])
    + (if c.control.challenge.Some? then [PathChallenge(c.control.challenge.value)] else [])
    + (if c.control.response.Some? then [PathResponse(c.control.response.value)] else [])
    + (if c.control.ticket.Some? then [ResumeTicket(c.control.ticket.value)] else [])
    + (if c.pendingProbes > 0 then [Ping] else [])
  }

  /** An acknowledgement is owed and has been held as long as it may be: not at all after a packet out
  of order, but never within the delay of the last one that went out alone. */
  predicate AckDue(a: Acks, now: nat) {
    match a.owed
    case Nothing => false
    case AtOnce => a.aloneAfter <= now
    case HeldSince(since) => a.aloneAfter <= now && since + a.delay <= now
  }

  /** The message the next packet starts with: the earliest waiting of the lowest channel on which any
  waits. */
  ghost predicate Foremost(pending: seq<C.Pending>, i: nat) {
    && i < |pending| && !pending[i].inFlight
    && forall j | 0 <= j < |pending| && !pending[j].inFlight ::
         pending[j].channel > pending[i].channel || (pending[j].channel == pending[i].channel && j >= i)
  }

  /** The allowance at `now` covers a datagram for the foremost message: 14 bytes of header, 16 of tag,
  5 of fields and the payload, or the longest datagram there is. */
  ghost predicate Affordable(c: Conn, now: nat) {
    && c.lifecycle.Open?
    && exists i: nat :: Foremost(c.channels.pending, i)
                        && B.Available(B.Advance(c.budget, now))
                           >= Min(14 + 16 + 5 + |c.channels.pending[i].payload|, c.budget.config.maxPacket)
  }

  /** There is something to send. */
  ghost predicate Sends(c: Conn, now: nat) {
    !c.lifecycle.Closed? && (Owing(c) != [] || AckDue(c.acks, now) || Affordable(c, now))
  }

  lemma {:induction false} ForemostFound(kinds: Kinds, pending: seq<C.Pending>, ch: nat)
    requires forall j | 0 <= j < |pending| && !pending[j].inFlight :: ch <= pending[j].channel < |kinds|
    ensures var len := C.NextUnsentLen(kinds, pending, ch);
            && (len.Some? ==> exists i: nat :: Foremost(pending, i) && len.value == |pending[i].payload|)
            && (len.None? ==> forall j | 0 <= j < |pending| :: pending[j].inFlight)
    decreases |kinds| - ch
  {
    hide C.FirstUnsent;
    if ch < |kinds| {
      var at := C.FirstUnsent(pending, ch, 0);
      if at.None? {
        ForemostFound(kinds, pending, ch + 1);
      } else {
        Q.FirstIsLeast(pending, ch, 0);
        assert Foremost(pending, at.value);
      }
    }
  }

  /** The foremost message is affordable exactly from the time the budget names for it. */
  lemma DataExact(c: Conn, clock: nat, now: nat)
    requires I.Valid(c, clock) && clock <= now < U64_MAX && c.lifecycle.Open? && c.budget.refill > 0
    ensures var len := C.NextUnsentLen(c.channels.kinds, c.channels.pending, 0);
            Affordable(c, now) <==> len.Some? && B.ReadyFor(c.budget, len.value) <= now
  {
    hide L.Valid, I.NoneStranded, B.ReadyFor, B.Advance, B.Available, C.NextUnsentLen;
    WaitingChannels(c, clock);
    ForemostFound(c.channels.kinds, c.channels.pending, 0);
    var len := C.NextUnsentLen(c.channels.kinds, c.channels.pending, 0);
    if len.Some? {
      B.ReadyForExact(c.budget, len.value, now);
      var k: nat :| Foremost(c.channels.pending, k) && len.value == |c.channels.pending[k].payload|;
    }
  }

  /** The one judgement of what is due is exactly this. */
  lemma DueExact(c: Conn, clock: nat, now: nat)
    requires I.Valid(c, clock) && clock <= now < U64_MAX
    ensures c.budget.refill > 0
    ensures Due(TransmitAt(c), now) <==> Sends(c, now)
  {
    hide I.Valid, B.ReadyFor, Affordable, C.NextUnsentLen, Owing;
    I.ValidShaped(c, clock);
    OwingExact(c);
    if c.lifecycle.Open? {
      DataExact(c, clock, now);
    } else {
      OnlyOpen(c, now);
    }
  }

  lemma OnlyOpen(c: Conn, now: nat)
    requires !c.lifecycle.Open?
    ensures !Affordable(c, now)
  {
  }

  lemma WaitingChannels(c: Conn, clock: nat)
    requires I.Valid(c, clock)
    ensures forall j | 0 <= j < |c.channels.pending| :: c.channels.pending[j].channel < |c.channels.kinds|
  {
    hide L.Valid, I.NoneStranded, B.Consistent;
    assert forall j | 0 <= j < |c.channels.pending| :: c.channels.pending[j] in c.channels.pending;
  }

  lemma OwingExact(c: Conn)
    ensures Owing(c) != [] <==> c.lifecycle.Closing? || c.control != NO_CONTROL || c.pendingProbes > 0
  {
  }

  // ----- What a poll does -----

  /** Polling sends a packet exactly when, at the assessed rate, a control frame, a close notice or a
  probe is owed, an acknowledgement is due, or the open connection can afford its foremost message. */
  lemma PollSends(c: Conn, clock: nat, now: nat)
    requires I.Valid(c, clock) && clock <= now < U64_MAX
    ensures Transmittable(c) && B.Consistent(c.budget)
    ensures PollTransmit(c, now).packet.Some? <==> Sends(Assessed(c, now), now)
  {
    hide I.Valid, Sends, TransmitAt, PollTransmit, B.Assess;
    T.PollExact(c, clock, now);
    T.AssessedValid(c, clock, now);
    DueExact(Assessed(c, now), now, now);
  }

  lemma OwedIsOwing(c: Conn)
    ensures T.OwedFrames(c, 6) == Owing(c)
  {
    var o := Owed(c);
    assert T.OwedFrames(c, 0) == [];
    assert T.OwedFrames(c, 1) == if o[0].Some? then [o[0].value] else [];
    assert T.OwedFrames(c, 2) == T.OwedFrames(c, 1) + if o[1].Some? then [o[1].value] else [];
    assert T.OwedFrames(c, 3) == T.OwedFrames(c, 2) + if o[2].Some? then [o[2].value] else [];
    assert T.OwedFrames(c, 4) == T.OwedFrames(c, 3) + if o[3].Some? then [o[3].value] else [];
    assert T.OwedFrames(c, 5) == T.OwedFrames(c, 4) + if o[4].Some? then [o[4].value] else [];
  }

  lemma DraftOwes(c: Conn, now: nat)
    requires Transmittable(c)
    ensures Drafted(c, now).control == Owing(c)
  {
    hide BuildHeader, HeaderLen, C.Fill, B.Advance, B.Available, WriteControl, Body, CeilBytes, T.OwedFrames, Owing,
         ControlValid;
    T.RoomEnough(BuildHeader(c, now));
    T.AllControlWritten(c, Room(BuildHeader(c, now)), 6);
    OwedIsOwing(c);
  }

  /** How the lifecycle moves when a packet goes out: a close notice is counted, and after the last the
  connection is closed. */
  function Noticed(l: Lifecycle): Lifecycle {
    match l
    case Closing(reason, remaining) => if remaining <= 1 then Closed else Closing(reason, remaining - 1)
    case _ => l
  }

  /** Whoever opens the packet reads the control frames owed, all of them and in order, and then
  messages. None but further probes is owed afterwards, a close notice has been counted, and the last
  notice is also the event that reports the closure. */
  lemma PollCarries(c: Conn, clock: nat, now: nat)
    requires I.Valid(c, clock) && clock <= now < U64_MAX
    ensures Transmittable(c) && B.Consistent(c.budget)
    ensures var r := PollTransmit(c, now);
            r.packet.Some? ==>
              var parsed := Parse(c.channels.kinds, r.packet.value.body, 0);
              && parsed.ok && Owing(c) <= parsed.frames
              && (forall k | |Owing(c)| <= k < |parsed.frames| :: parsed.frames[k].Message?)
              && r.conn.control == NO_CONTROL && r.conn.pendingProbes == SatSub(c.pendingProbes, 1)
              && r.conn.lifecycle == Noticed(c.lifecycle)
              && r.conn.events == if c.lifecycle.Closing? && c.lifecycle.remaining <= 1
                                  then Push(c.events, ClosedEvent(c.lifecycle.reason)) else c.events
  {
    hide I.Valid, TransmitAt, B.Assess, BuildHeader, B.Advance, Aborted, Committed, Parse, Body, Sealed, Drafted, Owing,
         C.FrameOf;
    T.PollExact(c, clock, now);
    T.AssessedValid(c, clock, now);
    var c1 := Assessed(c, now);
    if Due(TransmitAt(c1), now) {
      I.ValidShaped(c1, now);
      DraftStaged(c1, now);
      var d, kinds := Drafted(c1, now), c.channels.kinds;
      T.DueDraft(c1, now, now);
      T.CommittedSends(c1, now, d);
      AP.DraftFrames(c1, d);
      var frames := d.control + Q.FramesOf(kinds, d.staging.staged);
      Arrival.ParseSealed(kinds, frames, Room(d.header));
      DraftOwes(c1, now);
      AssessOwes(c, now);
      CommitOwes(c1, now, d);
    }
  }

  lemma AssessOwes(c: Conn, now: nat)
    ensures Owing(Assessed(c, now)) == Owing(c)
  {
  }

  lemma CommitOwes(c: Conn, now: nat, d: Draft)
    requires Shaped(c) && C.AllSendable(c.channels.kinds, d.staging.staged) && d.control == Owing(c)
    ensures var r := Committed(c, now, d).conn;
            && r.control == NO_CONTROL && r.pendingProbes == SatSub(c.pendingProbes, 1)
            && r.lifecycle == Noticed(c.lifecycle)
            && r.events == if c.lifecycle.Closing? && c.lifecycle.remaining <= 1
                           then Push(c.events, ClosedEvent(c.lifecycle.reason)) else c.events
  {
    hide L.OnSent, ApplyNotes, Sealed, C.Committed, C.RecordOf, B.Advance, B.OnSent, HeaderLen, Owing;
    InOwing(c);
  }

  lemma InOwing(c: Conn)
    ensures c.control.accepted ==> Frame.Accepted in Owing(c)
    ensures c.control.challenge.Some? ==> PathChallenge(c.control.challenge.value) in Owing(c)
    ensures c.control.response.Some? ==> PathResponse(c.control.response.value) in Owing(c)
    ensures c.control.ticket.Some? ==> ResumeTicket(c.control.ticket.value) in Owing(c)
    ensures c.pendingProbes > 0 ==> Ping in Owing(c)
  {
  }

  // ----- Closing -----

  /** Polls at these times, and what they send. */
  datatype Polling = Polling(conn: Conn, packets: seq<Packet>)

  ghost predicate Polls(c: Conn, times: seq<nat>, p: Polling)
    decreases |times|
  {
    if times == [] then p == Polling(c, [])
    else
      var n := |times| - 1;
      exists u: Polling ::
        && Polls(c, times[..n], u) && Transmittable(u.conn) && B.Consistent(u.conn.budget)
        && var r := PollTransmit(u.conn, times[n]);
           p == Polling(r.conn, if r.packet.None? then u.packets else u.packets + [r.packet.value])
  }

  ghost predicate Notifies(kinds: Kinds, p: Packet, reason: nat) {
    var frames := Parse(kinds, p.body, 0).frames;
    Parse(kinds, p.body, 0).ok && frames != [] && frames[0] == Close(reason)
  }

  /** A closing connection tells its peer with every packet, and closes with the last. */
  lemma NoticeSent(c: Conn, clock: nat, now: nat)
    requires I.Valid(c, clock) && clock <= now < U64_MAX && c.lifecycle.Closing?
    ensures Transmittable(c) && B.Consistent(c.budget)
    ensures var r := PollTransmit(c, now);
            && I.Valid(r.conn, now) && r.packet.Some? && Notifies(c.channels.kinds, r.packet.value, c.lifecycle.reason)
            && r.conn.channels.kinds == c.channels.kinds && r.conn.lifecycle == Noticed(c.lifecycle)
            && r.conn.events == if c.lifecycle.remaining <= 1
                                then Push(c.events, ClosedEvent(c.lifecycle.reason)) else c.events
  {
    hide I.Valid, PollTransmit, Parse, B.Assess, AckDue, Affordable;
    PollSends(c, clock, now);
    PollCarries(c, clock, now);
    T.PollValid(c, clock, now);
    TP.PollParts(c, clock, now);
    assert Owing(c)[0] == Close(c.lifecycle.reason);
    assert Owing(Assessed(c, now))[0] == Close(c.lifecycle.reason);
  }

  /** After a close is asked for, the next three polls, whenever they come, send three packets that
  begin with the notice, and then the connection is closed and says so. No earlier poll closes it. */
  lemma {:induction false} ClosesAfterNotices(c: Conn, clock: nat, reason: nat, times: seq<nat>, p: Polling)
    requires I.Valid(c, clock) && c.lifecycle.Open? && reason < REASONS && |times| <= 3
    requires forall i | 0 <= i < |times| :: clock <= times[i] < U64_MAX
    requires forall i, j | 0 <= i <= j < |times| :: times[i] <= times[j]
    requires Polls(RequestClose(c, reason), times, p)
    ensures |p.packets| == |times| && forall i | 0 <= i < |times| :: Notifies(c.channels.kinds, p.packets[i], reason)
    ensures I.Valid(p.conn, if times == [] then clock else times[|times| - 1])
    ensures p.conn.channels.kinds == c.channels.kinds
    ensures p.conn.lifecycle == if |times| < 3 then Closing(reason, 3 - |times|) else Closed
    ensures p.conn.events == if |times| < 3 then c.events else Push(c.events, ClosedEvent(reason))
    decreases |times|
  {
    hide I.Valid, PollTransmit, Notifies, Transmittable, B.Consistent;
    TP.RequestsKept(c, clock, reason, NO_CONTROL);
    if times != [] {
      var n := |times| - 1;
      var u: Polling :| Polls(RequestClose(c, reason), times[..n], u) && Transmittable(u.conn)
                        && B.Consistent(u.conn.budget)
                        && var r := PollTransmit(u.conn, times[n]);
                           p == Polling(r.conn, if r.packet.None? then u.packets else u.packets + [r.packet.value]);
      ClosesAfterNotices(c, clock, reason, times[..n], u);
      NoticeSent(u.conn, if n == 0 then clock else times[n - 1], times[n]);
    }
  }

  // ----- Timeouts -----

  /** What time does to a connection that is not closed. It is closed, and says so, exactly when
  nothing has been heard for the idle timeout. Otherwise the ledger judges its losses and whether
  probes are owed, a probe is owed at least when nothing worth acknowledging was sent for the keepalive
  interval, and a challenge to a new address is dropped three seconds after it began. */
  lemma TimeoutExact(c: Conn, clock: nat, now: nat)
    requires I.Valid(c, clock) && clock <= now < U64_MAX && !c.lifecycle.Closed?
    ensures Shaped(c)
    ensures var r, t := HandleTimeout(c, now), L.OnTimeout(c.delivery, now);
            if c.lastReceived + c.idleTimeout <= now
            then r == c.(lifecycle := Closed, events := Push(c.events, ClosedEvent(1)))
            else
              && r.lifecycle == c.lifecycle && r.events == c.events && r.delivery == t.ledger
              && r.pendingProbes == Max(Max(c.pendingProbes, t.probes),
                                        if c.delivery.lastEliciting + c.keepalive <= now then 1 else 0)
              && r.role == (if c.role.Server? && c.role.probe.Some? && c.role.probe.value.started + 3_000_000_000 <= now
                            then Server(None) else c.role)
              && r == c.(delivery := r.delivery, pendingProbes := r.pendingProbes, role := r.role,
                         budget := r.budget, channels := c.channels.(pending := r.channels.pending))
              && (t.notes == [] ==> r.budget == c.budget && r.channels == c.channels)
  {
    hide L.Valid, I.NoneStranded, B.Consistent, I.QueueValid, L.OnTimeout, ApplyNotes, Push;
    I.ValidShaped(c, clock);
    KeepsLastEliciting(c.delivery, now);
    SentBefore(c.delivery, clock);
    NoNotes(Applied(c.channels.pending, c.budget));
  }

  lemma SentBefore(l: L.Ledger<Record>, clock: nat)
    requires L.Valid(l, clock)
    ensures l.lastEliciting <= clock
  {
  }

  lemma NoNotes(a: Applied)
    ensures ApplyNotes(a, []) == a
  {
  }

  lemma KeepsLastEliciting(l: L.Ledger<Record>, now: nat)
    requires |l.ring| > 0
    ensures L.OnTimeout(l, now).ledger.lastEliciting == l.lastEliciting
  {
    hide L.FirstInFlight, L.LostNotes, L.Swept;
  }

  /** Before its deadline a ledger's timeout does nothing. */
  lemma LedgerQuiet(l: L.Ledger<Record>, clock: nat, now: nat)
    requires L.Valid(l, clock) && clock <= now < U64_MAX && !Due(L.NextTimeout(l), now)
    ensures L.OnTimeout(l, now) == L.TimedOut(l, [], 0)
  {
    hide L.CountInFlight, L.FirstInFlight, L.Swept, L.ProbeDeadline;
    if l.largestAcked > 0 {
      forall q: nat | L.IsInFlight(l.ring, q)
        ensures !L.Overdue(l, now, L.Get(l.ring, q).value)
      {
        NotOverdue(l, clock, now, q);
      }
      NoneLost(l, now, l.largestAcked);
      L.NothingLost(l, clock, now);
    }
  }

  lemma NotOverdue(l: L.Ledger<Record>, clock: nat, now: nat, q: nat)
    requires L.Valid(l, clock) && clock <= now < U64_MAX && !Due(L.LossTime(l), now) && L.IsInFlight(l.ring, q)
    ensures !L.Overdue(l, now, L.Get(l.ring, q).value)
  {
    hide L.CountInFlight, L.LossDelay, L.LossTime;
    L.LossTimeEarliest(l, clock);
  }

  lemma {:induction false} NoneLost(l: L.Ledger<Record>, now: nat, hi: nat)
    requires |l.ring| > 0 && forall q: nat | L.IsInFlight(l.ring, q) :: !L.Overdue(l, now, L.Get(l.ring, q).value)
    ensures L.LostNotes(l, now, hi) == []
  {
    if hi > 0 {
      NoneLost(l, now, hi - 1);
      assert L.Get(l.ring, hi - 1).Some? && L.Overdue(l, now, L.Get(l.ring, hi - 1).value)
             ==> L.IsInFlight(l.ring, hi - 1);
    }
  }

  /** Before its own deadline nothing a connection could be serviced for has come: servicing it changes
  nothing at all, and it has nothing to send. */
  lemma NothingBefore(c: Conn, clock: nat, now: nat)
    requires I.Valid(c, clock) && clock <= now < U64_MAX && !c.lifecycle.Closed? && c.budget.refill > 0
    requires Shaped(c) && NextTimeout(c).Some? && now < NextTimeout(c).value
    ensures HandleTimeout(c, now) == c && !Sends(c, now)
  {
    hide L.Valid, I.NoneStranded, B.Consistent, I.QueueValid, L.OnTimeout, L.NextTimeout, TransmitAt, Sends,
         HandleTimeout, Push;
    TimeoutExact(c, clock, now);
    LedgerQuiet(c.delivery, clock, now);
    DueExact(c, clock, now);
  }

  /** From its deadline on there is: the timeout changes something, or there is something to send. */
  lemma SomethingAfter(c: Conn, clock: nat, now: nat)
    requires I.Valid(c, clock) && clock <= now < U64_MAX && !c.lifecycle.Closed? && c.budget.refill > 0
    requires Shaped(c) && Due(NextTimeout(c), now)
    ensures HandleTimeout(c, now) != c || Sends(c, now)
  {
    hide L.Valid, I.NoneStranded, B.Consistent, I.QueueValid, L.OnTimeout, L.NextTimeout, TransmitAt,
         HandleTimeout, Push, AckDue, Affordable;
    TimeoutExact(c, clock, now);
    DueExact(c, clock, now);
    OwingExact(c);
    if Due(L.NextTimeout(c.delivery), now) {
      L.TimeoutMakesProgress(c.delivery, clock, now);
      LossShows(c.delivery, now);
    }
  }

  /** A loss shows in the count of packets in flight. */
  lemma LossShows(l: L.Ledger<Record>, now: nat)
    requires |l.ring| > 0
    ensures L.OnTimeout(l, now).notes != [] ==> L.OnTimeout(l, now).ledger != l
  {
    hide L.FirstInFlight, L.LostNotes, L.Swept, L.ProbeDeadline;
  }

  /** The deadline a connection reports is exact: it has come if and only if servicing the connection
  now would change something or there is something to send. A closed connection has none. */
  lemma WakesExactly(c: Conn, clock: nat, now: nat)
    requires I.Valid(c, clock) && clock <= now < U64_MAX
    ensures Shaped(c) && c.budget.refill > 0
    ensures NextTimeout(c).None? <==> c.lifecycle.Closed?
    ensures Due(NextTimeout(c), now) <==> !c.lifecycle.Closed? && (HandleTimeout(c, now) != c || Sends(c, now))
  {
    hide L.Valid, I.NoneStranded, B.Consistent, I.QueueValid, L.NextTimeout, TransmitAt, HandleTimeout, Sends;
    I.ValidShaped(c, clock);
    if !c.lifecycle.Closed? {
      if Due(NextTimeout(c), now) {
        SomethingAfter(c, clock, now);
      } else {
        NothingBefore(c, clock, now);
      }
    }
  }

  // ----- The rate may bring a packet forward -----

  /** A budget that earns no more and holds no more affords no more. */
  lemma AffordsLess(b: B.Budget, a: B.Budget, now: nat)
    requires B.Consistent(b) && B.Consistent(a) && a.config == b.config && a.lastRefill == b.lastRefill
    requires a.rate <= b.rate && a.tokens <= b.tokens
    ensures B.Available(B.Advance(a, now)) <= B.Available(B.Advance(b, now))
  {
    hide B.Refill, B.CapacityFor;
    B.RateBounds(a.rate, a.config);
    B.RateBounds(b.rate, b.config);
    RefillGrows(a.rate, b.rate, a.config);
    var elapsed := Since(now, b.lastRefill);
    assert elapsed * a.refill <= elapsed * b.refill;
  }

  lemma RefillGrows(a: nat, b: nat, config: B.Config)
    requires a <= b
    ensures B.Refill(a) <= B.Refill(b) && B.CapacityFor(a, config) <= B.CapacityFor(b, config)
  {
    assert a * B.FRACTION <= b * B.FRACTION;
  }

  /** Before the deadline a poll sends nothing, unless it has just raised the rate. */
  lemma NoPacketBefore(c: Conn, clock: nat, now: nat)
    requires I.Valid(c, clock) && clock <= now < U64_MAX && Shaped(c) && c.budget.refill > 0
    requires !Due(NextTimeout(c), now)
    ensures Transmittable(c) && B.Consistent(c.budget)
    ensures PollTransmit(c, now).packet.Some? ==> Assessed(c, now).budget.rate > c.budget.rate
  {
    hide I.Valid, PollTransmit, NextTimeout, HandleTimeout, B.Consistent, B.Refill, B.CapacityFor, B.Advance,
         B.Available, Foremost;
    WakesExactly(c, clock, now);
    PollSends(c, clock, now);
    var a := Assessed(c, now).budget;
    B.OperationsConsistent(c.budget, now, 0, false, c.delivery.rtt);
    if a.rate <= c.budget.rate {
      AssessKeeps(c.budget, now, c.delivery.rtt);
      AffordsLess(c.budget, a, now);
    }
  }

  lemma AssessKeeps(b: B.Budget, now: nat, rtt: Rtt.Rtt)
    ensures var a := B.Assess(b, now, rtt); a.config == b.config && a.lastRefill == b.lastRefill && a.tokens <= b.tokens
  {
    hide B.Refill, B.CapacityFor;
  }
}
