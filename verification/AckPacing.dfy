/** Packets that carry nothing but an acknowledgement: never more of them than packets worth
acknowledging arrived, and never two closer than the acknowledgement delay. */
module AckPacing {
  import opened Machine
  import opened Frames
  import opened Connection
  import opened ConnectionRuns
  import B = Budget
  import C = Channels
  import I = ConnectionInvariant
  import T = Transmit
  import F = QueueFlow
  import L = Ledger
  import N = LedgerNotes
  import Q = SendQueue
  import Arrival
  import TP = TwoParty

  datatype AckEvent = Received(at: nat, inOrder: bool) | SentData(at: nat) | SentAlone(at: nat) | Quiet(at: nat)

  function Next(a: Acks, e: AckEvent): (r: Acks)
    ensures r.delay == a.delay
  {
    match e
    case Received(at, inOrder) => a.Record(at, inOrder)
    case SentData(at) => a.Sent(at, true)
    case SentAlone(at) => a.Sent(at, false)
    case Quiet(_) => a
  }

  function After(a: Acks, es: seq<AckEvent>): (r: Acks)
    ensures r.delay == a.delay
  {
    if es == [] then a else Next(After(a, es[..|es| - 1]), es[|es| - 1])
  }

  /** Every ack-only packet of the list leaves at or after its deadline. */
  ghost predicate Permitted(a: Acks, es: seq<AckEvent>) {
    forall i | 0 <= i < |es| && es[i].SentAlone? :: Due(After(a, es[..i]).Deadline(), es[i].at)
  }

  function Alone(es: seq<AckEvent>): nat {
    if es == [] then 0 else Alone(es[..|es| - 1]) + if es[|es| - 1].SentAlone? then 1 else 0
  }

  function Arrived(es: seq<AckEvent>): nat {
    if es == [] then 0 else Arrived(es[..|es| - 1]) + if es[|es| - 1].Received? then 1 else 0
  }

  lemma PermittedInit(a: Acks, es: seq<AckEvent>)
    requires Permitted(a, es) && es != []
    ensures Permitted(a, es[..|es| - 1])
  {
    var init := es[..|es| - 1];
    forall i | 0 <= i < |init| && init[i].SentAlone?
      ensures Due(After(a, init[..i]).Deadline(), init[i].at)
    {
      assert init[..i] == es[..i] && init[i] == es[i];
    }
  }

  /** What is owed is one arrival not yet answered. */
  lemma {:induction false} AloneBounded(a: Acks, es: seq<AckEvent>)
    requires Permitted(a, es) && a.owed.Nothing?
    ensures Alone(es) + (if After(a, es).owed.Nothing? then 0 else 1) <= Arrived(es)
  {
    if es != [] {
      var n := |es| - 1;
      PermittedInit(a, es);
      AloneBounded(a, es[..n]);
      assert es[n].SentAlone? ==> Due(After(a, es[..n]).Deadline(), es[n].at);
    }
  }

  /** Once an acknowledgement has gone out alone, the next waits its turn. */
  lemma {:induction false} HeldBack(a: Acks, es: seq<AckEvent>, i: nat)
    requires i < |es| && es[i].SentAlone? && Permitted(a, es)
    requires forall j, k | 0 <= j < k < |es| :: es[j].at <= es[k].at
    ensures After(a, es).aloneAfter >= SatAdd(es[i].at, a.delay)
  {
    var n := |es| - 1;
    if i < n {
      PermittedInit(a, es);
      assert es[..n][i] == es[i];
      HeldBack(a, es[..n], i);
    }
  }

  /** Whatever permitted events happen: ack-only packets never outnumber arrivals worth
  acknowledging, and any two of them are at least the acknowledgement delay apart. */
  lemma AloneApart(a: Acks, es: seq<AckEvent>)
    requires a.owed.Nothing? && Permitted(a, es)
    requires forall j, k | 0 <= j < k < |es| :: es[j].at <= es[k].at
    ensures Alone(es) <= Arrived(es)
    ensures forall i, j | 0 <= i < j < |es| && es[i].SentAlone? && es[j].SentAlone? ::
              es[j].at >= SatAdd(es[i].at, a.delay)
  {
    AloneBounded(a, es);
    forall i, j | 0 <= i < j < |es| && es[i].SentAlone? && es[j].SentAlone?
      ensures es[j].at >= SatAdd(es[i].at, a.delay)
    {
      PermittedUpTo(a, es, j);
      assert es[..j][i] == es[i];
      HeldBack(a, es[..j], i);
      assert Due(After(a, es[..j]).Deadline(), es[j].at);
    }
  }

  lemma PermittedUpTo(a: Acks, es: seq<AckEvent>, k: nat)
    requires Permitted(a, es) && k <= |es|
    ensures Permitted(a, es[..k])
  {
    forall i | 0 <= i < k && es[..k][i].SentAlone?
      ensures Due(After(a, es[..k][..i]).Deadline(), es[..k][i].at)
    {
      assert es[..k][..i] == es[..i] && es[..k][i] == es[i];
    }
  }

  // ----- The events a connection makes -----

  /** The packet polling sends, if it sends one: with frames or without. */
  function Polling(c: Conn, now: nat): AckEvent
    requires Transmittable(c) && B.Consistent(c.budget)
  {
    var r := PollTransmit(c, now);
    if r.packet.None? then Quiet(now)
    else if Parse(c.channels.kinds, r.packet.value.body, 0).frames != [] then SentData(now)
    else SentAlone(now)
  }

  /** A datagram processed that carried frames, and whether it came right after the newest. */
  function Hearing(c: Conn, now: nat, from: nat, d: Datagram, token: nat): AckEvent
    requires Shaped(c) && HeaderShaped(d.header)
  {
    var newest, s := c.crypto.replay.newest, SequenceOf(c.crypto, d.header);
    if HandleDatagram(c, now, from, d, token).outcome.Processed?
       && Parse(c.channels.kinds, d.sealed.body, 0).frames != []
    then Received(now, newest == 0 || s == Some(newest + 1)) else Quiet(now)
  }

  lemma NotYetTracked(c: Conn, clock: nat)
    requires I.Valid(c, clock) && |c.delivery.ring| > 0
    ensures !L.IsInFlight(c.delivery.ring, c.crypto.nextSequence)
  {
    hide I.QueueValid, I.NoneStranded, B.Consistent, L.LossTime, L.FirstInFlight, L.CountInFlight;
  }

  lemma CommittedTracks(c: Conn, clock: nat, now: nat, d: Draft)
    requires I.Valid(c, clock) && now >= clock && C.AllSendable(c.channels.kinds, d.staging.staged) && Shaped(c)
    ensures var ring := Committed(c, now, d).conn.delivery.ring;
            && |ring| > 0
            && (L.IsInFlight(ring, c.crypto.nextSequence) <==> d.control != [] || d.staging.staged != [])
  {
    hide L.OnSent, ApplyNotes, L.Valid, I.NoneStranded, I.QueueValid, B.Consistent, Committed, C.RecordOf,
         C.AllSendable;
    F.CommittedParts(c, now, d);
    I.RingNonEmpty(c.delivery, clock);
    NotYetTracked(c, clock);
    var kinds, staged := c.channels.kinds, d.staging.staged;
    N.OnSentReported(c.delivery, clock, now, c.crypto.nextSequence,
                     if d.control != [] || staged != [] then L.Eliciting(C.RecordOf(kinds, staged)) else L.AckOnly);
  }

  /** A packet is worth acknowledging to whoever reads it exactly when its sender tracks it; and
  one that is not goes out only when an acknowledgement is due. */
  lemma ElicitingIffTracked(c: Conn, clock: nat, now: nat)
    requires I.Valid(c, clock) && clock <= now < U64_MAX
    ensures Transmittable(c) && B.Consistent(c.budget)
    ensures var r := PollTransmit(c, now);
            && (r.packet.None? ==> r.conn.acks == c.acks)
            && (r.packet.Some? ==>
                  var parsed := Parse(c.channels.kinds, r.packet.value.body, 0);
                  && parsed.ok && |r.conn.delivery.ring| > 0
                  && (parsed.frames != [] <==> L.IsInFlight(r.conn.delivery.ring, r.packet.value.sequence))
                  && r.conn.acks == c.acks.Sent(now, parsed.frames != [])
                  && (parsed.frames == [] ==> Due(c.acks.Deadline(), now)))
  {
    hide I.Valid, TransmitAt, B.Assess, WriteControl, C.Fill, BuildHeader, B.Advance, Aborted, Committed,
         Parse, Body, Sealed;
    T.PollExact(c, clock, now);
    T.AssessedValid(c, clock, now);
    var c1 := Assessed(c, now);
    if Due(TransmitAt(c1), now) {
      I.ValidShaped(c1, now);
      DraftStaged(c1, now);
      var d, kinds := Drafted(c1, now), c.channels.kinds;
      T.DueDraft(c1, now, now);
      T.CommittedSends(c1, now, d);
      CommittedAcks(c1, now, d);
      CommittedTracks(c1, now, now, d);
      var frames := d.control + Q.FramesOf(kinds, d.staging.staged);
      DraftFrames(c1, d);
      Arrival.ParseSealed(kinds, frames, Room(d.header));
    }
  }

  lemma DraftFrames(c: Conn, d: Draft)
    requires Q.Filled(c.channels.kinds, d.control, QueueFor(c), d.staging)
    ensures var frames := d.control + Q.FramesOf(c.channels.kinds, d.staging.staged);
            && AllEncodable(c.channels.kinds, frames) && d.staging.body == Body(c.channels.kinds, frames)
            && (frames == [] <==> d.control == [] && d.staging.staged == [])
  {
    hide Encodable, Body, C.FrameOf, QueueFor;
    TP.FramesEncodable(c.channels.kinds, d.control, d.staging.staged);
  }

  /** What polling is to the acknowledgements owed. */
  lemma PollEvent(c: Conn, clock: nat, now: nat)
    requires I.Valid(c, clock) && clock <= now < U64_MAX
    ensures Transmittable(c) && B.Consistent(c.budget)
    ensures var e := Polling(c, now);
            && PollTransmit(c, now).conn.acks == Next(c.acks, e)
            && (e.SentAlone? ==> Due(c.acks.Deadline(), now))
  {
    hide I.Valid, PollTransmit, Parse, Transmittable, B.Consistent;
    ElicitingIffTracked(c, clock, now);
  }

  lemma CommittedAcks(c: Conn, now: nat, d: Draft)
    requires Shaped(c) && C.AllSendable(c.channels.kinds, d.staging.staged)
    ensures Committed(c, now, d).conn.acks == c.acks.Sent(now, d.control != [] || d.staging.staged != [])
  {
    hide ApplyNotes, Sealed, C.Committed, C.RecordOf, B.Advance, B.OnSent, HeaderLen;
  }

  /** What a datagram is to the acknowledgements owed: an arrival worth one exactly when it is
  processed and carries frames. */
  lemma DatagramEvent(c: Conn, now: nat, from: nat, d: Datagram, token: nat)
    requires Shaped(c) && HeaderShaped(d.header)
    ensures HandleDatagram(c, now, from, d, token).conn.acks == Next(c.acks, Hearing(c, now, from, d, token))
  {
    hide HandleAck, Parse, ReadFrames;
    var s := SequenceOf(c.crypto, d.header);
    if s.Some? {
      var c1 := c.(crypto := c.crypto.(replay := c.crypto.replay.Inserted(s.value)), lastReceived := now);
      HandleAckKeeps(c1, now, d.header);
      ParseEncodable(c.channels.kinds, d.sealed.body, 0);
      ReadFramesAcks(HandleAck(c1, now, d.header), now, Parse(c.channels.kinds, d.sealed.body, 0).frames);
    }
  }

  lemma {:induction false} ReadFramesAcks(c: Conn, now: nat, frames: seq<Frame>)
    requires Shaped(c) && AllEncodable(c.channels.kinds, frames)
    ensures ReadFrames(c, now, frames).conn.acks == c.acks
  {
    hide C.Receive, Encodable;
    if frames != [] {
      ReadFramesAcks(c, now, frames[..|frames| - 1]);
    }
  }

  // ----- Every run of a connection -----

  /** What an operation is to the acknowledgements owed: a packet sent with frames or without, a
  packet processed that carried frames, or nothing. */
  ghost function EventOf(t: Timed, op: Op): AckEvent
    requires Allowed(t, op)
  {
    match op
    case Poll(now) => Polling(t.conn, now)
    case Hear(now, from, d, token) => Hearing(t.conn, now, from, d, token)
    case Expire(now) => Quiet(now)
    case _ => Quiet(t.clock)
  }

  ghost function Events(ts: seq<Timed>, ops: seq<Op>): (es: seq<AckEvent>)
    requires IsRun(ts, ops)
    ensures |es| == |ops|
  {
    seq(|ops|, k requires 0 <= k < |ops| => EventOf(ts[k], ops[k]))
  }

  lemma EventTime(t: Timed, op: Op)
    requires Allowed(t, op)
    ensures t.clock <= EventOf(t, op).at <= Stepped(t, op).clock
  {
    hide PollTransmit, HandleDatagram, HandleTimeout, Parse, Transmittable, C.Send;
  }

  lemma StepEvent(t: Timed, op: Op)
    requires I.Valid(t.conn, t.clock) && Allowed(t, op)
    ensures Stepped(t, op).conn.acks == Next(t.conn.acks, EventOf(t, op))
    ensures EventOf(t, op).SentAlone? ==> Due(t.conn.acks.Deadline(), EventOf(t, op).at)
  {
    hide I.Valid, PollTransmit, HandleDatagram, Transmittable, C.Send, L.OnTimeout, ApplyNotes, Polling, Hearing;
    match op
    case Poll(now) =>
      PollEvent(t.conn, t.clock, now);
      PollingAt(t.conn, now);
    case Hear(now, from, d, token) =>
      DatagramEvent(t.conn, now, from, d, token);
      HearingNotAlone(t.conn, now, from, d, token);
    case _ =>
  }

  lemma PollingAt(c: Conn, now: nat)
    requires Transmittable(c) && B.Consistent(c.budget)
    ensures Polling(c, now).at == now
  {
    hide PollTransmit, Parse;
  }

  lemma HearingNotAlone(c: Conn, now: nat, from: nat, d: Datagram, token: nat)
    requires Shaped(c) && HeaderShaped(d.header)
    ensures !Hearing(c, now, from, d, token).SentAlone?
  {
    hide HandleDatagram, Parse;
  }

  /** Along every run the connection stays valid, and what it owes is what its events add up to. */
  lemma {:induction false} RunEvents(ts: seq<Timed>, ops: seq<Op>, n: nat)
    requires IsRun(ts, ops) && n <= |ops| && I.Valid(ts[0].conn, ts[0].clock)
    ensures I.Valid(ts[n].conn, ts[n].clock)
    ensures ts[n].conn.acks == After(ts[0].conn.acks, Events(ts, ops)[..n])
    ensures forall k | 0 <= k < n :: Events(ts, ops)[k].at <= ts[n].clock
    decreases n
  {
    hide I.Valid, Stepped, Allowed, EventOf;
    if n > 0 {
      RunEvents(ts, ops, n - 1);
      StepValid(ts[n - 1], ops[n - 1]);
      EventTime(ts[n - 1], ops[n - 1]);
      StepEvent(ts[n - 1], ops[n - 1]);
      var es := Events(ts, ops);
      assert es[..n][..n - 1] == es[..n - 1] && es[..n][n - 1] == es[n - 1];
    }
  }

  /** Over every run of a fresh connection, whatever is done to it and whatever arrives: the
  packets it sends that carry only an acknowledgement never outnumber the packets it processed
  that carried frames, and any two of them are at least the acknowledgement delay apart. */
  lemma PacedOverRuns(now: nat, role: Role, addr: nat, kinds: Kinds, cfg: Config, ts: seq<Timed>, ops: seq<Op>)
    requires ConfigValid(cfg) && IsRun(ts, ops) && ts[0] == Timed(New(now, role, addr, kinds, cfg), now)
    ensures Alone(Events(ts, ops)) <= Arrived(Events(ts, ops))
    ensures forall i, j | 0 <= i < j < |ops|
                          && EventOf(ts[i], ops[i]).SentAlone? && EventOf(ts[j], ops[j]).SentAlone? ::
              EventOf(ts[j], ops[j]).at >= SatAdd(EventOf(ts[i], ops[i]).at, cfg.maxAckDelay)
  {
    hide I.Valid, Stepped, Allowed, EventOf, After;
    I.NewValid(now, role, addr, kinds, cfg);
    var es, a := Events(ts, ops), ts[0].conn.acks;
    forall k | 0 <= k < |es| && es[k].SentAlone?
      ensures Due(After(a, es[..k]).Deadline(), es[k].at)
    {
      RunEvents(ts, ops, k);
      StepEvent(ts[k], ops[k]);
    }
    forall j, k | 0 <= j < k < |es|
      ensures es[j].at <= es[k].at
    {
      RunEvents(ts, ops, k);
      EventTime(ts[k], ops[k]);
    }
    AloneApart(a, es);
    assert forall i | 0 <= i < |ops| :: es[i] == EventOf(ts[i], ops[i]);
  }

  // ----- What is owed -----

  /** The arrivals since the last packet sent. */
  function Unanswered(es: seq<AckEvent>): (u: seq<AckEvent>)
    ensures forall i | 0 <= i < |u| :: u[i].Received?
  {
    if es == [] then []
    else
      var init, e := Unanswered(es[..|es| - 1]), es[|es| - 1];
      match e
      case Received(_, _) => init + [e]
      case Quiet(_) => init
      case _ => []
  }

  /** An acknowledgement is owed exactly when something arrived since the last packet sent: at once if any
  of it came out of order, and otherwise held since the first. */
  lemma {:induction false} OwedExact(a: Acks, es: seq<AckEvent>)
    requires a.owed.Nothing?
    ensures var u := Unanswered(es);
            After(a, es).owed == if u == [] then Nothing
                                 else if forall i | 0 <= i < |u| :: u[i].inOrder then HeldSince(u[0].at)
                                 else AtOnce
  {
    if es != [] {
      var n := |es| - 1;
      OwedExact(a, es[..n]);
      var u := Unanswered(es[..n]);
      if es[n].Received? {
        assert Unanswered(es)[|u|] == es[n] && Unanswered(es)[..|u|] == u;
        assert (forall i | 0 <= i < |u| + 1 :: Unanswered(es)[i].inOrder)
               <==> (forall i | 0 <= i < |u| :: u[i].inOrder) && es[n].inOrder;
      }
    }
  }

  /** And so over every run of a fresh connection. */
  lemma OwedOverRuns(now: nat, role: Role, addr: nat, kinds: Kinds, cfg: Config, ts: seq<Timed>, ops: seq<Op>, n: nat)
    requires ConfigValid(cfg) && IsRun(ts, ops) && ts[0] == Timed(New(now, role, addr, kinds, cfg), now) && n <= |ops|
    ensures var u := Unanswered(Events(ts, ops)[..n]);
            ts[n].conn.acks.owed == if u == [] then Nothing
                                    else if forall i | 0 <= i < |u| :: u[i].inOrder then HeldSince(u[0].at)
                                    else AtOnce
  {
    hide I.Valid, Stepped, Allowed, EventOf, After, Unanswered;
    I.NewValid(now, role, addr, kinds, cfg);
    RunEvents(ts, ops, n);
    OwedExact(ts[0].conn.acks, Events(ts, ops)[..n]);
  }

  /** The delay a header reports, as the peer reads it: to the quarter millisecond below, and past what
  the code can say not at all. */
  lemma DelayRoundTrip(delay: nat)
    ensures DecodeAckDelay(EncodeAckDelay(delay))
            == if delay < 63_750_000 then Some(delay - delay % 250_000) else None
  {
  }
}
