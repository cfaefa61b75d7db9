/** What a datagram does to a connection, said of the frames in it: which datagrams are taken up at
all, what each frame means to either role, and when the peer's address changes. */
module Reception {
  import opened Machine
  import opened Sequences
  import opened Frames
  import opened Connection
  import opened ConnectionRuns
  import B = Budget
  import C = Channels
  import L = Ledger
  import P = PacketReading

  // ----- The frames of a packet -----

  /** A frame that only the other role may send. */
  predicate Foreign(role: Role, f: Frame) {
    match role
    case Client(_) => f.PathResponse?
    case Server(_) => f.PathChallenge? || f.ResumeTicket? || f.Accepted?
  }

  predicate NoneForeign(role: Role, frames: seq<Frame>) {
    forall i | 0 <= i < |frames| :: !Foreign(role, frames[i])
  }

  predicate Closes(frames: seq<Frame>) { exists i :: 0 <= i < |frames| && frames[i].Close? }

  /** The response to the challenge outstanding is among the frames. */
  predicate Proves(role: Role, frames: seq<Frame>) {
    role.Server? && role.probe.Some? && PathResponse(role.probe.value.token) in frames
  }

  /** The challenge to be answered: the last one. */
  function LastChallenge(frames: seq<Frame>): Option<nat> {
    if frames == [] then None
    else
      var f := frames[|frames| - 1];
      if f.PathChallenge? then Some(f.token) else LastChallenge(frames[..|frames| - 1])
  }

  /** The ticket to be kept: the last one. */
  function LastTicket(frames: seq<Frame>): Option<Bytes> {
    if frames == [] then None
    else
      var f := frames[|frames| - 1];
      if f.ResumeTicket? then Some(f.blob) else LastTicket(frames[..|frames| - 1])
  }

  /** The channels once the messages among the frames are received, in order, up to one refused. */
  function Messages(c: C.Channels, frames: seq<Frame>): (r: C.Received)
    requires C.Sized(c) && AllEncodable(c.kinds, frames)
    ensures C.Sized(r.channels) && r.channels.kinds == c.kinds
  {
    if frames == [] then C.Received(c, [], true)
    else
      var init, f := Messages(c, frames[..|frames| - 1]), frames[|frames| - 1];
      if !init.ok || !f.Message? then init
      else
        P.ReceiveShape(init.channels, f.channel, f.id, f.payload);
        var last := C.Receive(init.channels, f.channel, f.id, f.payload);
        C.Received(last.channels, init.delivered + last.delivered, last.ok)
  }

  function Or<T>(a: Option<T>, b: Option<T>): Option<T> { if a.Some? then a else b }

  /** What the frames of a packet come to, all read. */
  ghost predicate AllRead(c: Conn, now: nat, frames: seq<Frame>, r: Conn)
    requires C.Sized(c.channels) && AllEncodable(c.channels.kinds, frames)
  {
    var proved := Proves(c.role, frames);
    && r.lifecycle == (if Closes(frames) then Closed else c.lifecycle)
    && r.addr == (if proved then c.role.probe.value.addr else c.addr)
    && r.role == (match c.role
                  case Client(ticket) => Client(Or(LastTicket(frames), ticket))
                  case Server(probe) => if proved then Server(None) else c.role)
    && r.control == c.control.(response := Or(LastChallenge(frames), c.control.response))
    && r.channels == Messages(c.channels, frames).channels
    && r.delivery == (if proved then c.delivery.(rtt := None, backoff := 0) else c.delivery)
    && r.budget == (if proved then B.OnPathChange(c.budget, now) else c.budget)
    && r == c.(lifecycle := r.lifecycle, addr := r.addr, role := r.role, control := r.control,
               channels := r.channels, delivery := r.delivery, budget := r.budget, events := r.events)
  }

  lemma ReadStep(c: Conn, now: nat, frames: seq<Frame>, m: Conn, f: Frame)
    requires Shaped(c) && AllEncodable(c.channels.kinds, frames + [f])
    requires AllEncodable(c.channels.kinds, frames) && AllRead(c, now, frames, m) && Messages(c.channels, frames).ok
    ensures Shaped(m) && Encodable(m.channels.kinds, f)
    ensures var r, more := ReadFrame(m, now, f), Messages(c.channels, frames + [f]);
            && (r.ok <==> !Foreign(c.role, f) && more.ok)
            && (r.ok ==> AllRead(c, now, frames + [f], r.conn))
            && (r.ok ==> more.delivered == Messages(c.channels, frames).delivered + r.delivered)
  {
    hide Encodable, C.Receive, B.OnPathChange, Push;
    var all := frames + [f];
    assert all[..|frames|] == frames && all[|frames|] == f;
    assert Closes(all) <==> Closes(frames) || f.Close?;
    assert Proves(c.role, all) <==>
             || Proves(c.role, frames)
             || (c.role.Server? && c.role.probe.Some? && f == PathResponse(c.role.probe.value.token));
  }

  /** A packet is read to its end exactly when no frame is the other role's and no message is refused,
  and then does exactly what its frames say. */
  lemma {:induction false} ReadExact(c: Conn, now: nat, frames: seq<Frame>)
    requires Shaped(c) && AllEncodable(c.channels.kinds, frames)
    ensures var r, all := ReadFrames(c, now, frames), Messages(c.channels, frames);
            && (r.ok <==> NoneForeign(c.role, frames) && all.ok)
            && (r.ok ==> AllRead(c, now, frames, r.conn) && r.delivered == all.delivered)
  {
    hide Encodable, ReadFrame, AllRead;
    if frames == [] {
      ReadNone(c, now);
    } else {
      var n := |frames| - 1;
      ReadExact(c, now, frames[..n]);
      assert frames == frames[..n] + [frames[n]];
      var init := ReadFrames(c, now, frames[..n]);
      if init.ok {
        ReadStep(c, now, frames[..n], init.conn, frames[n]);
      }
    }
  }

  lemma ReadNone(c: Conn, now: nat)
    requires Shaped(c)
    ensures AllRead(c, now, [], c)
  {
  }

  /** Read to its end or not, a packet moves the peer only by proving the new address. */
  lemma {:induction false} ReadMoves(c: Conn, now: nat, frames: seq<Frame>)
    requires Shaped(c) && AllEncodable(c.channels.kinds, frames)
    ensures var r := ReadFrames(c, now, frames).conn;
            && r.lastReceived == c.lastReceived && r.crypto == c.crypto && r.acks == c.acks
            && (c.role.Client? ==> r.role.Client? && r.addr == c.addr)
            && (c.role.Server? ==>
                  || (r.role == c.role && r.addr == c.addr)
                  || (Proves(c.role, frames) && r.role == Server(None) && r.addr == c.role.probe.value.addr))
            && (r.lifecycle == c.lifecycle || r.lifecycle.Closed?)
  {
    hide Encodable, Push, B.OnPathChange, C.Receive;
    if frames != [] {
      var n := |frames| - 1;
      ReadMoves(c, now, frames[..n]);
      assert frames == frames[..n] + [frames[n]];
    }
  }

  // ----- What the application hears of it -----

  /** What the frames of a packet give the application to know. */
  function Happened(role: Role, frames: seq<Frame>): seq<Event> {
    if frames == [] then []
    else
      var init, f := frames[..|frames| - 1], frames[|frames| - 1];
      Happened(role, init)
      + (if f.Close? then [ClosedEvent(f.reason)]
         else if f.ResumeTicket? then [ResumeTicketReceived]
         else if Proves(role, [f]) && !Proves(role, init) then [Migrated(role.probe.value.addr)]
         else [])
  }

  /** The last sixteen. */
  function Latest(events: seq<Event>): seq<Event> { if |events| <= 16 then events else events[|events| - 16..] }

  lemma PushLatest(events: seq<Event>, e: Event)
    ensures Push(Latest(events), e) == Latest(events + [e])
  {
  }

  /** Events come in the order of their frames, and of more than sixteen the last are kept. */
  lemma {:induction false} HappensExact(c: Conn, now: nat, frames: seq<Frame>)
    requires Shaped(c) && AllEncodable(c.channels.kinds, frames) && |c.events| <= 16
    requires ReadFrames(c, now, frames).ok
    ensures ReadFrames(c, now, frames).conn.events == Latest(c.events + Happened(c.role, frames))
  {
    hide Encodable, AllRead, ReadFrame, Push, Latest, Messages, Proves;
    if frames == [] {
      assert c.events + [] == c.events == Latest(c.events) by { FewLatest(c.events); }
    } else {
      var n := |frames| - 1;
      var init, f := ReadFrames(c, now, frames[..n]), frames[n];
      HappensExact(c, now, frames[..n]);
      ReadExact(c, now, frames[..n]);
      FrameHappens(c, now, frames[..n], init.conn, f);
      assert c.events + Happened(c.role, frames)
             == c.events + Happened(c.role, frames[..n]) + Happened(c.role, frames)[|Happened(c.role, frames[..n])|..];
    }
  }

  lemma FewLatest(events: seq<Event>)
    requires |events| <= 16
    ensures Latest(events) == events
  {
  }

  lemma FrameHappens(c: Conn, now: nat, init: seq<Frame>, m: Conn, f: Frame)
    requires Shaped(c) && AllEncodable(c.channels.kinds, init) && AllRead(c, now, init, m)
    requires Shaped(m) && Encodable(m.channels.kinds, f) && ReadFrame(m, now, f).ok
    requires m.events == Latest(c.events + Happened(c.role, init))
    ensures ReadFrame(m, now, f).conn.events == Latest(c.events + Happened(c.role, init + [f]))
  {
    hide Encodable, C.Receive, B.OnPathChange, Push, Latest, Messages;
    var before, all := c.events + Happened(c.role, init), init + [f];
    assert all[..|init|] == init;
    if f.Close? {
      PushLatest(before, ClosedEvent(f.reason));
      assert before + [ClosedEvent(f.reason)] == c.events + Happened(c.role, all);
    } else if f.ResumeTicket? {
      PushLatest(before, ResumeTicketReceived);
      assert before + [ResumeTicketReceived] == c.events + Happened(c.role, all);
    } else if Proves(c.role, [f]) && !Proves(c.role, init) {
      PushLatest(before, Migrated(c.role.probe.value.addr));
      assert before + [Migrated(c.role.probe.value.addr)] == c.events + Happened(c.role, all);
    } else {
      assert Happened(c.role, all) == Happened(c.role, init);
      assert f.PathResponse? && c.role.Server? && c.role.probe.Some? && f.token == c.role.probe.value.token
             ==> Proves(c.role, [f]);
    }
  }

  // ----- Which datagrams are taken up -----

  /** A datagram counts when it is what was sealed, its sixteen sequence bits say which packet it is, and
  that packet was not opened before and is not 64 or more behind the newest. `unsealed` is every
  sequence opened so far. */
  ghost predicate TakenUp(c: Conn, d: Datagram, unsealed: set<nat>) {
    var q, newest := d.sealed.sequence, c.crypto.replay.newest;
    && !c.lifecycle.Closed? && d.sealed.header == d.header
    && 1 <= q <= U64_MAX && q % 0x1_0000 == d.header.sequence && -0x8000 <= q - newest < 0x8000
    && q !in unsealed && newest < q + 64
  }

  /** The connection once a packet is opened and its acknowledgements have been applied. */
  function Opened(c: Conn, now: nat, d: Datagram): (r: Conn)
    requires Shaped(c) && HeaderShaped(d.header)
    ensures Shaped(r) && r.channels.kinds == c.channels.kinds
  {
    var c1 := c.(crypto := c.crypto.(replay := c.crypto.replay.Inserted(d.sealed.sequence)), lastReceived := now);
    HandleAckKeeps(c1, now, d.header);
    HandleAck(c1, now, d.header)
  }

  /** Everything that is not taken up changes nothing and delivers nothing. */
  lemma TakenUpExact(c: Conn, now: nat, from: nat, d: Datagram, token: nat, unsealed: set<nat>)
    requires Shaped(c) && HeaderShaped(d.header) && c.crypto.replay.Refines(unsealed)
    ensures var r, newest := HandleDatagram(c, now, from, d, token), c.crypto.replay.newest;
            && (r.outcome.Processed? || r.outcome.BadPayload? <==> TakenUp(c, d, unsealed))
            && (!TakenUp(c, d, unsealed) ==> r.conn == c && r.delivered == [])
            && (TakenUp(c, d, unsealed) ==>
                  r == HandleBody(c.(crypto := c.crypto.(replay := c.crypto.replay.Inserted(d.sealed.sequence))), now,
                                  from, d, d.sealed.sequence, newest == 0 || d.sealed.sequence == newest + 1, token))
            && (TakenUp(c, d, unsealed) ==>
                  c.crypto.replay.Inserted(d.sealed.sequence).Refines(unsealed + {d.sealed.sequence}))
  {
    hide HandleBody, Reconstruct, Window.Check, Window.Inserted, Window.Refines;
    var q, newest := d.sealed.sequence, c.crypto.replay.newest;
    ReconstructNear(newest, d.header.sequence);
    ReconstructWithin(newest, d.header.sequence);
    BodyOutcome(c, now, from, d, token);
    if 1 <= q <= U64_MAX {
      ReconstructExact(newest, q);
      CheckExact(c.crypto.replay, unsealed, q);
      InsertRefines(c.crypto.replay, unsealed, q);
    }
  }

  lemma BodyOutcome(c: Conn, now: nat, from: nat, d: Datagram, token: nat)
    requires Shaped(c) && HeaderShaped(d.header)
    ensures forall c1, q, inOrder | Shaped(c1) ::
              HandleBody(c1, now, from, d, q, inOrder, token).outcome in {Processed, BadPayload}
  {
    hide HandleAck, Parse, ReadFrames;
  }

  lemma ReconstructWithin(reference: nat, wire: nat)
    requires wire < WIRE
    ensures Reconstruct(reference, wire).Some? ==> Reconstruct(reference, wire).value <= U64_MAX
  {
  }

  // ----- What one does -----

  /** The acknowledgement owed after a packet with frames: at once if it came out of order. */
  function Owed(owed: AckOwed, now: nat, inOrder: bool): AckOwed {
    if !inOrder then AtOnce else if owed.Nothing? then HeldSince(now) else owed
  }

  /** Whether a packet from `from` has the server, whose peer is at `addr`, challenge that address: it is
  neither the peer's nor the one challenged already. */
  predicate Asks(probe: Option<Probe>, addr: nat, from: nat) {
    from != addr && !(probe.Some? && probe.value.addr == from)
  }

  /** A packet read to its end. */
  ghost predicate Heard(c: Conn, now: nat, from: nat, d: Datagram, token: nat, frames: seq<Frame>, read: set<nat>,
                        r: Conn)
  {
    var q, newest := d.sealed.sequence, c.crypto.replay.newest;
    var proved := Proves(c.role, frames);
    && r.lastReceived == now
    && r.lifecycle == (if Closes(frames) then Closed else c.lifecycle)
    && r.acks.owed == (if frames == [] then c.acks.owed else Owed(c.acks.owed, now, newest == 0 || q == newest + 1))
    && r.crypto.acked.Refines(if frames == [] then read else read + {q})
    && r.crypto.newestAckedAt == (if frames != [] && forall s | s in read :: s < q then now else c.crypto.newestAckedAt)
    && r.addr == (if proved then c.role.probe.value.addr else c.addr)
    && match c.role
       case Client(ticket) =>
         && r.role == Client(Or(LastTicket(frames), ticket))
         && r.control == c.control.(response := Or(LastChallenge(frames), c.control.response))
       case Server(probe) =>
         var left := if proved then None else probe;
         var asks := Asks(left, r.addr, from);
         && r.role == Server(if asks then Some(Probe(from, token, now)) else left)
         && r.control == c.control.(challenge := if asks then Some(token) else c.control.challenge,
                                    response := Or(LastChallenge(frames), c.control.response))
  }

  /** A packet taken up is either read to its end, when its frames all parse, are none of them the other
  role's and no message is refused; or the connection is closing for a protocol violation. */
  lemma HeardExact(c: Conn, now: nat, from: nat, d: Datagram, token: nat, unsealed: set<nat>, read: set<nat>)
    requires Shaped(c) && HeaderShaped(d.header) && c.crypto.replay.Refines(unsealed) && c.crypto.acked.Refines(read)
    requires TakenUp(c, d, unsealed)
    ensures AllEncodable(c.channels.kinds, Parse(c.channels.kinds, d.sealed.body, 0).frames)
    ensures var parsed := Parse(c.channels.kinds, d.sealed.body, 0);
            var r, all := HandleDatagram(c, now, from, d, token), Messages(Opened(c, now, d).channels, parsed.frames);
            && (r.outcome.Processed? <==> parsed.ok && NoneForeign(c.role, parsed.frames) && all.ok)
            && (r.outcome.Processed? ==>
                  && Heard(c, now, from, d, token, parsed.frames, read, r.conn) && r.delivered == all.delivered)
            && (r.outcome.BadPayload? ==>
                  && r.conn.acks == c.acks && r.conn.crypto.acked == c.crypto.acked
                  && (c.lifecycle.Open? ==> r.conn.lifecycle in {Closed, Closing(2, 3)}))
  {
    hide Encodable, HandleAck, Parse, ReadFrames, HandleDatagram, Window.Inserted, Window.Refines, TakenUp,
         B.OnPathChange, Messages, Closes, Proves, LastTicket, LastChallenge, NoneForeign;
    var parsed, q := Parse(c.channels.kinds, d.sealed.body, 0), d.sealed.sequence;
    ParseEncodable(c.channels.kinds, d.sealed.body, 0);
    TakenUpExact(c, now, from, d, token, unsealed);
    var c1 := c.(crypto := c.crypto.(replay := c.crypto.replay.Inserted(q)), lastReceived := now);
    HandleAckKeeps(c1, now, d.header);
    ReadExact(Opened(c, now, d), now, parsed.frames);
    ReadMoves(Opened(c, now, d), now, parsed.frames);
    assert q >= 1 by { TakenUpReal(c, d, unsealed); }
    InsertRefines(c.crypto.acked, read, q);
    NewestOf(c.crypto.acked, read, q);
  }

  lemma NewestOf(w: Window, seen: set<nat>, q: nat)
    requires w.Refines(seen) && q >= 1
    ensures q > w.newest <==> forall s | s in seen :: s < q
  {
  }

  lemma TakenUpReal(c: Conn, d: Datagram, unsealed: set<nat>)
    requires TakenUp(c, d, unsealed)
    ensures d.sealed.sequence >= 1
  {
  }

  /** What a packet says in its header: its own number, the newest packet with frames that was read, which of
  the 32 before it were, and how long ago that one came; or, when none was, nothing of the kind. */
  lemma HeaderReports(c: Conn, now: nat, read: set<nat>)
    requires c.crypto.acked.Refines(read) && c.crypto.newestAckedAt <= now
    ensures var h, newest, age := BuildHeader(c, now), c.crypto.acked.newest, now - c.crypto.newestAckedAt;
            && h.sequence == c.crypto.nextSequence % 0x1_0000 && |h.ackBits| == 32
            && (h.ack.None? <==> read == {})
            && (read != {} ==>
                  && h.ack == Some(newest % 0x1_0000) && newest in read && (forall s | s in read :: s <= newest)
                  && (forall i: nat | i < 32 :: h.ackBits[i] <==> i + 1 < newest && newest - 1 - i in read)
                  && DecodeAckDelay(h.ackDelay) == if age < 63_750_000 then Some(age - age % 250_000) else None)
  {
    var w := c.crypto.acked;
    if w.newest == 0 {
      assert read == {} by { assert forall s | s in read :: 1 <= s <= 0; }
    } else {
      forall i: nat | i < 32
        ensures w.AckBits()[i] <==> i + 1 < w.newest && w.newest - 1 - i in read
      {
        AckBitsExact(w, read, i);
      }
    }
  }

  // ----- What outcomes are to the rate -----

  function Losses(notes: seq<L.Note<Record>>): nat {
    if notes == [] then 0 else Losses(notes[..|notes| - 1]) + if notes[|notes| - 1].what.Lost? then 1 else 0
  }

  function Withdrawn(notes: seq<L.Note<Record>>): nat {
    if notes == [] then 0 else Withdrawn(notes[..|notes| - 1]) + if notes[|notes| - 1].what.Spurious? then 1 else 0
  }

  /** The losses counted against the rate are those reported, less those that turned out not to be; nothing
  else of the budget changes. Counts neither run over nor are withdrawn before they are made. */
  lemma {:induction false} LossesCounted(a: Applied, notes: seq<L.Note<Record>>)
    requires a.budget.windowLost + Losses(notes) <= U32_MAX
    requires forall k | 0 <= k <= |notes| :: Withdrawn(notes[..k]) <= a.budget.windowLost + Losses(notes[..k])
    ensures Withdrawn(notes) <= a.budget.windowLost + Losses(notes)
    ensures ApplyNotes(a, notes).budget
            == a.budget.(windowLost := a.budget.windowLost + Losses(notes) - Withdrawn(notes))
  {
    hide C.ReleasedAll, C.MarkedLostAll;
    assert notes[..|notes|] == notes;
    if notes != [] {
      var n := |notes| - 1;
      forall k | 0 <= k <= n
        ensures notes[..n][..k] == notes[..k]
      {
      }
      LossesCounted(a, notes[..n]);
    }
  }

  // ----- The peer's address over runs -----

  /** The frames of the datagram an operation hears. */
  function FramesIn(kinds: Kinds, op: Op): seq<Frame>
    requires op.Hear?
  {
    Parse(kinds, op.d.sealed.body, 0).frames
  }

  /** An operation that had an address challenged. */
  ghost predicate Challenges(t: Timed, op: Op, p: Probe) {
    && op.Hear? && Allowed(t, op) && op.from == p.addr && op.token == p.token && op.now == p.started
    && HandleDatagram(t.conn, op.now, op.from, op.d, op.token).outcome.Processed?
  }

  lemma HearMoves(c: Conn, now: nat, from: nat, d: Datagram, token: nat)
    requires Shaped(c) && HeaderShaped(d.header)
    ensures var r, frames := HandleDatagram(c, now, from, d, token), Parse(c.channels.kinds, d.sealed.body, 0).frames;
            && (r.conn.addr != c.addr ==> Proves(c.role, frames) && r.conn.addr == c.role.probe.value.addr)
            && (r.conn.role.Server? && r.conn.role.probe.Some? ==>
                  || r.conn.role == c.role
                  || (r.outcome.Processed? && c.role.Server? && r.conn.role.probe.value == Probe(from, token, now)))
            && r.conn.channels.kinds == c.channels.kinds
  {
    hide Encodable, HandleAck, Parse, ReadFrames, Window.Inserted, Proves;
    var s := SequenceOf(c.crypto, d.header);
    if s.Some? {
      var c1 := c.(crypto := c.crypto.(replay := c.crypto.replay.Inserted(s.value)), lastReceived := now);
      HandleAckKeeps(c1, now, d.header);
      ParseEncodable(c.channels.kinds, d.sealed.body, 0);
      ReadMoves(HandleAck(c1, now, d.header), now, Parse(c.channels.kinds, d.sealed.body, 0).frames);
    }
  }

  lemma PollStays(c: Conn, now: nat)
    requires Shaped(c) && Transmittable(c) && B.Consistent(c.budget)
    ensures var r := PollTransmit(c, now).conn;
            r.addr == c.addr && r.role == c.role && r.channels.kinds == c.channels.kinds
  {
    hide TransmitAt, B.Assess, WriteControl, C.Fill, BuildHeader, B.Advance, Transmittable, B.Consistent;
  }

  lemma TimeoutStays(c: Conn, now: nat)
    requires Shaped(c)
    ensures var r := HandleTimeout(c, now);
            && r.addr == c.addr && r.channels.kinds == c.channels.kinds
            && (r.role == c.role || (c.role.Server? && r.role == Server(None)))
  {
    hide L.OnTimeout, ApplyNotes, Push;
  }

  /** What a step makes of the address and of the challenge outstanding. */
  lemma StepMoves(t: Timed, op: Op)
    requires Allowed(t, op)
    ensures var u := Stepped(t, op);
            && u.conn.channels.kinds == t.conn.channels.kinds
            && (u.conn.addr != t.conn.addr ==>
                  && op.Hear? && Proves(t.conn.role, FramesIn(t.conn.channels.kinds, op))
                  && u.conn.addr == t.conn.role.probe.value.addr)
            && (u.conn.role.Server? && u.conn.role.probe.Some? ==>
                  u.conn.role == t.conn.role || Challenges(t, op, u.conn.role.probe.value))
  {
    hide PollTransmit, HandleDatagram, HandleTimeout, Parse, Transmittable, C.Send, B.Consistent, Proves;
    match op
    case Poll(now) => PollStays(t.conn, now);
    case Hear(now, from, d, token) => HearMoves(t.conn, now, from, d, token);
    case Expire(now) => TimeoutStays(t.conn, now);
    case Submit(channel, payload) => SendStays(t.conn.channels, channel, payload);
    case _ =>
  }

  lemma SendStays(c: C.Channels, channel: nat, payload: Bytes)
    requires C.Sized(c)
    ensures C.Send(c, channel, payload).channels.kinds == c.kinds
  {
  }

  /** A challenge outstanding was brought on by a packet that came from the address challenged. */
  lemma {:induction false} ChallengeBegun(ts: seq<Timed>, ops: seq<Op>, n: nat) returns (j: nat)
    requires IsRun(ts, ops) && n <= |ops| && ts[0].conn.role == Server(None)
    requires ts[n].conn.role.Server? && ts[n].conn.role.probe.Some?
    ensures j < n && Challenges(ts[j], ops[j], ts[n].conn.role.probe.value)
    decreases n
  {
    hide Stepped, Allowed, Challenges;
    j := n - 1;
    StepMoves(ts[j], ops[j]);
    if ts[n].conn.role == ts[j].conn.role {
      j := ChallengeBegun(ts, ops, j);
    }
  }

  /** Over every run of a server's connection: the peer's address changes only when a packet brings back the
  token of a challenge, and the new address is the one challenged, from which a packet came before. */
  lemma MovesOnlyProved(ts: seq<Timed>, ops: seq<Op>, k: nat) returns (j: nat)
    requires IsRun(ts, ops) && k < |ops| && ts[0].conn.role == Server(None)
    requires ts[k + 1].conn.addr != ts[k].conn.addr
    ensures j < k && ops[j].Hear? && ops[k].Hear?
    ensures Challenges(ts[j], ops[j], Probe(ts[k + 1].conn.addr, ops[j].token, ops[j].now))
    ensures PathResponse(ops[j].token) in FramesIn(ts[k].conn.channels.kinds, ops[k])
  {
    hide Stepped, Allowed, FramesIn;
    StepMoves(ts[k], ops[k]);
    j := ChallengeBegun(ts, ops, k);
  }
}
