/** The server's connections one by one: what each step of the server is to each of them. A live
connection has done nothing but run by itself since it was accepted, so all that holds over runs of
a connection holds of every connection of every reachable server. */
module EndpointConnections {
  import opened Machine
  import opened Frames
  import opened Connection
  import opened Slab
  import opened Endpoint
  import opened EndpointScheduler
  import opened EndpointSessions
  import opened EndpointRuns
  import O = EndpointOwners
  import R = ConnectionRuns
  import I = ConnectionInvariant
  import TP = TwoParty
  import B = Budget
  import C = Channels
  import L = Ledger
  import W = Wire

  type Timed = R.Timed

  /** What the application asks of a connection. */
  function Asked(c: Conn, op: Endpoint.Op): R.Op {
    match op
    case SendOp(channel, payload) => R.Submit(channel, payload)
    case CloseOp(reason) => R.Shut(reason)
    case TicketOp(blob) => R.Owe(c.control.(ticket := Some(blob)))
  }

  /** The response repeats a ticket that made this connection. */
  predicate Repeats(s: Host, st: Step, h: Handle) {
    && st.Respond? && st.cookie.addr == st.from && st.now <= st.cookie.issued + 10 * O.SECOND
    && st.cookie.id in s.redeemed && s.redeemed[st.cookie.id] == Some(h)
  }

  /** The response takes over the session this connection holds. */
  predicate Replaces(s: Host, st: Step, h: Handle) {
    && st.Respond? && O.Entitled(s, st.now, st.from, st.cookie) && st.cookie.ticket.session.Some?
    && var id := st.cookie.ticket.session.value; id in s.sessions && s.sessions[id].state == Attached(h)
  }

  /** What a step of the server is to one of its connections. */
  ghost function OpsFor(s: Host, st: Step, h: Handle): seq<R.Op>
    requires AllShaped(s) && h in s.peers && (st.Payload? ==> HeaderShaped(st.d.header))
  {
    var c := s.peers[h].conn;
    match st
    case Respond(_, _, _, _) =>
      if Repeats(s, st, h) then [R.Owe(c.control.(accepted := true))]
      else if Replaces(s, st, h) then [R.Shut(4)]
      else []
    case Payload(now, from, slot, occupancy, d, token) =>
      if h.index == slot && OccupancyOf(h) == occupancy then
        var outcome := HandleDatagram(c, now, from, d, token).outcome;
        if outcome.Processed? || outcome.BadPayload? then [R.Hear(now, from, d, token), R.TakeEvents] else []
      else []
    case Drain(now) => if s.ready != [] && s.ready[0] == h then [R.Poll(now)] else []
    case Fire(now, slot) =>
      if slot in s.timers && s.timers[slot] <= now && h.index == slot then [R.Expire(now), R.TakeEvents] else []
    case Change(_, k, op) => if k == h then [Asked(c, op)] else []
    case _ => []
  }

  /** What a connection is after these operations. */
  ghost predicate Becomes(t: Timed, ops: seq<R.Op>, c: Conn, clock: nat)
    decreases |ops|
  {
    if ops == [] then t.conn == c && t.clock <= clock
    else R.Allowed(t, ops[0]) && Becomes(R.Stepped(t, ops[0]), ops[1..], c, clock)
  }

  // ----- Each kind of step -----

  lemma ServicedConn(s: Host, h: Handle, c: Conn, k: Handle)
    requires Slotted(s, h) && k in s.peers
    ensures var t := Serviced(s, h, c);
            k in t.peers && t.peers[k].conn == if k == h then c.(events := []) else s.peers[k].conn
  {
    hide LastClosed, LastMigrated;
  }

  lemma RespondedConn(s: Host, st: Step, count: nat, book: nat -> Ticket, k: Handle)
    requires 0 < count <= SHARDS && AllSlotted(s) && Lifetimes(s, count, book) && st.Respond? && k in s.peers
    requires st.chosen.Some? ==> st.chosen.value !in s.peers && st.chosen.value.index < |s.schedules|
    ensures var t, c := Responded(s, st.now, st.from, st.cookie, st.chosen), s.peers[k].conn;
            && k in t.peers
            && t.peers[k].conn == if Repeats(s, st, k) then c.(control := c.control.(accepted := true))
                                  else if Replaces(s, st, k) then RequestClose(c, 4)
                                  else c
  {
    hide Responded, LogOk, Counted, Spent, AllHome, DistinctTickets, QueueOk, New, RequestClose, O.Entitled,
         Established, TakenOver;
    var cookie, h := st.cookie, st.chosen;
    if cookie.id in s.redeemed {
      O.SpentAgain(s, st.now, st.from, cookie, h);
      assert !O.Entitled(s, st.now, st.from, cookie) by { SpentNotEntitled(s, st.now, st.from, cookie); }
    } else if !O.Entitled(s, st.now, st.from, cookie) {
      O.RefusedExact(s, st.now, st.from, cookie, h);
    } else {
      var id := O.Wanted(s, cookie);
      O.EntitledEnough(s, st.now, st.from, cookie, h);
      EstablishedReplaces(s, st.now, st.from, cookie, h);
      if id in s.sessions {
        ResumableKnown(s, count, book, id);
      }
    }
  }

  lemma SpentNotEntitled(s: Host, now: nat, from: nat, cookie: Cookie)
    requires cookie.id in s.redeemed
    ensures !O.Entitled(s, now, from, cookie)
  {
  }

  lemma EstablishedReplaces(s: Host, now: nat, from: nat, cookie: Cookie, h: Option<Handle>)
    requires AllSlotted(s) && (h.Some? ==> h.value !in s.peers && h.value.index < |s.schedules|)
    ensures O.Replaced(s, Established(s, now, from, cookie, h), O.Wanted(s, cookie))
  {
    hide TakenOver, New, RequestClose, Admitted;
    var resumed, id := cookie.ticket.session.Some?, O.Wanted(s, cookie);
    var s0 := if resumed then s else s.(nextSequence := s.nextSequence + 1);
    O.TakenOverExact(s0, id);
    if h.Some? {
      O.AdmittedExact(TakenOver(s0, id), now, from, cookie, id, h.value);
    }
  }

  lemma FiredConn(s: Host, now: nat, slot: nat, k: Handle)
    requires AllSlotted(s) && AllShaped(s) && SlotsOk(s) && k in s.peers
    ensures var t, c := Fired(s, now, slot), s.peers[k].conn;
            && k in t.peers
            && t.peers[k].conn == if slot in s.timers && s.timers[slot] <= now && k.index == slot
                                  then HandleTimeout(c, now).(events := []) else c
  {
    hide Serviced, HandleTimeout;
    if slot in s.timers && s.timers[slot] <= now && At(s, slot).Some? {
      var h := At(s, slot).value;
      ServicedConn(s.(timers := s.timers - {slot}), h, HandleTimeout(s.peers[h].conn, now), k);
    }
  }

  lemma RoutedConn(s: Host, st: Step, k: Handle)
    requires AllSlotted(s) && AllShaped(s) && SlotsOk(s) && k in s.peers && st.Payload? && HeaderShaped(st.d.header)
    ensures var t, c := Routed(s, st.now, st.from, st.slot, st.occupancy, st.d, st.token), s.peers[k].conn;
            var r := HandleDatagram(c, st.now, st.from, st.d, st.token);
            && k in t.peers
            && t.peers[k].conn == if k.index == st.slot && OccupancyOf(k) == st.occupancy
                                     && (r.outcome.Processed? || r.outcome.BadPayload?)
                                  then r.conn.(events := []) else c
  {
    hide Serviced, HandleDatagram, OccupancyOf;
    var h := Found(s, st.slot, st.occupancy);
    if h.Some? {
      ServicedConn(s, h.value, HandleDatagram(s.peers[h.value].conn, st.now, st.from, st.d, st.token).conn, k);
    }
  }

  lemma DrainedConn(s: Host, now: nat, k: Handle)
    requires AllSlotted(s) && k in s.peers
    requires forall h | h in s.peers :: Transmittable(s.peers[h].conn) && B.Consistent(s.peers[h].conn.budget)
    ensures var t, c := Drained(s, now), s.peers[k].conn;
            && k in t.peers
            && t.peers[k].conn == if s.ready != [] && s.ready[0] == k then PollTransmit(c, now).conn else c
  {
    hide PollTransmit, Transmittable, B.Consistent, Rearmed;
    if s.ready != [] && s.ready[0] in s.peers {
      var h := s.ready[0];
      var c := PollTransmit(s.peers[h].conn, now).conn;
      RearmedPeers(WithConn(s.(ready := s.ready[1..]), h, c), h, c);
    }
  }

  lemma RearmedPeers(s: Host, h: Handle, c: Conn)
    requires h.index < |s.schedules|
    ensures Rearmed(s, h, c).peers == s.peers
  {
    hide Deadline;
  }

  lemma ChangedConn(s: Host, h: Handle, op: Endpoint.Op, k: Handle)
    requires AllSlotted(s) && AllShaped(s) && k in s.peers
    ensures var t, c := Changed(s, h, op), s.peers[k].conn;
            k in t.peers && t.peers[k].conn == if k == h then Operated(c, op) else c
  {
    hide Operated;
  }

  lemma ReapedConn(s: Host, now: nat, k: Handle)
    requires AllSlotted(s) && k in s.peers && k in Reaped(s, now).peers
    ensures Reaped(s, now).peers[k] == s.peers[k]
  {
    hide Retired, LastClosed;
    if s.retiring != [] {
      var s1, h := s.(retiring := s.retiring[1..]), s.retiring[0];
      if h in s.peers {
        O.LeavesExact(s1, h, now);
      } else {
        RetiredDead(s1, h, now);
      }
    }
  }

  // ----- Every step -----

  lemma BecomesOne(t: Timed, op: R.Op, c: Conn, clock: nat)
    requires R.Allowed(t, op) && R.Stepped(t, op).conn == c && R.Stepped(t, op).clock <= clock
    ensures Becomes(t, [op], c, clock)
  {
    hide R.Allowed, R.Stepped;
    assert [op][1..] == [];
  }

  /** An operation, and its events taken. */
  lemma BecomesTwo(t: Timed, op: R.Op, c: Conn, clock: nat)
    requires R.Allowed(t, op) && R.Stepped(t, op).conn.(events := []) == c && R.Stepped(t, op).clock <= clock
    requires Shaped(R.Stepped(t, op).conn)
    ensures Becomes(t, [op, R.TakeEvents], c, clock)
  {
    var u := R.Stepped(t, op);
    assert R.Allowed(u, R.TakeEvents) && R.Stepped(u, R.TakeEvents) == R.Timed(c, u.clock);
    hide R.Allowed, R.Stepped;
    BecomesOne(u, R.TakeEvents, c, clock);
    assert [op, R.TakeEvents][1..] == [R.TakeEvents];
  }

  lemma EntitledClockFree(s: Host, now: nat, from: nat, cookie: Cookie)
    ensures O.Entitled(s.(clock := now), now, from, cookie) == O.Entitled(s, now, from, cookie)
  {
  }

  lemma OweAllowed(c: Conn, clock: nat, control: Control)
    requires I.Valid(c, clock) && TP.ControlOk(control)
    ensures R.Allowed(R.Timed(c, clock), R.Owe(control))
    ensures R.Stepped(R.Timed(c, clock), R.Owe(control)) == R.Timed(c.(control := control), clock)
    ensures TP.ControlOk(c.control) && Shaped(c)
  {
    hide L.Valid, I.QueueValid, I.NoneStranded, B.Consistent;
    I.ValidShaped(c, clock);
  }

  lemma RespondProjects(s: Host, st: Step, count: nat, book: nat -> Ticket, h: Handle)
    requires 0 < count <= SHARDS && PeersOk(s) && Lifetimes(s, count, book) && Allowed(s, st, count, book)
    requires AllSlotted(s) && AllShaped(s) && h in s.peers && st.Respond?
    ensures var t := Responded(s.(clock := st.now), st.now, st.from, st.cookie, st.chosen);
            && h in t.peers
            && Becomes(R.Timed(s.peers[h].conn, s.clock), OpsFor(s, st, h), t.peers[h].conn, st.now)
  {
    hide Responded, Lifetimes, Home, I.Valid, O.Entitled, Becomes, R.Allowed, R.Stepped, RequestClose, TP.ControlOk;
    var u, c := s.(clock := st.now), s.peers[h].conn;
    LaterLifetimes(s, st.now, count, book);
    RespondedConn(u, st, count, book, h);
    EntitledClockFree(s, st.now, st.from, st.cookie);
    if Repeats(s, st, h) {
      OwesAgain(c, s.clock, st.now);
    } else if Replaces(s, st, h) {
      Shuts(c, s.clock, 4, st.now);
    } else {
      BecomesSelf(c, s.clock, st.now);
    }
  }

  lemma BecomesSelf(c: Conn, clock: nat, now: nat)
    requires clock <= now
    ensures Becomes(R.Timed(c, clock), [], c, now)
  {
  }

  lemma OwesAgain(c: Conn, clock: nat, now: nat)
    requires I.Valid(c, clock) && clock <= now
    ensures var control := c.control.(accepted := true);
            Becomes(R.Timed(c, clock), [R.Owe(control)], c.(control := control), now)
  {
    hide I.Valid, R.Allowed, R.Stepped, Becomes;
    OweAllowed(c, clock, NO_CONTROL);
    var control := c.control.(accepted := true);
    OweAllowed(c, clock, control);
    BecomesOne(R.Timed(c, clock), R.Owe(control), c.(control := control), now);
  }

  lemma OwesTicket(c: Conn, clock: nat, blob: Bytes, now: nat)
    requires I.Valid(c, clock) && clock <= now && |blob| <= MAX_BLOB
    ensures var control := c.control.(ticket := Some(blob));
            Becomes(R.Timed(c, clock), [R.Owe(control)], c.(control := control), now)
  {
    hide I.Valid, R.Allowed, R.Stepped, Becomes;
    OweAllowed(c, clock, NO_CONTROL);
    var control := c.control.(ticket := Some(blob));
    OweAllowed(c, clock, control);
    BecomesOne(R.Timed(c, clock), R.Owe(control), c.(control := control), now);
  }

  lemma Shuts(c: Conn, clock: nat, reason: nat, now: nat)
    requires I.Valid(c, clock) && clock <= now && reason < REASONS
    ensures Becomes(R.Timed(c, clock), [R.Shut(reason)], RequestClose(c, reason), now)
  {
    hide I.Valid, Becomes, RequestClose;
    I.ValidShaped(c, clock);
    BecomesOne(R.Timed(c, clock), R.Shut(reason), RequestClose(c, reason), now);
  }

  lemma Submits(c: Conn, clock: nat, channel: nat, payload: Bytes, now: nat)
    requires I.Valid(c, clock) && clock <= now && Shaped(c)
    requires channel < |c.channels.kinds| ==> c.channels.nextIds[channel] < U32_MAX
    ensures Becomes(R.Timed(c, clock), [R.Submit(channel, payload)],
                    c.(channels := C.Send(c.channels, channel, payload).channels), now)
  {
    hide I.Valid, Becomes, C.Send;
    BecomesOne(R.Timed(c, clock), R.Submit(channel, payload),
               c.(channels := C.Send(c.channels, channel, payload).channels), now);
  }

  lemma Hears(c: Conn, clock: nat, now: nat, from: nat, d: Datagram, token: nat)
    requires I.Valid(c, clock) && TP.Ticks(clock, now) && Shaped(c) && HeaderShaped(d.header) && token < U64
    ensures Becomes(R.Timed(c, clock), [R.Hear(now, from, d, token), R.TakeEvents],
                    HandleDatagram(c, now, from, d, token).conn.(events := []), now)
  {
    hide I.Valid, Becomes, HandleDatagram;
    I.HandleDatagramValid(c, clock, now, from, d, token);
    I.ValidShaped(HandleDatagram(c, now, from, d, token).conn, now);
    BecomesTwo(R.Timed(c, clock), R.Hear(now, from, d, token),
               HandleDatagram(c, now, from, d, token).conn.(events := []), now);
  }

  lemma Expires(c: Conn, clock: nat, now: nat)
    requires I.Valid(c, clock) && TP.Ticks(clock, now) && Shaped(c)
    ensures Becomes(R.Timed(c, clock), [R.Expire(now), R.TakeEvents], HandleTimeout(c, now).(events := []), now)
  {
    hide I.Valid, Becomes, HandleTimeout;
    I.TimeoutValid(c, clock, now);
    I.ValidShaped(HandleTimeout(c, now), now);
    BecomesTwo(R.Timed(c, clock), R.Expire(now), HandleTimeout(c, now).(events := []), now);
  }

  lemma Polls(c: Conn, clock: nat, now: nat)
    requires I.Valid(c, clock) && TP.Ticks(clock, now) && Transmittable(c) && B.Consistent(c.budget)
    ensures Becomes(R.Timed(c, clock), [R.Poll(now)], PollTransmit(c, now).conn, now)
  {
    hide I.Valid, Becomes, PollTransmit, Transmittable, B.Consistent;
    R.PollAllowed(R.Timed(c, clock), now);
    BecomesOne(R.Timed(c, clock), R.Poll(now), PollTransmit(c, now).conn, now);
  }

  lemma ChangeProjects(s: Host, st: Step, count: nat, book: nat -> Ticket, h: Handle)
    requires 0 < count <= SHARDS && PeersOk(s) && Allowed(s, st, count, book) && AllSlotted(s) && AllShaped(s)
    requires h in s.peers && st.Change?
    ensures var t := Changed(s.(clock := st.now), st.h, st.op);
            && h in t.peers
            && Becomes(R.Timed(s.peers[h].conn, s.clock), OpsFor(s, st, h), t.peers[h].conn, st.now)
  {
    hide I.Valid, Becomes, C.Send, RequestClose, Changed;
    var u, c := s.(clock := st.now), s.peers[h].conn;
    ChangedConn(u, st.h, st.op, h);
    if st.h != h {
      BecomesSelf(c, s.clock, st.now);
    } else {
      match st.op
      case SendOp(channel, payload) => Submits(c, s.clock, channel, payload, st.now);
      case CloseOp(reason) => Shuts(c, s.clock, reason, st.now);
      case TicketOp(blob) => OwesTicket(c, s.clock, blob, st.now);
    }
  }

  lemma PayloadProjects(s: Host, st: Step, count: nat, book: nat -> Ticket, h: Handle)
    requires 0 < count <= SHARDS && PeersOk(s) && Allowed(s, st, count, book) && AllSlotted(s) && AllShaped(s)
    requires SlotsOk(s) && h in s.peers && st.Payload?
    ensures var t := Routed(s.(clock := st.now), st.now, st.from, st.slot, st.occupancy, st.d, st.token);
            && h in t.peers
            && Becomes(R.Timed(s.peers[h].conn, s.clock), OpsFor(s, st, h), t.peers[h].conn, st.now)
  {
    hide I.Valid, Becomes, HandleDatagram, Routed, OccupancyOf;
    var c := s.peers[h].conn;
    RoutedConn(s.(clock := st.now), st, h);
    Hears(c, s.clock, st.now, st.from, st.d, st.token);
    BecomesSelf(c, s.clock, st.now);
  }

  lemma FireProjects(s: Host, st: Step, count: nat, book: nat -> Ticket, h: Handle)
    requires 0 < count <= SHARDS && PeersOk(s) && Allowed(s, st, count, book) && AllSlotted(s) && AllShaped(s)
    requires SlotsOk(s) && h in s.peers && st.Fire?
    ensures var t := Fired(s.(clock := st.now), st.now, st.slot);
            && h in t.peers
            && Becomes(R.Timed(s.peers[h].conn, s.clock), OpsFor(s, st, h), t.peers[h].conn, st.now)
  {
    hide I.Valid, Becomes, HandleTimeout, Fired;
    var c := s.peers[h].conn;
    FiredConn(s.(clock := st.now), st.now, st.slot, h);
    Expires(c, s.clock, st.now);
    BecomesSelf(c, s.clock, st.now);
  }

  lemma DrainProjects(s: Host, st: Step, count: nat, book: nat -> Ticket, h: Handle)
    requires 0 < count <= SHARDS && PeersOk(s) && Allowed(s, st, count, book) && AllSlotted(s) && AllShaped(s)
    requires forall k | k in s.peers :: Transmittable(s.peers[k].conn) && B.Consistent(s.peers[k].conn.budget)
    requires h in s.peers && st.Drain?
    ensures var t := Drained(s.(clock := st.now), st.now);
            && h in t.peers
            && Becomes(R.Timed(s.peers[h].conn, s.clock), OpsFor(s, st, h), t.peers[h].conn, st.now)
  {
    hide I.Valid, Becomes, PollTransmit, Drained, Transmittable, B.Consistent;
    var c := s.peers[h].conn;
    DrainedConn(s.(clock := st.now), st.now, h);
    Polls(c, s.clock, st.now);
    BecomesSelf(c, s.clock, st.now);
  }

  /** Every step of the server is, to each connection that lives through it, exactly the operations named. */
  lemma StepProjects(s: Host, st: Step, count: nat, book: nat -> Ticket, h: Handle)
    requires 0 < count <= SHARDS && Good(s, count, book) && PeersOk(s) && Allowed(s, st, count, book)
    requires AllShaped(s) && h in s.peers && h in Stepped(s, st).peers
    ensures Becomes(R.Timed(s.peers[h].conn, s.clock), OpsFor(s, st, h), Stepped(s, st).peers[h].conn, st.now)
  {
    hide I.Valid, Lifetimes, Responded, Routed, Drained, Fired, Reaped, Lapsed, Forgotten, Changed, Home, Transmittable,
         Becomes, B.Consistent, Good, PeersOk, OpsFor, SlotsOk;
    PeersShaped(s);
    GoodParts(s, count, book);
    BecomesSelf(s.peers[h].conn, s.clock, st.now);
    match st {
      case Respond(_, _, _, _) => RespondProjects(s, st, count, book, h);
      case Payload(_, _, _, _, _, _) => PayloadProjects(s, st, count, book, h);
      case Drain(_) => DrainProjects(s, st, count, book, h);
      case Fire(_, _) => FireProjects(s, st, count, book, h);
      case Reap(now) =>
        ReapedConn(s.(clock := now), now, h);
        QuietOps(s, st, h);
      case Expire(now) =>
        LapsedPeers(s.(clock := now), now);
        QuietOps(s, st, h);
      case Forget(now) =>
        ForgottenPeers(s.(clock := now), now);
        QuietOps(s, st, h);
      case Change(_, _, _) => ChangeProjects(s, st, count, book, h);
    }
  }

  lemma GoodParts(s: Host, count: nat, book: nat -> Ticket)
    requires 0 < count <= SHARDS && Good(s, count, book)
    ensures SlotsOk(s) && Lifetimes(s, count, book)
  {
    hide Lifetimes, ConfigValid, PeersOk, QueuesOk, TimersOk, Armed, SlotsOk;
  }

  lemma QuietOps(s: Host, st: Step, h: Handle)
    requires AllShaped(s) && h in s.peers && (st.Reap? || st.Expire? || st.Forget?)
    ensures OpsFor(s, st, h) == []
  {
  }

  predicate SameSetup(s: Host, t: Host) { t.kinds == s.kinds && t.cfg == s.cfg && t.clock == s.clock }

  lemma LapsedPeers(s: Host, now: nat)
    ensures var t := Lapsed(s, now); t.peers == s.peers && SameSetup(s, t)
  {
    hide Since;
  }

  lemma ForgottenPeers(s: Host, now: nat)
    ensures var t := Forgotten(s, now); t.peers == s.peers && SameSetup(s, t)
  {
  }

  // ----- Who there is -----

  /** Connections are new only by a response that earned one, and then fresh. */
  ghost predicate Accepts(s: Host, st: Step, t: Host) {
    && t.kinds == s.kinds && t.cfg == s.cfg && t.clock == st.now
    && forall h | h in t.peers && h !in s.peers ::
         && O.Admits(s, st) && st.chosen == Some(h)
         && t.peers[h].conn == New(st.now, Role.Server(None), st.from, s.kinds, s.cfg)
  }

  lemma ServiceAccepts(s: Host, st: Step, t: Host)
    requires OnlyService(s, t) && s.clock == st.now
    ensures Accepts(s, st, t)
  {
    hide O.Admits, New, LogMoves;
  }

  lemma RespondAccepts(s: Host, st: Step)
    requires AllSlotted(s) && st.Respond? && s.clock == st.now
    requires st.chosen.Some? ==> st.chosen.value !in s.peers && st.chosen.value.index < |s.schedules|
    ensures Accepts(s, st, Responded(s, st.now, st.from, st.cookie, st.chosen))
  {
    hide Responded, New, O.Replaced, O.Entitled;
    if O.Admits(s, st) {
      O.EntitledExact(s, st.now, st.from, st.cookie, st.chosen.value);
    } else {
      O.RefusedExact(s, st.now, st.from, st.cookie, st.chosen);
    }
    RespondedSetup(s, st.now, st.from, st.cookie, st.chosen);
  }

  lemma RespondedSetup(s: Host, now: nat, from: nat, cookie: Cookie, h: Option<Handle>)
    requires AllSlotted(s) && (h.Some? ==> h.value.index < |s.schedules|)
    ensures var t := Responded(s, now, from, cookie, h); SameSetup(s, t)
  {
    hide Responded, O.Entitled, Established;
    O.EntitledEnough(s, now, from, cookie, h);
    if O.Entitled(s, now, from, cookie) {
      EstablishedSetup(s, now, from, cookie, h);
    } else if cookie.id in s.redeemed {
      O.SpentAgain(s, now, from, cookie, h);
    }
  }

  lemma EstablishedSetup(s: Host, now: nat, from: nat, cookie: Cookie, h: Option<Handle>)
    requires AllSlotted(s) && (h.Some? ==> h.value.index < |s.schedules|)
    ensures var t := Established(s, now, from, cookie, h); SameSetup(s, t)
  {
    hide TakenOver, O.Replaced, New, Touched;
    var resumed, id := cookie.ticket.session.Some?, O.Wanted(s, cookie);
    var s0 := if resumed then s else s.(nextSequence := s.nextSequence + 1);
    O.TakenOverExact(s0, id);
    if h.Some? {
      AdmittedSetup(TakenOver(s0, id), now, from, cookie, id, h.value);
    }
  }

  lemma AdmittedSetup(s: Host, now: nat, from: nat, cookie: Cookie, id: nat, h: Handle)
    requires h.index < |s.schedules|
    ensures var t := Admitted(s, now, from, cookie, id, h); SameSetup(s, t)
  {
    hide New;
  }

  lemma ReapAccepts(s: Host, st: Step)
    requires AllSlotted(s) && st.Reap? && s.clock == st.now
    ensures Accepts(s, st, Reaped(s, st.now))
  {
    hide Retired, O.Admits, New, SessionsLeft;
    if s.retiring != [] {
      var s1, h := s.(retiring := s.retiring[1..]), s.retiring[0];
      if h in s.peers {
        var reason, keep, log := EndpointSessions.RetiredParts(s1, h, st.now);
      } else {
        RetiredDead(s1, h, st.now);
      }
    }
  }

  lemma AcceptsClockFree(s: Host, st: Step, t: Host)
    requires Accepts(s.(clock := st.now), st, t)
    ensures Accepts(s, st, t)
  {
    hide O.Admits, New;
    O.AdmitsClockFree(s, st);
  }

  lemma StepAccepts(s: Host, st: Step, count: nat, book: nat -> Ticket)
    requires 0 < count <= SHARDS && PeersOk(s) && Allowed(s, st, count, book)
    ensures Accepts(s, st, Stepped(s, st))
  {
    hide I.Valid, Responded, Routed, Drained, Fired, Reaped, Lapsed, Forgotten, Changed, OnlyService, Home,
         Transmittable, Accepts;
    PeersShaped(s);
    var u, t := s.(clock := st.now), Stepped(s, st);
    match st {
      case Respond(_, _, _, _) => RespondAccepts(u, st);
      case Payload(now, from, slot, occupancy, d, token) =>
        RoutedService(u, now, from, slot, occupancy, d, token);
        ServiceAccepts(u, st, t);
      case Drain(now) =>
        DrainedService(u, now);
        ServiceAccepts(u, st, t);
      case Fire(now, slot) =>
        FiredService(u, now, slot);
        ServiceAccepts(u, st, t);
      case Reap(_) => ReapAccepts(u, st);
      case Expire(now) =>
        LapsedPeers(u, now);
        SamePeersAccepts(u, st, t);
      case Forget(now) =>
        ForgottenPeers(u, now);
        SamePeersAccepts(u, st, t);
      case Change(now, h, op) =>
        ChangedService(u, h, op);
        ServiceAccepts(u, st, t);
    }
    AcceptsClockFree(s, st, t);
  }

  lemma SamePeersAccepts(s: Host, st: Step, t: Host)
    requires t.peers == s.peers && SameSetup(s, t) && s.clock == st.now
    ensures Accepts(s, st, t)
  {
  }

  // ----- Over runs -----

  /** Some run of a connection by itself, fresh on the server's side, ends here. */
  ghost predicate Reached(s: Host, c: Conn) {
    exists began: nat, from: nat, clock: nat ::
      clock <= s.clock && R.Reaches(New(began, Role.Server(None), from, s.kinds, s.cfg), began, R.Timed(c, clock))
  }

  ghost predicate AllReached(s: Host) { forall h | h in s.peers :: Reached(s, s.peers[h].conn) }

  /** An operation allowed now was allowed at any time before. */
  lemma AllowedEarlier(c: Conn, earlier: nat, clock: nat, op: R.Op)
    requires earlier <= clock && R.Allowed(R.Timed(c, clock), op)
    ensures R.Allowed(R.Timed(c, earlier), op)
    ensures var t, u := R.Stepped(R.Timed(c, earlier), op), R.Stepped(R.Timed(c, clock), op);
            t.conn == u.conn && t.clock <= u.clock
  {
    hide PollTransmit, HandleDatagram, HandleTimeout, C.Send, Transmittable, B.Consistent;
  }

  lemma {:induction false} BecomesReaches(start: Conn, began: nat, c: Conn, earlier: nat, clock: nat, ops: seq<R.Op>,
                                          d: Conn, now: nat) returns (at: nat)
    requires R.Reaches(start, began, R.Timed(c, earlier)) && earlier <= clock
    requires Becomes(R.Timed(c, clock), ops, d, now)
    ensures at <= now && R.Reaches(start, began, R.Timed(d, at))
    decreases |ops|
  {
    hide R.Allowed, R.Stepped, R.Reaches;
    if ops == [] {
      at := earlier;
    } else {
      AllowedEarlier(c, earlier, clock, ops[0]);
      R.Goes(start, began, R.Timed(c, earlier), ops[0]);
      var t, u := R.Stepped(R.Timed(c, earlier), ops[0]), R.Stepped(R.Timed(c, clock), ops[0]);
      at := BecomesReaches(start, began, u.conn, t.clock, u.clock, ops[1..], d, now);
    }
  }

  lemma FreshReached(s: Host, began: nat, from: nat)
    requires began <= s.clock
    ensures Reached(s, New(began, Role.Server(None), from, s.kinds, s.cfg))
  {
    hide R.Reaches, New;
    R.ReachesStart(New(began, Role.Server(None), from, s.kinds, s.cfg), began);
  }

  lemma LaterReached(s: Host, t: Host, c: Conn, ops: seq<R.Op>, d: Conn)
    requires t.kinds == s.kinds && t.cfg == s.cfg && Reached(s, c)
    requires Becomes(R.Timed(c, s.clock), ops, d, t.clock)
    ensures Reached(t, d)
  {
    hide R.Reaches, New, Becomes;
    var began: nat, from: nat, clock: nat :|
      clock <= s.clock && R.Reaches(New(began, Role.Server(None), from, s.kinds, s.cfg), began, R.Timed(c, clock));
    var start := New(began, Role.Server(None), from, s.kinds, s.cfg);
    var at := BecomesReaches(start, began, c, clock, s.clock, ops, d, t.clock);
  }

  lemma StepReached(s: Host, st: Step, count: nat, book: nat -> Ticket, h: Handle)
    requires 0 < count <= SHARDS && Good(s, count, book) && PeersOk(s) && Allowed(s, st, count, book) && AllReached(s)
    requires h in Stepped(s, st).peers
    ensures Reached(Stepped(s, st), Stepped(s, st).peers[h].conn)
  {
    hide Good, Stepped, I.Valid, Home, New, Becomes, OpsFor, O.Entitled, AllShaped, Reached;
    var t := Stepped(s, st);
    StepAccepts(s, st, count, book);
    if h in s.peers {
      assert AllShaped(s) by { PeersShaped(s); }
      StepProjects(s, st, count, book, h);
      LaterReached(s, t, s.peers[h].conn, OpsFor(s, st, h), t.peers[h].conn);
    } else {
      FreshReached(t, st.now, st.from);
    }
  }

  /** In every reachable state of every member: each live connection is one that a fresh connection of its
  own, left to itself, comes to. */
  lemma {:induction false} ConnectionsReached(gs: seq<seq<Host>>, steps: seq<GroupStep>, count: nat,
                                              book: nat -> Ticket, n: nat, i: nat)
    requires 0 < count <= SHARDS && GroupRun(gs, steps, count, book) && n < |gs| && AllGood(gs[0], count, book)
    requires i < count && |gs[0]| == |gs[n]| == count && AllReached(gs[0][i])
    ensures AllReached(gs[n][i])
    decreases n
  {
    hide Good, Stepped, Allowed, PeersOk, Reached;
    if n > 0 {
      ConnectionsReached(gs, steps, count, book, n - 1, i);
      GroupGood(gs, steps, count, book, n - 1);
      if steps[n - 1].shard == i {
        var s, st := gs[n - 1][i], steps[n - 1].step;
        forall h | h in gs[n][i].peers
          ensures Reached(gs[n][i], gs[n][i].peers[h].conn)
        {
          StepReached(s, st, count, book, h);
        }
      }
    }
  }

  // ----- What goes out and what comes in -----

  /** No packet is swallowed: a connection uses up a sequence number exactly when its packet goes out under it. */
  lemma EmittedAll(s: Host, now: nat, h: Handle)
    requires Scheduled(s) && s.clock <= now < U64_MAX && h in s.peers && s.ready != [] && s.ready[0] == h
    ensures AllSlotted(s)
    ensures forall k | k in s.peers :: Transmittable(s.peers[k].conn) && B.Consistent(s.peers[k].conn.budget)
    ensures var t, packets, next := Drained(s, now), Emitted(s, now), s.peers[h].conn.crypto.nextSequence;
            && h in t.peers && t.peers[h].conn.crypto.nextSequence == next + |packets| && |packets| <= 1
            && (packets != [] ==> packets[0].sequence == next)
  {
    hide I.Valid, PollTransmit, Transmittable, B.Consistent, Drained, QueuesOk, Armed, TimersOk;
    PeersShaped(s);
    DrainedConn(s, now, h);
    PollUses(s.peers[h].conn, s.clock, now);
  }

  lemma PollUses(c: Conn, clock: nat, now: nat)
    requires I.Valid(c, clock) && clock <= now < U64_MAX && Transmittable(c) && B.Consistent(c.budget)
    ensures var r, next := PollTransmit(c, now), c.crypto.nextSequence;
            && r.conn.crypto.nextSequence == next + (if r.packet.Some? then 1 else 0)
            && (r.packet.Some? ==> r.packet.value.sequence == next)
  {
    hide I.Valid, TransmitAt, B.Assess, Drafted, Transmittable, B.Consistent, L.OnSent, ApplyNotes, C.Committed,
         C.RecordOf, Sealed, B.Advance, B.OnSent, C.MarkedLostAll;
  }

  /** What the application is handed for a datagram is what the live connection that goes by its connection id
  delivers, and nothing if there is none. */
  lemma HeardById(s: Host, now: nat, from: nat, id: nat, d: Datagram, token: nat)
    requires Scheduled(s) && AllShaped(s) && s.capacity <= W.SLOTS && s.shard < SHARDS && HeaderShaped(d.header)
    requires id < U32 && W.Unpacked(id).shard == s.shard
    ensures var c := W.Unpacked(id);
            && (forall h | h in s.peers && ConnIdOf(s, h) == id ::
                  Heard(s, now, from, c.slot, c.occupancy, d, token)
                  == HandleDatagram(s.peers[h].conn, now, from, d, token).delivered)
            && ((forall h | h in s.peers :: ConnIdOf(s, h) != id) ==>
                  Heard(s, now, from, c.slot, c.occupancy, d, token) == [])
  {
    hide Scheduled, Found, W.Packed, W.Unpacked, HandleDatagram;
    FoundById(s, id);
  }
}
