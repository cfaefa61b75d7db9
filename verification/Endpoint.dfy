/** One shard of the server: which connection a datagram reaches, when each connection is
serviced next, and how sessions and tickets live and die. Steps on values over the real
connection state machine; time is an input and never runs backwards.

A cookie is unforgeable: what arrives in one is what the group sealed in it. */
module Endpoint {
  import opened Machine
  import opened Frames
  import opened Connection
  import opened Slab
  import B = Budget
  import C = Channels
  import I = ConnectionInvariant
  import W = Wire

  const RESUME_GRACE: nat := 45_000_000_000
  const COOKIE_LIFETIME: nat := 10_000_000_000
  const SHARDS: nat := W.SHARDS
  const SHUTDOWN: nat := 3
  const REPLACED: nat := 4

  // ----- Shards -----

  function SessionId(sequence: nat, shard: nat): nat { SHARDS * sequence + shard }

  function ShardOf(session: nat): nat { session % SHARDS }

  datatype Ticket = Ticket(client: nat, expires: nat, session: Option<nat>)

  /** Where a ticket may be redeemed: with the shard of the session it resumes, if that shard is in
  the group, and otherwise with a shard its id alone decides. */
  function Home(count: nat, ticket: Ticket, id: nat): (shard: Option<nat>)
    requires 0 < count <= SHARDS
    ensures shard.Some? ==> shard.value < count
  {
    match ticket.session
    case Some(session) => if ShardOf(session) < count then Some(ShardOf(session)) else None
    case None => Some((id % U32) % count)
  }

  datatype Cookie = Cookie(home: nat, issued: nat, addr: nat, id: nat, ticket: Ticket)

  // ----- State -----

  datatype Peer = Peer(conn: Conn, session: nat, ticket: nat)

  datatype SessionState = Attached(h: Handle) | Suspended(since: nat)

  datatype Session = Session(owner: nat, state: SessionState)

  datatype Schedule = Schedule(ready: bool, retiring: bool, closedWith: nat)

  const IDLE := Schedule(false, false, TIMED_OUT)

  datatype Lapse = Lapse(since: nat, session: nat)

  /** What the application is told. */
  datatype Report =
    | Connected(h: Handle, session: nat, resumed: bool)
    | Disconnected(session: nat, reason: nat, suspended: bool)
    | SessionExpired(session: nat)
    | Moved(h: Handle, session: nat, addr: nat)

  /** `issued`, `minted` and `log` are history: handles given out, tickets that made a connection, in
  order, and reports to the application. */
  datatype Host = Host(
    shard: nat,
    capacity: nat,
    kinds: Kinds,
    cfg: Config,
    peers: map<Handle, Peer>,
    issued: set<Handle>,
    redeemed: map<nat, Option<Handle>>,
    expiry: map<nat, nat>,
    minted: seq<nat>,
    sessions: map<nat, Session>,
    nextSequence: nat,
    schedules: seq<Schedule>,
    timers: map<nat, nat>,
    ready: seq<Handle>,
    retiring: seq<Handle>,
    suspended: seq<Lapse>,
    log: seq<Report>,
    clock: nat)

  function Fresh(shard: nat, capacity: nat, kinds: Kinds, cfg: Config, clock: nat): Host {
    Host(shard, capacity, kinds, cfg, map[], {}, map[], map[], [], map[], 1, seq(capacity, _ => IDLE), map[],
           [], [], [], [], clock)
  }

  // ----- Scheduling -----

  /** A connection's own next deadline; a closed one has none. */
  function Deadline(c: Conn): Option<nat> {
    if Shaped(c) && c.budget.refill > 0 then NextTimeout(c) else None
  }

  predicate Slotted(s: Host, h: Handle) { h in s.peers && h.index < |s.schedules| }

  predicate AllSlotted(s: Host) { forall h | h in s.peers :: h.index < |s.schedules| }

  predicate AllShaped(s: Host) { forall h | h in s.peers :: Shaped(s.peers[h].conn) }

  /** The connection joins the transmit queue unless it is there already. */
  function Touched(s: Host, h: Handle): Host
    requires h.index < |s.schedules|
  {
    if s.schedules[h.index].ready then s
    else s.(schedules := s.schedules[h.index := s.schedules[h.index].(ready := true)], ready := s.ready + [h])
  }

  function WithConn(s: Host, h: Handle, c: Conn): Host
    requires h in s.peers
  {
    s.(peers := s.peers[h := s.peers[h].(conn := c)])
  }

  function LastClosed(events: seq<Event>): Option<nat> {
    if events == [] then None
    else if events[|events| - 1].ClosedEvent? then Some(events[|events| - 1].reason)
    else LastClosed(events[..|events| - 1])
  }

  function LastMigrated(events: seq<Event>): Option<nat> {
    if events == [] then None
    else if events[|events| - 1].Migrated? then Some(events[|events| - 1].addr)
    else LastMigrated(events[..|events| - 1])
  }

  /** The connection's events are consumed: a migration is reported, a closure remembered. */
  function Pumped(s: Host, h: Handle): Host
    requires Slotted(s, h)
  {
    var p := s.peers[h];
    var moved, closed := LastMigrated(p.conn.events), LastClosed(p.conn.events);
    WithConn(s, h, p.conn.(events := [])).(
      log := if moved.Some? then s.log + [Moved(h, p.session, moved.value)] else s.log,
      schedules := if closed.Some?
                   then s.schedules[h.index := s.schedules[h.index].(closedWith := closed.value)] else s.schedules)
  }

  /** A connection that has just been changed to `c`: queued to transmit, its events taken. */
  function Serviced(s: Host, h: Handle, c: Conn): Host
    requires Slotted(s, h)
  {
    Pumped(Touched(WithConn(s, h, c), h), h)
  }

  /** After a poll: the slot's timer is the connection's deadline, or it has none and is to be removed. */
  function Rearmed(s: Host, h: Handle, c: Conn): Host
    requires h.index < |s.schedules|
  {
    var entry := s.schedules[h.index].(ready := false);
    match Deadline(c)
    case Some(at) => s.(schedules := s.schedules[h.index := entry], timers := s.timers[h.index := at])
    case None =>
      s.(schedules := s.schedules[h.index := entry.(retiring := true)],
         timers := s.timers - {h.index},
         retiring := if entry.retiring then s.retiring else s.retiring + [h])
  }

  /** One connection of the transmit pass: its packet, and then its timer. */
  function Drained(s: Host, now: nat): Host
    requires s.ready != [] && s.ready[0] in s.peers ==>
               && Slotted(s, s.ready[0])
               && Transmittable(s.peers[s.ready[0]].conn) && B.Consistent(s.peers[s.ready[0]].conn.budget)
  {
    if s.ready == [] then s
    else
      var h, s1 := s.ready[0], s.(ready := s.ready[1..]);
      if h !in s.peers then s1
      else
        var c := PollTransmit(s.peers[h].conn, now).conn;
        Rearmed(WithConn(s1, h, c), h, c)
  }

  /** The packet of that pass, if the connection still lives and has one. */
  function Emitted(s: Host, now: nat): seq<Packet>
    requires s.ready != [] && s.ready[0] in s.peers ==>
               Transmittable(s.peers[s.ready[0]].conn) && B.Consistent(s.peers[s.ready[0]].conn.budget)
  {
    if s.ready == [] || s.ready[0] !in s.peers then []
    else
      var packet := PollTransmit(s.peers[s.ready[0]].conn, now).packet;
      if packet.None? then [] else [packet.value]
  }

  /** The live connection in a slot. */
  ghost function At(s: Host, slot: nat): (r: Option<Handle>)
    ensures r.Some? ==> r.value in s.peers && r.value.index == slot
    ensures r.None? ==> forall h | h in s.peers :: h.index != slot
  {
    if h :| h in s.peers && h.index == slot then Some(h) else None
  }

  /** One due timer. */
  ghost function Fired(s: Host, now: nat, slot: nat): Host
    requires AllSlotted(s) && AllShaped(s)
  {
    if slot !in s.timers || s.timers[slot] > now then s
    else
      var s1, h := s.(timers := s.timers - {slot}), At(s, slot);
      if h.None? then s1 else Serviced(s1, h.value, HandleTimeout(s.peers[h.value].conn, now))
  }

  /** A connection leaves its slot, but its ticket is not to be used again. */
  function Unhooked(s: Host, h: Handle): Host
    requires Slotted(s, h)
  {
    var ticket := s.peers[h].ticket;
    s.(schedules := s.schedules[h.index := IDLE],
       redeemed := if ticket in s.redeemed then s.redeemed[ticket := None] else s.redeemed,
       timers := s.timers - {h.index},
       peers := s.peers - {h})
  }

  /** Its session is held for resumption unless it was left on purpose, or another connection
  has it. */
  function Parted(s: Host, h: Handle, session: nat, reason: nat, now: nat): Host {
    var holds := session in s.sessions && s.sessions[session].state == Attached(h);
    var keep := holds && reason != REQUESTED && reason != SHUTDOWN;
    s.(sessions := if keep then s.sessions[session := s.sessions[session].(state := Suspended(now))]
                   else if holds then s.sessions - {session} else s.sessions,
       suspended := if keep then s.suspended + [Lapse(now, session)] else s.suspended,
       log := s.log + [Disconnected(session, reason, keep)])
  }

  /** A connection leaves for good; its session is suspended or ends with it. */
  function Retired(s: Host, h: Handle, now: nat): Host
    requires h in s.peers ==> Slotted(s, h)
  {
    if h !in s.peers then s
    else
      var s1 := Pumped(s, h);
      Parted(Unhooked(s1, h), h, s.peers[h].session, s1.schedules[h.index].closedWith, now)
  }

  function Reaped(s: Host, now: nat): Host
    requires s.retiring != [] && s.retiring[0] in s.peers ==> Slotted(s, s.retiring[0])
  {
    if s.retiring == [] then s else Retired(s.(retiring := s.retiring[1..]), s.retiring[0], now)
  }

  /** The oldest suspension, if its grace period has lapsed. */
  function Lapsed(s: Host, now: nat): Host {
    if s.suspended == [] || Since(now, s.suspended[0].since) < RESUME_GRACE then s
    else
      var entry, s1 := s.suspended[0], s.(suspended := s.suspended[1..]);
      if entry.session in s.sessions && s.sessions[entry.session].state == Suspended(entry.since)
      then s1.(sessions := s.sessions - {entry.session}, log := s.log + [SessionExpired(entry.session)])
      else s1
  }

  function Forgotten(s: Host, now: nat): Host {
    s.(redeemed := map t | t in s.redeemed && t in s.expiry && s.expiry[t] >= now :: s.redeemed[t],
       expiry := map t | t in s.expiry && s.expiry[t] >= now :: s.expiry[t])
  }

  /** How long the endpoint may sleep. */
  ghost function NextWork(s: Host): Option<nat> {
    if s.ready != [] || s.retiring != [] then Some(0)
    else
      Earlier(Earliest(s.timers),
              if s.suspended != [] then Some(SatAdd(s.suspended[0].since, RESUME_GRACE)) else None)
  }

  /** The least deadline in a map of timers. */
  ghost function Earliest(timers: map<nat, nat>): (r: Option<nat>)
    ensures r.None? <==> timers == map[]
    ensures r.Some? ==> (exists k :: k in timers && timers[k] == r.value)
                        && forall k | k in timers :: r.value <= timers[k]
    decreases |timers|
  {
    if timers == map[] then None
    else
      var k :| k in timers;
      var rest := timers - {k};
      assert |rest| < |timers| by { assert rest.Keys == timers.Keys - {k}; assert |rest.Keys| < |timers.Keys|; }
      var least := Earliest(rest);
      assert forall j | j in timers :: j == k || j in rest;
      if least.None? then Some(timers[k]) else Some(Min(timers[k], least.value))
  }

  // ----- Handshakes -----

  function TicketOk(s: Host, now: nat, t: Ticket): bool {
    && now <= t.expires
    && (t.session.Some? ==>
          && t.session.value in s.sessions
          && s.sessions[t.session.value].owner == t.client
          && (s.sessions[t.session.value].state.Suspended? ==>
                Since(now, s.sessions[t.session.value].state.since) < RESUME_GRACE))
  }

  /** Whoever is attached to the session is asked to close. */
  function TakenOver(s: Host, session: nat): Host
    requires AllSlotted(s)
  {
    if session in s.sessions && s.sessions[session].state.Attached? && s.sessions[session].state.h in s.peers
    then
      var h := s.sessions[session].state.h;
      WithConn(Touched(s, h), h, RequestClose(s.peers[h].conn, REPLACED))
    else s
  }

  /** A new connection, under the handle the slab chose for it. */
  function Admitted(s: Host, now: nat, from: nat, cookie: Cookie, session: nat, h: Handle): Host
    requires h.index < |s.schedules|
  {
    var p := Peer(New(now, Role.Server(None), from, s.kinds, s.cfg), session, cookie.id);
    Touched(s.(peers := s.peers[h := p],
               issued := s.issued + {h},
               schedules := s.schedules[h.index := IDLE],
               sessions := s.sessions[session := Session(cookie.ticket.client, Attached(h))],
               redeemed := s.redeemed[cookie.id := Some(h)],
               expiry := s.expiry[cookie.id := cookie.ticket.expires],
               minted := s.minted + [cookie.id],
               log := s.log + [Connected(h, session, cookie.ticket.session.Some?)]),
            h)
  }

  /** A session drawn or resumed, its holder closed, and a connection made for it. */
  function Established(s: Host, now: nat, from: nat, cookie: Cookie, h: Option<Handle>): Host
    requires AllSlotted(s)
    requires h.Some? ==> h.value.index < |s.schedules|
  {
    var resumed := cookie.ticket.session.Some?;
    var session := if resumed then cookie.ticket.session.value else SessionId(s.nextSequence, s.shard);
    var s1 := TakenOver(if resumed then s else s.(nextSequence := s.nextSequence + 1), session);
    if h.None? then s1 else Admitted(s1, now, from, cookie, session, h.value)
  }

  /** A challenge response. `h` is the slab's answer: a handle it has not issued before, or
  none when its remaining slots are all retired. */
  function Responded(s: Host, now: nat, from: nat, cookie: Cookie, h: Option<Handle>): Host
    requires AllSlotted(s)
    requires h.Some? ==> h.value.index < |s.schedules|
  {
    if cookie.addr != from || Since(now, cookie.issued) > COOKIE_LIFETIME then s
    else if cookie.id in s.redeemed then
      match s.redeemed[cookie.id]
      case Some(k) =>
        if k in s.peers
        then WithConn(Touched(s, k), k, s.peers[k].conn.(control := s.peers[k].conn.control.(accepted := true)))
        else s
      case None => s
    else if !TicketOk(s, now, cookie.ticket) || |s.peers| >= s.capacity then s
    else Established(s, now, from, cookie, h)
  }

  // ----- Payloads -----

  /** Generations go up by two per occupant; an id keeps the low bits of the count. */
  function OccupancyOf(h: Handle): nat { (h.generation / 2) % W.OCCUPANCIES }

  /** Routing by connection id: whatever occupies the id's slot, if the occupancy agrees. */
  ghost function Found(s: Host, slot: nat, occupancy: nat): Option<Handle> {
    var h := At(s, slot);
    if h.Some? && OccupancyOf(h.value) == occupancy then h else None
  }

  ghost function Routed(s: Host, now: nat, from: nat, slot: nat, occupancy: nat, d: Datagram, token: nat): Host
    requires AllSlotted(s) && AllShaped(s)
    requires HeaderShaped(d.header)
  {
    var h := Found(s, slot, occupancy);
    if h.None? then s
    else
      var r := HandleDatagram(s.peers[h.value].conn, now, from, d, token);
      if r.outcome.Processed? || r.outcome.BadPayload? then Serviced(s, h.value, r.conn) else s
  }

  /** What the connection found delivers. */
  ghost function Heard(s: Host, now: nat, from: nat, slot: nat, occupancy: nat, d: Datagram,
                       token: nat): seq<C.Delivery>
    requires AllShaped(s) && HeaderShaped(d.header)
  {
    var h := Found(s, slot, occupancy);
    if h.None? then [] else HandleDatagram(s.peers[h.value].conn, now, from, d, token).delivered
  }

  // ----- The application -----

  datatype Op = SendOp(channel: nat, payload: Bytes) | CloseOp(reason: nat) | TicketOp(blob: Bytes)

  function Operated(c: Conn, op: Op): Conn
    requires C.Sized(c.channels)
  {
    match op
    case SendOp(channel, payload) =>
      c.(channels := C.Send(c.channels, channel, payload).channels)
    case CloseOp(reason) => RequestClose(c, reason)
    case TicketOp(blob) => c.(control := c.control.(ticket := Some(blob)))
  }

  function Changed(s: Host, h: Handle, op: Op): Host
    requires AllSlotted(s) && AllShaped(s)
  {
    if h !in s.peers then s else WithConn(Touched(s, h), h, Operated(s.peers[h].conn, op))
  }

  // ----- Steps -----

  datatype Step =
    | Respond(now: nat, from: nat, cookie: Cookie, chosen: Option<Handle>)
    | Payload(now: nat, from: nat, slot: nat, occupancy: nat, d: Datagram, token: nat)
    | Drain(now: nat)
    | Fire(now: nat, slot: nat)
    | Reap(now: nat)
    | Expire(now: nat)
    | Forget(now: nat)
    | Change(now: nat, h: Handle, op: Op)

  /** What the caller and the parts below the endpoint guarantee: time moves forward, the slab
  issues each handle once and only for a slot no connection is in, a cookie holds what was
  sealed in it, and message ids do not run out. */
  ghost predicate Allowed(s: Host, st: Step, count: nat, book: nat -> Ticket)
    requires 0 < count <= SHARDS
  {
    && s.clock <= st.now < U64_MAX
    && (st.Respond? ==>
          && st.cookie.ticket == book(st.cookie.id) && st.cookie.home == s.shard
          && Home(count, st.cookie.ticket, st.cookie.id) == Some(s.shard)
          && (st.chosen.Some? ==>
                && st.chosen.value !in s.issued && st.chosen.value.index < |s.schedules|
                && forall k | k in s.peers :: k.index != st.chosen.value.index))
    && (st.Payload? ==> HeaderShaped(st.d.header) && st.token < U64)
    && (st.Change? ==>
          match st.op
          case SendOp(channel, _) =>
            st.h in s.peers && channel < |s.peers[st.h].conn.channels.kinds| && C.Sized(s.peers[st.h].conn.channels) ==>
              s.peers[st.h].conn.channels.nextIds[channel] < U32_MAX
          case CloseOp(reason) => reason < REASONS
          case TicketOp(blob) => |blob| <= MAX_BLOB)
  }

  ghost predicate PeersOk(s: Host) {
    forall h | h in s.peers :: h.index < |s.schedules| && h in s.issued && I.Valid(s.peers[h].conn, s.clock)
  }

  ghost function Stepped(s: Host, st: Step): Host
    requires PeersOk(s)
    requires st.Respond? && st.chosen.Some? ==> st.chosen.value.index < |s.schedules|
    requires st.Payload? ==> HeaderShaped(st.d.header)
  {
    PeersShaped(s);
    var u := s.(clock := st.now);
    match st
    case Respond(now, from, cookie, h) => Responded(u, now, from, cookie, h)
    case Payload(now, from, slot, occupancy, d, token) => Routed(u, now, from, slot, occupancy, d, token)
    case Drain(now) => Drained(u, now)
    case Fire(now, slot) => Fired(u, now, slot)
    case Reap(now) => Reaped(u, now)
    case Expire(now) => Lapsed(u, now)
    case Forget(now) => Forgotten(u, now)
    case Change(now, h, op) => Changed(u, h, op)
  }

  lemma PeersShaped(s: Host)
    requires PeersOk(s)
    ensures AllSlotted(s) && AllShaped(s)
    ensures forall h | h in s.peers :: Transmittable(s.peers[h].conn) && B.Consistent(s.peers[h].conn.budget)
  {
    hide I.Valid, Transmittable, B.Consistent;
    forall h | h in s.peers
      ensures Shaped(s.peers[h].conn) && Transmittable(s.peers[h].conn) && B.Consistent(s.peers[h].conn.budget)
    {
      I.ValidShaped(s.peers[h].conn, s.clock);
      ValidPolls(s.peers[h].conn, s.clock);
    }
  }

  lemma ValidPolls(c: Conn, clock: nat)
    requires I.Valid(c, clock)
    ensures Shaped(c) && Transmittable(c) && B.Consistent(c.budget) && c.budget.refill > 0
  {
    I.ValidShaped(c, clock);
  }
}
