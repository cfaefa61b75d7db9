/** Sessions and tickets over whole runs of a group of endpoints: a ticket yields at most one
connection anywhere in the group, an attached session always names a live connection of its
own, and a session once expired is never heard of again. */
module EndpointSessions {
  import opened Machine
  import opened Frames
  import opened Connection
  import opened Slab
  import opened Endpoint
  import B = Budget

  type Peers = map<Handle, Peer>
  type Sessions = map<nat, Session>

  /** Session ids a shard has used, given the next sequence it will use. */
  predicate Known(next: nat, id: nat) { id < SHARDS * next }

  ghost predicate Holds(peers: Peers, id: nat, h: Handle) { h in peers && peers[h].session == id }

  ghost predicate SessionsOk(next: nat, sessions: Sessions, peers: Peers, suspended: seq<Lapse>) {
    && (forall id | id in sessions :: Known(next, id))
    && (forall h | h in peers :: Known(next, peers[h].session))
    && (forall id | id in sessions && sessions[id].state.Attached? :: Holds(peers, id, sessions[id].state.h))
    && (forall id | id in sessions && sessions[id].state.Suspended? :: Lapse(sessions[id].state.since, id) in suspended)
  }

  /** Suspensions are queued in the order they lapse. */
  ghost predicate QueueOk(q: seq<Lapse>, clock: nat) {
    && (forall i, j | 0 <= i < j < |q| :: q[i].since <= q[j].since)
    && (forall i | 0 <= i < |q| :: q[i].since <= clock)
  }

  ghost predicate DistinctTickets(minted: seq<nat>) { forall i, j | 0 <= i < j < |minted| :: minted[i] != minted[j] }

  /** A spent ticket is remembered until it can no longer be presented. */
  ghost predicate Spent(minted: seq<nat>, redeemed: map<nat, Option<Handle>>, expiry: map<nat, nat>, clock: nat,
                        book: nat -> Ticket)
  {
    && redeemed.Keys == expiry.Keys
    && (forall t | t in minted :: t in redeemed || book(t).expires < clock)
    && (forall t | t in redeemed :: t in minted && expiry[t] == book(t).expires)
  }

  /** A remembered ticket points at the connection it made, while that lives. */
  ghost predicate Answers(redeemed: map<nat, Option<Handle>>, peers: Peers) {
    forall t | t in redeemed && redeemed[t].Some? :: redeemed[t].value in peers && peers[redeemed[t].value].ticket == t
  }

  // ----- What the log says of a session -----

  function Connects(log: seq<Report>, id: nat): nat {
    if log == [] then 0
    else
      var e := log[|log| - 1];
      Connects(log[..|log| - 1], id) + if e.Connected? && e.session == id then 1 else 0
  }

  function Disconnects(log: seq<Report>, id: nat): nat {
    if log == [] then 0
    else
      var e := log[|log| - 1];
      Disconnects(log[..|log| - 1], id) + if e.Disconnected? && e.session == id then 1 else 0
  }

  ghost function LiveOf(peers: Peers, id: nat): set<Handle> { set h | h in peers && peers[h].session == id }

  /** After a session's expiry: no second expiry, no connection. */
  ghost predicate QuietAfter(log: seq<Report>, i: nat)
    requires i < |log|
  {
    log[i].SessionExpired? ==>
      forall j | i < j < |log| && log[j].session == log[i].session :: !log[j].SessionExpired? && !log[j].Connected?
  }

  ghost predicate LogOk(next: nat, log: seq<Report>, sessions: Sessions) {
    && (forall i | 0 <= i < |log| :: Known(next, log[i].session))
    && (forall i | 0 <= i < |log| && log[i].SessionExpired? :: log[i].session !in sessions)
    && (forall i | 0 <= i < |log| :: QuietAfter(log, i))
  }

  /** Each connection of a session is either live or has been reported gone, once. */
  ghost predicate Counted(log: seq<Report>, peers: Peers) {
    forall id: nat :: Connects(log, id) == Disconnects(log, id) + |LiveOf(peers, id)|
  }

  ghost predicate AllHome(minted: seq<nat>, count: nat, book: nat -> Ticket, shard: nat)
    requires 0 < count <= SHARDS
  {
    forall t | t in minted :: Home(count, book(t), t) == Some(shard)
  }

  ghost predicate Lifetimes(s: Host, count: nat, book: nat -> Ticket)
    requires 0 < count <= SHARDS
  {
    && s.shard < count
    && SessionsOk(s.nextSequence, s.sessions, s.peers, s.suspended)
    && QueueOk(s.suspended, s.clock)
    && DistinctTickets(s.minted) && AllHome(s.minted, count, book, s.shard)
    && Spent(s.minted, s.redeemed, s.expiry, s.clock, book)
    && Answers(s.redeemed, s.peers)
    && LogOk(s.nextSequence, s.log, s.sessions) && Counted(s.log, s.peers)
  }

  // ----- Appending to the log -----

  lemma CountsMore(log: seq<Report>, e: Report, id: nat)
    ensures Connects(log + [e], id) == Connects(log, id) + (if e.Connected? && e.session == id then 1 else 0)
    ensures Disconnects(log + [e], id) == Disconnects(log, id) + (if e.Disconnected? && e.session == id then 1 else 0)
  {
    assert (log + [e])[..|log|] == log;
  }

  lemma QuietMore(log: seq<Report>, e: Report, i: nat)
    requires i <= |log| && (i < |log| ==> QuietAfter(log, i))
    requires i < |log| && log[i].SessionExpired? && log[i].session == e.session ==> !e.SessionExpired? && !e.Connected?
    ensures QuietAfter(log + [e], i)
  {
    var more := log + [e];
    if i < |log| && log[i].SessionExpired? {
      forall j | i < j < |more| && more[j].session == more[i].session
        ensures !more[j].SessionExpired? && !more[j].Connected?
      {
        if j < |log| {
          assert log[j] == more[j];
        }
      }
    }
  }

  /** One more entry, by which sessions change from `sessions` to `sessions'`. */
  lemma LogMore(next: nat, log: seq<Report>, sessions: Sessions, e: Report, next': nat, sessions': Sessions)
    requires LogOk(next, log, sessions) && next <= next' && Known(next', e.session)
    requires forall id | id in sessions' :: id in sessions || !Known(next, id)
    requires e.SessionExpired? ==> e.session in sessions && e.session !in sessions'
    requires e.Connected? ==> e.session in sessions || !Known(next, e.session)
    ensures LogOk(next', log + [e], sessions')
  {
    var more := log + [e];
    forall i | 0 <= i < |more|
      ensures QuietAfter(more, i) && Known(next', more[i].session)
      ensures more[i].SessionExpired? ==> more[i].session !in sessions'
    {
      if i < |log| {
        assert more[i] == log[i] && QuietAfter(log, i) && Known(next, log[i].session);
      }
      QuietMore(log, e, i);
    }
  }

  lemma LogKept(next: nat, log: seq<Report>, sessions: Sessions, next': nat, sessions': Sessions)
    requires LogOk(next, log, sessions) && next <= next'
    requires forall id | id in sessions' :: id in sessions || !Known(next, id)
    ensures LogOk(next', log, sessions')
  {
    hide QuietAfter;
  }

  // ----- Steps that only service connections -----

  ghost predicate SameOwners(peers: Peers, peers': Peers) {
    && peers'.Keys == peers.Keys
    && (forall h | h in peers :: peers'[h].session == peers[h].session && peers'[h].ticket == peers[h].ticket)
  }

  /** The log, but for a report of a migration. */
  ghost predicate LogMoves(peers: Peers, log: seq<Report>, log': seq<Report>) {
    log' == log || exists h, addr :: h in peers && log' == log + [Moved(h, peers[h].session, addr)]
  }

  /** Nothing but connections, schedules and timers changed. */
  ghost predicate OnlyService(s: Host, t: Host) {
    && SameOwners(s.peers, t.peers) && LogMoves(s.peers, s.log, t.log)
    && t == s.(peers := t.peers, schedules := t.schedules, timers := t.timers, ready := t.ready, retiring := t.retiring,
               log := t.log)
  }

  lemma MovesLog(next: nat, log: seq<Report>, sessions: Sessions, peers: Peers, log': seq<Report>,
                 suspended: seq<Lapse>)
    requires LogOk(next, log, sessions) && LogMoves(peers, log, log') && Counted(log, peers)
    requires SessionsOk(next, sessions, peers, suspended)
    ensures LogOk(next, log', sessions) && Counted(log', peers)
  {
    hide LogOk, LiveOf, Connects, Disconnects;
    if log' != log {
      var h, addr :| h in peers && log' == log + [Moved(h, peers[h].session, addr)];
      var e := Moved(h, peers[h].session, addr);
      LogMore(next, log, sessions, e, next, sessions);
      forall id: nat
        ensures Connects(log', id) == Connects(log, id) && Disconnects(log', id) == Disconnects(log, id)
      {
        CountsMore(log, e, id);
      }
    }
  }

  lemma OwnersKept(next: nat, sessions: Sessions, suspended: seq<Lapse>, redeemed: map<nat, Option<Handle>>,
                   log: seq<Report>, peers: Peers, peers': Peers)
    requires SessionsOk(next, sessions, peers, suspended) && Answers(redeemed, peers) && Counted(log, peers)
    requires SameOwners(peers, peers')
    ensures SessionsOk(next, sessions, peers', suspended) && Answers(redeemed, peers') && Counted(log, peers')
  {
    hide Connects, Disconnects;
    forall id: nat
      ensures LiveOf(peers', id) == LiveOf(peers, id)
    {
    }
    forall id | id in sessions && sessions[id].state.Attached?
      ensures Holds(peers', id, sessions[id].state.h)
    {
      assert Holds(peers, id, sessions[id].state.h);
    }
  }

  lemma ServiceLifetimes(s: Host, t: Host, count: nat, book: nat -> Ticket)
    requires 0 < count <= SHARDS && Lifetimes(s, count, book) && OnlyService(s, t)
    ensures Lifetimes(t, count, book)
  {
    hide SessionsOk, QueueOk, DistinctTickets, AllHome, Spent, Answers, LogOk, Counted, SameOwners, LogMoves;
    MovesLog(s.nextSequence, s.log, s.sessions, s.peers, t.log, s.suspended);
    OwnersKept(s.nextSequence, s.sessions, s.suspended, s.redeemed, t.log, s.peers, t.peers);
  }

  lemma SelfService(s: Host)
    ensures OnlyService(s, s)
  {
  }

  lemma ServiceTrans(s: Host, t: Host, u: Host)
    requires OnlyService(s, t) && OnlyService(t, u) && (t.log == s.log || u.log == t.log)
    ensures OnlyService(s, u)
  {
    if t.log == s.log && u.log != t.log {
      var h, addr :| h in t.peers && u.log == t.log + [Moved(h, t.peers[h].session, addr)];
      assert h in s.peers && u.log == s.log + [Moved(h, s.peers[h].session, addr)];
    }
  }

  lemma TouchedService(s: Host, h: Handle)
    requires h.index < |s.schedules|
    ensures OnlyService(s, Touched(s, h)) && Touched(s, h).log == s.log
  {
  }

  lemma WithConnService(s: Host, h: Handle, c: Conn)
    requires h in s.peers
    ensures OnlyService(s, WithConn(s, h, c)) && WithConn(s, h, c).log == s.log
  {
  }

  lemma PumpedService(s: Host, h: Handle)
    requires Slotted(s, h)
    ensures OnlyService(s, Pumped(s, h))
  {
    hide LastClosed, LastMigrated;
    var moved := LastMigrated(s.peers[h].conn.events);
    if moved.Some? {
      assert Pumped(s, h).log == s.log + [Moved(h, s.peers[h].session, moved.value)];
    }
  }

  lemma ServicedService(s: Host, h: Handle, c: Conn)
    requires Slotted(s, h)
    ensures OnlyService(s, Serviced(s, h, c))
  {
    hide OnlyService, Pumped;
    var t := WithConn(s, h, c);
    WithConnService(s, h, c);
    TouchedService(t, h);
    ServiceTrans(s, t, Touched(t, h));
    PumpedService(Touched(t, h), h);
    ServiceTrans(s, Touched(t, h), Pumped(Touched(t, h), h));
  }

  /** Changed and queued, in the other order. */
  lemma RaisedService(s: Host, h: Handle, c: Conn)
    requires Slotted(s, h)
    ensures OnlyService(s, WithConn(Touched(s, h), h, c))
  {
    hide OnlyService;
    TouchedService(s, h);
    WithConnService(Touched(s, h), h, c);
    ServiceTrans(s, Touched(s, h), WithConn(Touched(s, h), h, c));
  }

  lemma DrainedService(s: Host, now: nat)
    requires s.ready != [] && s.ready[0] in s.peers ==>
               Slotted(s, s.ready[0]) && Transmittable(s.peers[s.ready[0]].conn)
               && B.Consistent(s.peers[s.ready[0]].conn.budget)
    ensures OnlyService(s, Drained(s, now))
  {
    hide PollTransmit, Deadline, Transmittable, B.Consistent, OnlyService, WithConn;
    if s.ready != [] {
      var h, s1, t := s.ready[0], s.(ready := s.ready[1..]), Drained(s, now);
      BookkeepingService(s, s1);
      if h in s.peers {
        var s2 := WithConn(s1, h, PollTransmit(s.peers[h].conn, now).conn);
        WithConnService(s1, h, PollTransmit(s.peers[h].conn, now).conn);
        ServiceTrans(s, s1, s2);
        BookkeepingService(s2, t);
        ServiceTrans(s, s2, t);
      }
    } else {
      SelfService(s);
    }
  }

  lemma BookkeepingService(s: Host, t: Host)
    requires t == s.(schedules := t.schedules, timers := t.timers, ready := t.ready, retiring := t.retiring)
    ensures OnlyService(s, t)
  {
  }

  lemma FiredService(s: Host, now: nat, slot: nat)
    requires AllSlotted(s) && AllShaped(s)
    ensures OnlyService(s, Fired(s, now, slot))
  {
    hide HandleTimeout, Serviced, OnlyService;
    SelfService(s);
    var s1 := s.(timers := s.timers - {slot});
    BookkeepingService(s, s1);
    if slot in s.timers && s.timers[slot] <= now && At(s, slot).Some? {
      var h := At(s, slot).value;
      ServicedService(s1, h, HandleTimeout(s.peers[h].conn, now));
      ServiceTrans(s, s1, Serviced(s1, h, HandleTimeout(s.peers[h].conn, now)));
    }
  }

  lemma RoutedService(s: Host, now: nat, from: nat, slot: nat, occupancy: nat, d: Datagram, token: nat)
    requires AllSlotted(s) && AllShaped(s) && HeaderShaped(d.header)
    ensures OnlyService(s, Routed(s, now, from, slot, occupancy, d, token))
  {
    hide HandleDatagram, Serviced, OccupancyOf, OnlyService;
    SelfService(s);
    var h := Found(s, slot, occupancy);
    if h.Some? {
      ServicedService(s, h.value, HandleDatagram(s.peers[h.value].conn, now, from, d, token).conn);
    }
  }

  lemma ChangedService(s: Host, h: Handle, op: Op)
    requires AllSlotted(s) && AllShaped(s)
    ensures OnlyService(s, Changed(s, h, op))
  {
    hide Operated, OnlyService, Touched, WithConn;
    SelfService(s);
    if h in s.peers {
      RaisedService(s, h, Operated(s.peers[h].conn, op));
    }
  }

  // ----- Time, expiry and forgetting -----

  lemma LaterLifetimes(s: Host, now: nat, count: nat, book: nat -> Ticket)
    requires 0 < count <= SHARDS && Lifetimes(s, count, book) && now >= s.clock
    ensures Lifetimes(s.(clock := now), count, book)
  {
    hide SessionsOk, LogOk, Counted, Answers, DistinctTickets, AllHome;
  }

  lemma ForgottenLifetimes(s: Host, now: nat, count: nat, book: nat -> Ticket)
    requires 0 < count <= SHARDS && Lifetimes(s, count, book) && s.clock == now
    ensures Lifetimes(Forgotten(s, now), count, book)
  {
    hide SessionsOk, LogOk, Counted, QueueOk, DistinctTickets, AllHome;
    var t := Forgotten(s, now);
    assert forall k | k in s.redeemed :: k in t.redeemed || s.expiry[k] < now;
  }

  lemma QueueTail(q: seq<Lapse>, clock: nat)
    requires QueueOk(q, clock) && q != []
    ensures QueueOk(q[1..], clock) && forall l :: l in q ==> l == q[0] || l in q[1..]
  {
    forall l | l in q && l != q[0]
      ensures l in q[1..]
    {
      var i :| 0 <= i < |q| && q[i] == l;
      assert q[1..][i - 1] == l;
    }
  }

  lemma LapsedLifetimes(s: Host, now: nat, count: nat, book: nat -> Ticket)
    requires 0 < count <= SHARDS && Lifetimes(s, count, book)
    ensures Lifetimes(Lapsed(s, now), count, book)
  {
    hide LogOk, Counted, QueueOk, DistinctTickets, AllHome, Spent, Answers, Connects, Disconnects, LiveOf, Known;
    if s.suspended != [] && Since(now, s.suspended[0].since) >= RESUME_GRACE {
      QueueTail(s.suspended, s.clock);
      var entry := s.suspended[0];
      if entry.session in s.sessions && s.sessions[entry.session].state == Suspended(entry.since) {
        var e := SessionExpired(entry.session);
        LogMore(s.nextSequence, s.log, s.sessions, e, s.nextSequence, s.sessions - {entry.session});
        CountedMore(s.log, e, s.peers);
      }
    }
  }

  lemma CountedMore(log: seq<Report>, e: Report, peers: Peers)
    requires Counted(log, peers) && !e.Connected? && !e.Disconnected?
    ensures Counted(log + [e], peers)
  {
    hide Connects, Disconnects, LiveOf;
    forall id: nat
      ensures Connects(log + [e], id) == Disconnects(log + [e], id) + |LiveOf(peers, id)|
    {
      CountsMore(log, e, id);
    }
  }

  // ----- A connection leaves -----

  lemma LiveLess(peers: Peers, h: Handle, id: nat)
    requires h in peers
    ensures |LiveOf(peers - {h}, id)| == |LiveOf(peers, id)| - (if peers[h].session == id then 1 else 0)
  {
    if peers[h].session == id {
      assert LiveOf(peers, id) == LiveOf(peers - {h}, id) + {h};
    } else {
      assert LiveOf(peers, id) == LiveOf(peers - {h}, id);
    }
  }

  lemma LeftCounted(log: seq<Report>, peers: Peers, h: Handle, e: Report)
    requires Counted(log, peers) && h in peers && e.Disconnected? && e.session == peers[h].session
    ensures Counted(log + [e], peers - {h})
  {
    hide Connects, Disconnects, LiveOf;
    forall id: nat
      ensures Connects(log + [e], id) == Disconnects(log + [e], id) + |LiveOf(peers - {h}, id)|
    {
      CountsMore(log, e, id);
      LiveLess(peers, h, id);
    }
  }

  /** The sessions once `h` has left at `now`, its own kept for resumption or not. */
  function SessionsLeft(sessions: Sessions, h: Handle, id: nat, keep: bool, now: nat): Sessions {
    if !(id in sessions && sessions[id].state == Attached(h)) then sessions
    else if keep then sessions[id := sessions[id].(state := Suspended(now))]
    else sessions - {id}
  }

  lemma LeftSessions(next: nat, sessions: Sessions, peers: Peers, suspended: seq<Lapse>, h: Handle, keep: bool,
                     now: nat)
    requires SessionsOk(next, sessions, peers, suspended) && h in peers
    requires keep ==> peers[h].session in sessions && sessions[peers[h].session].state == Attached(h)
    ensures SessionsOk(next, SessionsLeft(sessions, h, peers[h].session, keep, now), peers - {h},
                       if keep then suspended + [Lapse(now, peers[h].session)] else suspended)
  {
    hide Known;
    var mine := peers[h].session;
    var sessions', peers' := SessionsLeft(sessions, h, mine, keep, now), peers - {h};
    forall id | id in sessions' && sessions'[id].state.Attached?
      ensures Holds(peers', id, sessions'[id].state.h)
    {
      assert id in sessions && sessions'[id] == sessions[id];
      assert Holds(peers, id, sessions[id].state.h);
    }
  }

  lemma QueueMore(q: seq<Lapse>, clock: nat, id: nat)
    requires QueueOk(q, clock)
    ensures QueueOk(q + [Lapse(clock, id)], clock)
  {
  }

  lemma LeftTickets(minted: seq<nat>, redeemed: map<nat, Option<Handle>>, expiry: map<nat, nat>, clock: nat,
                    book: nat -> Ticket, peers: Peers, h: Handle)
    requires Spent(minted, redeemed, expiry, clock, book) && Answers(redeemed, peers) && h in peers
    ensures var redeemed' := if peers[h].ticket in redeemed then redeemed[peers[h].ticket := None] else redeemed;
            Spent(minted, redeemed', expiry, clock, book) && Answers(redeemed', peers - {h})
  {
  }

  /** What retiring a live connection does to sessions and tickets. */
  lemma RetiredParts(s: Host, h: Handle, now: nat) returns (reason: nat, keep: bool, log: seq<Report>)
    requires Slotted(s, h)
    ensures LogMoves(s.peers, s.log, log)
    ensures keep ==> s.peers[h].session in s.sessions && s.sessions[s.peers[h].session].state == Attached(h)
    ensures var t := Retired(s, h, now);
            var p := s.peers[h];
            && t.peers == s.peers - {h} && t.log == log + [Disconnected(p.session, reason, keep)]
            && t.redeemed == (if p.ticket in s.redeemed then s.redeemed[p.ticket := None] else s.redeemed)
            && t.sessions == SessionsLeft(s.sessions, h, p.session, keep, now)
            && t.suspended == (if keep then s.suspended + [Lapse(now, p.session)] else s.suspended)
            && t == s.(peers := t.peers, schedules := t.schedules, timers := t.timers, log := t.log,
                       redeemed := t.redeemed, sessions := t.sessions, suspended := t.suspended)
  {
    hide LastClosed, LastMigrated;
    PumpedService(s, h);
    var s1, p := Pumped(s, h), s.peers[h];
    reason, log := s1.schedules[h.index].closedWith, s1.log;
    keep := p.session in s.sessions && s.sessions[p.session].state == Attached(h) && reason != REQUESTED
        && reason != SHUTDOWN;
    assert s1.peers - {h} == s.peers - {h};
  }

  lemma RetiredLifetimes(s: Host, h: Handle, count: nat, book: nat -> Ticket)
    requires 0 < count <= SHARDS && Lifetimes(s, count, book) && Slotted(s, h)
    ensures Lifetimes(Retired(s, h, s.clock), count, book)
  {
    hide SessionsOk, QueueOk, DistinctTickets, AllHome, Spent, Answers, LogOk, Counted, LogMoves, Retired;
    var reason, keep, log := RetiredParts(s, h, s.clock);
    var t, id := Retired(s, h, s.clock), s.peers[h].session;
    MovesLog(s.nextSequence, s.log, s.sessions, s.peers, log, s.suspended);
    var e := Disconnected(id, reason, keep);
    PeerKnown(s.nextSequence, s.sessions, s.peers, s.suspended, h);
    LogMore(s.nextSequence, log, s.sessions, e, s.nextSequence, t.sessions);
    LeftCounted(log, s.peers, h, e);
    LeftSessions(s.nextSequence, s.sessions, s.peers, s.suspended, h, keep, s.clock);
    LeftTickets(s.minted, s.redeemed, s.expiry, s.clock, book, s.peers, h);
    QueueMore(s.suspended, s.clock, id);
  }

  lemma PeerKnown(next: nat, sessions: Sessions, peers: Peers, suspended: seq<Lapse>, h: Handle)
    requires SessionsOk(next, sessions, peers, suspended) && h in peers
    ensures Known(next, peers[h].session)
  {
  }

  lemma ReapedLifetimes(s: Host, count: nat, book: nat -> Ticket)
    requires 0 < count <= SHARDS && Lifetimes(s, count, book) && AllSlotted(s)
    ensures Lifetimes(Reaped(s, s.clock), count, book)
  {
    hide Lifetimes, Retired;
    if s.retiring != [] {
      var s1, h := s.(retiring := s.retiring[1..]), s.retiring[0];
      assert Lifetimes(s1, count, book) by { QueueFree(s, s.retiring[1..], count, book); }
      if h in s.peers {
        RetiredLifetimes(s1, h, count, book);
      } else {
        RetiredNone(s1, h);
      }
    }
  }

  lemma RetiredNone(s: Host, h: Handle)
    requires h !in s.peers
    ensures Retired(s, h, s.clock) == s
  {
  }

  lemma QueueFree(s: Host, retiring: seq<Handle>, count: nat, book: nat -> Ticket)
    requires 0 < count <= SHARDS && Lifetimes(s, count, book)
    ensures Lifetimes(s.(retiring := retiring), count, book)
  {
    hide SessionsOk, QueueOk, DistinctTickets, AllHome, Spent, Answers, LogOk, Counted;
  }

  // ----- A connection arrives -----

  lemma LiveMore(peers: Peers, h: Handle, p: Peer, id: nat)
    requires h !in peers
    ensures |LiveOf(peers[h := p], id)| == |LiveOf(peers, id)| + (if p.session == id then 1 else 0)
  {
    if p.session == id {
      assert LiveOf(peers[h := p], id) == LiveOf(peers, id) + {h};
    } else {
      assert LiveOf(peers[h := p], id) == LiveOf(peers, id);
    }
  }

  lemma JoinedCounted(log: seq<Report>, peers: Peers, h: Handle, p: Peer, e: Report)
    requires Counted(log, peers) && h !in peers && e.Connected? && e.session == p.session
    ensures Counted(log + [e], peers[h := p])
  {
    hide Connects, Disconnects, LiveOf;
    forall id: nat
      ensures Connects(log + [e], id) == Disconnects(log + [e], id) + |LiveOf(peers[h := p], id)|
    {
      CountsMore(log, e, id);
      LiveMore(peers, h, p, id);
    }
  }

  lemma JoinedSessions(next: nat, sessions: Sessions, peers: Peers, suspended: seq<Lapse>, next': nat, h: Handle,
                       p: Peer, owner: nat)
    requires SessionsOk(next, sessions, peers, suspended) && next <= next' && h !in peers && Known(next', p.session)
    ensures SessionsOk(next', sessions[p.session := Session(owner, Attached(h))], peers[h := p], suspended)
  {
    var sessions' := sessions[p.session := Session(owner, Attached(h))];
    forall id | id in sessions' && sessions'[id].state.Attached?
      ensures Holds(peers[h := p], id, sessions'[id].state.h)
    {
      if id != p.session {
        assert Holds(peers, id, sessions[id].state.h);
      }
    }
  }

  /** A ticket good now and not remembered has never been spent. */
  lemma NotSpent(minted: seq<nat>, redeemed: map<nat, Option<Handle>>, expiry: map<nat, nat>, clock: nat,
                 book: nat -> Ticket, t: nat)
    requires Spent(minted, redeemed, expiry, clock, book) && t !in redeemed && clock <= book(t).expires
    ensures t !in minted
  {
  }

  lemma JoinedTickets(minted: seq<nat>, redeemed: map<nat, Option<Handle>>, expiry: map<nat, nat>, clock: nat,
                      book: nat -> Ticket, peers: Peers, h: Handle, p: Peer)
    requires Spent(minted, redeemed, expiry, clock, book) && Answers(redeemed, peers) && h !in peers
    requires DistinctTickets(minted) && p.ticket !in minted
    ensures DistinctTickets(minted + [p.ticket])
    ensures Spent(minted + [p.ticket], redeemed[p.ticket := Some(h)], expiry[p.ticket := book(p.ticket).expires], clock,
                  book)
    ensures Answers(redeemed[p.ticket := Some(h)], peers[h := p])
  {
    assert forall t | t in minted + [p.ticket] :: t in minted || t == p.ticket;
  }

  lemma AdmittedParts(s: Host, now: nat, from: nat, cookie: Cookie, session: nat, h: Handle) returns (p: Peer)
    requires h.index < |s.schedules|
    ensures p.session == session && p.ticket == cookie.id
    ensures var t := Admitted(s, now, from, cookie, session, h);
            && t.peers == s.peers[h := p]
            && t.sessions == s.sessions[session := Session(cookie.ticket.client, Attached(h))]
            && t.redeemed == s.redeemed[cookie.id := Some(h)]
            && t.expiry == s.expiry[cookie.id := cookie.ticket.expires]
            && t.minted == s.minted + [cookie.id]
            && t.log == s.log + [Connected(h, session, cookie.ticket.session.Some?)]
            && t.suspended == s.suspended && t.nextSequence == s.nextSequence && t.clock == s.clock
            && t.shard == s.shard
            && t.cfg == s.cfg
  {
    hide New;
    p := Peer(New(now, Role.Server(None), from, s.kinds, s.cfg), session, cookie.id);
  }

  lemma HomeMore(minted: seq<nat>, count: nat, book: nat -> Ticket, shard: nat, t: nat)
    requires 0 < count <= SHARDS && AllHome(minted, count, book, shard) && Home(count, book(t), t) == Some(shard)
    ensures AllHome(minted + [t], count, book, shard)
  {
    hide Home;
  }

  /** Admission, from the state before the session id was drawn and any takeover. */
  lemma AdmittedLifetimes(s: Host, s1: Host, from: nat, cookie: Cookie, session: nat, h: Handle, count: nat,
                          book: nat -> Ticket)
    requires 0 < count <= SHARDS && Lifetimes(s, count, book)
    requires cookie.ticket == book(cookie.id) && Home(count, book(cookie.id), cookie.id) == Some(s.shard)
    requires cookie.id !in s.redeemed && s.clock <= cookie.ticket.expires
    requires s.nextSequence <= s1.nextSequence && Known(s1.nextSequence, session)
    requires session in s.sessions || !Known(s.nextSequence, session)
    requires OnlyService(s.(nextSequence := s1.nextSequence), s1) && s1.log == s.log
    requires h !in s.peers && h.index < |s1.schedules|
    ensures Lifetimes(Admitted(s1, s.clock, from, cookie, session, h), count, book)
  {
    hide SessionsOk, QueueOk, DistinctTickets, AllHome, Spent, Answers, LogOk, Counted, Admitted, Known,
         Home, SameOwners, LogMoves;
    var p := AdmittedParts(s1, s.clock, from, cookie, session, h);
    var e := Connected(h, session, cookie.ticket.session.Some?);
    OwnersKept(s.nextSequence, s.sessions, s.suspended, s.redeemed, s.log, s.peers, s1.peers);
    assert h !in s1.peers by { SameKeys(s.peers, s1.peers); }
    JoinedSessions(s.nextSequence, s.sessions, s1.peers, s.suspended, s1.nextSequence, h, p, cookie.ticket.client);
    NotSpent(s.minted, s.redeemed, s.expiry, s.clock, book, cookie.id);
    JoinedTickets(s.minted, s.redeemed, s.expiry, s.clock, book, s1.peers, h, p);
    HomeMore(s.minted, count, book, s.shard, cookie.id);
    LogMore(s.nextSequence, s.log, s.sessions, e, s1.nextSequence,
            s.sessions[session := Session(cookie.ticket.client, Attached(h))]);
    JoinedCounted(s.log, s1.peers, h, p, e);
  }

  lemma SameKeys(peers: Peers, peers': Peers)
    requires SameOwners(peers, peers')
    ensures peers'.Keys == peers.Keys
  {
  }

  /** Drawing a session id uses it up. */
  lemma DrawnLifetimes(s: Host, count: nat, book: nat -> Ticket)
    requires 0 < count <= SHARDS && Lifetimes(s, count, book)
    ensures Lifetimes(s.(nextSequence := s.nextSequence + 1), count, book)
    ensures var id := SessionId(s.nextSequence, s.shard); !Known(s.nextSequence, id) && Known(s.nextSequence + 1, id)
  {
    hide QueueOk, DistinctTickets, AllHome, Spent, Answers, LogOk, Counted;
    LogKept(s.nextSequence, s.log, s.sessions, s.nextSequence + 1, s.sessions);
  }

  lemma TakenOverService(s: Host, session: nat)
    requires AllSlotted(s)
    ensures OnlyService(s, TakenOver(s, session)) && TakenOver(s, session).log == s.log
    ensures |TakenOver(s, session).schedules| == |s.schedules| && TakenOver(s, session).nextSequence == s.nextSequence
  {
    hide RequestClose, OnlyService;
    SelfService(s);
    if session in s.sessions && s.sessions[session].state.Attached? && s.sessions[session].state.h in s.peers {
      var h := s.sessions[session].state.h;
      RaisedService(s, h, RequestClose(s.peers[h].conn, REPLACED));
    }
  }

  lemma ResumableKnown(s: Host, count: nat, book: nat -> Ticket, id: nat)
    requires 0 < count <= SHARDS && Lifetimes(s, count, book) && id in s.sessions
    ensures Known(s.nextSequence, id)
  {
  }

  lemma RespondedLifetimes(s: Host, from: nat, cookie: Cookie, h: Option<Handle>, count: nat, book: nat -> Ticket)
    requires 0 < count <= SHARDS && Lifetimes(s, count, book) && AllSlotted(s)
    requires cookie.ticket == book(cookie.id) && Home(count, book(cookie.id), cookie.id) == Some(s.shard)
    requires h.Some? ==> h.value !in s.peers && h.value.index < |s.schedules|
    ensures Lifetimes(Responded(s, s.clock, from, cookie, h), count, book)
  {
    hide Lifetimes, TakenOver, Admitted, WithConn, OnlyService, Home, Known, SessionId;
    if cookie.addr == from && Since(s.clock, cookie.issued) <= COOKIE_LIFETIME {
      if cookie.id in s.redeemed {
        if s.redeemed[cookie.id].Some? && s.redeemed[cookie.id].value in s.peers {
          var k := s.redeemed[cookie.id].value;
          var c := s.peers[k].conn.(control := s.peers[k].conn.control.(accepted := true));
          RaisedService(s, k, c);
          ServiceLifetimes(s, WithConn(Touched(s, k), k, c), count, book);
        }
      } else if TicketOk(s, s.clock, cookie.ticket) && |s.peers| < s.capacity {
        var resumed := cookie.ticket.session.Some?;
        var session := if resumed then cookie.ticket.session.value else SessionId(s.nextSequence, s.shard);
        var s0 := if resumed then s else s.(nextSequence := s.nextSequence + 1);
        DrawnLifetimes(s, count, book);
        if resumed {
          ResumableKnown(s, count, book, session);
        }
        TakenOverService(s0, session);
        ServiceLifetimes(s0, TakenOver(s0, session), count, book);
        if h.Some? {
          AdmittedLifetimes(s, TakenOver(s0, session), from, cookie, session, h.value, count, book);
        }
      }
    }
  }
}
