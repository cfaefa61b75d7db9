/** Every run of a group of endpoints. */
module EndpointRuns {
  import opened Machine
  import opened Frames
  import opened Connection
  import opened Slab
  import opened Endpoint
  import opened EndpointScheduler
  import opened EndpointSessions
  import I = ConnectionInvariant
  import W = Wire

  ghost predicate Good(s: Host, count: nat, book: nat -> Ticket)
    requires 0 < count <= SHARDS
  {
    ConfigValid(s.cfg) && Scheduled(s) && Lifetimes(s, count, book)
  }

  lemma FreshGood(shard: nat, capacity: nat, kinds: Kinds, cfg: Config, clock: nat, count: nat, book: nat -> Ticket)
    requires 0 < count <= SHARDS && shard < count && ConfigValid(cfg)
    ensures Good(Fresh(shard, capacity, kinds, cfg, clock), count, book)
  {
    hide ConfigValid;
    assert forall id: nat :: LiveOf(map[], id) == {};
  }

  // ----- Waking in time -----

  /** The endpoint never sleeps past a connection's deadline. */
  lemma WakesForConnections(s: Host, h: Handle)
    requires Scheduled(s) && h in s.peers && Deadline(s.peers[h].conn).Some?
    ensures NextWork(s).Some? && NextWork(s).value <= Deadline(s.peers[h].conn).value
  {
    hide PeersOk, Deadline, SlotsOk, QueuesOk, TimersOk;
    assert ArmedFor(s, h);
  }

  /** Nor past the end of a suspended session's grace period. */
  lemma WakesForSessions(s: Host, count: nat, book: nat -> Ticket, id: nat)
    requires 0 < count <= SHARDS && Lifetimes(s, count, book) && id in s.sessions && s.sessions[id].state.Suspended?
    ensures NextWork(s).Some? && NextWork(s).value <= SatAdd(s.sessions[id].state.since, RESUME_GRACE)
  {
    hide LogOk, Counted, Spent, Answers, AllHome, DistinctTickets;
    var l := Lapse(s.sessions[id].state.since, id);
    assert l in s.suspended;
    var i :| 0 <= i < |s.suspended| && s.suspended[i] == l;
    assert s.suspended[0].since <= s.suspended[i].since;
  }

  /** A slot holds at most one live connection, so looking there is a search of all of them. */
  lemma FoundExact(s: Host, slot: nat, occupancy: nat)
    requires Scheduled(s)
    ensures forall h ::
              Found(s, slot, occupancy) == Some(h) <==> h in s.peers && h.index == slot && OccupancyOf(h) == occupancy
  {
    hide PeersOk, QueuesOk, TimersOk, Armed, OccupancyOf;
    var found := At(s, slot);
    forall h
      ensures Found(s, slot, occupancy) == Some(h) <==> h in s.peers && h.index == slot && OccupancyOf(h) == occupancy
    {
      if h in s.peers && h.index == slot {
        assert found.Some? && found.value == h;
      }
    }
  }


  /** The id a connection goes by on the wire. */
  function ConnIdOf(s: Host, h: Handle): nat
    requires s.shard < SHARDS
  {
    W.Packed(h.index, h.generation / 2, s.shard)
  }

  /** Routing by the slot and occupancy packed in a connection id finds exactly the live connection
  that goes by that id, as a search of all of them would. */
  lemma FoundById(s: Host, id: nat)
    requires Scheduled(s) && s.capacity <= W.SLOTS && s.shard < SHARDS && id < U32 && W.Unpacked(id).shard == s.shard
    ensures var c := W.Unpacked(id);
            forall h :: Found(s, c.slot, c.occupancy) == Some(h) <==> h in s.peers && ConnIdOf(s, h) == id
  {
    hide QueuesOk, TimersOk, Armed, Found, W.Packed, W.Unpacked, I.Valid;
    var c := W.Unpacked(id);
    FoundExact(s, c.slot, c.occupancy);
    W.PackUnpacked(id);
    forall h
      ensures Found(s, c.slot, c.occupancy) == Some(h) <==> h in s.peers && ConnIdOf(s, h) == id
    {
      if h in s.peers {
        W.UnpackPacked(h.index, h.generation / 2, s.shard);
        W.PackedLow(h.index, h.generation / 2, s.shard);
      }
    }
  }

  // ----- Steps -----

  lemma StepLifetimes(s: Host, st: Step, count: nat, book: nat -> Ticket)
    requires 0 < count <= SHARDS && Scheduled(s) && Lifetimes(s, count, book) && Allowed(s, st, count, book)
    ensures PeersOk(s) && Lifetimes(Stepped(s, st), count, book)
  {
    hide Scheduled, Lifetimes, I.Valid, Responded, Routed, Drained, Fired, Reaped, Lapsed, Forgotten,
         Changed, OnlyService, Home, Transmittable;
    SlottedOf(s);
    PeersShaped(s);
    var u := s.(clock := st.now);
    LaterLifetimes(s, st.now, count, book);
    match st
    case Respond(_, from, cookie, h) =>
      RespondedLifetimes(u, from, cookie, h, count, book);
    case Payload(now, from, slot, occupancy, d, token) =>
      RoutedService(u, now, from, slot, occupancy, d, token);
      ServiceLifetimes(u, Routed(u, now, from, slot, occupancy, d, token), count, book);
    case Drain(now) =>
      DrainedService(u, now);
      ServiceLifetimes(u, Drained(u, now), count, book);
    case Fire(now, slot) =>
      FiredService(u, now, slot);
      ServiceLifetimes(u, Fired(u, now, slot), count, book);
    case Reap(_) => ReapedLifetimes(u, count, book);
    case Expire(now) => LapsedLifetimes(u, now, count, book);
    case Forget(now) => ForgottenLifetimes(u, now, count, book);
    case Change(now, h, op) =>
      ChangedService(u, h, op);
      ServiceLifetimes(u, Changed(u, h, op), count, book);
  }

  lemma StepGood(s: Host, st: Step, count: nat, book: nat -> Ticket)
    requires 0 < count <= SHARDS && Good(s, count, book) && Allowed(s, st, count, book)
    ensures PeersOk(s) && Good(Stepped(s, st), count, book)
    ensures Stepped(s, st).shard == s.shard
  {
    hide Scheduled, Lifetimes, Stepped, Allowed, ConfigValid;
    StepScheduled(s, st, count, book);
    StepLifetimes(s, st, count, book);
    SlottedOf(s);
    StepFixed(s, st, count, book);
  }

  /** What no step changes, and history only grows. */
  ghost predicate Fixed(s: Host, t: Host) {
    t.shard == s.shard && t.cfg == s.cfg && s.minted <= t.minted && s.log <= t.log && s.clock <= t.clock
  }

  lemma ServiceFixed(s: Host, t: Host)
    requires OnlyService(s, t)
    ensures Fixed(s, t) && t.clock == s.clock
  {
    hide SameOwners;
  }

  lemma ReapedFixed(s: Host, now: nat)
    requires AllSlotted(s)
    ensures Fixed(s, Reaped(s, now))
  {
    hide Retired, SessionsLeft;
    if s.retiring != [] {
      var s1, h := s.(retiring := s.retiring[1..]), s.retiring[0];
      if h in s.peers {
        var reason, keep, log := EndpointSessions.RetiredParts(s1, h, now);
      } else {
        RetiredDead(s1, h, now);
      }
    }
  }

  lemma RespondedFixed(s: Host, now: nat, from: nat, cookie: Cookie, h: Option<Handle>)
    requires AllSlotted(s) && (h.Some? ==> h.value.index < |s.schedules|)
    ensures Fixed(s, Responded(s, now, from, cookie, h))
  {
    hide TakenOver, Admitted, Touched, SessionId, TicketOk, OnlyService;
    if cookie.id in s.redeemed && s.redeemed[cookie.id].Some? && s.redeemed[cookie.id].value in s.peers {
      TouchedService(s, s.redeemed[cookie.id].value);
      ServiceFixed(s, Touched(s, s.redeemed[cookie.id].value));
    }
    var resumed := cookie.ticket.session.Some?;
    var session := if resumed then cookie.ticket.session.value else SessionId(s.nextSequence, s.shard);
    var s0 := if resumed then s else s.(nextSequence := s.nextSequence + 1);
    TakenOverService(s0, session);
    ServiceFixed(s0, TakenOver(s0, session));
    if h.Some? {
      var p := EndpointSessions.AdmittedParts(TakenOver(s0, session), now, from, cookie, session, h.value);
    }
  }

  lemma StepFixed(s: Host, st: Step, count: nat, book: nat -> Ticket)
    requires 0 < count <= SHARDS && PeersOk(s) && Allowed(s, st, count, book)
    ensures Fixed(s, Stepped(s, st))
  {
    hide I.Valid, Responded, Routed, Drained, Fired, Reaped, Changed, OnlyService, Home, Transmittable;
    PeersShaped(s);
    var u := s.(clock := st.now);
    match st
    case Respond(now, from, cookie, h) => RespondedFixed(u, now, from, cookie, h);
    case Payload(now, from, slot, occupancy, d, token) =>
      RoutedService(u, now, from, slot, occupancy, d, token);
      ServiceFixed(u, Routed(u, now, from, slot, occupancy, d, token));
    case Drain(now) =>
      DrainedService(u, now);
      ServiceFixed(u, Drained(u, now));
    case Fire(now, slot) =>
      FiredService(u, now, slot);
      ServiceFixed(u, Fired(u, now, slot));
    case Reap(now) => ReapedFixed(u, now);
    case Expire(_) =>
    case Forget(_) =>
    case Change(now, h, op) =>
      ChangedService(u, h, op);
      ServiceFixed(u, Changed(u, h, op));
  }

  // ----- Runs of a group -----

  datatype GroupStep = GroupStep(shard: nat, step: Step)

  /** States of a group of `count` endpoints, each next one reached by a step of one member. */
  ghost predicate GroupRun(gs: seq<seq<Host>>, steps: seq<GroupStep>, count: nat, book: nat -> Ticket)
    requires 0 < count <= SHARDS
  {
    && |gs| == |steps| + 1 && (forall k | 0 <= k < |gs| :: |gs[k]| == count)
    && (forall k | 0 <= k < |steps| ::
          && steps[k].shard < count && PeersOk(gs[k][steps[k].shard])
          && Allowed(gs[k][steps[k].shard], steps[k].step, count, book)
          && gs[k + 1] == gs[k][steps[k].shard := Stepped(gs[k][steps[k].shard], steps[k].step)])
  }

  ghost predicate AllGood(g: seq<Host>, count: nat, book: nat -> Ticket)
    requires 0 < count <= SHARDS
  {
    forall i | 0 <= i < |g| :: g[i].shard == i && Good(g[i], count, book)
  }

  lemma {:induction false} GroupGood(gs: seq<seq<Host>>, steps: seq<GroupStep>, count: nat, book: nat -> Ticket, n: nat)
    requires 0 < count <= SHARDS && GroupRun(gs, steps, count, book) && n < |gs| && AllGood(gs[0], count, book)
    ensures AllGood(gs[n], count, book)
    decreases n
  {
    hide Good, Stepped, Allowed, PeersOk;
    if n > 0 {
      GroupGood(gs, steps, count, book, n - 1);
      var i := steps[n - 1].shard;
      StepGood(gs[n - 1][i], steps[n - 1].step, count, book);
    }
  }

  /** Whatever the order of handshakes, retries, replays and expiries, and whichever member of
  the group each reaches: a ticket has produced at most one connection. */
  lemma TicketsSpentOnce(gs: seq<seq<Host>>, steps: seq<GroupStep>, count: nat, book: nat -> Ticket, n: nat,
                         i: nat, j: nat, x: nat, y: nat)
    requires 0 < count <= SHARDS && GroupRun(gs, steps, count, book) && n < |gs| && AllGood(gs[0], count, book)
    requires i < count && j < count && x < |gs[n][i].minted| && y < |gs[n][j].minted|
    requires gs[n][i].minted[x] == gs[n][j].minted[y]
    ensures i == j && x == y
  {
    hide Scheduled, ConfigValid, SessionsOk, QueueOk, Spent, Answers, LogOk, Counted, Home, GroupRun;
    GroupSized(gs, steps, count, book, n);
    GroupGood(gs, steps, count, book, n);
    var t := gs[n][i].minted[x];
    assert t in gs[n][i].minted && t in gs[n][j].minted;
    assert Home(count, book(t), t) == Some(gs[n][i].shard) && Home(count, book(t), t) == Some(gs[n][j].shard);
  }

  lemma GroupSized(gs: seq<seq<Host>>, steps: seq<GroupStep>, count: nat, book: nat -> Ticket, n: nat)
    requires 0 < count <= SHARDS && GroupRun(gs, steps, count, book) && n < |gs|
    ensures |gs[n]| == count
  {
    hide Stepped, Allowed, PeersOk;
  }

  /** In every reachable state of every member: an attached session names a live connection of
  its own; each session's connections are accounted for, live or reported gone once; and
  after a session is reported expired it is neither connected nor expired again. */
  lemma SessionsOverRuns(gs: seq<seq<Host>>, steps: seq<GroupStep>, count: nat, book: nat -> Ticket, n: nat, i: nat,
                         id: nat)
    requires 0 < count <= SHARDS && GroupRun(gs, steps, count, book) && n < |gs| && AllGood(gs[0], count, book)
             && i < count
    ensures |gs[n]| == count
    ensures var s := gs[n][i];
            && (id in s.sessions && s.sessions[id].state.Attached? ==>
                  s.sessions[id].state.h in s.peers && s.peers[s.sessions[id].state.h].session == id)
            && Connects(s.log, id) == Disconnects(s.log, id) + |LiveOf(s.peers, id)|
            && (forall x, y | 0 <= x < y < |s.log| && s.log[x] == SessionExpired(id) ::
                  s.log[y] != SessionExpired(id) && !(s.log[y].Connected? && s.log[y].session == id))
  {
    hide Scheduled, ConfigValid, QueueOk, Spent, Answers, Home, GroupRun, DistinctTickets, AllHome, Connects,
         Disconnects, LiveOf, Known;
    GroupSized(gs, steps, count, book, n);
    GroupGood(gs, steps, count, book, n);
    var s := gs[n][i];
    if id in s.sessions && s.sessions[id].state.Attached? {
      assert EndpointSessions.Holds(s.peers, id, s.sessions[id].state.h);
    }
    forall x, y | 0 <= x < y < |s.log| && s.log[x] == SessionExpired(id)
      ensures s.log[y] != SessionExpired(id) && !(s.log[y].Connected? && s.log[y].session == id)
    {
      assert QuietAfter(s.log, x);
    }
  }

  /** In every reachable state of every member, each live connection is queued to transmit, or
  armed for its own deadline, or closed and queued for removal; queues repeat nothing; no
  timer outlives its connection; and the endpoint wakes in time for every one of them. */
  lemma ScheduledOverRuns(gs: seq<seq<Host>>, steps: seq<GroupStep>, count: nat, book: nat -> Ticket, n: nat, i: nat)
    requires 0 < count <= SHARDS && GroupRun(gs, steps, count, book) && n < |gs| && AllGood(gs[0], count, book)
             && i < count
    ensures |gs[n]| == count
    ensures var s := gs[n][i];
            && Distinct(s.ready) && Distinct(s.retiring)
            && (forall h | h in s.peers ::
                  && ArmedFor(s, h)
                  && (Deadline(s.peers[h].conn).Some? ==>
                        NextWork(s).Some? && NextWork(s).value <= Deadline(s.peers[h].conn).value))
            && (forall slot | slot in s.timers :: exists h :: h in s.peers && h.index == slot)
            && (forall id | id in s.sessions && s.sessions[id].state.Suspended? ::
                  NextWork(s).Some? && NextWork(s).value <= SatAdd(s.sessions[id].state.since, RESUME_GRACE))
  {
    hide PeersOk, SlotsOk, GroupRun, Lifetimes, ConfigValid, Deadline, NextWork, ArmedFor;
    GroupSized(gs, steps, count, book, n);
    GroupGood(gs, steps, count, book, n);
    var s := gs[n][i];
    forall h | h in s.peers && Deadline(s.peers[h].conn).Some?
      ensures NextWork(s).Some? && NextWork(s).value <= Deadline(s.peers[h].conn).value
    {
      WakesForConnections(s, h);
    }
    forall slot | slot in s.timers
      ensures exists h :: h in s.peers && h.index == slot
    {
      assert Occupied(s, slot);
    }
    forall id | id in s.sessions && s.sessions[id].state.Suspended?
      ensures NextWork(s).Some? && NextWork(s).value <= SatAdd(s.sessions[id].state.since, RESUME_GRACE)
    {
      WakesForSessions(s, count, book, id);
    }
  }
}
