/** Whose a session is, and how it ends, over every run of a group of endpoints: which response makes
a connection, to whom a session belongs from its first connection to its last, and what each step
does to it. */
module EndpointOwners {
  import opened Machine
  import opened Connection
  import opened Slab
  import opened Endpoint
  import opened EndpointScheduler
  import opened EndpointSessions
  import opened EndpointRuns
  import D = Deadlines
  import I = ConnectionInvariant

  const SECOND: nat := 1_000_000_000

  // ----- Responses -----

  /** The session is this client's to resume: attached still, or suspended less than 45 s. */
  predicate Resumable(s: Host, now: nat, id: nat, client: nat) {
    && id in s.sessions && s.sessions[id].owner == client
    && match s.sessions[id].state
       case Attached(_) => true
       case Suspended(since) => now < since + 45 * SECOND
  }

  /** The response earns a connection, room permitting: from the address it was sealed for, within 10 s
  of that, its ticket neither spent nor out of date, and any session it names its client's own. */
  predicate Entitled(s: Host, now: nat, from: nat, cookie: Cookie) {
    && cookie.addr == from && now <= cookie.issued + 10 * SECOND
    && cookie.id !in s.redeemed && now <= cookie.ticket.expires
    && (cookie.ticket.session.Some? ==> Resumable(s, now, cookie.ticket.session.value, cookie.ticket.client))
    && |s.peers| < s.capacity
  }

  /** The session a response is for: the one it names, or the shard's next. */
  function Wanted(s: Host, cookie: Cookie): nat {
    if cookie.ticket.session.Some? then cookie.ticket.session.value else 256 * s.nextSequence + s.shard
  }

  /** Everyone else's connection is left alone, but whoever held the session is told to close. */
  ghost predicate Replaced(s: Host, t: Host, id: nat) {
    forall k | k in s.peers ::
      && k in t.peers
      && t.peers[k] == if id in s.sessions && s.sessions[id].state == Attached(k)
                       then s.peers[k].(conn := RequestClose(s.peers[k].conn, REPLACED)) else s.peers[k]
  }

  lemma TouchedOnly(s: Host, h: Handle)
    requires h.index < |s.schedules|
    ensures var t := Touched(s, h);
            && t == s.(schedules := t.schedules, ready := t.ready) && |t.schedules| == |s.schedules|
            && t.schedules[h.index].ready
  {
  }

  lemma TakenOverExact(s: Host, id: nat)
    requires AllSlotted(s)
    ensures var t := TakenOver(s, id);
            && t.peers.Keys == s.peers.Keys && Replaced(s, t, id)
            && t == s.(peers := t.peers, schedules := t.schedules, ready := t.ready)
            && |t.schedules| == |s.schedules|
  {
    hide RequestClose, Touched;
    if id in s.sessions && s.sessions[id].state.Attached? && s.sessions[id].state.h in s.peers {
      TouchedOnly(s, s.sessions[id].state.h);
    }
  }

  lemma EntitledEnough(s: Host, now: nat, from: nat, cookie: Cookie, h: Option<Handle>)
    requires AllSlotted(s) && (h.Some? ==> h.value.index < |s.schedules|)
    ensures Entitled(s, now, from, cookie) ==>
              Responded(s, now, from, cookie, h) == Established(s, now, from, cookie, h)
    ensures !Entitled(s, now, from, cookie) && cookie.id !in s.redeemed ==> Responded(s, now, from, cookie, h) == s
  {
    hide Established, Touched, WithConn;
  }

  lemma AdmittedExact(s: Host, now: nat, from: nat, cookie: Cookie, id: nat, h: Handle)
    requires h.index < |s.schedules|
    ensures var t, p := Admitted(s, now, from, cookie, id, h),
                        Peer(New(now, Role.Server(None), from, s.kinds, s.cfg), id, cookie.id);
            && t.peers == s.peers[h := p]
            && t.sessions == s.sessions[id := Session(cookie.ticket.client, Attached(h))]
            && t.log == s.log + [Connected(h, id, cookie.ticket.session.Some?)]
            && t.minted == s.minted + [cookie.id] && t.redeemed == s.redeemed[cookie.id := Some(h)]
            && t.nextSequence == s.nextSequence
  {
    hide New;
  }

  /** An entitled response that finds a slot makes one connection: for the session it named or for a
  new one, which is its client's; reported once; its ticket spent. */
  lemma EntitledExact(s: Host, now: nat, from: nat, cookie: Cookie, h: Handle)
    requires AllSlotted(s) && h.index < |s.schedules| && h !in s.peers && Entitled(s, now, from, cookie)
    ensures var t, id := Responded(s, now, from, cookie, Some(h)), Wanted(s, cookie);
            && t.sessions == s.sessions[id := Session(cookie.ticket.client, Attached(h))]
            && t.log == s.log + [Connected(h, id, cookie.ticket.session.Some?)]
            && t.minted == s.minted + [cookie.id] && t.redeemed == s.redeemed[cookie.id := Some(h)]
            && t.peers.Keys == s.peers.Keys + {h}
            && t.peers[h] == Peer(New(now, Role.Server(None), from, s.kinds, s.cfg), id, cookie.id)
            && Replaced(s, t, id)
            && t.nextSequence == s.nextSequence + (if cookie.ticket.session.Some? then 0 else 1)
  {
    hide TakenOver, New, RequestClose, Responded, Admitted, Entitled;
    var resumed, id := cookie.ticket.session.Some?, Wanted(s, cookie);
    var s0 := if resumed then s else s.(nextSequence := s.nextSequence + 1);
    EntitledEnough(s, now, from, cookie, Some(h));
    TakenOverExact(s0, id);
    AdmittedExact(TakenOver(s0, id), now, from, cookie, id, h);
  }

  /** Any other response makes none: it reports nothing, moves no session and spends no ticket. One that
  is not entitled changes nothing whatever, but that a spent ticket's own connection is told again. */
  lemma RefusedExact(s: Host, now: nat, from: nat, cookie: Cookie, h: Option<Handle>)
    requires AllSlotted(s) && (h.Some? ==> h.value.index < |s.schedules|)
    requires !Entitled(s, now, from, cookie) || h.None?
    ensures var t := Responded(s, now, from, cookie, h);
            && t.sessions == s.sessions && t.log == s.log && t.minted == s.minted && t.redeemed == s.redeemed
            && t.peers.Keys == s.peers.Keys
            && (!Entitled(s, now, from, cookie) && cookie.id !in s.redeemed ==> t == s)
  {
    hide TakenOver, Admitted, Entitled, Responded;
    EntitledEnough(s, now, from, cookie, h);
    if Entitled(s, now, from, cookie) {
      var resumed, id := cookie.ticket.session.Some?, Wanted(s, cookie);
      TakenOverExact(if resumed then s else s.(nextSequence := s.nextSequence + 1), id);
    } else if cookie.id in s.redeemed {
      SpentAgain(s, now, from, cookie, h);
    }
  }

  /** A spent ticket presented again, in time and from its address, has its connection repeat that it
  accepted, if that lives; otherwise nothing happens. */
  lemma SpentAgain(s: Host, now: nat, from: nat, cookie: Cookie, h: Option<Handle>)
    requires AllSlotted(s) && (h.Some? ==> h.value.index < |s.schedules|) && cookie.id in s.redeemed
    ensures var t, k := Responded(s, now, from, cookie, h), s.redeemed[cookie.id];
            if cookie.addr == from && now <= cookie.issued + 10 * SECOND && k.Some? && k.value in s.peers then
              var c := s.peers[k.value].conn;
              && t.peers == s.peers[k.value := s.peers[k.value].(conn := c.(control := c.control.(accepted := true)))]
              && |t.schedules| == |s.schedules| && t.schedules[k.value.index].ready
              && t == s.(peers := t.peers, schedules := t.schedules, ready := t.ready)
            else t == s
  {
    hide Established, Touched;
    var k := s.redeemed[cookie.id];
    if k.Some? && k.value in s.peers {
      TouchedOnly(s, k.value);
    }
  }

  // ----- What a step does to a session -----

  /** Why a connection closed, as it is reported. */
  function Reason(s: Host, h: Handle): nat
    requires Slotted(s, h)
  {
    var closed := LastClosed(s.peers[h].conn.events);
    if closed.Some? then closed.value else s.schedules[h.index].closedWith
  }

  /** Which event the reason and the new address are taken from: the last of its kind. */
  lemma {:induction false} LastExact(events: seq<Event>)
    ensures LastClosed(events).None? <==> forall i | 0 <= i < |events| :: !events[i].ClosedEvent?
    ensures forall r :: LastClosed(events) == Some(r) ==>
              exists i :: 0 <= i < |events| && events[i] == ClosedEvent(r)
                          && forall j | i < j < |events| :: !events[j].ClosedEvent?
    ensures LastMigrated(events).None? <==> forall i | 0 <= i < |events| :: !events[i].Migrated?
    ensures forall addr :: LastMigrated(events) == Some(addr) ==>
              exists i :: 0 <= i < |events| && events[i] == Migrated(addr)
                          && forall j | i < j < |events| :: !events[j].Migrated?
  {
    if events != [] {
      LastExact(events[..|events| - 1]);
      assert events == events[..|events| - 1] + [events[|events| - 1]];
    }
  }

  /** Taking a connection's events: a move among them is reported, with the session and the address last
  moved to, a closing is remembered by its last reason, and nothing is left to take. */
  lemma TakesExact(s: Host, h: Handle)
    requires Slotted(s, h)
    ensures var t, events := Pumped(s, h), s.peers[h].conn.events;
            && (forall i | 0 <= i < |events| :: !events[i].Migrated?) ==> t.log == s.log
    ensures var t, events := Pumped(s, h), s.peers[h].conn.events;
            forall i | 0 <= i < |events| && events[i].Migrated?
                       && (forall j | i < j < |events| :: !events[j].Migrated?) ::
              t.log == s.log + [Moved(h, s.peers[h].session, events[i].addr)]
    ensures var t, events := Pumped(s, h), s.peers[h].conn.events;
            && t.peers == s.peers[h := s.peers[h].(conn := s.peers[h].conn.(events := []))]
            && |t.schedules| == |s.schedules| && t.schedules[h.index].closedWith == Reason(s, h)
  {
    hide LastClosed, LastMigrated;
    LastExact(s.peers[h].conn.events);
  }

  /** A connection that leaves is reported once, with its reason. The session it holds is over if that
  was asked for by either side or the server is going down, and otherwise is suspended from now on;
  a session another connection holds is left alone. */
  lemma LeavesExact(s: Host, h: Handle, now: nat)
    requires Slotted(s, h)
    ensures var t, id := Retired(s, h, now), s.peers[h].session;
            var holds, final := id in s.sessions && s.sessions[id].state == Attached(h), Reason(s, h) in {0, 3};
            && t.sessions == (if !holds then s.sessions
                              else if final then s.sessions - {id}
                              else s.sessions[id := Session(s.sessions[id].owner, Suspended(now))])
            && t.suspended == (if holds && !final then s.suspended + [Lapse(now, id)] else s.suspended)
            && t.log != [] && t.log[|t.log| - 1] == Disconnected(id, Reason(s, h), holds && !final)
            && LogMoves(s.peers, s.log, t.log[..|t.log| - 1])
            && t.peers == s.peers - {h} && h.index !in t.timers
  {
    hide LastClosed, LastMigrated;
    var t := Retired(s, h, now);
    PumpedService(s, h);
    assert t.log[..|t.log| - 1] == Pumped(s, h).log;
  }

  /** Whether a step lets the oldest suspension lapse. */
  predicate Lapses(s: Host, st: Step) {
    st.Expire? && s.suspended != [] && st.now >= s.suspended[0].since + 45 * SECOND
  }

  /** The connection a step removes. */
  predicate Removes(s: Host, st: Step, h: Handle) { st.Reap? && s.retiring != [] && s.retiring[0] == h && h in s.peers }

  /** The response a step answers with a connection. */
  predicate Admits(s: Host, st: Step) { st.Respond? && st.chosen.Some? && Entitled(s, st.now, st.from, st.cookie) }

  /** What becomes of a session in a step: nothing, but for four things that can happen to it. */
  ghost predicate Follows(s: Host, st: Step, t: Host, id: nat)
    requires AllSlotted(s) && id in s.sessions
  {
    var owner, state := s.sessions[id].owner, s.sessions[id].state;
    if Admits(s, st) && st.cookie.ticket.session == Some(id) then
      id in t.sessions && t.sessions[id] == Session(owner, Attached(st.chosen.value))
    else if state.Attached? && Removes(s, st, state.h) then
      if Reason(s, state.h) in {0, 3} then id !in t.sessions
      else id in t.sessions && t.sessions[id] == Session(owner, Suspended(st.now))
    else if Lapses(s, st) && state == Suspended(s.suspended[0].since) && s.suspended[0].session == id then
      id !in t.sessions && t.log == s.log + [SessionExpired(id)]
    else id in t.sessions && t.sessions[id] == s.sessions[id]
  }

  lemma RespondFollows(s: Host, st: Step, count: nat, book: nat -> Ticket, id: nat)
    requires 0 < count <= SHARDS && AllSlotted(s) && Lifetimes(s, count, book) && id in s.sessions && st.Respond?
    requires st.chosen.Some? ==> st.chosen.value !in s.peers && st.chosen.value.index < |s.schedules|
    ensures Follows(s, st, Responded(s, st.now, st.from, st.cookie, st.chosen), id)
  {
    hide Responded, LogOk, Counted, Spent, Answers, AllHome, DistinctTickets, QueueOk, New, RequestClose, Replaced,
         LastClosed, Holds;
    if Admits(s, st) {
      EntitledExact(s, st.now, st.from, st.cookie, st.chosen.value);
    } else {
      RefusedExact(s, st.now, st.from, st.cookie, st.chosen);
    }
  }

  lemma ReapFollows(s: Host, st: Step, count: nat, book: nat -> Ticket, id: nat)
    requires 0 < count <= SHARDS && AllSlotted(s) && Lifetimes(s, count, book) && id in s.sessions && st.Reap?
    ensures Follows(s, st, Reaped(s, st.now), id)
  {
    hide Retired, LogOk, Counted, Spent, Answers, AllHome, DistinctTickets, QueueOk, LastClosed, Known, LogMoves;
    var state := s.sessions[id].state;
    if state.Attached? {
      assert EndpointSessions.Holds(s.peers, id, state.h);
    }
    if s.retiring != [] {
      var s1, h := s.(retiring := s.retiring[1..]), s.retiring[0];
      if h in s.peers {
        LeavesExact(s1, h, st.now);
      } else {
        RetiredDead(s1, h, st.now);
      }
    }
  }

  lemma ExpireFollows(s: Host, st: Step, id: nat)
    requires AllSlotted(s) && id in s.sessions && st.Expire?
    ensures Follows(s, st, Lapsed(s, st.now), id)
  {
    hide LastClosed;
  }

  /** A step that only services connections or forgets tickets leaves sessions alone. */
  lemma QuietFollows(s: Host, st: Step, t: Host, id: nat)
    requires AllSlotted(s) && id in s.sessions && !st.Respond? && !st.Reap? && !st.Expire? && t.sessions == s.sessions
    ensures Follows(s, st, t, id)
  {
    hide LastClosed;
  }

  /** What a step makes of a session does not depend on when the last one was. */
  lemma ClockFree(s: Host, st: Step, t: Host, id: nat)
    requires AllSlotted(s) && id in s.sessions && Follows(s.(clock := st.now), st, t, id)
    ensures Follows(s, st, t, id)
  {
    hide LastClosed;
  }

  /** Every step, whatever it is. */
  lemma StepFollows(s: Host, st: Step, count: nat, book: nat -> Ticket, id: nat)
    requires 0 < count <= SHARDS && Good(s, count, book) && Allowed(s, st, count, book) && id in s.sessions
    ensures PeersOk(s) && AllSlotted(s) && Follows(s, st, Stepped(s, st), id)
  {
    hide Scheduled, Lifetimes, I.Valid, Responded, Routed, Drained, Fired, Reaped, Lapsed, Forgotten,
         Changed, SameOwners, LogMoves, Home, Transmittable, ConfigValid, Follows;
    SlottedOf(s);
    PeersShaped(s);
    var u, t := s.(clock := st.now), Stepped(s, st);
    LaterLifetimes(s, st.now, count, book);
    match st {
      case Respond(_, _, _, _) => RespondFollows(u, st, count, book, id);
      case Payload(now, from, slot, occupancy, d, token) =>
        RoutedService(u, now, from, slot, occupancy, d, token);
        QuietFollows(u, st, t, id);
      case Drain(now) =>
        DrainedService(u, now);
        QuietFollows(u, st, t, id);
      case Fire(now, slot) =>
        FiredService(u, now, slot);
        QuietFollows(u, st, t, id);
      case Reap(_) => ReapFollows(u, st, count, book, id);
      case Expire(_) => ExpireFollows(u, st, id);
      case Forget(now) =>
        ForgottenKeeps(u, now);
        QuietFollows(u, st, t, id);
      case Change(now, h, op) =>
        ChangedService(u, h, op);
        QuietFollows(u, st, t, id);
    }
    ClockFree(s, st, t, id);
  }

  lemma ForgottenKeeps(s: Host, now: nat)
    ensures Forgotten(s, now).sessions == s.sessions && Forgotten(s, now).log == s.log
  {
  }

  // ----- What a step makes -----

  /** Connections are reported, and sessions begun, only by a response that is entitled and finds a
  slot, and then exactly its own. */
  ghost predicate Makes(s: Host, st: Step, t: Host) {
    if Admits(s, st) then
      var id := Wanted(s, st.cookie);
      && t.log == s.log + [Connected(st.chosen.value, id, st.cookie.ticket.session.Some?)]
      && t.sessions.Keys == s.sessions.Keys + {id}
      && t.sessions[id] == Session(st.cookie.ticket.client, Attached(st.chosen.value))
      && t.nextSequence == s.nextSequence + (if st.cookie.ticket.session.Some? then 0 else 1)
    else
      && t.sessions.Keys <= s.sessions.Keys && s.nextSequence <= t.nextSequence
      && s.log <= t.log && forall x | |s.log| <= x < |t.log| :: !t.log[x].Connected?
  }

  lemma RespondMakes(s: Host, st: Step)
    requires AllSlotted(s) && st.Respond?
    requires st.chosen.Some? ==> st.chosen.value !in s.peers && st.chosen.value.index < |s.schedules|
    ensures Makes(s, st, Responded(s, st.now, st.from, st.cookie, st.chosen))
  {
    hide Responded, New, RequestClose, Replaced, Entitled;
    if Admits(s, st) {
      EntitledExact(s, st.now, st.from, st.cookie, st.chosen.value);
    } else {
      RefusedExact(s, st.now, st.from, st.cookie, st.chosen);
      SequenceGrows(s, st.now, st.from, st.cookie, st.chosen);
    }
  }

  lemma SequenceGrows(s: Host, now: nat, from: nat, cookie: Cookie, h: Option<Handle>)
    requires AllSlotted(s) && (h.Some? ==> h.value.index < |s.schedules|)
    ensures s.nextSequence <= Responded(s, now, from, cookie, h).nextSequence
  {
    hide TakenOver, Admitted, Entitled, Responded, Wanted;
    EntitledEnough(s, now, from, cookie, h);
    if Entitled(s, now, from, cookie) {
      EstablishedSequence(s, now, from, cookie, h);
    } else if cookie.id in s.redeemed {
      SpentAgain(s, now, from, cookie, h);
    }
  }

  lemma EstablishedSequence(s: Host, now: nat, from: nat, cookie: Cookie, h: Option<Handle>)
    requires AllSlotted(s) && (h.Some? ==> h.value.index < |s.schedules|)
    ensures s.nextSequence <= Established(s, now, from, cookie, h).nextSequence
  {
    hide TakenOver, Admitted, SessionId, Replaced;
    var resumed := cookie.ticket.session.Some?;
    var id := if resumed then cookie.ticket.session.value else SessionId(s.nextSequence, s.shard);
    var s0 := if resumed then s else s.(nextSequence := s.nextSequence + 1);
    TakenOverExact(s0, id);
    if h.Some? {
      AdmittedExact(TakenOver(s0, id), now, from, cookie, id, h.value);
    }
  }

  lemma ReapMakes(s: Host, st: Step)
    requires AllSlotted(s) && st.Reap?
    ensures Makes(s, st, Reaped(s, st.now))
  {
    hide Retired, LastClosed, Entitled, SessionsLeft;
    if s.retiring != [] {
      var s1, h := s.(retiring := s.retiring[1..]), s.retiring[0];
      if h in s.peers {
        var reason, keep, log := EndpointSessions.RetiredParts(s1, h, st.now);
        LeavesExact(s1, h, st.now);
      } else {
        RetiredDead(s1, h, st.now);
      }
    }
  }

  lemma QuietMakes(s: Host, st: Step, t: Host)
    requires !st.Respond? && t.sessions.Keys <= s.sessions.Keys && t.nextSequence == s.nextSequence
    requires LogMoves(s.peers, s.log, t.log) || exists id :: t.log == s.log + [SessionExpired(id)]
    ensures Makes(s, st, t)
  {
    hide Entitled;
  }

  lemma AdmitsClockFree(s: Host, st: Step)
    ensures var u := s.(clock := st.now);
            Admits(u, st) == Admits(s, st) && (st.Respond? ==> Wanted(u, st.cookie) == Wanted(s, st.cookie))
  {
  }

  lemma MakesClockFree(s: Host, st: Step, t: Host)
    requires Makes(s.(clock := st.now), st, t)
    ensures Makes(s, st, t)
  {
    hide Entitled, Wanted;
    AdmitsClockFree(s, st);
  }

  lemma ExpireMakes(s: Host, st: Step)
    requires st.Expire?
    ensures Makes(s, st, Lapsed(s, st.now))
  {
    var t := Lapsed(s, st.now);
    if s.suspended != [] {
      assert t.log == s.log || t.log == s.log + [SessionExpired(s.suspended[0].session)];
    }
    QuietMakes(s, st, t);
  }

  lemma StepMakes(s: Host, st: Step, count: nat, book: nat -> Ticket)
    requires 0 < count <= SHARDS && PeersOk(s) && Allowed(s, st, count, book)
    ensures Makes(s, st, Stepped(s, st))
  {
    hide Lifetimes, I.Valid, Responded, Routed, Drained, Fired, Reaped, Lapsed, Forgotten,
         Changed, SameOwners, LogMoves, Home, Transmittable, Makes;
    PeersShaped(s);
    var u, t := s.(clock := st.now), Stepped(s, st);
    match st {
      case Respond(_, _, _, _) => RespondMakes(u, st);
      case Payload(now, from, slot, occupancy, d, token) =>
        RoutedService(u, now, from, slot, occupancy, d, token);
        QuietMakes(u, st, t);
      case Drain(now) =>
        DrainedService(u, now);
        QuietMakes(u, st, t);
      case Fire(now, slot) =>
        FiredService(u, now, slot);
        QuietMakes(u, st, t);
      case Reap(_) => ReapMakes(u, st);
      case Expire(_) => ExpireMakes(u, st);
      case Forget(now) =>
        ForgottenMakes(u, st);
      case Change(now, h, op) =>
        ChangedService(u, h, op);
        QuietMakes(u, st, t);
    }
    MakesClockFree(s, st, t);
  }

  lemma ForgottenMakes(s: Host, st: Step)
    requires st.Forget?
    ensures Makes(s, st, Forgotten(s, st.now))
  {
    QuietMakes(s, st, Forgotten(s, st.now));
  }

  // ----- Over runs -----

  /** An id once used is the same client's for good: while its session lasts its owner does not change,
  and when it is over the id is not used again. */
  lemma {:induction false} SameOwner(gs: seq<seq<Host>>, steps: seq<GroupStep>, count: nat, book: nat -> Ticket,
                                     n: nat, m: nat, i: nat, id: nat)
    requires 0 < count <= SHARDS && GroupRun(gs, steps, count, book) && n <= m < |gs| && AllGood(gs[0], count, book)
    requires i < count && |gs[n]| == count && id in gs[n][i].sessions
    ensures |gs[m]| == count && Known(gs[m][i].nextSequence, id)
    ensures id in gs[m][i].sessions ==> gs[m][i].sessions[id].owner == gs[n][i].sessions[id].owner
    decreases m
  {
    hide Good, Stepped, Allowed, PeersOk, Known, Makes, Follows;
    GroupGood(gs, steps, count, book, n);
    if m == n {
      GoodKnown(gs[n][i], count, book, id);
    } else {
      SameOwner(gs, steps, count, book, n, m - 1, i, id);
      GroupGood(gs, steps, count, book, m - 1);
      if steps[m - 1].shard == i {
        OwnerStep(gs[m - 1][i], steps[m - 1].step, count, book, id);
      }
    }
  }

  lemma GoodKnown(s: Host, count: nat, book: nat -> Ticket, id: nat)
    requires 0 < count <= SHARDS && Good(s, count, book) && id in s.sessions
    ensures Known(s.nextSequence, id)
  {
    hide Scheduled, Known, QueueOk, LogOk, Counted, Spent, Answers, AllHome, DistinctTickets;
  }

  lemma OwnerStep(s: Host, st: Step, count: nat, book: nat -> Ticket, id: nat)
    requires 0 < count <= SHARDS && Good(s, count, book) && PeersOk(s) && Allowed(s, st, count, book)
    requires Known(s.nextSequence, id)
    ensures var t := Stepped(s, st);
            && Known(t.nextSequence, id)
            && (id in t.sessions ==> id in s.sessions && t.sessions[id].owner == s.sessions[id].owner)
  {
    hide Good, Stepped, PeersOk, I.Valid, Home, LastClosed;
    StepMakes(s, st, count, book);
    if id in s.sessions {
      StepFollows(s, st, count, book, id);
    }
  }

  /** All connections ever made for a session are one client's. */
  lemma OneClient(gs: seq<seq<Host>>, steps: seq<GroupStep>, count: nat, book: nat -> Ticket, j: nat, k: nat, i: nat)
    requires 0 < count <= SHARDS && GroupRun(gs, steps, count, book) && AllGood(gs[0], count, book)
    requires j <= k < |steps| && steps[j].shard == steps[k].shard == i < count && |gs[j]| == |gs[k]| == count
    requires Admits(gs[j][i], steps[j].step) && Admits(gs[k][i], steps[k].step)
    requires Wanted(gs[j][i], steps[j].step.cookie) == Wanted(gs[k][i], steps[k].step.cookie)
    ensures steps[j].step.cookie.ticket.client == steps[k].step.cookie.ticket.client
  {
    hide Good, Stepped, Allowed, PeersOk, Known, Entitled, Wanted;
    StepMakes(gs[j][i], steps[j].step, count, book);
    StepMakes(gs[k][i], steps[k].step, count, book);
    SameOwner(gs, steps, count, book, j + 1, k + 1, i, Wanted(gs[j][i], steps[j].step.cookie));
  }

  lemma LogGrows(s: Host, st: Step, count: nat, book: nat -> Ticket)
    requires 0 < count <= SHARDS && PeersOk(s) && Allowed(s, st, count, book)
    ensures s.log <= Stepped(s, st).log
  {
    hide Stepped, PeersOk, Allowed, Admits, Wanted;
    StepMakes(s, st, count, book);
  }

  /** One response, and what it earned. */
  ghost predicate Earned(s: Host, st: Step, t: Host, e: Report) {
    && Admits(s, st)
    && var id, client := Wanted(s, st.cookie), st.cookie.ticket.client;
       && e == Connected(st.chosen.value, id, id in s.sessions)
       && (id in s.sessions ==> s.sessions[id].owner == client)
       && id in t.sessions && t.sessions[id].owner == client
  }

  lemma ConnectedStep(s: Host, st: Step, count: nat, book: nat -> Ticket, x: nat)
    requires 0 < count <= SHARDS && Good(s, count, book) && PeersOk(s) && Allowed(s, st, count, book)
    requires |s.log| <= x < |Stepped(s, st).log| && Stepped(s, st).log[x].Connected?
    ensures x == |s.log| && Earned(s, st, Stepped(s, st), Stepped(s, st).log[x])
  {
    hide Good, Stepped, PeersOk, Allowed;
    StepMakes(s, st, count, book);
    if Wanted(s, st.cookie) in s.sessions {
      GoodKnown(s, count, book, Wanted(s, st.cookie));
    }
  }

  /** Every connection reported was made by one response, which was entitled to it: a session resumed was
  its client's own before, and a new one is its client's from then on. */
  lemma {:induction false} ConnectedBy(gs: seq<seq<Host>>, steps: seq<GroupStep>, count: nat, book: nat -> Ticket,
                                       n: nat, i: nat, x: nat) returns (k: nat)
    requires 0 < count <= SHARDS && GroupRun(gs, steps, count, book) && AllGood(gs[0], count, book)
    requires n < |gs| && i < count && |gs[0]| == |gs[n]| == count
    requires |gs[0][i].log| <= x < |gs[n][i].log| && gs[n][i].log[x].Connected?
    ensures k < n && steps[k].shard == i && |gs[k]| == |gs[k + 1]| == count
    ensures |gs[k][i].log| == x && Earned(gs[k][i], steps[k].step, gs[k + 1][i], gs[n][i].log[x])
    decreases n
  {
    hide Good, Stepped, Allowed, PeersOk, Earned;
    k := n - 1;
    GroupGood(gs, steps, count, book, k);
    var s, st := gs[k][i], steps[k].step;
    if steps[k].shard != i {
      k := ConnectedBy(gs, steps, count, book, k, i, x);
    } else {
      LogGrows(s, st, count, book);
      if x < |s.log| {
        k := ConnectedBy(gs, steps, count, book, k, i, x);
      } else {
        ConnectedStep(s, st, count, book, x);
      }
    }
  }

  /** Once expired tickets are forgotten, what is remembered as spent is exactly every ticket that ever
  made a connection and could still be presented. */
  lemma RemembersExactly(s: Host, now: nat, count: nat, book: nat -> Ticket, t: nat)
    requires 0 < count <= SHARDS && Lifetimes(s, count, book) && s.clock <= now
    ensures t in Forgotten(s, now).redeemed <==> t in s.minted && book(t).expires >= now
  {
    hide SessionsOk, QueueOk, LogOk, Counted, Answers, AllHome, DistinctTickets;
  }

  // ----- Sleeping -----

  /** In every reachable state of every member: until the time it names there is nothing to do. No
  connection's timeout would change it, none has anything to send, none is closed and still here, and
  no session may be expired. */
  lemma SleepsSafely(gs: seq<seq<Host>>, steps: seq<GroupStep>, count: nat, book: nat -> Ticket, n: nat, i: nat,
                     now: nat)
    requires 0 < count <= SHARDS && GroupRun(gs, steps, count, book) && n < |gs| && AllGood(gs[0], count, book)
    requires i < count && |gs[n]| == count && gs[n][i].clock <= now < U64_MAX
    requires NextWork(gs[n][i]).Some? ==> now < NextWork(gs[n][i]).value
    ensures var s := gs[n][i];
            && (forall h | h in s.peers ::
                  var c := s.peers[h].conn;
                  && Shaped(c) && !c.lifecycle.Closed?
                  && HandleTimeout(c, now) == c && !D.Sends(c, now))
            && (forall id | id in s.sessions && s.sessions[id].state.Suspended? ::
                  now < s.sessions[id].state.since + 45 * SECOND)
  {
    hide GroupRun, Good, Scheduled, NextWork, HandleTimeout, D.Sends, Deadline, ArmedFor;
    ScheduledOverRuns(gs, steps, count, book, n, i);
    GroupGood(gs, steps, count, book, n);
    var s := gs[n][i];
    assert Scheduled(s) by { GoodScheduled(s, count, book); }
    forall h | h in s.peers
      ensures var c := s.peers[h].conn;
              Shaped(c) && !c.lifecycle.Closed? && HandleTimeout(c, now) == c && !D.Sends(c, now)
    {
      PeerSleeps(s, h, now);
    }
  }

  lemma GoodScheduled(s: Host, count: nat, book: nat -> Ticket)
    requires 0 < count <= SHARDS && Good(s, count, book)
    ensures Scheduled(s)
  {
    hide Scheduled, Lifetimes, ConfigValid;
  }

  lemma PeerSleeps(s: Host, h: Handle, now: nat)
    requires Scheduled(s) && h in s.peers && s.clock <= now < U64_MAX
    requires NextWork(s).Some? ==> now < NextWork(s).value
    ensures var c := s.peers[h].conn;
            Shaped(c) && !c.lifecycle.Closed? && HandleTimeout(c, now) == c && !D.Sends(c, now)
  {
    hide I.Valid, NextTimeout, HandleTimeout, D.Sends, SlotsOk, QueuesOk, TimersOk;
    var c := s.peers[h].conn;
    D.WakesExactly(c, s.clock, now);
    assert ArmedFor(s, h);
    if Deadline(c).Some? {
      WakesForConnections(s, h);
    }
  }

  /** The time a server names is exact: it has come if and only if a connection is queued to transmit or to be
  removed, or would be changed by servicing or has something to send, or the oldest suspension is 45 s old. */
  lemma WorkExact(s: Host, now: nat)
    requires Scheduled(s) && s.clock <= now < U64_MAX
    ensures AllShaped(s)
    ensures Due(NextWork(s), now)
            <==> || s.ready != [] || s.retiring != []
                 || (exists h :: h in s.peers
                                 && (HandleTimeout(s.peers[h].conn, now) != s.peers[h].conn
                                     || D.Sends(s.peers[h].conn, now)))
                 || (s.suspended != [] && now >= s.suspended[0].since + 45 * SECOND)
  {
    hide I.Valid, HandleTimeout, D.Sends, Deadline, SlotsOk, QueuesOk;
    assert AllShaped(s) by { PeersShaped(s); }
    if s.ready == [] && s.retiring == [] {
      forall h | h in s.peers
        ensures h.index in s.timers
        ensures s.timers[h.index] <= now
                <==> HandleTimeout(s.peers[h].conn, now) != s.peers[h].conn || D.Sends(s.peers[h].conn, now)
      {
        assert ArmedFor(s, h);
        PeerWakes(s, h, now);
      }
      if Due(Earliest(s.timers), now) {
        var slot :| slot in s.timers && s.timers[slot] == Earliest(s.timers).value;
        assert Occupied(s, slot);
      }
    }
  }

  lemma PeerWakes(s: Host, h: Handle, now: nat)
    requires PeersOk(s) && h in s.peers && s.clock <= now < U64_MAX && Deadline(s.peers[h].conn).Some?
    ensures Shaped(s.peers[h].conn)
    ensures Deadline(s.peers[h].conn).value <= now
            <==> HandleTimeout(s.peers[h].conn, now) != s.peers[h].conn || D.Sends(s.peers[h].conn, now)
  {
    hide I.Valid, NextTimeout, HandleTimeout, D.Sends;
    D.WakesExactly(s.peers[h].conn, s.clock, now);
  }

  // ----- Where a session is -----

  predicate AtHome(s: Host) { forall id | id in s.sessions :: id % 256 == s.shard }

  /** In every reachable state of every member, the tickets that resume its sessions, whatever their ids, are
  redeemed with it and no other. */
  lemma {:induction false} SessionsAtHome(gs: seq<seq<Host>>, steps: seq<GroupStep>, count: nat, book: nat -> Ticket,
                                          n: nat, i: nat)
    requires 0 < count <= SHARDS && GroupRun(gs, steps, count, book) && n < |gs| && AllGood(gs[0], count, book)
    requires i < count && |gs[0]| == |gs[n]| == count && AtHome(gs[0][i])
    ensures AtHome(gs[n][i]) && gs[n][i].shard == i
    ensures forall t: Ticket, id: nat | t.session.Some? && t.session.value in gs[n][i].sessions ::
              Home(count, t, id) == Some(i)
    decreases n
  {
    hide Good, Stepped, Allowed, PeersOk, Makes;
    GroupGood(gs, steps, count, book, n);
    if n > 0 {
      GroupGood(gs, steps, count, book, n - 1);
      SessionsAtHome(gs, steps, count, book, n - 1, i);
      if steps[n - 1].shard == i {
        StepGood(gs[n - 1][i], steps[n - 1].step, count, book);
        HomeStep(gs[n - 1][i], steps[n - 1].step, count, book);
      }
    }
  }

  lemma HomeStep(s: Host, st: Step, count: nat, book: nat -> Ticket)
    requires 0 < count <= SHARDS && PeersOk(s) && Allowed(s, st, count, book) && AtHome(s) && s.shard < count
    requires Stepped(s, st).shard == s.shard
    ensures AtHome(Stepped(s, st))
  {
    hide Stepped, PeersOk, Home, Makes, AtHome;
    StepMakes(s, st, count, book);
    MadeAtHome(s, st, Stepped(s, st));
  }

  lemma MadeAtHome(s: Host, st: Step, t: Host)
    requires Makes(s, st, t) && AtHome(s) && t.shard == s.shard < 256
    ensures AtHome(t)
  {
    hide Entitled, Wanted;
    if Admits(s, st) {
      WantedAtHome(s, st);
      assert forall id | id in t.sessions :: id in s.sessions || id == Wanted(s, st.cookie);
    }
  }

  lemma WantedAtHome(s: Host, st: Step)
    requires Admits(s, st) && AtHome(s) && s.shard < 256
    ensures Wanted(s, st.cookie) % 256 == s.shard
  {
    NewAtHome(s.nextSequence, s.shard);
  }

  lemma NewAtHome(next: nat, shard: nat)
    requires shard < 256
    ensures (256 * next + shard) % 256 == shard
  {
  }
}
