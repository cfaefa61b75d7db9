/** The endpoint as it is kept: a slab of connections, a timer heap and queues, updated in
place. Each call is a run of the steps of `Endpoint`, so everything that holds over runs of
steps holds of the object. */
module EndpointObject {
  import opened Machine
  import opened Frames
  import opened Connection
  import opened Endpoint
  import opened EndpointScheduler
  import EndpointSessions
  import EndpointRuns
  import R = EndpointRefusals
  import S = Slab
  import TimerHeap
  import B = Budget
  import C = Channels
  import I = ConnectionInvariant

  type Handle = S.Handle

  const REAP_BATCH: nat := 64

  /** A spent ticket and when it may be forgotten. */
  datatype Expiry = Expiry(at: nat, id: nat)

  /** The queue of spent tickets, earliest expiry first, each ticket once. */
  ghost predicate Sorted(q: seq<Expiry>) {
    && (forall i, j | 0 <= i < j < |q| :: q[i].at <= q[j].at)
    && (forall i, j | 0 <= i < j < |q| :: q[i].id != q[j].id)
  }

  ghost function ExpiryMap(q: seq<Expiry>): map<nat, nat> {
    if q == [] then map[] else ExpiryMap(q[..|q| - 1])[q[|q| - 1].id := q[|q| - 1].at]
  }

  /** A run of steps. */
  ghost predicate Follows(s: Host, steps: seq<Step>, t: Host, count: nat, book: nat -> Ticket)
    requires 0 < count <= SHARDS
    decreases |steps|
  {
    if steps == [] then t == s
    else
      var n := |steps| - 1;
      exists u :: Follows(s, steps[..n], u, count, book) && Taken(u, steps[n], t, count, book)
  }

  ghost predicate Taken(u: Host, st: Step, t: Host, count: nat, book: nat -> Ticket)
    requires 0 < count <= SHARDS
  {
    PeersOk(u) && Allowed(u, st, count, book) && t == Stepped(u, st)
  }

  lemma FollowsMore(s: Host, steps: seq<Step>, u: Host, st: Step, t: Host, count: nat, book: nat -> Ticket)
    requires 0 < count <= SHARDS && Follows(s, steps, u, count, book) && Taken(u, st, t, count, book)
    ensures Follows(s, steps + [st], t, count, book)
  {
    hide Taken;
    assert (steps + [st])[..|steps|] == steps;
  }

  /** A run of transmit steps, and the packets they emit, in order. */
  ghost predicate Drains(s: Host, n: nat, t: Host, packets: seq<Packet>, now: nat, count: nat, book: nat -> Ticket)
    requires 0 < count <= SHARDS
  {
    if n == 0 then t == s && packets == []
    else exists u, sent ::
           Drains(s, n - 1, u, sent, now, count, book) && DrainsOne(u, t, sent, packets, now, count, book)
  }

  ghost predicate DrainsOne(u: Host, t: Host, sent: seq<Packet>, packets: seq<Packet>, now: nat, count: nat,
                            book: nat -> Ticket)
    requires 0 < count <= SHARDS
  {
    && u.ready != [] && PollsFront(u) && packets == sent + Emitted(u, now) && Taken(u, Step.Drain(now), t, count, book)
  }

  ghost predicate PollsFront(u: Host) {
    u.ready != [] && u.ready[0] in u.peers ==>
      Transmittable(u.peers[u.ready[0]].conn) && B.Consistent(u.peers[u.ready[0]].conn.budget)
  }

  lemma DrainsMore(s: Host, n: nat, u: Host, sent: seq<Packet>, t: Host, packets: seq<Packet>, now: nat, count: nat,
                   book: nat -> Ticket)
    requires 0 < count <= SHARDS && Drains(s, n, u, sent, now, count, book)
    requires DrainsOne(u, t, sent, packets, now, count, book)
    ensures Drains(s, n + 1, t, packets, now, count, book)
  {
    hide DrainsOne;
  }

  lemma DrainsNone(s: Host, now: nat, count: nat, book: nat -> Ticket)
    requires 0 < count <= SHARDS
    ensures Drains(s, 0, s, [], now, count, book)
  {
  }

  class EndpointState {
    const shard: nat
    const capacity: nat
    const kinds: Kinds
    const cfg: Config
    const connections: S.Slab<Peer>
    const timers: TimerHeap.Timers
    var redeemed: map<nat, Option<Handle>>
    var redeemedExpiry: seq<Expiry>
    var sessions: map<nat, Session>
    var nextSequence: nat
    var schedules: seq<Schedule>
    var ready: seq<Handle>
    var retiring: seq<Handle>
    var suspended: seq<Lapse>
    var events: seq<Report>
    ghost var minted: seq<nat>
    ghost var clock: nat

    ghost predicate Kept()
      reads this, connections, timers, timers.entries, timers.positions
    {
      && connections.Valid() && timers.Valid() && Sorted(redeemedExpiry)
      && connections.capacity == capacity == timers.positions.Length == |schedules|
    }

    ghost function View(): Host
      requires Kept()
      reads this, connections, timers, timers.entries, timers.positions
    {
      Host(shard, capacity, kinds, cfg, connections.Map(), connections.issued, redeemed, ExpiryMap(redeemedExpiry),
           minted, sessions, nextSequence, schedules, timers.Map(), ready, retiring, suspended, events, clock)
    }

    ghost predicate Valid(count: nat, book: nat -> Ticket)
      requires 0 < count <= SHARDS
      reads this, connections, timers, timers.entries, timers.positions
    {
      Kept() && EndpointRuns.Good(View(), count, book)
    }

    constructor (shard: nat, capacity: nat, kinds: Kinds, cfg: Config, ghost clock: nat)
      requires capacity < S.NONE
      ensures Kept() && View() == Fresh(shard, capacity, kinds, cfg, clock)
    {
      this.shard, this.capacity, this.kinds, this.cfg := shard, capacity, kinds, cfg;
      connections := new S.Slab<Peer>(capacity);
      timers := new TimerHeap.Timers(capacity);
      redeemed, redeemedExpiry, sessions, nextSequence := map[], [], map[], 1;
      schedules := seq(capacity, _ => IDLE);
      ready, retiring, suspended, events := [], [], [], [];
      minted := [];
      this.clock := clock;
    }

    method Touch(h: Handle)
      requires Kept() && h.index < |schedules|
      modifies this`schedules, this`ready
      ensures Kept() && View() == Touched(old(View()), h)
    {
      if !schedules[h.index].ready {
        schedules := schedules[h.index := schedules[h.index].(ready := true)];
        ready := ready + [h];
      }
    }

    method PumpEvents(h: Handle)
      requires Kept() && Slotted(View(), h)
      modifies this`schedules, this`events, connections
      ensures Kept() && View() == Pumped(old(View()), h)
    {
      hide LastClosed, LastMigrated, S.Slab.Valid, S.Slab.Map, TimerHeap.Timers.Valid, TimerHeap.Timers.Map,
           Sorted, ExpiryMap;
      HandleOdd(h);
      var peer := connections.Get(h);
      var p := peer.value;
      var migrated, closed := TakeEvents(p.conn.events);
      connections.Put(h, p.(conn := p.conn.(events := [])));
      if migrated.Some? {
        events := events + [Moved(h, p.session, migrated.value)];
      }
      if closed.Some? {
        schedules := schedules[h.index := schedules[h.index].(closedWith := closed.value)];
      }
    }

    /** A live handle has an odd generation. */
    lemma HandleOdd(h: Handle)
      requires connections.Valid() && h in connections.Map()
      ensures h.generation % 2 == 1
    {
      S.ContentsExact(connections.View(), h);
    }

    lemma IssuedOdd(h: Handle)
      requires connections.Valid() && h in connections.issued
      ensures h.generation % 2 == 1
    {
    }

    /** Gives a connection its new state. */
    method SetConn(h: Handle, c: Conn)
      requires Kept() && h in connections.Map()
      modifies connections
      ensures Kept() && View() == WithConn(old(View()), h, c)
      ensures connections.slots == old(connections.slots) && connections.freeHead == old(connections.freeHead)
    {
      hide S.Slab.Valid, S.Slab.Map, TimerHeap.Timers.Valid, TimerHeap.Timers.Map;
      HandleOdd(h);
      var peer := connections.Get(h);
      connections.Put(h, peer.value.(conn := c));
    }

    /** The connection's new state is stored, its events are taken, and it joins the transmit queue. */
    method Service(h: Handle, c: Conn)
      requires Kept() && Slotted(View(), h)
      modifies this`schedules, this`ready, this`events, connections
      ensures Kept() && View() == Serviced(old(View()), h, c)
    {
      hide EndpointState.Kept, Touched, Pumped;
      KeptSlots();
      SetConn(h, c);
      KeptSlots();
      TouchedPeers(View(), h);
      Touch(h);
      PumpEvents(h);
    }

    lemma KeptSlots()
      requires Kept()
      ensures View().peers == connections.Map() && View().schedules == schedules && |schedules| == capacity
      ensures View().timers == timers.Map() && View().ready == ready && View().retiring == retiring
    {
    }

    /** One connection of the transmit pass. */
    method DrainOne(now: nat) returns (packets: seq<Packet>)
      requires Kept() && ready != [] && now < U64_MAX && ready[0] in connections.issued
      requires ready[0] in connections.Map() ==>
                 var c := connections.Map()[ready[0]].conn;
                 && ready[0].index < |schedules| && Transmittable(c) && B.Consistent(c.budget)
      modifies this`schedules, this`ready, this`retiring, connections, timers, timers.entries, timers.positions
      ensures Kept() && View() == Drained(old(View()), now) && packets == Emitted(old(View()), now)
      ensures ready == old(ready)[1..] && timers.entries == old(timers.entries)
              && timers.positions == old(timers.positions)
    {
      hide S.Slab.Valid, S.Slab.Map, TimerHeap.Timers.Valid, TimerHeap.Timers.Map, PollTransmit,
           Transmittable, B.Consistent, Deadline, Sorted, ExpiryMap, Rearmed, WithConn;
      var h := ready[0];
      ready := ready[1..];
      IssuedOdd(h);
      var peer := connections.Get(h);
      if peer.None? {
        return [];
      }
      var polled := PollTransmit(peer.value.conn, now);
      packets := if polled.packet.None? then [] else [polled.packet.value];
      SetConn(h, polled.conn);
      Rearm(h, polled.conn);
    }

    /** The slot's timer becomes the connection's deadline, or it has none and is to be removed. */
    method Rearm(h: Handle, c: Conn)
      requires Kept() && h.index < |schedules|
      modifies this`schedules, this`retiring, timers, timers.entries, timers.positions
      ensures Kept() && View() == Rearmed(old(View()), h, c)
      ensures timers.entries == old(timers.entries) && timers.positions == old(timers.positions)
    {
      hide S.Slab.Valid, S.Slab.Map, TimerHeap.Timers.Valid, TimerHeap.Timers.Map, Deadline, Sorted, ExpiryMap;
      schedules := schedules[h.index := schedules[h.index].(ready := false)];
      match Deadline(c) {
        case Some(at) =>
          timers.Set(h.index, at);
        case None =>
          timers.Cancel(h.index);
          if !schedules[h.index].retiring {
            schedules := schedules[h.index := schedules[h.index].(retiring := true)];
            retiring := retiring + [h];
          }
      }
    }

    // ----- Passes -----

    /** Polls the transmit queue from its front until it is empty or `room` packets were made. */
    method DrainTransmits(now: nat, room: nat, ghost count: nat, ghost book: nat -> Ticket)
      returns (packets: seq<Packet>, ghost steps: seq<Step>)
      requires 0 < count <= SHARDS && Valid(count, book) && clock <= now < U64_MAX
      modifies this, connections, timers, timers.entries, timers.positions
      ensures Valid(count, book) && clock == now && Follows(old(View()).(clock := now), steps, View(), count, book)
      ensures Drains(old(View()).(clock := now), |steps|, View(), packets, now, count, book)
      ensures |packets| <= room && (ready == [] || |packets| == room)
    {
      hide EndpointState.Kept, EndpointRuns.Good, Follows, Stepped, Drained, Transmittable, B.Consistent,
           Drains, Emitted, Taken, DrainsOne;
      LaterGood(View(), now, count, book);
      SetClock(now);
      packets, steps := [], [];
      ghost var s := View();
      FollowsNone(s, count, book);
      DrainsNone(s, now, count, book);
      while ready != [] && |packets| < room
        invariant Valid(count, book) && clock == now && Follows(s, steps, View(), count, book)
        invariant Drains(s, |steps|, View(), packets, now, count, book)
        invariant |packets| <= room && timers.entries == old(timers.entries)
                  && timers.positions == old(timers.positions)
        decreases |ready|
      {
        ghost var u := View();
        KeptSlots();
        FrontPolls(u, count, book);
        var emitted := DrainOne(now);
        EmittedFew(u, now);
        DrainTurn(s, steps, u, packets, now, count, book);
        packets := packets + emitted;
        steps := steps + [Step.Drain(now)];
      }
    }

    ghost method SetClock(now: nat)
      requires Kept()
      modifies this`clock
      ensures Kept() && View() == old(View()).(clock := now)
    {
      clock := now;
    }

    method Retire(h: Handle, now: nat)
      requires Kept() && h in connections.issued && (h in connections.Map() ==> h.index < |schedules|)
      modifies this, connections, timers, timers.entries, timers.positions
      ensures Kept() && View() == Retired(old(View()), h, now)
      ensures timers.entries == old(timers.entries) && timers.positions == old(timers.positions)
    {
      hide EndpointState.Kept, Pumped, Unhooked, Parted;
      KeptSlots();
      SlabKept();
      IssuedOdd(h);
      var peer := connections.Get(h);
      if peer.None? {
        return;
      }
      var p := peer.value;
      PumpedShape(View(), h);
      PumpEvents(h);
      KeptSlots();
      var reason := schedules[h.index].closedWith;
      Unhook(h, p.ticket);
      Part(h, p.session, reason, now);
    }

    lemma SlabKept()
      requires Kept()
      ensures connections.Valid()
    {
    }

    method Unhook(h: Handle, ticket: nat)
      requires Kept() && Slotted(View(), h) && connections.Map()[h].ticket == ticket
      modifies this`schedules, this`redeemed, connections, timers, timers.entries, timers.positions
      ensures Kept() && View() == Unhooked(old(View()), h)
      ensures timers.entries == old(timers.entries) && timers.positions == old(timers.positions)
    {
      hide S.Slab.Valid, S.Slab.Map, TimerHeap.Timers.Valid, TimerHeap.Timers.Map, Sorted, ExpiryMap;
      HandleOdd(h);
      schedules := schedules[h.index := IDLE];
      if ticket in redeemed {
        redeemed := redeemed[ticket := None];
      }
      timers.Cancel(h.index);
      var gone := connections.Remove(h);
    }

    method Part(h: Handle, session: nat, reason: nat, now: nat)
      requires Kept()
      modifies this`sessions, this`suspended, this`events
      ensures Kept() && View() == Parted(old(View()), h, session, reason, now)
    {
      hide S.Slab.Valid, S.Slab.Map, TimerHeap.Timers.Valid, TimerHeap.Timers.Map, Sorted, ExpiryMap;
      var kept := false;
      if session in sessions && sessions[session].state == Attached(h) {
        if reason != REQUESTED && reason != SHUTDOWN {
          kept := true;
          sessions := sessions[session := sessions[session].(state := Suspended(now))];
          suspended := suspended + [Lapse(now, session)];
        } else {
          sessions := sessions - {session};
        }
      }
      events := events + [Disconnected(session, reason, kept)];
    }

    /** One due timer, if there is one. */
    method FireOne(now: nat) returns (slot: Option<nat>)
      requires Kept() && AllSlotted(View()) && AllShaped(View()) && SlotsOk(View())
      modifies this`schedules, this`ready, this`events, connections, timers, timers.entries, timers.positions
      ensures Kept() && timers.entries == old(timers.entries) && timers.positions == old(timers.positions)
      ensures slot.None? ==> View() == old(View()) && forall k | k in timers.Map() :: timers.Map()[k] > now
      ensures slot.Some? ==>
                && View() == Fired(old(View()), now, slot.value) && slot.value in old(timers.Map())
                && timers.Map() == old(timers.Map()) - {slot.value}
    {
      hide S.Slab.Valid, S.Slab.Map, TimerHeap.Timers.Valid, TimerHeap.Timers.Map, Sorted, ExpiryMap,
           Serviced, HandleTimeout;
      ghost var s := View();
      slot := timers.PopDue(now);
      if slot.None? {
        return;
      }
      var h := connections.HandleAt(slot.value);
      AtHandle(s, slot.value, h);
      if h.Some? {
        HandleOdd(h.value);
        var peer := connections.Get(h.value);
        ServicedTimers(View(), h.value, HandleTimeout(peer.value.conn, now));
        Service(h.value, HandleTimeout(peer.value.conn, now));
        KeptSlots();
      }
    }

    /** The oldest suspension, if its grace period has lapsed; says whether a session expired. */
    method ExpireOne(now: nat) returns (lapsed: bool, expired: bool)
      requires Kept()
      modifies this`sessions, this`suspended, this`events
      ensures Kept() && View() == Lapsed(old(View()), now)
      ensures lapsed <==> old(suspended) != [] && Since(now, old(suspended)[0].since) >= RESUME_GRACE
      ensures lapsed ==> suspended == old(suspended)[1..]
      ensures !lapsed ==> suspended == old(suspended)
      ensures |events| == |old(events)| + if expired then 1 else 0
    {
      hide S.Slab.Valid, S.Slab.Map, TimerHeap.Timers.Valid, TimerHeap.Timers.Map, Sorted, ExpiryMap;
      if suspended == [] || Since(now, suspended[0].since) < RESUME_GRACE {
        return false, false;
      }
      var entry := suspended[0];
      suspended := suspended[1..];
      if entry.session in sessions && sessions[entry.session].state == Suspended(entry.since) {
        sessions := sessions - {entry.session};
        events := events + [SessionExpired(entry.session)];
        return true, true;
      }
      return true, false;
    }

    /** Tickets no longer valid need not be remembered as spent. */
    method ForgetExpired(now: nat)
      requires Kept() && redeemed.Keys == ExpiryMap(redeemedExpiry).Keys
      modifies this`redeemed, this`redeemedExpiry
      ensures Kept() && View() == Forgotten(old(View()), now)
    {
      hide S.Slab.Valid, S.Slab.Map, TimerHeap.Timers.Valid, TimerHeap.Timers.Map, ExpiryMap, Sorted;
      ghost var q, r := redeemedExpiry, redeemed;
      var k := 0;
      ForgetStart(q, r);
      while redeemedExpiry != [] && redeemedExpiry[0].at < now
        invariant k <= |q| && redeemedExpiry == q[k..] && (forall i | 0 <= i < k :: q[i].at < now)
        invariant redeemed == Without(r, q, k)
        decreases |redeemedExpiry|
      {
        var id := redeemedExpiry[0].id;
        redeemedExpiry := redeemedExpiry[1..];
        redeemed := redeemed - {id};
        k := k + 1;
      }
      ForgetDone(q, r, k, now);
    }

    /** Every due timer is serviced. */
    method FireAll(now: nat, ghost count: nat, ghost book: nat -> Ticket) returns (ghost steps: seq<Step>)
      requires 0 < count <= SHARDS && Valid(count, book) && clock <= now < U64_MAX
      modifies this, connections, timers, timers.entries, timers.positions
      ensures Valid(count, book) && clock == now && Follows(old(View()).(clock := now), steps, View(), count, book)
      ensures timers.entries == old(timers.entries) && timers.positions == old(timers.positions)
      ensures forall k | k in View().timers :: View().timers[k] > now
      ensures retiring == old(retiring)
    {
      hide EndpointState.Kept, EndpointRuns.Good, Follows, Stepped, Fired, SlotsOk;
      LaterGood(View(), now, count, book);
      SetClock(now);
      steps := [];
      ghost var s := View();
      FollowsNone(s, count, book);
      while true
        invariant Valid(count, book) && clock == now && Follows(s, steps, View(), count, book)
        invariant timers.entries == old(timers.entries) && timers.positions == old(timers.positions)
        invariant retiring == old(retiring)
        decreases |View().timers|
      {
        ghost var u := View();
        KeptSlots();
        FrontPolls(u, count, book);
        GoodSlots(u, count, book);
        var slot := FireOne(now);
        KeptSlots();
        if slot.None? {
          break;
        }
        FewerTimers(u.timers, slot.value);
        FireStep(u, now, slot.value, count, book);
        EndpointRuns.StepGood(u, Fire(now, slot.value), count, book);
        FollowsMore(s, steps, u, Fire(now, slot.value), View(), count, book);
        steps := steps + [Fire(now, slot.value)];
      }
    }

    /** At most a batch of closed connections is removed. */
    method Reap(now: nat, ghost count: nat, ghost book: nat -> Ticket) returns (ghost steps: seq<Step>)
      requires 0 < count <= SHARDS && Valid(count, book) && clock == now < U64_MAX
      modifies this, connections, timers, timers.entries, timers.positions
      ensures Valid(count, book) && clock == now && Follows(old(View()), steps, View(), count, book)
      ensures timers.entries == old(timers.entries) && timers.positions == old(timers.positions)
      ensures retiring == AfterBatch(old(retiring))
      ensures FewerArmed(old(View()), View())
    {
      hide EndpointState.Kept, EndpointRuns.Good, Follows, Stepped, Retired;
      steps := [];
      ghost var s := View();
      KeptSlots();
      FollowsNone(s, count, book);
      for i := 0 to REAP_BATCH
        invariant Valid(count, book) && clock == now && Follows(s, steps, View(), count, book)
        invariant timers.entries == old(timers.entries) && timers.positions == old(timers.positions)
        invariant i <= |s.retiring| && retiring == s.retiring[i..]
        invariant FewerArmed(s, View())
      {
        if retiring == [] {
          return;
        }
        ghost var u := View();
        KeptSlots();
        FrontPolls(u, count, book);
        var h := retiring[0];
        PopRetiring();
        KeptSlots();
        RetiredRest(View(), h, now);
        Retire(h, now);
        KeptSlots();
        ReapStep(u, now, count, book);
        EndpointRuns.StepGood(u, Step.Reap(now), count, book);
        FollowsMore(s, steps, u, Step.Reap(now), View(), count, book);
        steps := steps + [Step.Reap(now)];
      }
    }

    method PopRetiring()
      requires Kept() && retiring != []
      modifies this`retiring
      ensures Kept() && View() == old(View()).(retiring := old(retiring)[1..])
    {
      retiring := retiring[1..];
    }

    /** At most a batch of sessions expires, oldest suspension first; and unless it is a whole batch, none is
    left whose 45 s are over. */
    method ExpireSessions(now: nat, ghost count: nat, ghost book: nat -> Ticket) returns (ghost steps: seq<Step>)
      requires 0 < count <= SHARDS && Valid(count, book) && clock == now < U64_MAX
      modifies this
      ensures Valid(count, book) && clock == now && Follows(old(View()), steps, View(), count, book)
      ensures View().timers == old(View()).timers && retiring == old(retiring)
      ensures |events| <= |old(events)| + REAP_BATCH
      ensures |events| == |old(events)| + REAP_BATCH || NoneLapsed(View(), now)
    {
      hide EndpointState.Kept, EndpointRuns.Good, Follows, Stepped, Lapsed;
      steps := [];
      ghost var s := View();
      FollowsNone(s, count, book);
      var expired, more := 0, true;
      while more && expired < REAP_BATCH
        invariant Valid(count, book) && clock == now && Follows(s, steps, View(), count, book)
        invariant View().timers == s.timers && retiring == old(retiring)
        invariant expired <= REAP_BATCH && |events| == |old(events)| + expired
        invariant !more ==> suspended == [] || Since(now, suspended[0].since) < RESUME_GRACE
        decreases more, |suspended|
      {
        ghost var u := View();
        KeptSlots();
        FrontPolls(u, count, book);
        LapsedRest(u, now);
        var lapsed, gone := ExpireOne(now);
        KeptSlots();
        more := lapsed;
        expired := if gone then expired + 1 else expired;
        ExpireStep(u, now, count, book);
        EndpointRuns.StepGood(u, Step.Expire(now), count, book);
        FollowsMore(s, steps, u, Step.Expire(now), View(), count, book);
        steps := steps + [Step.Expire(now)];
      }
      if !more {
        FrontDecides(View(), count, book, now);
      }
    }

    /** Services due connections, removes closed ones, and lets sessions and tickets lapse. */
    method ServiceTimers(now: nat, ghost count: nat, ghost book: nat -> Ticket) returns (ghost steps: seq<Step>)
      requires 0 < count <= SHARDS && Valid(count, book) && clock <= now < U64_MAX
      modifies this, connections, timers, timers.entries, timers.positions
      ensures Valid(count, book) && clock == now
      ensures Follows(old(View()).(clock := now), steps, View(), count, book)
      ensures forall k | k in View().timers :: View().timers[k] > now
      ensures retiring == AfterBatch(old(retiring)) && forall t | t in View().expiry :: View().expiry[t] >= now
    {
      hide EndpointState.Kept, EndpointRuns.Good, Follows, Stepped, Forgotten;
      ghost var s := old(View()).(clock := now);
      ghost var fired := FireAll(now, count, book);
      ghost var u := View();
      ghost var reaped := Reap(now, count, book);
      FollowsJoin(s, fired, u, reaped, View(), count, book);
      ghost var v := View();
      ghost var lapsed := ExpireSessions(now, count, book);
      FollowsJoin(s, fired + reaped, v, lapsed, View(), count, book);
      ghost var x := View();
      FrontPolls(x, count, book);
      TicketKeys(x, count, book);
      KeptTickets();
      ForgetExpired(now);
      ForgottenNone(x, now);
      ForgetStep(x, now, count, book);
      EndpointRuns.StepGood(x, Step.Forget(now), count, book);
      FollowsMore(s, fired + reaped + lapsed, x, Step.Forget(now), View(), count, book);
      steps := fired + reaped + lapsed + [Step.Forget(now)];
      KeptSlots();
    }

    lemma KeptTickets()
      requires Kept()
      ensures View().redeemed == redeemed && View().expiry == ExpiryMap(redeemedExpiry)
    {
    }

    // ----- Handshakes -----

    method PushExpiry(e: Expiry)
      requires Kept() && e.id !in ExpiryMap(redeemedExpiry)
      modifies this`redeemedExpiry
      ensures Kept() && View() == old(View()).(expiry := old(View()).expiry[e.id := e.at])
    {
      hide S.Slab.Valid, S.Slab.Map, TimerHeap.Timers.Valid, TimerHeap.Timers.Map, ExpiryMap, Sorted;
      var at := 0;
      while at < |redeemedExpiry| && redeemedExpiry[at].at <= e.at
        invariant at <= |redeemedExpiry| && forall i | 0 <= i < at :: redeemedExpiry[i].at <= e.at
      {
        at := at + 1;
      }
      ExpiryInserted(redeemedExpiry, at, e);
      redeemedExpiry := redeemedExpiry[..at] + [e] + redeemedExpiry[at..];
    }

    method TakeOver(session: nat)
      requires Kept() && AllSlotted(View())
      modifies this`schedules, this`ready, connections
      ensures Kept() && View() == TakenOver(old(View()), session)
      ensures connections.slots == old(connections.slots) && connections.freeHead == old(connections.freeHead)
    {
      hide EndpointState.Kept, Touched, RequestClose;
      KeptSlots();
      SlabKept();
      if session in sessions && sessions[session].state.Attached? {
        var h := sessions[session].state.h;
        var here := Lives(h);
        if here {
          HandleOdd(h);
          var peer := connections.Get(h);
          TouchedPeers(View(), h);
          Touch(h);
          KeptSlots();
          SetConn(h, RequestClose(peer.value.conn, REPLACED));
        }
      }
    }

    /** Whether a handle still names a connection. */
    method Lives(h: Handle) returns (here: bool)
      requires connections.Valid()
      ensures here <==> h in connections.Map()
    {
      hide S.Contents;
      S.ContentsExact(connections.View(), h);
      if h.generation % 2 == 0 {
        return false;
      }
      var d := connections.DenseIndex(h);
      return d.Some?;
    }

    /** Makes the connection, and everything that remembers it. */
    method Admit(now: nat, from: nat, cookie: Cookie, session: nat) returns (h: Option<Handle>)
      requires Kept() && cookie.id !in ExpiryMap(redeemedExpiry)
      modifies this`schedules, this`ready, this`sessions, this`redeemed, this`redeemedExpiry, this`events, this`minted,
               connections
      ensures Kept() && h == S.Offered(old(connections.View()), capacity)
      ensures h.None? ==> View() == old(View())
      ensures h.Some? ==>
                && h.value !in old(View()).issued && h.value.index < old(|schedules|)
                && (forall k | k in old(View()).peers :: k.index != h.value.index)
                && View() == Admitted(old(View()), now, from, cookie, session, h.value)
    {
      hide EndpointState.Kept, New, Touched, ExpiryMap;
      ghost var s := View();
      KeptSlots();
      var p := Peer(New(now, Role.Server(None), from, kinds, cfg), session, cookie.id);
      h := Occupy(p);
      if h.None? {
        return;
      }
      KeptSlots();
      Remember(h.value, cookie, session);
      KeptTickets();
      PushExpiry(Expiry(cookie.ticket.expires, cookie.id));
      KeptSlots();
      Touch(h.value);
    }

    method Occupy(p: Peer) returns (h: Option<Handle>)
      requires Kept()
      modifies connections
      ensures Kept() && h == S.Offered(old(connections.View()), capacity)
      ensures h.None? ==> View() == old(View())
      ensures h.Some? ==>
                && h.value !in old(View()).issued && h.value.index < |schedules|
                && (forall k | k in old(View()).peers :: k.index != h.value.index)
                && View() == old(View()).(peers := old(View()).peers[h.value := p],
                                          issued := old(View()).issued + {h.value})
    {
      hide S.Slab.Valid, S.Slab.Map, TimerHeap.Timers.Valid, TimerHeap.Timers.Map, ExpiryMap, Sorted, S.Slab.Full,
           S.Offered, S.Inserted;
      h := connections.InsertWith(_ => p);
    }

    method Remember(h: Handle, cookie: Cookie, session: nat)
      requires Kept() && h.index < |schedules|
      modifies this`schedules, this`sessions, this`redeemed, this`minted, this`events
      ensures Kept()
      ensures View() == old(View()).(
                schedules := old(schedules)[h.index := IDLE],
                sessions := old(sessions)[session := Session(cookie.ticket.client, Attached(h))],
                redeemed := old(redeemed)[cookie.id := Some(h)],
                minted := old(minted) + [cookie.id],
                log := old(events) + [Connected(h, session, cookie.ticket.session.Some?)])
    {
      hide S.Slab.Valid, S.Slab.Map, TimerHeap.Timers.Valid, TimerHeap.Timers.Map, ExpiryMap, Sorted;
      schedules := schedules[h.index := IDLE];
      sessions := sessions[session := Session(cookie.ticket.client, Attached(h))];
      redeemed := redeemed[cookie.id := Some(h)];
      minted := minted + [cookie.id];
      events := events + [Connected(h, session, cookie.ticket.session.Some?)];
    }

    method CheckTicket(now: nat, t: Ticket) returns (ok: bool)
      requires Kept()
      ensures ok == TicketOk(View(), now, t)
    {
      if now > t.expires {
        return false;
      }
      if t.session.None? {
        return true;
      }
      var session := t.session.value;
      if session !in sessions {
        return false;
      }
      if sessions[session].owner != t.client {
        return false;
      }
      match sessions[session].state {
        case Attached(_) => return true;
        case Suspended(since) => return Since(now, since) < RESUME_GRACE;
      }
    }

    /** A challenge response: retried, refused, or a connection made. */
    method HandleResponse(now: nat, from: nat, cookie: Cookie, ghost count: nat, ghost book: nat -> Ticket)
      returns (chosen: Option<Handle>)
      requires 0 < count <= SHARDS && Valid(count, book) && clock <= now < U64_MAX
      requires cookie.ticket == book(cookie.id) && cookie.home == shard
      requires Home(count, cookie.ticket, cookie.id) == Some(shard)
      modifies this, connections
      ensures Valid(count, book) && clock == now
      ensures Taken(old(View()).(clock := now), Respond(now, from, cookie, chosen), View(), count, book)
      ensures R.Passes(old(View()), now, from, cookie) ==> chosen == S.Offered(old(connections.View()), capacity)
    {
      hide EndpointState.Kept, EndpointRuns.Good, Stepped, Responded, Home, S.Offered;
      LaterGood(View(), now, count, book);
      SetClock(now);
      ghost var u := View();
      FrontPolls(u, count, book);
      TicketKeys(u, count, book);
      KeptSlots();
      KeptTickets();
      chosen := Answer(now, from, cookie);
      RespondStep(u, now, from, cookie, chosen, count, book);
      EndpointRuns.StepGood(u, Respond(now, from, cookie, chosen), count, book);
    }

    method Answer(now: nat, from: nat, cookie: Cookie) returns (chosen: Option<Handle>)
      requires Kept() && AllSlotted(View()) && redeemed.Keys == ExpiryMap(redeemedExpiry).Keys
      modifies this`schedules, this`ready, this`sessions, this`redeemed, this`redeemedExpiry, this`events, this`minted,
               this`nextSequence, connections
      ensures Kept()
      ensures chosen.Some? ==>
                && chosen.value !in old(View()).issued && chosen.value.index < old(|schedules|)
                && (forall k | k in old(View()).peers :: k.index != chosen.value.index)
      ensures View() == Responded(old(View()), now, from, cookie, chosen)
      ensures R.Passes(old(View()), now, from, cookie) ==> chosen == S.Offered(old(connections.View()), capacity)
      ensures var store, free, s := old(connections.View()), old(connections.free), old(View());
              R.Holds(store, free, s) && View() == R.Answered(s, store, free, now, from, cookie)
    {
      hide EndpointState.Kept, Touched, WithConn, Established, TicketOk, ExpiryMap, S.Offered, R.Holds, R.Answered;
      SlabHolds();
      AnsweredAs(View(), connections.View(), connections.free, now, from, cookie);
      KeptSlots();
      SlabKept();
      KeptTickets();
      if cookie.addr != from || Since(now, cookie.issued) > COOKIE_LIFETIME {
        return None;
      }
      if cookie.id in redeemed {
        if redeemed[cookie.id].Some? {
          Resend(redeemed[cookie.id].value);
        }
        return None;
      }
      var ok := CheckTicket(now, cookie.ticket);
      if !ok {
        return None;
      }
      S.ContentsSize(connections.View());
      if |connections.items| >= capacity {
        return None;
      }
      chosen := Establish(now, from, cookie);
    }

    lemma SlabHolds()
      requires Kept()
      ensures R.Holds(connections.View(), connections.free, View()) && View().capacity == capacity
    {
      hide S.Inverse, S.Chain, S.FreeExact, S.Contents, TimerHeap.Timers.Valid, TimerHeap.Timers.Map, Sorted, ExpiryMap;
    }

    method Establish(now: nat, from: nat, cookie: Cookie) returns (chosen: Option<Handle>)
      requires Kept() && AllSlotted(View()) && cookie.id !in ExpiryMap(redeemedExpiry)
      modifies this`schedules, this`ready, this`sessions, this`redeemed, this`redeemedExpiry, this`events, this`minted,
               this`nextSequence, connections
      ensures Kept()
      ensures chosen.Some? ==>
                && chosen.value !in old(View()).issued && chosen.value.index < old(|schedules|)
                && (forall k | k in old(View()).peers :: k.index != chosen.value.index)
      ensures View() == Established(old(View()), now, from, cookie, chosen)
      ensures chosen == S.Offered(old(connections.View()), capacity)
    {
      hide EndpointState.Kept, TakenOver, Admitted, SessionId, ExpiryMap;
      KeptSlots();
      KeptTickets();
      var session := DrawSession(cookie.ticket);
      TakenOverRest(View(), session);
      TakeOver(session);
      KeptTickets();
      KeptSlots();
      chosen := Admit(now, from, cookie, session);
    }

    /** Sends the acceptance again, if the connection a spent ticket made still lives. */
    method Resend(k: Handle)
      requires Kept() && AllSlotted(View())
      modifies this`schedules, this`ready, connections
      ensures Kept()
      ensures var s := old(View());
              View() == if k in s.peers
                        then WithConn(Touched(s, k), k,
                                      s.peers[k].conn.(control := s.peers[k].conn.control.(accepted := true)))
                        else s
    {
      hide EndpointState.Kept, Touched, WithConn;
      KeptSlots();
      SlabKept();
      var here := Lives(k);
      if here {
        HandleOdd(k);
        var peer := connections.Get(k);
        var c := peer.value.conn;
        TouchedPeers(View(), k);
        Touch(k);
        KeptSlots();
        SetConn(k, c.(control := c.control.(accepted := true)));
      }
    }

    /** The session a ticket resumes, or a fresh one. */
    method DrawSession(t: Ticket) returns (session: nat)
      requires Kept()
      modifies this`nextSequence
      ensures Kept()
      ensures session == (if t.session.Some? then t.session.value else SessionId(old(nextSequence), shard))
      ensures View() == if t.session.Some? then old(View()) else old(View()).(nextSequence := old(nextSequence) + 1)
    {
      if t.session.Some? {
        return t.session.value;
      }
      session := SessionId(nextSequence, shard);
      nextSequence := nextSequence + 1;
    }

    // ----- Payloads and the application -----

    /** Routes a payload by its connection id. */
    method RoutePayload(now: nat, from: nat, slot: nat, occupancy: nat, d: Datagram, token: nat,
                        ghost count: nat, ghost book: nat -> Ticket) returns (delivered: seq<C.Delivery>)
      requires 0 < count <= SHARDS && Valid(count, book) && clock <= now < U64_MAX
      requires HeaderShaped(d.header) && token < U64
      modifies this, connections
      ensures Valid(count, book) && clock == now
      ensures Taken(old(View()).(clock := now), Payload(now, from, slot, occupancy, d, token), View(), count, book)
      ensures var s := old(View()).(clock := now);
              AllShaped(s) && delivered == Heard(s, now, from, slot, occupancy, d, token)
    {
      hide EndpointState.Kept, EndpointRuns.Good, Stepped, Routed, HeaderShaped, Heard;
      LaterGood(View(), now, count, book);
      SetClock(now);
      ghost var u := View();
      FrontPolls(u, count, book);
      GoodSlots(u, count, book);
      delivered := Route(now, from, slot, occupancy, d, token);
      PayloadStep(u, Payload(now, from, slot, occupancy, d, token), count, book);
      EndpointRuns.StepGood(u, Payload(now, from, slot, occupancy, d, token), count, book);
    }

    method Route(now: nat, from: nat, slot: nat, occupancy: nat, d: Datagram, token: nat)
        returns (delivered: seq<C.Delivery>)
      requires Kept() && AllSlotted(View()) && AllShaped(View()) && SlotsOk(View()) && HeaderShaped(d.header)
      modifies this`schedules, this`ready, this`events, connections
      ensures Kept() && View() == Routed(old(View()), now, from, slot, occupancy, d, token)
      ensures delivered == Heard(old(View()), now, from, slot, occupancy, d, token)
    {
      hide EndpointState.Kept, Serviced, HandleDatagram, OccupancyOf, Routed, SlotsOk, Heard;
      KeptSlots();
      SlabKept();
      delivered := [];
      var h := connections.HandleAt(slot);
      AtHandle(View(), slot, h);
      RoutedAs(View(), now, from, slot, occupancy, d, token, h);
      if h.None? || OccupancyOf(h.value) != occupancy {
        return;
      }
      HandleOdd(h.value);
      var peer := connections.Get(h.value);
      var r := HandleDatagram(peer.value.conn, now, from, d, token);
      if r.outcome.Processed? || r.outcome.BadPayload? {
        delivered := r.delivered;
        Service(h.value, r.conn);
      }
    }

    /** The application sends on a connection, closes it, or gives it a ticket. */
    method ChangeConnection(now: nat, h: Handle, op: Op, ghost count: nat, ghost book: nat -> Ticket)
      requires 0 < count <= SHARDS && Valid(count, book) && clock <= now < U64_MAX && Admits(View(), h, op)
      modifies this, connections
      ensures Valid(count, book) && clock == now && ChangedTo(old(View()).(clock := now), h, op, View())
    {
      hide EndpointState.Kept, EndpointRuns.Good, Changed, Admits;
      LaterGood(View(), now, count, book);
      AdmitsLater(View(), now, h, op);
      SetClock(now);
      ghost var u := View();
      FrontPolls(u, count, book);
      Operate(h, op);
      ChangeGood(u, now, h, op, count, book);
    }

    method Operate(h: Handle, op: Op)
      requires Kept() && AllSlotted(View()) && AllShaped(View())
      modifies this`schedules, this`ready, connections
      ensures Kept() && View() == Changed(old(View()), h, op)
    {
      hide EndpointState.Kept, Touched, WithConn, Operated;
      KeptSlots();
      SlabKept();
      var here := Lives(h);
      if here {
        HandleOdd(h);
        var peer := connections.Get(h);
        TouchedPeers(View(), h);
        Touch(h);
        KeptSlots();
        SetConn(h, Operated(peer.value.conn, op));
      }
    }
  }

  ghost predicate Admits(s: Host, h: Handle, op: Op) { h in s.peers ==> OpOk(s.peers[h].conn, op) }

  lemma AdmitsLater(s: Host, now: nat, h: Handle, op: Op)
    requires Admits(s, h, op)
    ensures Admits(s.(clock := now), h, op)
  {
    hide OpOk;
  }

  ghost predicate ChangedTo(s: Host, h: Handle, op: Op, t: Host) {
    AllSlotted(s) && AllShaped(s) && t == Changed(s, h, op)
  }

  /** Routing, given what is in the slot. */
  lemma RoutedAs(s: Host, now: nat, from: nat, slot: nat, occupancy: nat, d: Datagram, token: nat, h: Option<Handle>)
    requires AllSlotted(s) && AllShaped(s) && HeaderShaped(d.header) && At(s, slot) == h
    ensures Routed(s, now, from, slot, occupancy, d, token) ==
            if h.None? || OccupancyOf(h.value) != occupancy then s
            else
              var r := HandleDatagram(s.peers[h.value].conn, now, from, d, token);
              if r.outcome.Processed? || r.outcome.BadPayload? then Serviced(s, h.value, r.conn) else s
    ensures Heard(s, now, from, slot, occupancy, d, token) ==
            if h.None? || OccupancyOf(h.value) != occupancy then []
            else
              var r := HandleDatagram(s.peers[h.value].conn, now, from, d, token);
              if r.outcome.Processed? || r.outcome.BadPayload? then r.delivered else []
  {
    hide HandleDatagram, Serviced, OccupancyOf;
    if h.Some? {
      DeliversOnlyOpened(s.peers[h.value].conn, now, from, d, token);
    }
  }

  /** Only a packet that opened delivers anything. */
  lemma DeliversOnlyOpened(c: Conn, now: nat, from: nat, d: Datagram, token: nat)
    requires Shaped(c) && HeaderShaped(d.header)
    ensures var r := HandleDatagram(c, now, from, d, token);
            r.delivered != [] ==> r.outcome.Processed? || r.outcome.BadPayload?
  {
    hide HandleAck, Parse, ReadFrames;
  }

  lemma PayloadStep(s: Host, st: Step, count: nat, book: nat -> Ticket)
    requires 0 < count <= SHARDS && PeersOk(s) && st.Payload? && s.clock == st.now < U64_MAX
    requires HeaderShaped(st.d.header) && st.token < U64
    ensures AllSlotted(s) && AllShaped(s)
    ensures Taken(s, st, Routed(s, st.now, st.from, st.slot, st.occupancy, st.d, st.token), count, book)
  {
    hide Routed, I.Valid, Transmittable;
    PeersShaped(s);
    assert s.(clock := st.now) == s;
  }

  lemma ChangeGood(s: Host, now: nat, h: Handle, op: Op, count: nat, book: nat -> Ticket)
    requires 0 < count <= SHARDS && EndpointRuns.Good(s, count, book) && s.clock == now < U64_MAX
    requires Admits(s, h, op)
    ensures AllSlotted(s) && AllShaped(s)
    ensures EndpointRuns.Good(Changed(s, h, op), count, book) && Changed(s, h, op).clock == now
  {
    hide Scheduled, EndpointSessions.Lifetimes, EndpointSessions.OnlyService, Changed, OpOk, I.Valid;
    FrontPolls(s, count, book);
    ChangedScheduled(s, now, h, op);
    EndpointSessions.ChangedService(s, h, op);
    EndpointSessions.ServiceLifetimes(s, Changed(s, h, op), count, book);
    EndpointRuns.ServiceFixed(s, Changed(s, h, op));
  }

  /** Only a response that passes asks the slab. */
  lemma AnsweredAs(s: Host, store: S.Store<Peer>, free: seq<nat>, now: nat, from: nat, cookie: Cookie)
    requires R.Holds(store, free, s)
    ensures AllSlotted(s)
    ensures forall h: Option<Handle> | (h.Some? ==> h.value.index < |s.schedules|)
              && (R.Passes(s, now, from, cookie) ==> h == S.Offered(store, s.capacity)) ::
              R.Answered(s, store, free, now, from, cookie) == Responded(s, now, from, cookie, h)
  {
    hide S.Offered, Established, TicketOk, R.Holds;
    R.OfferedWithin(store, free, s);
  }

  lemma TakenOverRest(s: Host, session: nat)
    requires AllSlotted(s)
    ensures var t := TakenOver(s, session);
            t.peers.Keys == s.peers.Keys && t.expiry == s.expiry && t.issued == s.issued
            && |t.schedules| == |s.schedules|
  {
    hide RequestClose;
  }

  lemma RespondStep(s: Host, now: nat, from: nat, cookie: Cookie, chosen: Option<Handle>, count: nat,
                    book: nat -> Ticket)
    requires 0 < count <= SHARDS && PeersOk(s) && s.clock == now < U64_MAX
    requires cookie.ticket == book(cookie.id) && cookie.home == s.shard
             && Home(count, cookie.ticket, cookie.id) == Some(s.shard)
    requires chosen.Some? ==>
               && chosen.value !in s.issued && chosen.value.index < |s.schedules|
               && (forall k | k in s.peers :: k.index != chosen.value.index)
    ensures AllSlotted(s)
    ensures Taken(s, Respond(now, from, cookie, chosen), Responded(s, now, from, cookie, chosen), count, book)
  {
    hide Responded, I.Valid, Transmittable, Home;
    PeersShaped(s);
    assert s.(clock := now) == s;
  }

  lemma InsertedSorted(q: seq<Expiry>, at: nat, e: Expiry)
    requires Sorted(q) && at <= |q| && (forall i | 0 <= i < at :: q[i].at <= e.at) && (at < |q| ==> q[at].at > e.at)
    requires e.id !in IdsOf(q)
    ensures Sorted(q[..at] + [e] + q[at..])
  {
    var more := q[..at] + [e] + q[at..];
    forall i | 0 <= i < |q|
      ensures q[i].id != e.id && (i >= at ==> q[i].at >= e.at)
    {
      assert IdsOf(q)[i] == q[i].id;
    }
    forall i, j | 0 <= i < j < |more|
      ensures more[i].at <= more[j].at && more[i].id != more[j].id
    {
      assert more[i] == if i < at then q[i] else if i == at then e else q[i - 1];
      assert more[j] == if j < at then q[j] else if j == at then e else q[j - 1];
    }
  }

  lemma ExpiryInserted(q: seq<Expiry>, at: nat, e: Expiry)
    requires Sorted(q) && at <= |q| && (forall i | 0 <= i < at :: q[i].at <= e.at) && (at < |q| ==> q[at].at > e.at)
    requires e.id !in ExpiryMap(q)
    ensures Sorted(q[..at] + [e] + q[at..])
    ensures ExpiryMap(q[..at] + [e] + q[at..]) == ExpiryMap(q)[e.id := e.at]
  {
    hide ExpiryMap, Sorted;
    var more := q[..at] + [e] + q[at..];
    ExpiryExact(q);
    InsertedSorted(q, at, e);
    ExpiryExact(more);
    forall t
      ensures t in ExpiryMap(more) <==> t in ExpiryMap(q) || t == e.id
      ensures t in ExpiryMap(more) ==> ExpiryMap(more)[t] == ExpiryMap(q)[e.id := e.at][t]
    {
      InsertedAt(q, at, e, t);
    }
  }

  lemma InsertedAt(q: seq<Expiry>, at: nat, e: Expiry, t: nat)
    requires at <= |q| && Sorted(q) && Sorted(q[..at] + [e] + q[at..]) && e.id !in ExpiryMap(q)
    ensures var more := q[..at] + [e] + q[at..];
            && (t in ExpiryMap(more) <==> t in ExpiryMap(q) || t == e.id)
            && (t in ExpiryMap(more) ==> ExpiryMap(more)[t] == ExpiryMap(q)[e.id := e.at][t])
  {
    hide ExpiryMap, Sorted;
    var more := q[..at] + [e] + q[at..];
    ExpiryExact(q);
    ExpiryExact(more);
    assert more[at] == e;
    if t in ExpiryMap(q) {
      var i :| 0 <= i < |IdsOf(q)| && IdsOf(q)[i] == t;
      assert more[if i < at then i else i + 1] == q[i];
    }
    if t in ExpiryMap(more) {
      var i :| 0 <= i < |IdsOf(more)| && IdsOf(more)[i] == t;
      if i != at {
        var j := if i < at then i else i - 1;
        assert q[j] == more[i];
        assert IdsOf(q)[j] == t;
      }
    }
  }

  function AfterBatch(q: seq<Handle>): seq<Handle> { q[Min(REAP_BATCH, |q|)..] }

  /** No timer was set, whatever was cancelled. */
  ghost predicate FewerArmed(s: Host, t: Host)
  {
    forall k | k in t.timers :: k in s.timers && t.timers[k] == s.timers[k]
  }

  lemma RetiredRest(s: Host, h: Handle, now: nat)
    requires h in s.peers ==> Slotted(s, h)
    ensures var t := Retired(s, h, now);
            && t.retiring == s.retiring && t.clock == s.clock
            && (forall k | k in t.timers :: k in s.timers && t.timers[k] == s.timers[k])
  {
    hide LastClosed, LastMigrated;
  }

  /** No session is suspended that may no longer be resumed. */
  predicate NoneLapsed(s: Host, now: nat) {
    forall id | id in s.sessions && s.sessions[id].state.Suspended? ::
      now < s.sessions[id].state.since + 45_000_000_000
  }

  /** The oldest suspension tells for all. */
  lemma FrontDecides(s: Host, count: nat, book: nat -> Ticket, now: nat)
    requires 0 < count <= SHARDS && EndpointRuns.Good(s, count, book)
    requires s.suspended == [] || Since(now, s.suspended[0].since) < RESUME_GRACE
    ensures NoneLapsed(s, now)
  {
    hide Scheduled, EndpointSessions.LogOk, EndpointSessions.Counted, EndpointSessions.Spent,
         EndpointSessions.Answers, EndpointSessions.AllHome, EndpointSessions.DistinctTickets;
    forall id | id in s.sessions && s.sessions[id].state.Suspended?
      ensures now < s.sessions[id].state.since + 45_000_000_000
    {
      var l := Lapse(s.sessions[id].state.since, id);
      assert l in s.suspended;
      var i :| 0 <= i < |s.suspended| && s.suspended[i] == l;
      assert s.suspended[0].since <= s.suspended[i].since;
    }
  }

  lemma ForgottenNone(s: Host, now: nat)
    ensures forall t | t in Forgotten(s, now).expiry :: Forgotten(s, now).expiry[t] >= now
  {
  }

  lemma LapsedRest(s: Host, now: nat)
    ensures Lapsed(s, now).timers == s.timers && Lapsed(s, now).clock == s.clock
  {
  }

  lemma ReapStep(s: Host, now: nat, count: nat, book: nat -> Ticket)
    requires 0 < count <= SHARDS && PeersOk(s) && s.clock == now < U64_MAX && s.retiring != []
    ensures AllSlotted(s) && Taken(s, Step.Reap(now), Retired(s.(retiring := s.retiring[1..]), s.retiring[0], now),
                                   count, book)
  {
    hide Retired, I.Valid, Transmittable;
    PeersShaped(s);
    assert s.(clock := now) == s;
  }

  lemma ExpireStep(s: Host, now: nat, count: nat, book: nat -> Ticket)
    requires 0 < count <= SHARDS && PeersOk(s) && s.clock == now < U64_MAX
    ensures Taken(s, Step.Expire(now), Lapsed(s, now), count, book)
  {
    hide Lapsed, I.Valid;
    assert s.(clock := now) == s;
  }

  lemma ForgetStep(s: Host, now: nat, count: nat, book: nat -> Ticket)
    requires 0 < count <= SHARDS && PeersOk(s) && s.clock == now < U64_MAX
    ensures Taken(s, Step.Forget(now), Forgotten(s, now), count, book)
    ensures Forgotten(s, now).timers == s.timers && Forgotten(s, now).clock == s.clock
  {
    hide I.Valid;
    assert s.(clock := now) == s;
  }

  lemma TicketKeys(s: Host, count: nat, book: nat -> Ticket)
    requires 0 < count <= SHARDS && EndpointRuns.Good(s, count, book)
    ensures s.redeemed.Keys == s.expiry.Keys
  {
    hide Scheduled;
  }

  lemma {:induction false} FollowsJoin(s: Host, a: seq<Step>, u: Host, b: seq<Step>, t: Host, count: nat,
                                       book: nat -> Ticket)
    requires 0 < count <= SHARDS && Follows(s, a, u, count, book) && Follows(u, b, t, count, book)
    ensures Follows(s, a + b, t, count, book)
    decreases |b|
  {
    hide Taken;
    if b == [] {
      assert a + b == a;
    } else {
      var n := |b| - 1;
      var v :| Follows(u, b[..n], v, count, book) && Taken(v, b[n], t, count, book);
      FollowsJoin(s, a, u, b[..n], v, count, book);
      FollowsMore(s, a + b[..n], v, b[n], t, count, book);
      assert a + b[..n] + [b[n]] == a + b;
    }
  }

  lemma LaterGood(s: Host, now: nat, count: nat, book: nat -> Ticket)
    requires 0 < count <= SHARDS && EndpointRuns.Good(s, count, book) && s.clock <= now
    ensures EndpointRuns.Good(s.(clock := now), count, book)
  {
    hide EndpointSessions.Lifetimes, Scheduled;
    Later(s, now);
    EndpointSessions.LaterLifetimes(s, now, count, book);
  }

  lemma GoodSlots(s: Host, count: nat, book: nat -> Ticket)
    requires 0 < count <= SHARDS && EndpointRuns.Good(s, count, book)
    ensures SlotsOk(s)
  {
    hide EndpointSessions.Lifetimes, SlotsOk;
  }

  lemma FewerTimers(timers: map<nat, nat>, slot: nat)
    requires slot in timers
    ensures |timers - {slot}| < |timers|
  {
    assert (timers - {slot}).Keys == timers.Keys - {slot};
    assert |(timers - {slot}).Keys| < |timers.Keys|;
  }

  lemma FireStep(s: Host, now: nat, slot: nat, count: nat, book: nat -> Ticket)
    requires 0 < count <= SHARDS && PeersOk(s) && s.clock == now < U64_MAX
    ensures AllSlotted(s) && AllShaped(s) && Taken(s, Fire(now, slot), Fired(s, now, slot), count, book)
  {
    hide Fired, I.Valid, Transmittable;
    PeersShaped(s);
    assert s.(clock := now) == s;
  }

  ghost function Without(r: map<nat, Option<Handle>>, q: seq<Expiry>, k: nat): map<nat, Option<Handle>>
    requires k <= |q|
  {
    if k == 0 then r else Without(r, q, k - 1) - {q[k - 1].id}
  }

  lemma ForgetStart(q: seq<Expiry>, r: map<nat, Option<Handle>>)
    ensures q[0..] == q && Without(r, q, 0) == r
  {
  }

  lemma {:induction false} WithoutExact(r: map<nat, Option<Handle>>, q: seq<Expiry>, k: nat)
    requires k <= |q|
    ensures forall t :: t in Without(r, q, k) <==> t in r && forall i | 0 <= i < k :: q[i].id != t
    ensures forall t | t in Without(r, q, k) :: Without(r, q, k)[t] == r[t]
  {
    if k > 0 {
      WithoutExact(r, q, k - 1);
    }
  }

  function IdsOf(q: seq<Expiry>): seq<nat> { seq(|q|, i requires 0 <= i < |q| => q[i].id) }

  lemma {:induction false} ExpiryExact(q: seq<Expiry>)
    requires Sorted(q)
    ensures forall i | 0 <= i < |q| :: q[i].id in ExpiryMap(q) && ExpiryMap(q)[q[i].id] == q[i].at
    ensures forall t :: t in ExpiryMap(q) <==> t in IdsOf(q)
  {
    if q != [] {
      var n := |q| - 1;
      var init := q[..n];
      ExpiryExact(init);
      assert IdsOf(q) == IdsOf(init) + [q[n].id];
      forall i | 0 <= i < |q|
        ensures q[i].id in ExpiryMap(q) && ExpiryMap(q)[q[i].id] == q[i].at
      {
        if i < n {
          assert init[i] == q[i];
        }
      }
    }
  }

  lemma SortedTail(q: seq<Expiry>, k: nat)
    requires Sorted(q) && k <= |q|
    ensures Sorted(q[k..])
  {
  }

  /** The tickets left after dropping the first `k`, which are those expired. */
  lemma ForgetOne(q: seq<Expiry>, k: nat, now: nat, t: nat)
    requires Sorted(q) && k <= |q| && (forall i | 0 <= i < k :: q[i].at < now) && (k < |q| ==> q[k].at >= now)
    requires Sorted(q[k..]) && t in ExpiryMap(q)
    ensures ExpiryMap(q)[t] >= now <==> t in ExpiryMap(q[k..])
    ensures ExpiryMap(q)[t] >= now <==> forall i | 0 <= i < k :: q[i].id != t
    ensures t in ExpiryMap(q[k..]) ==> ExpiryMap(q[k..])[t] == ExpiryMap(q)[t]
  {
    hide ExpiryMap;
    var tail := q[k..];
    ExpiryExact(q);
    ExpiryExact(tail);
    var j :| 0 <= j < |IdsOf(q)| && IdsOf(q)[j] == t;
    assert q[j].id == t;
    if t in ExpiryMap(tail) {
      var i :| 0 <= i < |IdsOf(tail)| && IdsOf(tail)[i] == t;
      assert tail[i].id == t && tail[i] == q[k + i];
    }
    if j >= k {
      assert tail[j - k] == q[j] && q[k].at <= q[j].at;
    }
  }

  lemma ForgetTickets(q: seq<Expiry>, k: nat, now: nat)
    requires Sorted(q) && k <= |q| && (forall i | 0 <= i < k :: q[i].at < now) && (k < |q| ==> q[k].at >= now)
    ensures Sorted(q[k..])
    ensures var e := ExpiryMap(q); ExpiryMap(q[k..]) == (map t | t in e && e[t] >= now :: e[t])
  {
    hide ExpiryMap, Sorted;
    SortedTail(q, k);
    var e, tail := ExpiryMap(q), q[k..];
    ExpiryExact(q);
    ExpiryExact(tail);
    forall t | t in e
      ensures e[t] >= now <==> t in ExpiryMap(tail)
      ensures t in ExpiryMap(tail) ==> ExpiryMap(tail)[t] == e[t]
    {
      ForgetOne(q, k, now, t);
    }
    forall t | t in ExpiryMap(tail)
      ensures t in e
    {
      var i :| 0 <= i < |IdsOf(tail)| && IdsOf(tail)[i] == t;
      assert q[k + i].id == t;
    }
  }

  lemma ForgetDone(q: seq<Expiry>, r: map<nat, Option<Handle>>, k: nat, now: nat)
    requires Sorted(q) && k <= |q| && (forall i | 0 <= i < k :: q[i].at < now) && (k < |q| ==> q[k].at >= now)
    requires r.Keys == ExpiryMap(q).Keys
    ensures Sorted(q[k..])
    ensures var e := ExpiryMap(q);
            && Without(r, q, k) == (map t | t in r && t in e && e[t] >= now :: r[t])
            && ExpiryMap(q[k..]) == (map t | t in e && e[t] >= now :: e[t])
  {
    hide Without, ExpiryMap, Sorted;
    ForgetTickets(q, k, now);
    WithoutExact(r, q, k);
    var e := ExpiryMap(q);
    forall t | t in r
      ensures t in e && (e[t] >= now <==> t in Without(r, q, k))
    {
      assert t in e.Keys;
      ForgetOne(q, k, now, t);
    }
  }

  lemma PumpedShape(s: Host, h: Handle)
    requires Slotted(s, h)
    ensures var t := Pumped(s, h);
            && h in t.peers && t.peers[h].session == s.peers[h].session && t.peers[h].ticket == s.peers[h].ticket
            && |t.schedules| == |s.schedules|
            && t.redeemed == s.redeemed && t.sessions == s.sessions && t.suspended == s.suspended
            && t.timers == s.timers
            && t.issued == s.issued
  {
    hide LastClosed, LastMigrated;
  }

  lemma AtHandle(s: Host, slot: nat, h: Option<Handle>)
    requires SlotsOk(s) && (h.Some? ==> h.value in s.peers && h.value.index == slot)
    requires h.None? ==> forall k | k in s.peers :: k.index != slot
    ensures At(s, slot) == h
  {
  }

  lemma ServicedTimers(s: Host, h: Handle, c: Conn)
    requires Slotted(s, h)
    ensures Serviced(s, h, c).timers == s.timers
  {
    hide LastClosed, LastMigrated;
  }

  lemma FollowsNone(s: Host, count: nat, book: nat -> Ticket)
    requires 0 < count <= SHARDS
    ensures Follows(s, [], s, count, book)
  {
  }

  /** The front of the queue, if live, can be polled. */
  lemma FrontPolls(s: Host, count: nat, book: nat -> Ticket)
    requires 0 < count <= SHARDS && EndpointRuns.Good(s, count, book)
    ensures PeersOk(s) && AllSlotted(s) && AllShaped(s)
    ensures forall h | h in s.ready :: h in s.issued
    ensures forall h | h in s.retiring :: h in s.issued
    ensures forall h | h in s.peers :: Transmittable(s.peers[h].conn) && B.Consistent(s.peers[h].conn.budget)
  {
    hide I.Valid, EndpointSessions.Lifetimes, Transmittable, B.Consistent;
    PeersShaped(s);
  }

  lemma DrainStep(s: Host, now: nat, count: nat, book: nat -> Ticket)
    requires 0 < count <= SHARDS && PeersOk(s) && s.clock == now < U64_MAX
    requires s.ready != [] && s.ready[0] in s.peers ==>
               && Slotted(s, s.ready[0])
               && Transmittable(s.peers[s.ready[0]].conn) && B.Consistent(s.peers[s.ready[0]].conn.budget)
    ensures Taken(s, Step.Drain(now), Drained(s, now), count, book)
  {
    hide Drained, I.Valid, Transmittable, B.Consistent;
    assert s.(clock := now) == s;
  }

  /** One turn of the transmit pass. */
  lemma DrainTurn(s: Host, steps: seq<Step>, u: Host, sent: seq<Packet>, now: nat, count: nat, book: nat -> Ticket)
    requires 0 < count <= SHARDS && EndpointRuns.Good(u, count, book) && u.clock == now < U64_MAX && u.ready != []
    requires Follows(s, steps, u, count, book) && Drains(s, |steps|, u, sent, now, count, book)
    ensures PollsFront(u) && (u.ready[0] in u.peers ==> Slotted(u, u.ready[0]))
    ensures var t := Drained(u, now);
            && EndpointRuns.Good(t, count, book) && t.clock == now
            && Follows(s, steps + [Step.Drain(now)], t, count, book)
            && Drains(s, |steps| + 1, t, sent + Emitted(u, now), now, count, book)
  {
    hide EndpointRuns.Good, Follows, Drains, Drained, Emitted, Transmittable, B.Consistent, Stepped;
    FrontPolls(u, count, book);
    DrainStep(u, now, count, book);
    DrainsMore(s, |steps|, u, sent, Drained(u, now), sent + Emitted(u, now), now, count, book);
    EndpointRuns.StepGood(u, Step.Drain(now), count, book);
    FollowsMore(s, steps, u, Step.Drain(now), Drained(u, now), count, book);
    DrainedClock(u, now);
  }

  lemma DrainedClock(s: Host, now: nat)
    requires PollsFront(s) && (s.ready != [] && s.ready[0] in s.peers ==> Slotted(s, s.ready[0]))
    ensures Drained(s, now).clock == s.clock
  {
    hide PollTransmit, Deadline, Transmittable, B.Consistent;
  }

  lemma EmittedFew(s: Host, now: nat)
    requires PollsFront(s)
    ensures |Emitted(s, now)| <= 1
  {
    hide PollTransmit, Transmittable, B.Consistent;
  }

  lemma TouchedPeers(s: Host, h: Handle)
    requires h.index < |s.schedules|
    ensures Touched(s, h).peers == s.peers && |Touched(s, h).schedules| == |s.schedules|
  {
  }

  /** The last migration and the last closure among a connection's events. */
  method TakeEvents(events: seq<Event>) returns (migrated: Option<nat>, closed: Option<nat>)
    ensures migrated == LastMigrated(events) && closed == LastClosed(events)
  {
    migrated, closed := None, None;
    assert events[..0] == [];
    for i := 0 to |events|
      invariant migrated == LastMigrated(events[..i]) && closed == LastClosed(events[..i])
    {
      LastMore(events, i);
      match events[i] {
        case Migrated(addr) => migrated := Some(addr);
        case ClosedEvent(reason) => closed := Some(reason);
        case ResumeTicketReceived =>
      }
    }
    assert events[..|events|] == events;
  }

  lemma LastMore(events: seq<Event>, i: nat)
    requires i < |events|
    ensures LastMigrated(events[..i + 1]) == (if events[i].Migrated? then Some(events[i].addr)
                                              else LastMigrated(events[..i]))
    ensures LastClosed(events[..i + 1]) == (if events[i].ClosedEvent? then Some(events[i].reason)
                                            else LastClosed(events[..i]))
  {
    assert events[..i + 1][..i] == events[..i];
  }
}
