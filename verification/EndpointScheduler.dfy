/** The endpoint's scheduler agrees with its connections: in every reachable state a live
connection is queued to transmit, or its timer is its own next deadline, or it has closed and
is queued to be removed. */
module EndpointScheduler {
  import opened Machine
  import opened Frames
  import opened Connection
  import opened Slab
  import opened Endpoint
  import B = Budget
  import C = Channels
  import L = Ledger
  import I = ConnectionInvariant
  import T = Transmit

  ghost predicate Distinct(q: seq<Handle>) { forall i, j | 0 <= i < j < |q| :: q[i] != q[j] }

  /** No two live connections share a slot. */
  ghost predicate SlotsOk(s: Host) { forall h, k | h in s.peers && k in s.peers && h.index == k.index :: h == k }

  /** The flags beside each slot say exactly what its connection is queued for. */
  ghost predicate QueuesOk(s: Host)
    requires AllSlotted(s)
  {
    && Distinct(s.ready) && Distinct(s.retiring)
    && (forall h | h in s.ready :: h in s.issued) && (forall h | h in s.retiring :: h in s.issued)
    && (forall h | h in s.peers :: s.schedules[h.index].ready <==> h in s.ready)
    && (forall h | h in s.peers :: s.schedules[h.index].retiring <==> h in s.retiring)
    && (forall h | h in s.peers && h in s.retiring :: s.peers[h].conn.lifecycle.Closed?)
  }

  /** A connection not queued to transmit is armed for its own deadline, or queued for removal. */
  ghost predicate ArmedFor(s: Host, h: Handle)
    requires h in s.peers
  {
    || h in s.ready
    || (Deadline(s.peers[h].conn).Some? && h.index in s.timers && s.timers[h.index] == Deadline(s.peers[h].conn).value)
    || (Deadline(s.peers[h].conn).None? && h in s.retiring)
  }

  ghost predicate Armed(s: Host) { forall h | h in s.peers :: ArmedFor(s, h) }

  ghost predicate Occupied(s: Host, slot: nat) { exists h :: h in s.peers && h.index == slot }

  /** No timer belongs to an empty slot. */
  ghost predicate TimersOk(s: Host) { forall slot | slot in s.timers :: Occupied(s, slot) }

  ghost predicate Scheduled(s: Host) {
    && PeersOk(s) && s.capacity == |s.schedules| && AllSlotted(s)
    && SlotsOk(s) && QueuesOk(s) && Armed(s) && TimersOk(s)
  }

  // ----- Pieces -----

  /** Only these fields matter. */
  lemma SameSchedule(s: Host, t: Host)
    requires Scheduled(s) && t.peers == s.peers && t.issued == s.issued && t.schedules == s.schedules
    requires t.capacity == s.capacity && t.timers == s.timers && t.ready == s.ready && t.retiring == s.retiring
    requires t.clock == s.clock
    ensures Scheduled(t)
  {
    hide I.Valid, Deadline;
    assert forall h | h in t.peers :: ArmedFor(s, h) ==> ArmedFor(t, h);
    assert forall slot | slot in t.timers :: Occupied(s, slot) ==> Occupied(t, slot);
  }

  lemma Later(s: Host, now: nat)
    requires Scheduled(s) && now >= s.clock
    ensures Scheduled(s.(clock := now))
  {
    hide I.Valid, Deadline;
    var t := s.(clock := now);
    forall h | h in t.peers
      ensures I.Valid(t.peers[h].conn, now) && ArmedFor(t, h)
    {
      I.ValidLater(s.peers[h].conn, s.clock, now);
      assert ArmedFor(s, h);
    }
    assert forall slot | slot in t.timers :: Occupied(s, slot) ==> Occupied(t, slot);
  }

  lemma DistinctMore(q: seq<Handle>, h: Handle)
    requires Distinct(q) && h !in q
    ensures Distinct(q + [h]) && forall k :: k in q + [h] <==> k in q || k == h
  {
    forall k
      ensures k in q + [h] <==> k in q || k == h
    {
    }
  }

  /** Slots and timers depend only on which connections are live. */
  lemma SlotsKept(s: Host, t: Host)
    requires SlotsOk(s) && TimersOk(s) && t.peers.Keys == s.peers.Keys
    requires forall slot | slot in t.timers :: slot in s.timers || Occupied(t, slot)
    ensures SlotsOk(t) && TimersOk(t)
  {
    forall slot | slot in t.timers
      ensures Occupied(t, slot)
    {
      if slot in s.timers {
        assert Occupied(s, slot);
        var k :| k in s.peers && k.index == slot;
        assert k in t.peers;
      }
    }
  }

  lemma TouchedQueues(s: Host, h: Handle)
    requires AllSlotted(s) && QueuesOk(s) && SlotsOk(s) && h in s.peers && h in s.issued
    ensures AllSlotted(Touched(s, h)) && QueuesOk(Touched(s, h)) && h in Touched(s, h).ready
    ensures forall k | k in s.ready :: k in Touched(s, h).ready
  {
    hide Distinct;
    if !s.schedules[h.index].ready {
      DistinctMore(s.ready, h);
      assert forall k | k in s.peers && k != h :: k.index != h.index;
    }
  }

  lemma TouchedScheduled(s: Host, h: Handle)
    requires Scheduled(s) && h in s.peers
    ensures Scheduled(Touched(s, h)) && h in Touched(s, h).ready && Touched(s, h).peers == s.peers
  {
    hide I.Valid, Deadline, QueuesOk, SlotsOk, TimersOk;
    var t := Touched(s, h);
    TouchedQueues(s, h);
    SlotsKept(s, t);
    forall k | k in t.peers
      ensures ArmedFor(t, k)
    {
      assert ArmedFor(s, k);
    }
  }

  /** A connection queued to transmit may change freely, but not reopen. */
  lemma WithConnScheduled(s: Host, h: Handle, c: Conn)
    requires Scheduled(s) && h in s.peers && h in s.ready && I.Valid(c, s.clock)
    requires s.peers[h].conn.lifecycle.Closed? ==> c.lifecycle.Closed?
    ensures Scheduled(WithConn(s, h, c))
  {
    hide I.Valid, Deadline, SlotsOk, TimersOk, Distinct;
    var t := WithConn(s, h, c);
    assert t.peers.Keys == s.peers.Keys;
    SlotsKept(s, t);
    forall k | k in t.peers
      ensures ArmedFor(t, k)
    {
      assert ArmedFor(s, k);
    }
  }

  lemma EventsKept(c: Conn, clock: nat)
    requires I.Valid(c, clock)
    ensures I.Valid(c.(events := []), clock) && Deadline(c.(events := [])) == Deadline(c)
  {
    hide L.Valid, I.NoneStranded, B.Consistent, I.QueueValid, L.NextTimeout, C.NextUnsentLen, B.ReadyFor;
  }

  lemma PumpedQueues(s: Host, h: Handle)
    requires AllSlotted(s) && QueuesOk(s) && h in s.peers
    ensures AllSlotted(Pumped(s, h)) && QueuesOk(Pumped(s, h))
  {
    hide Distinct, LastClosed, LastMigrated;
    var t := Pumped(s, h);
    forall k | k in t.peers
      ensures t.schedules[k.index].ready == s.schedules[k.index].ready
      ensures t.schedules[k.index].retiring == s.schedules[k.index].retiring
      ensures t.peers[k].conn.lifecycle == s.peers[k].conn.lifecycle
    {
    }
  }

  lemma PumpedParts(s: Host, h: Handle)
    requires Slotted(s, h)
    ensures var t := Pumped(s, h);
            && t.peers == s.peers[h := s.peers[h].(conn := s.peers[h].conn.(events := []))]
            && t == s.(peers := t.peers, log := t.log, schedules := t.schedules) && |t.schedules| == |s.schedules|
  {
    hide LastClosed, LastMigrated;
  }

  lemma PumpedScheduled(s: Host, h: Handle)
    requires Scheduled(s) && h in s.peers
    ensures Scheduled(Pumped(s, h))
  {
    hide I.Valid, Deadline, QueuesOk, SlotsOk, TimersOk, Pumped;
    var t := Pumped(s, h);
    PumpedQueues(s, h);
    PumpedParts(s, h);
    EventsKept(s.peers[h].conn, s.clock);
    assert t.peers.Keys == s.peers.Keys;
    SlotsKept(s, t);
    forall k | k in t.peers
      ensures ArmedFor(t, k)
    {
      assert ArmedFor(s, k);
    }
  }

  lemma ServicedScheduled(s: Host, h: Handle, c: Conn)
    requires Scheduled(s) && h in s.peers && I.Valid(c, s.clock)
    requires s.peers[h].conn.lifecycle.Closed? ==> c.lifecycle.Closed?
    ensures Scheduled(Serviced(s, h, c))
  {
    hide Scheduled, I.Valid, Pumped;
    SlottedOf(s);
    TouchedScheduled(s, h);
    WithConnScheduled(Touched(s, h), h, c);
    assert WithConn(Touched(s, h), h, c) == Touched(WithConn(s, h, c), h);
    PumpedScheduled(WithConn(Touched(s, h), h, c), h);
  }

  lemma SlottedOf(s: Host)
    requires Scheduled(s)
    ensures AllSlotted(s) && PeersOk(s)
  {
    hide I.Valid;
  }

  /** A slot's timer may go while its connection is queued to transmit. */
  lemma Disarmed(s: Host, slot: nat)
    requires Scheduled(s) && forall h | h in s.peers && h.index == slot :: h in s.ready
    ensures Scheduled(s.(timers := s.timers - {slot}))
  {
    hide I.Valid, Deadline, Distinct, SlotsOk, TimersOk;
    var t := s.(timers := s.timers - {slot});
    SlotsKept(s, t);
    forall k | k in t.peers
      ensures ArmedFor(t, k)
    {
      assert ArmedFor(s, k);
    }
  }

  // ----- Steps -----

  lemma DatagramKeepsClosed(c: Conn, now: nat, from: nat, d: Datagram, token: nat)
    requires Shaped(c) && HeaderShaped(d.header)
    ensures c.lifecycle.Closed? ==> HandleDatagram(c, now, from, d, token).conn == c
  {
    hide HandleBody;
  }

  lemma RoutedScheduled(s: Host, now: nat, from: nat, slot: nat, occupancy: nat, d: Datagram, token: nat)
    requires Scheduled(s) && s.clock == now && HeaderShaped(d.header) && token < U64
    ensures AllShaped(s) && Scheduled(Routed(s, now, from, slot, occupancy, d, token))
  {
    hide Scheduled, I.Valid, HandleDatagram, Serviced;
    SlottedOf(s);
    PeersShaped(s);
    var h := Found(s, slot, occupancy);
    if h.Some? {
      var c := s.peers[h.value].conn;
      I.HandleDatagramValid(c, s.clock, now, from, d, token);
      DatagramKeepsClosed(c, now, from, d, token);
      ServicedScheduled(s, h.value, HandleDatagram(c, now, from, d, token).conn);
    }
  }

  lemma TimeoutKeepsClosed(c: Conn, now: nat)
    requires Shaped(c)
    ensures c.lifecycle.Closed? ==> HandleTimeout(c, now) == c
  {
    hide L.OnTimeout, Resolved;
  }

  lemma FiredScheduled(s: Host, now: nat, slot: nat)
    requires Scheduled(s) && s.clock == now
    ensures AllShaped(s) && Scheduled(Fired(s, now, slot))
  {
    hide Scheduled, I.Valid, HandleTimeout, Pumped;
    SlottedOf(s);
    PeersShaped(s);
    if slot in s.timers && s.timers[slot] <= now {
      var h := At(s, slot);
      SomeoneThere(s, slot);
      var c := s.peers[h.value].conn;
      I.TimeoutValid(c, s.clock, now);
      TimeoutKeepsClosed(c, now);
      TouchedScheduled(s, h.value);
      OnlyOne(s, h.value);
      var t := Touched(s, h.value);
      Disarmed(t, slot);
      var u := t.(timers := t.timers - {slot});
      WithConnScheduled(u, h.value, HandleTimeout(c, now));
      PumpedScheduled(WithConn(u, h.value, HandleTimeout(c, now)), h.value);
      assert WithConn(u, h.value, HandleTimeout(c, now))
          == Touched(WithConn(s.(timers := s.timers - {slot}), h.value, HandleTimeout(c, now)), h.value);
    }
  }

  lemma SomeoneThere(s: Host, slot: nat)
    requires Scheduled(s) && slot in s.timers
    ensures At(s, slot).Some?
  {
    assert Occupied(s, slot);
  }

  lemma OnlyOne(s: Host, h: Handle)
    requires Scheduled(s) && h in s.peers
    ensures forall k | k in s.peers && k.index == h.index :: k == h
  {
  }

  lemma ChangedScheduled(s: Host, now: nat, h: Handle, op: Op)
    requires Scheduled(s) && s.clock == now
    requires h in s.peers ==> OpOk(s.peers[h].conn, op)
    ensures AllShaped(s) && Scheduled(Changed(s, h, op))
  {
    hide Scheduled, I.Valid, Operated;
    SlottedOf(s);
    PeersShaped(s);
    if h in s.peers {
      TouchedScheduled(s, h);
      OperatedValid(s.peers[h].conn, now, op);
      WithConnScheduled(Touched(s, h), h, Operated(s.peers[h].conn, op));
    }
  }

  ghost predicate OpOk(c: Conn, op: Op) {
    match op
    case SendOp(channel, _) => C.Sized(c.channels) && channel < |c.channels.kinds|
        ==> c.channels.nextIds[channel] < U32_MAX
    case CloseOp(reason) => reason < REASONS
    case TicketOp(blob) => |blob| <= MAX_BLOB
  }

  lemma OperatedValid(c: Conn, clock: nat, op: Op)
    requires I.Valid(c, clock) && OpOk(c, op)
    ensures Shaped(c) && I.Valid(Operated(c, op), clock)
    ensures c.lifecycle.Closed? ==> Operated(c, op).lifecycle.Closed?
  {
    hide L.Valid, I.NoneStranded, B.Consistent, C.Send;
    I.ValidShaped(c, clock);
    match op
    case SendOp(channel, payload) => I.SendValid(c, clock, channel, payload);
    case _ =>
  }

  lemma PollKeepsClosed(c: Conn, clock: nat, now: nat)
    requires I.Valid(c, clock) && clock <= now < U64_MAX
    ensures Transmittable(c) && B.Consistent(c.budget)
    ensures c.lifecycle.Closed? ==> PollTransmit(c, now).conn.lifecycle.Closed?
  {
    hide I.Valid, B.Assess, B.ReadyFor, C.NextUnsentLen, Committed, Drafted, Aborted;
    T.PollExact(c, clock, now);
  }

  lemma ClosedHasNone(c: Conn, clock: nat)
    requires I.Valid(c, clock)
    ensures Deadline(c).None? <==> c.lifecycle.Closed?
  {
    hide L.Valid, I.NoneStranded, I.QueueValid, L.NextTimeout, C.NextUnsentLen, B.ReadyFor;
    I.ValidShaped(c, clock);
  }

  lemma DrainedScheduled(s: Host, now: nat)
    requires Scheduled(s) && s.clock == now < U64_MAX
    ensures s.ready != [] && s.ready[0] in s.peers ==>
              Slotted(s, s.ready[0]) && Transmittable(s.peers[s.ready[0]].conn)
              && B.Consistent(s.peers[s.ready[0]].conn.budget)
    ensures Scheduled(Drained(s, now))
  {
    hide Scheduled, I.Valid, PollTransmit, Deadline;
    SlottedOf(s);
    PeersShaped(s);
    if s.ready != [] {
      var h := s.ready[0];
      if h in s.peers {
        var c := s.peers[h].conn;
        T.PollValid(c, now, now);
        PollKeepsClosed(c, now, now);
        ClosedHasNone(PollTransmit(c, now).conn, now);
        PolledScheduled(s, PollTransmit(c, now).conn);
      } else {
        DeadPopped(s);
      }
    }
  }

  lemma DeadPopped(s: Host)
    requires Scheduled(s) && s.ready != [] && s.ready[0] !in s.peers
    ensures Scheduled(s.(ready := s.ready[1..]))
  {
    hide I.Valid, Deadline;
    var t := s.(ready := s.ready[1..]);
    FirstPopped(s.ready);
    forall k | k in t.peers
      ensures ArmedFor(t, k)
    {
      assert ArmedFor(s, k);
    }
    assert forall slot | slot in t.timers :: Occupied(s, slot) ==> Occupied(t, slot);
  }

  lemma FirstPopped(q: seq<Handle>)
    requires q != [] && Distinct(q)
    ensures Distinct(q[1..]) && forall k :: k in q[1..] <==> k in q && k != q[0]
  {
    assert q == [q[0]] + q[1..];
    forall k
      ensures k in q[1..] <==> k in q && k != q[0]
    {
      if k in q[1..] {
        var i :| 0 <= i < |q[1..]| && q[1..][i] == k;
        assert q[i + 1] == k;
      }
    }
  }

  /** The front of the queue has transmitted and is now `c`. */
  function Polled(s: Host, c: Conn): Host
    requires s.ready != [] && Slotted(s, s.ready[0])
  {
    var h := s.ready[0];
    Rearmed(WithConn(s.(ready := s.ready[1..]), h, c), h, c)
  }

  lemma PolledQueues(s: Host, c: Conn)
    requires AllSlotted(s) && SlotsOk(s) && QueuesOk(s) && s.ready != [] && s.ready[0] in s.peers
             && s.ready[0] in s.issued
    requires s.peers[s.ready[0]].conn.lifecycle.Closed? ==> c.lifecycle.Closed?
    requires Deadline(c).None? <==> c.lifecycle.Closed?
    ensures AllSlotted(Polled(s, c)) && QueuesOk(Polled(s, c))
    ensures forall k | k in s.retiring :: k in Polled(s, c).retiring
    ensures Deadline(c).None? ==> s.ready[0] in Polled(s, c).retiring
  {
    hide Deadline, Distinct;
    var h, t := s.ready[0], Polled(s, c);
    FirstPopped(s.ready);
    assert s.schedules[h.index].retiring <==> h in s.retiring;
    if h !in s.retiring {
      DistinctMore(s.retiring, h);
    }
    forall k | k in t.peers && k != h
      ensures k in s.peers && t.schedules[k.index] == s.schedules[k.index]
    {
      assert k.index != h.index;
    }
  }

  lemma PolledArmed(s: Host, c: Conn, k: Handle)
    requires AllSlotted(s) && SlotsOk(s) && s.ready != [] && Distinct(s.ready) && s.ready[0] in s.peers && k in s.peers
    requires ArmedFor(s, k) && (forall j | j in s.retiring :: j in Polled(s, c).retiring)
    requires Deadline(c).None? ==> s.ready[0] in Polled(s, c).retiring
    ensures k in Polled(s, c).peers && ArmedFor(Polled(s, c), k)
  {
    hide Deadline, Distinct;
    FirstPopped(s.ready);
    var h := s.ready[0];
    assert k != h ==> k.index != h.index;
  }

  lemma PolledScheduled(s: Host, c: Conn)
    requires Scheduled(s) && s.ready != [] && s.ready[0] in s.peers && I.Valid(c, s.clock)
    requires s.peers[s.ready[0]].conn.lifecycle.Closed? ==> c.lifecycle.Closed?
    requires Deadline(c).None? <==> c.lifecycle.Closed?
    ensures Slotted(s, s.ready[0]) && Scheduled(Polled(s, c))
  {
    hide I.Valid, Deadline, ArmedFor, SlotsOk, TimersOk, QueuesOk, Distinct;
    var h, t := s.ready[0], Polled(s, c);
    PolledQueues(s, c);
    assert t.peers.Keys == s.peers.Keys && h in t.peers;
    assert Occupied(t, h.index);
    SlotsKept(s, t);
    assert Distinct(s.ready) by { ReadyDistinct(s); }
    forall k | k in t.peers
      ensures ArmedFor(t, k)
    {
      PolledArmed(s, c, k);
    }
  }

  lemma ReadyDistinct(s: Host)
    requires AllSlotted(s) && QueuesOk(s)
    ensures Distinct(s.ready) && Distinct(s.retiring)
  {
  }

  // ----- Leaving and arriving -----

  lemma RetiredParts(s: Host, h: Handle, now: nat)
    requires Slotted(s, h)
    ensures var t := Retired(s, h, now);
            && t.peers == s.peers - {h} && t.ready == s.ready && t.retiring == s.retiring && t.issued == s.issued
            && t.timers == s.timers - {h.index} && t.capacity == s.capacity && t.clock == s.clock
            && |t.schedules| == |s.schedules|
            && (forall i | 0 <= i < |s.schedules| && i != h.index :: t.schedules[i] == s.schedules[i])
  {
    hide LastClosed, LastMigrated;
  }

  /** What is left when the connection in slot `h.index` goes. */
  lemma LeftQueues(s: Host, t: Host, h: Handle)
    requires AllSlotted(s) && SlotsOk(s) && QueuesOk(s) && h in s.peers && s.retiring != [] && s.retiring[0] == h
    requires t.peers == s.peers - {h} && t.ready == s.ready && t.retiring == s.retiring[1..] && t.issued == s.issued
    requires |t.schedules| == |s.schedules|
    requires forall i | 0 <= i < |s.schedules| && i != h.index :: t.schedules[i] == s.schedules[i]
    ensures AllSlotted(t) && SlotsOk(t) && QueuesOk(t)
    ensures forall k | k in t.peers :: k.index != h.index && (k in t.retiring <==> k in s.retiring)
  {
    hide Distinct;
    FirstPopped(s.retiring);
    forall k | k in t.peers
      ensures k.index != h.index && k in s.peers
    {
    }
  }

  lemma LeftScheduled(s: Host, t: Host, h: Handle)
    requires Scheduled(s) && h in s.peers && s.retiring != [] && s.retiring[0] == h
    requires t.peers == s.peers - {h} && t.ready == s.ready && t.retiring == s.retiring[1..] && t.issued == s.issued
    requires t.timers == s.timers - {h.index} && t.capacity == s.capacity && t.clock == s.clock
    requires |t.schedules| == |s.schedules|
    requires forall i | 0 <= i < |s.schedules| && i != h.index :: t.schedules[i] == s.schedules[i]
    ensures Scheduled(t)
  {
    hide I.Valid, Deadline, QueuesOk, SlotsOk;
    LeftQueues(s, t, h);
    forall k | k in t.peers
      ensures ArmedFor(t, k)
    {
      assert ArmedFor(s, k);
    }
    forall slot | slot in t.timers
      ensures Occupied(t, slot)
    {
      assert Occupied(s, slot);
      var k :| k in s.peers && k.index == slot;
      assert k in t.peers;
    }
  }

  lemma DeadReaped(s: Host)
    requires Scheduled(s) && s.retiring != [] && s.retiring[0] !in s.peers
    ensures Scheduled(s.(retiring := s.retiring[1..]))
  {
    hide I.Valid, Deadline, SlotsOk, TimersOk, Distinct;
    var t := s.(retiring := s.retiring[1..]);
    assert Distinct(s.retiring) by { ReadyDistinct(s); }
    FirstPopped(s.retiring);
    SlotsKept(s, t);
    forall k | k in t.peers
      ensures ArmedFor(t, k)
    {
      assert ArmedFor(s, k);
    }
  }

  /** A connection that leaves takes its timer and its flags with it. */
  lemma ReapedScheduled(s: Host, now: nat)
    requires Scheduled(s)
    ensures s.retiring != [] && s.retiring[0] in s.peers ==> Slotted(s, s.retiring[0])
    ensures Scheduled(Reaped(s, now))
  {
    hide Scheduled, I.Valid, Retired;
    SlottedOf(s);
    if s.retiring != [] {
      var h := s.retiring[0];
      if h in s.peers {
        var s1 := s.(retiring := s.retiring[1..]);
        RetiredParts(s1, h, now);
        LeftScheduled(s, Retired(s1, h, now), h);
      } else {
        DeadReaped(s);
        assert Reaped(s, now) == s.(retiring := s.retiring[1..]) by {
          RetiredDead(s.(retiring := s.retiring[1..]), h, now);
        }
      }
    }
  }

  lemma RetiredDead(s: Host, h: Handle, now: nat)
    requires h !in s.peers
    ensures Retired(s, h, now) == s
  {
  }

  lemma TakenOverScheduled(s: Host, session: nat)
    requires Scheduled(s)
    ensures AllSlotted(s) && Scheduled(TakenOver(s, session))
    ensures TakenOver(s, session).peers.Keys == s.peers.Keys && TakenOver(s, session).issued == s.issued
    ensures |TakenOver(s, session).schedules| == |s.schedules|
  {
    hide Scheduled, I.Valid, RequestClose;
    SlottedOf(s);
    if session in s.sessions && s.sessions[session].state.Attached? && s.sessions[session].state.h in s.peers {
      var h := s.sessions[session].state.h;
      TouchedScheduled(s, h);
      OperatedValid(s.peers[h].conn, s.clock, CloseOp(REPLACED));
      WithConnScheduled(Touched(s, h), h, RequestClose(s.peers[h].conn, REPLACED));
    }
  }

  lemma AdmittedParts(s: Host, now: nat, from: nat, cookie: Cookie, session: nat, h: Handle)
    requires h.index < |s.schedules|
    ensures var t := Admitted(s, now, from, cookie, session, h);
            && t.peers == s.peers[h := Peer(New(now, Role.Server(None), from, s.kinds, s.cfg), session, cookie.id)]
            && t.issued == s.issued + {h} && t.schedules == s.schedules[h.index := IDLE.(ready := true)]
            && t.ready == s.ready + [h] && t.retiring == s.retiring && t.timers == s.timers
            && t.capacity == s.capacity && t.clock == s.clock
  {
    hide New;
  }

  lemma JoinedQueues(s: Host, t: Host, h: Handle, p: Peer)
    requires AllSlotted(s) && SlotsOk(s) && QueuesOk(s) && h !in s.issued && h.index < |s.schedules|
    requires forall k | k in s.peers :: k.index != h.index && k in s.issued
    requires t.peers == s.peers[h := p] && t.issued == s.issued + {h}
    requires t.schedules == s.schedules[h.index := IDLE.(ready := true)] && t.ready == s.ready + [h]
             && t.retiring == s.retiring
    ensures AllSlotted(t) && SlotsOk(t) && QueuesOk(t) && forall k | k in s.ready :: k in t.ready
  {
    hide Distinct;
    assert h !in s.ready && h !in s.retiring && h !in s.peers;
    assert Distinct(s.ready) by { ReadyDistinct(s); }
    DistinctMore(s.ready, h);
  }

  lemma JoinedScheduled(s: Host, t: Host, h: Handle, p: Peer)
    requires Scheduled(s) && h !in s.issued && h.index < |s.schedules| && I.Valid(p.conn, s.clock)
    requires forall k | k in s.peers :: k.index != h.index
    requires t.peers == s.peers[h := p] && t.issued == s.issued + {h}
    requires t.schedules == s.schedules[h.index := IDLE.(ready := true)] && t.ready == s.ready + [h]
             && t.retiring == s.retiring
    requires t.timers == s.timers && t.capacity == s.capacity && t.clock == s.clock
    ensures Scheduled(t)
  {
    hide I.Valid, Deadline, QueuesOk, SlotsOk;
    JoinedQueues(s, t, h, p);
    forall k | k in t.peers
      ensures ArmedFor(t, k)
    {
      assert k == h || ArmedFor(s, k);
      assert h == t.ready[|s.ready|];
    }
    forall slot | slot in t.timers
      ensures Occupied(t, slot)
    {
      assert Occupied(s, slot);
      var k :| k in s.peers && k.index == slot;
      assert k in t.peers;
    }
  }

  lemma AdmittedScheduled(s: Host, now: nat, from: nat, cookie: Cookie, session: nat, h: Handle)
    requires Scheduled(s) && s.clock == now && h !in s.issued && h.index < |s.schedules| && ConfigValid(s.cfg)
    requires forall k | k in s.peers :: k.index != h.index
    ensures Scheduled(Admitted(s, now, from, cookie, session, h))
  {
    hide Scheduled, I.Valid, New, Admitted;
    AdmittedParts(s, now, from, cookie, session, h);
    I.NewValid(now, Role.Server(None), from, s.kinds, s.cfg);
    JoinedScheduled(s, Admitted(s, now, from, cookie, session, h), h,
                    Peer(New(now, Role.Server(None), from, s.kinds, s.cfg), session, cookie.id));
  }

  lemma ResentScheduled(s: Host, k: Handle)
    requires Scheduled(s) && k in s.peers
    ensures AllSlotted(s)
    ensures Scheduled(WithConn(Touched(s, k), k,
                               s.peers[k].conn.(control := s.peers[k].conn.control.(accepted := true))))
  {
    hide Scheduled, I.Valid;
    SlottedOf(s);
    TouchedScheduled(s, k);
    AcceptValid(s.peers[k].conn, s.clock);
    WithConnScheduled(Touched(s, k), k, s.peers[k].conn.(control := s.peers[k].conn.control.(accepted := true)));
  }

  lemma AcceptValid(c: Conn, clock: nat)
    requires I.Valid(c, clock)
    ensures I.Valid(c.(control := c.control.(accepted := true)), clock)
  {
    hide L.Valid, I.NoneStranded, B.Consistent, I.QueueValid;
  }

  lemma RespondedScheduled(s: Host, now: nat, from: nat, cookie: Cookie, h: Option<Handle>)
    requires Scheduled(s) && s.clock == now && ConfigValid(s.cfg)
    requires h.Some? ==> h.value !in s.issued && h.value.index < |s.schedules|
    requires h.Some? ==> forall k | k in s.peers :: k.index != h.value.index
    ensures AllSlotted(s) && Scheduled(Responded(s, now, from, cookie, h))
  {
    hide Scheduled, I.Valid, TicketOk, TakenOver, Admitted, Touched;
    SlottedOf(s);
    if cookie.addr == from && Since(now, cookie.issued) <= COOKIE_LIFETIME {
      if cookie.id in s.redeemed {
        if s.redeemed[cookie.id].Some? && s.redeemed[cookie.id].value in s.peers {
          ResentScheduled(s, s.redeemed[cookie.id].value);
        }
      } else if TicketOk(s, now, cookie.ticket) && |s.peers| < s.capacity {
        var resumed := cookie.ticket.session.Some?;
        var session := if resumed then cookie.ticket.session.value else SessionId(s.nextSequence, s.shard);
        var s0 := if resumed then s else s.(nextSequence := s.nextSequence + 1);
        SameSchedule(s, s0);
        TakenOverScheduled(s0, session);
        TakenOverFrame(s0, session);
        if h.Some? {
          AdmittedScheduled(TakenOver(s0, session), now, from, cookie, session, h.value);
        }
      }
    }
  }

  lemma TakenOverFrame(s: Host, session: nat)
    requires AllSlotted(s)
    ensures var t := TakenOver(s, session);
            t == s.(peers := t.peers, schedules := t.schedules, ready := t.ready)
  {
    hide RequestClose;
  }

  // ----- Every run -----

  lemma ExpiryFrame(s: Host, now: nat)
    ensures var t := Lapsed(s, now);
            t == s.(suspended := t.suspended, sessions := t.sessions, log := t.log)
    ensures var t := Forgotten(s, now);
            t == s.(redeemed := t.redeemed, expiry := t.expiry)
  {
  }

  lemma StepScheduled(s: Host, st: Step, count: nat, book: nat -> Ticket)
    requires Scheduled(s) && ConfigValid(s.cfg) && 0 < count <= SHARDS && Allowed(s, st, count, book)
    ensures PeersOk(s) && Scheduled(Stepped(s, st))
  {
    hide Scheduled, I.Valid, Responded, Routed, Drained, Fired, Reaped, Lapsed, Forgotten, Changed;
    SlottedOf(s);
    PeersShaped(s);
    var now := st.now;
    Later(s, now);
    var u := s.(clock := now);
    match st
    case Respond(_, from, cookie, h) =>
      RespondedScheduled(u, now, from, cookie, h);
    case Payload(_, from, slot, occupancy, d, token) =>
      RoutedScheduled(u, now, from, slot, occupancy, d, token);
    case Drain(_) =>
      DrainedScheduled(u, now);
    case Fire(_, slot) =>
      FiredScheduled(u, now, slot);
    case Reap(_) =>
      ReapedScheduled(u, now);
    case Expire(_) =>
      ExpiryFrame(u, now);
      SameSchedule(u, Lapsed(u, now));
    case Forget(_) =>
      ExpiryFrame(u, now);
      SameSchedule(u, Forgotten(u, now));
    case Change(_, h, op) =>
      ChangedScheduled(u, now, h, op);
  }
}
