/** A server together with the slab that holds its connections, and a run in which one of its slots
wears out: one connection after another comes, is silent, and goes. */
module EndpointWear {
  import opened Machine
  import opened Frames
  import opened Connection
  import opened Slab
  import opened Endpoint
  import opened EndpointScheduler
  import opened EndpointRuns
  import opened EndpointRefusals
  import B = Budget
  import C = Channels
  import L = Ledger
  import I = ConnectionInvariant
  import T = Transmit
  import EndpointSessions

  // ----- A server and its slab -----

  datatype Shelf = Shelf(host: Host, store: Store<Peer>)

  /** The slab's bookkeeping, items aside. */
  function Shape(s: Store<Peer>): (seq<Slot>, seq<nat>, nat) { (s.slots, s.owners, s.freeHead) }

  /** One step of the server. The slab answers a handshake with the slot it offers, and is changed by
  what joins and leaves, and by nothing else. */
  ghost predicate Moves(p: Shelf, st: Step, q: Shelf, book: nat -> Ticket) {
    && PeersOk(p.host) && Allowed(p.host, st, 1, book) && Inverse(p.store)
    && (st.Respond? ==> st.chosen == Offered(p.store, p.host.capacity))
    && q.host == Stepped(p.host, st)
    && Inverse(q.store) && Contents(q.store) == q.host.peers
    && (q.host.peers.Keys == p.host.peers.Keys ==> Shape(q.store) == Shape(p.store))
    && (forall h | h in q.host.peers && h !in p.host.peers ::
          Offered(p.store, p.host.capacity) == Some(h)
          && Shape(q.store) == Shape(Inserted(p.store, p.host.capacity, q.host.peers[h])))
    && (forall h | h in p.host.peers && h !in q.host.peers ::
          h.index < |p.store.slots| && p.store.slots[h.index].Occupied()
          && Shape(q.store) == Shape(Emptied(p.store, h.index)))
  }

  ghost predicate Reaches(p: Shelf, steps: seq<Step>, q: Shelf, book: nat -> Ticket)
    decreases |steps|
  {
    if steps == [] then q == p
    else
      var n := |steps| - 1;
      exists u :: Reaches(p, steps[..n], u, book) && Moves(u, steps[n], q, book)
  }

  lemma ReachesMore(p: Shelf, steps: seq<Step>, u: Shelf, st: Step, q: Shelf, book: nat -> Ticket)
    requires Reaches(p, steps, u, book) && Moves(u, st, q, book)
    ensures Reaches(p, steps + [st], q, book)
  {
    hide Moves;
    assert (steps + [st])[..|steps|] == steps;
  }

  /** Some run of a fresh server gets there. */
  ghost predicate Reachable(q: Shelf, capacity: nat, kinds: Kinds, cfg: Config, book: nat -> Ticket) {
    exists steps :: Reaches(Shelf(Fresh(0, capacity, kinds, cfg, 0), Store([], [], [], NONE)), steps, q, book)
  }

  lemma Goes(p: Shelf, st: Step, q: Shelf, capacity: nat, kinds: Kinds, cfg: Config, book: nat -> Ticket)
    requires Reachable(p, capacity, kinds, cfg, book) && Moves(p, st, q, book)
    ensures Reachable(q, capacity, kinds, cfg, book)
  {
    hide Moves, Reaches;
    var o := Shelf(Fresh(0, capacity, kinds, cfg, 0), Store([], [], [], NONE));
    var steps :| Reaches(o, steps, p, book);
    ReachesMore(o, steps, p, st, q, book);
  }

  // ----- A connection that is never heard from -----

  /** Polling hears nothing. */
  lemma PollKeeps(c: Conn, clock: nat, now: nat)
    requires I.Valid(c, clock) && clock <= now < U64_MAX && c.lifecycle.Open?
    ensures Transmittable(c) && B.Consistent(c.budget)
    ensures var r := PollTransmit(c, now).conn;
            r.lifecycle.Open? && r.lastReceived == c.lastReceived && r.idleTimeout == c.idleTimeout
  {
    hide I.Valid, Drafted, TransmitAt, B.Assess;
    T.PollExact(c, clock, now);
    if PollTransmit(c, now).packet.Some? {
      var c1 := Assessed(c, now);
      T.AssessedValid(c, clock, now);
      I.ValidShaped(c1, now);
      DraftStaged(c1, now);
      CommitKeeps(c1, now, Drafted(c1, now));
    }
  }

  lemma CommitKeeps(c: Conn, now: nat, d: Draft)
    requires Shaped(c) && C.AllSendable(c.channels.kinds, d.staging.staged) && c.lifecycle.Open?
    ensures var r := Committed(c, now, d).conn;
            r.lifecycle.Open? && r.lastReceived == c.lastReceived && r.idleTimeout == c.idleTimeout
  {
    hide L.OnSent, ApplyNotes, Sealed, C.Committed, C.RecordOf, B.Advance, B.OnSent, HeaderLen;
  }

  /** A second after it came and was first polled, it is timed out. */
  lemma TimesOut(c: Conn, clock: nat)
    requires I.Valid(c, clock) && c.lifecycle.Open? && c.idleTimeout == SECOND && clock + SECOND < U64_MAX
    requires c.lastReceived == clock
    ensures Deadline(c).Some? && Deadline(c).value <= clock + SECOND
    ensures Shaped(c) && HandleTimeout(c, clock + SECOND).lifecycle.Closed?
  {
    hide L.Valid, I.NoneStranded, I.QueueValid, L.NextTimeout, TransmitAt, L.OnTimeout;
    I.ValidShaped(c, clock);
  }

  // ----- One connection after another -----

  const SECOND: nat := 1_000_000_000
  const BRIEF: Config := Config(B.Config(8000, 1200), 0, SECOND, SECOND / 2)

  /** A server of two slots of which only the first was ever used, by `k` connections. */
  ghost predicate Used(s: Host, k: nat, book: nat -> Ticket) {
    && Good(s, 1, book) && s.shard == 0 && s.capacity == 2 && s.cfg == BRIEF
    && |s.schedules| == 2 && s.schedules[1] == IDLE
    && s.nextSequence == k + 1 && (forall id | id in s.redeemed :: id < k)
    && (forall h | h in s.issued :: h.index == 0 && h.generation < 2 * k)
  }

  ghost predicate Vacant(s: Host, k: nat, book: nat -> Ticket) {
    && Used(s, k, book) && s.clock == k * SECOND
    && s.peers == map[] && s.ready == [] && s.retiring == [] && s.timers == map[] && s.schedules[0] == IDLE
  }

  /** The last of `k` connections is still there. */
  ghost predicate Occupied(s: Host, k: nat, h: Handle, book: nat -> Ticket) {
    && Used(s, k, book) && k > 0 && h == Handle(0, 2 * k - 1) && s.peers.Keys == {h}
  }

  ghost predicate Arrived(s: Host, k: nat, h: Handle, book: nat -> Ticket) {
    && Occupied(s, k, h, book) && s.clock == (k - 1) * SECOND
    && s.peers[h].conn == New(s.clock, Server(None), 7, s.kinds, BRIEF)
    && s.ready == [h] && s.retiring == [] && s.timers == map[] && s.schedules[0] == IDLE.(ready := true)
  }

  ghost predicate Silent(s: Host, k: nat, h: Handle, book: nat -> Ticket) {
    && Occupied(s, k, h, book) && s.clock == (k - 1) * SECOND
    && s.peers[h].conn.lifecycle.Open? && s.peers[h].conn.lastReceived == s.clock
    && s.peers[h].conn.idleTimeout == SECOND
    && s.ready == [] && s.retiring == [] && s.timers.Keys == {0} && s.timers[0] <= k * SECOND && s.schedules[0] == IDLE
  }

  ghost predicate TimedOut(s: Host, k: nat, h: Handle, book: nat -> Ticket) {
    && Occupied(s, k, h, book) && s.clock == k * SECOND && s.peers[h].conn.lifecycle.Closed?
    && s.ready == [h] && s.retiring == [] && s.timers == map[]
    && s.schedules[0].ready && !s.schedules[0].retiring
  }

  ghost predicate Leaving(s: Host, k: nat, h: Handle, book: nat -> Ticket) {
    && Occupied(s, k, h, book) && s.clock == k * SECOND
    && s.ready == [] && s.retiring == [h] && s.timers == map[]
  }

  /** The k-th cookie, for anyone. */
  function Pass(k: nat, now: nat): Cookie { Cookie(0, now, 7, k, Ticket(5, U64_MAX, None)) }

  lemma Comes(s: Host, k: nat, book: nat -> Ticket) returns (t: Host)
    requires Vacant(s, k, book) && k < OCCUPANTS && book(k) == Ticket(5, U64_MAX, None)
    ensures var st := Respond(s.clock, 7, Pass(k, s.clock), Some(Handle(0, 2 * k + 1)));
            && PeersOk(s) && Allowed(s, st, 1, book) && t == Stepped(s, st)
            && Arrived(t, k + 1, Handle(0, 2 * k + 1), book)
  {
    hide Good, ConfigValid, I.Valid, Connection.New, Routed, Drained, Fired, Reaped, Lapsed, Forgotten, Changed;
    var h := Handle(0, 2 * k + 1);
    var st := Respond(s.clock, 7, Pass(k, s.clock), Some(h));
    GoodPeers(s, book);
    t := Stepped(s, st);
    StepGood(s, st, 1, book);
    assert t.peers == map[h := t.peers[h]];
  }

  lemma GoodPeers(s: Host, book: nat -> Ticket)
    requires Good(s, 1, book)
    ensures PeersOk(s)
  {
    hide EndpointSessions.Lifetimes, ConfigValid, Scheduled;
    SlottedOf(s);
  }

  lemma Polls(s: Host, k: nat, h: Handle, book: nat -> Ticket) returns (t: Host)
    requires Arrived(s, k, h, book) && k <= OCCUPANTS
    ensures PeersOk(s) && Allowed(s, Drain(s.clock), 1, book) && t == Stepped(s, Drain(s.clock))
    ensures Silent(t, k, h, book)
  {
    hide Good, ConfigValid, I.Valid, Responded, Routed, Fired, Reaped, Lapsed, Forgotten, Changed, PollTransmit,
         Transmittable, B.Consistent, Deadline;
    GoodPeers(s, book);
    var c := s.peers[h].conn;
    FreshConn(s.clock, s.kinds);
    PollKeeps(c, s.clock, s.clock);
    T.PollValid(c, s.clock, s.clock);
    TimesOut(PollTransmit(c, s.clock).conn, s.clock);
    t := Stepped(s, Drain(s.clock));
    StepGood(s, Drain(s.clock), 1, book);
    assert t.peers.Keys == {h} && t.timers.Keys == {0};
  }

  lemma FreshConn(now: nat, kinds: Kinds)
    ensures var c := Connection.New(now, Server(None), 7, kinds, BRIEF);
            c.lifecycle.Open? && c.lastReceived == now && c.idleTimeout == SECOND
  {
  }

  /** The only timer fires, for the only connection. */
  lemma FiresAlone(s: Host, now: nat, h: Handle)
    requires AllSlotted(s) && AllShaped(s) && s.peers.Keys == {h} && h.index == 0 && |s.schedules| == 2
    requires s.timers.Keys == {0} && s.timers[0] <= now && s.ready == [] && s.schedules[0] == IDLE
    ensures var t := Fired(s, now, 0);
            && t == s.(timers := map[], ready := [h], schedules := t.schedules, peers := t.peers, log := t.log)
            && t.peers.Keys == {h} && t.peers[h].conn.lifecycle == HandleTimeout(s.peers[h].conn, now).lifecycle
            && |t.schedules| == 2 && t.schedules[1] == s.schedules[1]
            && t.schedules[0].ready && !t.schedules[0].retiring
  {
    hide HandleTimeout, Shaped, LastClosed, LastMigrated;
    assert At(s, 0) == Some(h);
    assert Fired(s, now, 0).peers.Keys == {h};
  }

  lemma Dies(s: Host, k: nat, h: Handle, book: nat -> Ticket) returns (t: Host)
    requires Silent(s, k, h, book) && k <= OCCUPANTS
    ensures PeersOk(s) && Allowed(s, Fire(k * SECOND, 0), 1, book) && t == Stepped(s, Fire(k * SECOND, 0))
    ensures TimedOut(t, k, h, book)
  {
    hide Good, ConfigValid, I.Valid, Responded, Routed, Drained, Reaped, Lapsed, Forgotten, Changed, HandleTimeout,
         Deadline, Shaped, Fired;
    GoodPeers(s, book);
    PeersShaped(s);
    TimesOut(s.peers[h].conn, s.clock);
    var st := Fire(k * SECOND, 0);
    t := Stepped(s, st);
    StepGood(s, st, 1, book);
    FiresAlone(s.(clock := k * SECOND), k * SECOND, h);
  }

  lemma Drops(s: Host, k: nat, h: Handle, book: nat -> Ticket) returns (t: Host)
    requires TimedOut(s, k, h, book) && k <= OCCUPANTS
    ensures PeersOk(s) && Allowed(s, Drain(s.clock), 1, book) && t == Stepped(s, Drain(s.clock))
    ensures Leaving(t, k, h, book)
  {
    hide Good, ConfigValid, I.Valid, Responded, Routed, Fired, Reaped, Lapsed, Forgotten, Changed, PollTransmit,
         Transmittable, B.Consistent, Deadline;
    GoodPeers(s, book);
    var c := s.peers[h].conn;
    PollKeepsClosed(c, s.clock, s.clock);
    T.PollValid(c, s.clock, s.clock);
    ClosedHasNone(PollTransmit(c, s.clock).conn, s.clock);
    t := Stepped(s, Drain(s.clock));
    StepGood(s, Drain(s.clock), 1, book);
    assert t.peers.Keys == {h};
  }

  lemma Leaves(s: Host, k: nat, h: Handle, book: nat -> Ticket) returns (t: Host)
    requires Leaving(s, k, h, book) && k <= OCCUPANTS
    ensures PeersOk(s) && Allowed(s, Reap(s.clock), 1, book) && t == Stepped(s, Reap(s.clock))
    ensures Vacant(t, k, book)
  {
    hide Good, ConfigValid, I.Valid, Responded, Routed, Fired, Drained, Lapsed, Forgotten, Changed, LastClosed,
         LastMigrated;
    GoodPeers(s, book);
    t := Stepped(s, Reap(s.clock));
    StepGood(s, Reap(s.clock), 1, book);
    assert t.peers == map[];
  }

  // ----- The slab beside it -----

  /** The server with one connection in its first slot. */
  function Single(s: Host, h: Handle): Shelf
    requires h in s.peers
  {
    Shelf(s, One(s.peers[h], h.generation))
  }

  lemma SingleMoves(s: Host, st: Step, t: Host, h: Handle, book: nat -> Ticket)
    requires PeersOk(s) && Allowed(s, st, 1, book) && t == Stepped(s, st) && !st.Respond?
    requires s.peers.Keys == {h} == t.peers.Keys && h.index == 0 && h.generation % 2 == 1 && h.generation < U32
    ensures Moves(Single(s, h), st, Single(t, h), book)
  {
    hide Stepped, Allowed, PeersOk, Inverse, Contents;
    OneContents(s.peers[h], h.generation);
    OneContents(t.peers[h], h.generation);
    assert t.peers == map[h := t.peers[h]];
  }

  lemma ComeMoves(s: Host, st: Step, t: Host, k: nat, book: nat -> Ticket)
    requires k < OCCUPANTS && PeersOk(s) && Allowed(s, st, 1, book) && t == Stepped(s, st) && s.capacity == 2
    requires st.Respond? && st.chosen == Some(Handle(0, 2 * k + 1))
    requires s.peers == map[] && t.peers.Keys == {Handle(0, 2 * k + 1)}
    ensures Moves(Shelf(s, Hollow(k)), st, Single(t, Handle(0, 2 * k + 1)), book)
  {
    hide Stepped, Allowed, PeersOk, Inverse, Contents, Hollow, Inserted, Offered;
    var h := Handle(0, 2 * k + 1);
    HollowInverse<Peer>(k);
    HollowFilled(k, 2, t.peers[h]);
    OneContents(t.peers[h], h.generation);
    assert t.peers == map[h := t.peers[h]];
  }

  lemma LeaveMoves(s: Host, st: Step, t: Host, k: nat, book: nat -> Ticket)
    requires k < OCCUPANTS && PeersOk(s) && Allowed(s, st, 1, book) && t == Stepped(s, st) && !st.Respond?
    requires s.peers.Keys == {Handle(0, 2 * k + 1)} && t.peers == map[]
    ensures Moves(Single(s, Handle(0, 2 * k + 1)), st, Shelf(t, Hollow(k + 1)), book)
  {
    hide Stepped, Allowed, PeersOk, Inverse, Contents, Hollow, Emptied;
    var h := Handle(0, 2 * k + 1);
    HollowInverse<Peer>(k + 1);
    HollowEmptied(k, s.peers[h]);
    OneContents(s.peers[h], h.generation);
  }

  ghost predicate Ready(p: Shelf, k: nat, kinds: Kinds, book: nat -> Ticket) {
    k <= OCCUPANTS && Reachable(p, 2, kinds, BRIEF, book) && Vacant(p.host, k, book) && p.store == Hollow(k)
  }

  /** One connection more comes, is silent, and goes. */
  lemma Cycle(p: Shelf, k: nat, kinds: Kinds, book: nat -> Ticket) returns (q: Shelf)
    requires Ready(p, k, kinds, book) && k < OCCUPANTS && book(k) == Ticket(5, U64_MAX, None)
    ensures Ready(q, k + 1, kinds, book)
  {
    hide Moves, Reachable, Stepped, Allowed, PeersOk, Used, Hollow, One;
    var h := Handle(0, 2 * k + 1);
    var s := p.host;
    var come := Comes(s, k, book);
    var st := Respond(s.clock, 7, Pass(k, s.clock), Some(h));
    UsedCapacity(s, k, book);
    ComeMoves(s, st, come, k, book);
    Goes(p, st, Single(come, h), 2, kinds, BRIEF, book);
    var polled := Polls(come, k + 1, h, book);
    SingleMoves(come, Drain(come.clock), polled, h, book);
    Goes(Single(come, h), Drain(come.clock), Single(polled, h), 2, kinds, BRIEF, book);
    var dead := Dies(polled, k + 1, h, book);
    SingleMoves(polled, Fire((k + 1) * SECOND, 0), dead, h, book);
    Goes(Single(polled, h), Fire((k + 1) * SECOND, 0), Single(dead, h), 2, kinds, BRIEF, book);
    var dropped := Drops(dead, k + 1, h, book);
    SingleMoves(dead, Drain(dead.clock), dropped, h, book);
    Goes(Single(dead, h), Drain(dead.clock), Single(dropped, h), 2, kinds, BRIEF, book);
    var gone := Leaves(dropped, k + 1, h, book);
    LeaveMoves(dropped, Reap(dropped.clock), gone, k, book);
    q := Shelf(gone, Hollow(k + 1));
    Goes(Single(dropped, h), Reap(dropped.clock), q, 2, kinds, BRIEF, book);
  }

  lemma UsedCapacity(s: Host, k: nat, book: nat -> Ticket)
    requires Used(s, k, book)
    ensures s.capacity == 2
  {
  }

  lemma Begins(kinds: Kinds, book: nat -> Ticket) returns (p: Shelf)
    ensures Ready(p, 0, kinds, book)
  {
    hide Moves, Good;
    p := Shelf(Fresh(0, 2, kinds, BRIEF, 0), Store([], [], [], NONE));
    FreshGood(0, 2, kinds, BRIEF, 0, 1, book);
    assert Reaches(p, [], p, book);
  }

  lemma {:induction false} Cycles(k: nat, kinds: Kinds, book: nat -> Ticket) returns (p: Shelf)
    requires k <= OCCUPANTS && forall i: nat | i < k :: book(i) == Ticket(5, U64_MAX, None)
    ensures Ready(p, k, kinds, book)
  {
    hide Ready;
    if k == 0 {
      p := Begins(kinds, book);
    } else {
      var before := Cycles(k - 1, kinds, book);
      p := Cycle(before, k - 1, kinds, book);
    }
  }

  // ----- The refusal -----

  /** The session the first player after the wear is given. */
  const HELD: nat := SessionId(OCCUPANTS + 1, 0)

  /** Every ticket is good for ever; one resumes that session. */
  function Book(id: nat): Ticket { Ticket(5, U64_MAX, if id == OCCUPANTS + 1 then Some(HELD) else None) }

  function Resume(now: nat): Cookie { Cookie(0, now, 8, OCCUPANTS + 1, Book(OCCUPANTS + 1)) }

  /** A player joins in the second slot. */
  ghost predicate Joined(s: Host) {
    && s.capacity == 2 == |s.schedules| && s.peers.Keys == {Handle(1, 1)} && OCCUPANTS + 1 !in s.redeemed
    && s.clock < U64_MAX && s.peers[Handle(1, 1)].conn.lifecycle.Open?
    && HELD in s.sessions && s.sessions[HELD] == Session(5, Attached(Handle(1, 1)))
  }

  lemma Joins(s: Host) returns (t: Host)
    requires Vacant(s, OCCUPANTS, Book)
    ensures var st := Respond(s.clock, 7, Pass(OCCUPANTS, s.clock), Some(Handle(1, 1)));
            PeersOk(s) && Allowed(s, st, 1, Book) && t == Stepped(s, st) && Joined(t) && t.clock == s.clock
  {
    hide Good, ConfigValid, I.Valid, B.New, Routed, Drained, Fired, Reaped, Lapsed, Forgotten, Changed;
    var h := Handle(1, 1);
    GoodPeers(s, Book);
    t := Stepped(s, Respond(s.clock, 7, Pass(OCCUPANTS, s.clock), Some(h)));
    assert t.peers == map[h := t.peers[h]];
  }

  lemma JoinMoves(s: Host, st: Step, t: Host)
    requires PeersOk(s) && Allowed(s, st, 1, Book) && t == Stepped(s, st) && s.capacity == 2
    requires st.Respond? && st.chosen == Some(Handle(1, 1)) && s.peers == map[] && t.peers.Keys == {Handle(1, 1)}
    ensures var store := Inserted(Hollow<Peer>(OCCUPANTS), 2, t.peers[Handle(1, 1)]);
            Moves(Shelf(s, Hollow(OCCUPANTS)), st, Shelf(t, store), Book) && Contents(store) == t.peers
  {
    hide Stepped, Allowed, PeersOk, Contents, Hollow, Inserted, Offered;
    var h, store := Handle(1, 1), Inserted(Hollow<Peer>(OCCUPANTS), 2, t.peers[Handle(1, 1)]);
    HollowInverse<Peer>(OCCUPANTS);
    HollowRefuses(t.peers[h]);
    HeldByOne(store, t.peers[h]);
    assert t.peers == map[h := t.peers[h]];
  }

  lemma HeldByOne(store: Store<Peer>, p: Peer)
    requires store == Store([Slot(0, 0), Slot(1, 0)], [p], [1], NONE) && Inverse(store)
    ensures Contents(store) == map[Handle(1, 1) := p]
  {
    hide Contents;
    forall h: Handle
      ensures h in Contents(store) <==> h == Handle(1, 1)
      ensures h in Contents(store) ==> Contents(store)[h] == p
    {
      ContentsExact(store, h);
    }
  }

  /** The player's own ticket then closes the connection and makes no other. */
  lemma Closes(s: Host, store: Store<Peer>)
    requires Joined(s) && EndpointRefusals.Holds(store, [], s) && Offered(store, 2).None?
    ensures Passes(s, s.clock, 8, Resume(s.clock)) && Roomless(s, store)
    ensures var t := Answered(s, store, [], s.clock, 8, Resume(s.clock));
            && t.peers.Keys == s.peers.Keys && t.log == s.log
            && t.peers[Handle(1, 1)].conn.lifecycle == Closing(REPLACED, CLOSE_SENDS)
  {
    hide EndpointRefusals.Holds, Offered;
    OfferedWithin(store, [], s);
    assert |s.peers| == |s.peers.Keys| == 1;
  }

  /** A fresh server of two slots reaches a state in which a response is refused for want of room and
  yet changes it. All the occupants the first slot can have came and went, so it is worn out, and a
  player sits in the second. Presenting that player's resume ticket closes the connection and makes
  no other. */
  lemma RefusalClosesHolder(kinds: Kinds)
    ensures exists p: Shelf, now ::
              && Reachable(p, 2, kinds, BRIEF, Book) && EndpointRefusals.Holds(p.store, [], p.host)
              && Passes(p.host, now, 8, Resume(now)) && Roomless(p.host, p.store)
              && var t := Answered(p.host, p.store, [], now, 8, Resume(now));
                 && t.peers.Keys == p.host.peers.Keys && t.log == p.host.log && Handle(1, 1) in p.host.peers
                 && p.host.peers[Handle(1, 1)].conn.lifecycle.Open?
                 && t.peers[Handle(1, 1)].conn.lifecycle == Closing(REPLACED, CLOSE_SENDS)
  {
    hide Moves, Reachable, Stepped, Allowed, PeersOk, Used, Hollow, Inserted, Passes, Roomless, Answered, Offered,
         Contents;
    var worn := Cycles(OCCUPANTS, kinds, Book);
    var s := worn.host;
    var t := Joins(s);
    var st := Respond(s.clock, 7, Pass(OCCUPANTS, s.clock), Some(Handle(1, 1)));
    UsedCapacity(s, OCCUPANTS, Book);
    JoinMoves(s, st, t);
    var store := Inserted(Hollow<Peer>(OCCUPANTS), 2, t.peers[Handle(1, 1)]);
    Goes(worn, st, Shelf(t, store), 2, kinds, BRIEF, Book);
    HollowRefuses(t.peers[Handle(1, 1)]);
    Closes(t, store);
  }
}
