/** When a handshake refused for want of room leaves the server as it was. A count below
capacity does not mean a slot can be claimed: slots whose generations ran out are worn. */
module EndpointRefusals {
  import opened Machine
  import opened Connection
  import opened Slab
  import opened Endpoint

  /** The slab that holds the server's connections. */
  ghost predicate Holds(store: Store<Peer>, free: seq<nat>, s: Host) {
    && Inverse(store) && |store.slots| <= s.capacity == |s.schedules|
    && Chain(store.slots, store.freeHead, free) && FreeExact(store.slots, free)
    && s.peers == Contents(store)
  }

  /** A response to which only want of room can be an objection. */
  predicate Presents(s: Host, now: nat, from: nat, cookie: Cookie) {
    && cookie.addr == from && Since(now, cookie.issued) <= COOKIE_LIFETIME && cookie.id !in s.redeemed
    && TicketOk(s, now, cookie.ticket)
  }

  /** And that passes the count of connections too. */
  predicate Passes(s: Host, now: nat, from: nat, cookie: Cookie) {
    Presents(s, now, from, cookie) && |s.peers| < s.capacity
  }

  /** There is no room: the count says so, or no slot can be claimed. */
  predicate Roomless(s: Host, store: Store<Peer>) { |s.peers| >= s.capacity || Offered(store, s.capacity).None? }

  lemma OfferedWithin(store: Store<Peer>, free: seq<nat>, s: Host)
    requires Holds(store, free, s)
    ensures Offered(store, s.capacity).Some? ==> Offered(store, s.capacity).value.index < |s.schedules|
    ensures AllSlotted(s) && |s.peers| == |store.items|
  {
    hide Contents;
    ContentsSize(store);
    forall h | h in s.peers
      ensures h.index < |s.schedules|
    {
      ContentsExact(store, h);
    }
  }

  /** The response, with the slab's own answer. */
  ghost function Answered(s: Host, store: Store<Peer>, free: seq<nat>, now: nat, from: nat, cookie: Cookie): Host
    requires Holds(store, free, s)
  {
    OfferedWithin(store, free, s);
    Responded(s, now, from, cookie, Offered(store, s.capacity))
  }

  /** A live connection holds the session and would be told to close, or queued. */
  predicate Disturbed(s: Host, session: nat)
    requires AllSlotted(s)
  {
    && session in s.sessions && s.sessions[session].state.Attached? && s.sessions[session].state.h in s.peers
    && var h := s.sessions[session].state.h;
       s.peers[h].conn.lifecycle.Open? || !s.schedules[h.index].ready
  }

  /** With no slot to claim, taking a session over changes nothing exactly when its holder is
  neither open nor idle, and drawing one always changes something. */
  lemma EstablishedExact(s: Host, now: nat, from: nat, cookie: Cookie)
    requires AllSlotted(s)
    ensures Established(s, now, from, cookie, None) == s
            <==> cookie.ticket.session.Some? && !Disturbed(s, cookie.ticket.session.value)
  {
    if cookie.ticket.session.Some? {
      var session := cookie.ticket.session.value;
      if session in s.sessions && s.sessions[session].state.Attached? && s.sessions[session].state.h in s.peers {
        var h := s.sessions[session].state.h;
        var t := TakenOver(s, session);
        assert t.peers[h].conn == RequestClose(s.peers[h].conn, REPLACED);
        if s.schedules[h.index].ready && !s.peers[h].conn.lifecycle.Open? {
          assert t.peers == s.peers;
        }
      }
    }
  }

  /** A response refused for want of room leaves the server as it was exactly when the count
  refused it, or it resumes a session whose holder is neither open nor idle. */
  lemma RefusalExact(s: Host, store: Store<Peer>, free: seq<nat>, now: nat, from: nat, cookie: Cookie)
    requires Holds(store, free, s) && Presents(s, now, from, cookie) && Roomless(s, store)
    ensures AllSlotted(s)
    ensures Answered(s, store, free, now, from, cookie) == s
            <==> || |s.peers| >= s.capacity
                 || (cookie.ticket.session.Some? && !Disturbed(s, cookie.ticket.session.value))
  {
    hide Holds, TicketOk, Offered, Established, Disturbed;
    OfferedWithin(store, free, s);
    EstablishedExact(s, now, from, cookie);
  }

  /** The count passes and yet no slot can be claimed exactly when every slot has been made, each
  is occupied or worn, and one is worn. */
  lemma RoomlessExact(s: Host, store: Store<Peer>, free: seq<nat>)
    requires Holds(store, free, s)
    ensures |s.peers| < s.capacity && Offered(store, s.capacity).None?
            <==> && |store.slots| == s.capacity
                 && (forall i | 0 <= i < |store.slots| :: store.slots[i].Occupied() || Worn(store.slots[i]))
                 && exists i :: 0 <= i < |store.slots| && Worn(store.slots[i])
  {
    hide Contents, Offered;
    OfferedWithin(store, free, s);
    RefusesExact(store, s.capacity, free);
    if |s.peers| < s.capacity && Offered(store, s.capacity).None? {
      RefusesOnlyWorn(store, s.capacity, free);
    }
    if exists i :: 0 <= i < |store.slots| && Worn(store.slots[i]) {
      var i :| 0 <= i < |store.slots| && Worn(store.slots[i]);
      WornLeavesRoom(store, i);
    }
  }

  /** So while no slot is worn, a response refused for want of room changes nothing. */
  lemma UnwornUnchanged(s: Host, store: Store<Peer>, free: seq<nat>, now: nat, from: nat, cookie: Cookie)
    requires Holds(store, free, s) && Presents(s, now, from, cookie) && Roomless(s, store)
    requires forall i | 0 <= i < |store.slots| :: !Worn(store.slots[i])
    ensures Answered(s, store, free, now, from, cookie) == s
  {
    hide Holds, Presents, Answered, Disturbed, Offered;
    RoomlessExact(s, store, free);
    RefusalExact(s, store, free, now, from, cookie);
  }
}
