/** Why an acknowledgement must not come too late. One that is a whole wire range behind the newest
packet is taken to name that packet, and a message nobody has received is let go. */
module StaleAcks {
  import opened Machine
  import opened Sequences
  import opened Frames
  import opened Connection
  import opened PacketReading
  import opened OrderedDelivery
  import opened TwoParty
  import opened LoneSends
  import opened WorldSteps
  import opened Meeting
  import L = Ledger
  import C = Channels
  import I = ConnectionInvariant
  import F = QueueFlow

  /** `n` packets of unreliable messages were sent. The server read the first and acknowledged it,
  and that acknowledgement is still on its way. */
  ghost predicate Flooded(w: World, n: nat) {
    && Quiet(w) && |w.sent| == n && |w.accepted[1]| == n && w.accepted[0] == []
    && w.a.crypto.replay.newest == 0 && w.b.channels.dropped == 0
    && |w.replies| == 2 && w.replies[1].ack == 1
    && var r := w.replies[1].packet;
       && r.sequence == 2 && HeaderShaped(r.header) && r.header.sequence == 2 && r.header.ack == Some(1)
       && r.body == Sealed(Body(MIXED, []), Room(r.header))
  }

  lemma FirstRead() returns (w: World)
    ensures Flooded(w, 1)
  {
    hide Inv, Reaches, F.From, F.Retains, C.Committed, C.RecordOf, NoBits, Sealed, Body, Room;
    var met := Meets();
    OriginInv();
    MetQuiet(met);
    var sent := SendsUnreliable(met);
    InvSized(sent);
    var m := C.Pending(1, 0, [], false);
    var read := Lands(Origin(), sent, 0, m, sent.aClock);
    InvSized(read);
    w := Answers(Origin(), read, read.bClock);
    InvSized(w);
    FirstHeader(read.b, w.bClock);
  }

  lemma FirstHeader(b: Conn, now: nat)
    requires b.crypto.nextSequence == 2 && b.crypto.acked.newest == 1
    ensures var h := BuildHeader(b, now); h.sequence == 2 && h.ack == Some(1)
  {
  }

  lemma {:induction false} Floods(n: nat) returns (w: World)
    requires 1 <= n <= WIRE
    ensures Flooded(w, n)
  {
    hide Inv, Reaches, C.Committed, C.RecordOf, Sealed, Body, Room;
    if n == 1 {
      w := FirstRead();
    } else {
      var v := Floods(n - 1);
      w := SendsUnreliable(v);
    }
  }

  /** With nothing accepted on the ordered channel, the receiver has nothing of it. */
  lemma HasNothing(w: World)
    requires Inv(w) && w.kinds == MIXED && w.accepted[0] == []
    ensures C.Sized(w.b.channels) && !Has(w.b.channels, 0, 0)
  {
    hide I.Valid, SenderOk, LogOk, FlightOk, WindowsOk, RepliesOk;
    InvSized(w);
    assert InOrder(w.b.channels, 0, w.accepted[0], w.delivered[0]);
  }

  /** A run of two fresh connections in which nothing is misread and nothing dropped, and yet a
  message is lost. The server acknowledges the client's first packet, and the acknowledgement is held
  up while the client sends 65,535 more. The next packet carries an ordered message and is lost on the
  way. Then the acknowledgement arrives and is taken for one of that packet, so the client lets the
  message go: it was accepted, and neither side has it. */
  lemma StaleAckLoses()
    ensures exists w :: Reaches(Origin(), w) && C.Sized(w.b.channels) && w.b.channels.dropped == 0
                        && w.accepted[0] == [[7]]
                        && !Has(w.b.channels, 0, 0) && !F.Queued(w.a.channels.pending, C.Key(0, 0))
  {
    hide Inv, Reaches, C.Committed, C.RecordOf, Sealed, Body, Room, F.From, F.Retains, F.LeavesByAck, Has, F.LetGo,
         F.AckNames, F.Queued;
    var flooded := Floods(WIRE);
    HasNothing(flooded);
    OriginInv();
    var m := C.Pending(0, 0, [7], false);
    var sent := SendsNext(flooded, m);
    InvSized(sent);
    assert [] + [[7]] == [[7]];
    var w := Returns(Origin(), sent, 1, Room(sent.replies[1].packet.header));
    NamesNewest(sent, m);
    LetsGo(sent.a.delivery.ring, w.a.channels.pending, F.AckNames(sent.a, sent.replies[1].packet.header), WIRE + 1, m);
  }

  /** The late acknowledgement of the first packet names the newest. */
  lemma NamesNewest(w: World, m: C.Pending)
    requires Inv(w) && |w.sent| == WIRE + 1 && |w.replies| == 2
    requires HeaderShaped(w.replies[1].packet.header) && w.replies[1].packet.header.ack == Some(1)
    ensures Shaped(w.a) && WIRE + 1 in F.AckNames(w.a, w.replies[1].packet.header)
  {
    hide I.Valid, SenderOk, LogOk, FlightOk, WindowsOk, RepliesOk, AllInOrder, L.Named, ResolveAck;
    InvSized(w);
    ValidSized(w.a, w.aClock);
    ResolveAckExact(WIRE + 1, 1);
    var h := w.replies[1].packet.header;
    assert L.Named(WIRE + 1, h.ackBits, |h.ackBits|)[0] == WIRE + 1;
  }

  lemma LetsGo(ring: L.Ring<Record>, pending: seq<C.Pending>, named: seq<nat>, q: nat, m: C.Pending)
    requires |ring| > 0 && F.LetGo(ring, pending, named) && q in named && L.IsInFlight(ring, q)
    requires C.Sendable(MIXED, m) && m.channel == 0 && C.AllSendable(MIXED, [m])
    requires L.Get(ring, q).value.state.record == C.RecordOf(MIXED, [m])
    ensures !F.Queued(pending, C.KeyOf(m))
  {
    hide F.Queued;
    OnlyKey(MIXED, m);
    assert C.KeyOf(m) in C.RecordOf(MIXED, [m]);
  }
}
