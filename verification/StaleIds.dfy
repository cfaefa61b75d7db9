/** Why a queued message must not fall too far behind. One whose packets are never acknowledged is
sent again and again while others pass it, until its sixteen bits name a message not yet sent. */
module StaleIds {
  import opened Machine
  import opened Sequences
  import opened Frames
  import opened Connection
  import opened PacketReading
  import opened OrderedDelivery
  import opened TwoParty
  import opened TwoPartyRuns
  import opened LoneSends
  import opened WorldSteps
  import opened Meeting
  import opened Laggards
  import B = Budget
  import C = Channels
  import A = Arena

  /** A receiver that expects message `n` of the ordered channel and holds nothing. */
  function Expecting(n: nat): C.Channels {
    C.New(MIXED).(receivers := C.New(MIXED).receivers[0 := C.NewReceiver().(expected := n)])
  }

  lemma ExpectingShape(n: nat)
    ensures Expecting(n).kinds == MIXED && Expecting(n).pending == [] && C.Sized(Expecting(n))
  {
  }

  // ----- Receiving -----

  /** The message expected is delivered. */
  lemma DeliversNext(n: nat, payload: Bytes)
    requires n < U32_MAX && |payload| <= MAX_MESSAGE
    ensures var m := C.Pending(0, n, payload, false);
            && C.Sendable(MIXED, m) && Exact(Expecting(n), m)
            && var f := C.FrameOf(MIXED, m);
               C.Receive(Expecting(n), f.channel, f.id, f.payload)
               == C.Received(Expecting(n + 1), [C.Delivery(0, payload)], true)
  {
    hide C.FromWire, C.Distance;
    C.WireIdExact(n, n);
    var next := Expecting(n + 1);
    assert C.Flushed(next, 0) == C.Received(next, [], true);
    assert Expecting(n).receivers[0 := Expecting(n).receivers[0].(expected := n + 1)] == next.receivers;
    assert [C.Delivery(0, payload)] + [] == [C.Delivery(0, payload)];
  }

  lemma FreshExpecting()
    ensures C.New(MIXED) == Expecting(0)
  {
    assert C.New(MIXED).receivers[0 := C.NewReceiver().(expected := 0)] == C.New(MIXED).receivers;
  }

  /** The client's first packet carries the message, and the server reads it. */
  lemma Starts() returns (w: World)
    ensures Lagging(w, 1, true, 1) && |w.sent| == 1 && w.b.crypto.replay.newest == 1 && |w.replies| == 1
    ensures w.b.channels == Expecting(1)
  {
    hide Inv, Reaches, Sole, Recent, NoBits, C.Receive, Expecting;
    var sent := Sets();
    OriginInv();
    FreshExpecting();
    DeliversNext(0, [7]);
    ExpectingShape(0);
    ExpectingShape(1);
    w := Lands(Origin(), sent, 0, FIRST, sent.aClock);
  }

  /** Packets pass it until its first is out of an acknowledgement's reach. */
  lemma {:induction false} Drifts(w: World, flag: bool, z: nat) returns (v: World, flag': bool, z': nat)
    requires Lagging(w, 1, flag, z) && w.b.crypto.replay.newest == 1 && |w.sent| < 40 && w.b.channels == Expecting(1)
    ensures Lagging(v, 1, flag', z') && v.b.crypto.replay.newest == 1 && 34 <= |v.sent| < 40
    ensures v.replies == w.replies && v.b.channels == Expecting(1)
    decreases 40 - |w.sent|
  {
    hide Lagging;
    LaggingParts(w, 1, flag, z);
    if |w.sent| >= 34 {
      v, flag', z' := w, flag, z;
    } else {
      var u, y := Resends(w, 1, flag, z);
      var t, f := SendsPast(u, 1, y);
      v, flag', z' := Drifts(t, f, y);
    }
  }

  // ----- The run -----

  lemma {:induction false} Rounds(n: nat) returns (w: World, flag: bool, z: nat)
    requires 1 <= n <= 32769
    ensures Lagging(w, n, flag, z) && 33 + n <= |w.sent| <= 40 + 2 * n && |w.replies| <= n + 1
    ensures |w.sent| <= w.b.crypto.replay.newest + 50 && w.b.channels == Expecting(n)
    decreases n
  {
    hide Lagging;
    if n == 1 {
      var first := Starts();
      w, flag, z := Drifts(first, true, 1);
    } else {
      var v, f, y := Rounds(n - 1);
      ExpectingShape(n - 1);
      DeliversNext(n - 1, []);
      w, flag, z := Round(v, C.Pending(0, n - 1, [], false), f, y);
    }
  }

  lemma MisreadsFirst()
    ensures C.Sendable(MIXED, FIRST)
    ensures var f := C.FrameOf(MIXED, FIRST);
            C.Receive(Expecting(32769), f.channel, f.id, f.payload)
            == C.Received(Expecting(32769).(held := [C.Held(0, 65536, [7])]), [], true)
  {
    hide C.FromWire, C.Distance;
    assert C.ToWire(65536) == C.ToWire(0);
    C.WireIdExact(32769, 65536);
    assert A.BlocksFor(1) == 1 && [] + [C.Held(0, 65536, [7])] == [C.Held(0, 65536, [7])];
  }

  /** A copy of the message arrives when 32,769 is expected. */
  lemma ArrivesStale(w: World, z: nat) returns (s: Step)
    requires Lagging(w, 32769, true, z) && w.b.channels == Expecting(32769) && TRACKED < |w.sent| < 1_000_000
    ensures Runnable(w, s) && Allowed(w, s)
    ensures var v := Stepped(w, s);
            v.b.channels == Expecting(32769).(held := [C.Held(0, 65536, [7])]) && v.accepted == w.accepted
  {
    hide Inv, Reaches, Sole, Recent, Logged, OpensAtB, Answerable, Expecting, C.Receive, C.FrameOf, Stepped, Extended,
         B.Consistent, Transmittable;
    var q := Carried(w, 32769, z);
    InvSized(w);
    ExpectingShape(32769);
    OpensOwn(w, q - 1);
    MisreadsFirst();
    LandsOne(w, q - 1, FIRST, w.aClock);
    s := Arrive(q - 1, w.sent[q - 1].packet.header, w.aClock, w.b.addr, 0);
  }

  /** A run of two fresh connections in which nothing is dropped and no id was misread before, and yet
  a message is taken for another. The server reads message 0, but none of its
  acknowledgements that name that packet arrive. So the client declares it lost and sends the message
  again, and again, while 32,768 others pass it and are delivered. Then a copy arrives: the server
  holds it as message 65,536, which nobody has sent. */
  lemma StaleIdMisread()
    ensures exists w, s ::
              && Reaches(Origin(), w) && Runnable(w, s) && Allowed(w, s)
              && var v := Stepped(w, s);
                 && v.b.channels.dropped == 0 && |v.accepted[0]| == 32769
                 && C.Held(0, 65536, [7]) in v.b.channels.held
  {
    hide Inv, Reaches, Stuck, Logged, Stepped, Transmittable, B.Consistent;
    var lag, flag, z := Rounds(32769);
    var w, y := Resends(lag, 32769, flag, z);
    var s := ArrivesStale(w, y);
    assert [C.Held(0, 65536, [7])][0] in [C.Held(0, 65536, [7])];
  }
}
