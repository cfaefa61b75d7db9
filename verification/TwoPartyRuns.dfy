/** Every run of two connections over a hostile network: what an ordered channel delivers is,
at every moment, a prefix of what its sender accepted. */
module TwoPartyRuns {
  import opened Machine
  import opened Sequences
  import opened Frames
  import opened Connection
  import opened PacketReading
  import opened OrderedDelivery
  import opened TwoParty
  import opened Arrival
  import B = Budget
  import C = Channels
  import I = ConnectionInvariant

  // ----- An arrival -----

  lemma RepliesMore(replies: seq<Reply>, read: set<nat>, more: set<nat>)
    requires RepliesOk(replies, read) && read <= more
    ensures RepliesOk(replies, more)
  {
    forall j | 0 <= j < |replies|
      ensures ReplyOk(replies[j], more)
    {
      assert ReplyOk(replies[j], read);
    }
  }

  /** The datagram that opens names the packet it carries, and no packet opens twice. */
  lemma OpenedOnce(w: World, i: nat, header: Header)
    requires Inv(w) && i < |w.sent| && HeaderShaped(header) && OpensAtB(w, i, header)
    ensures SequenceOf(w.b.crypto, header) == Some(i + 1)
    ensures i + 1 !in w.unsealed && w.b.crypto.replay.newest < i + 1 + WINDOW
  {
    hide I.Valid, SenderOk, FlightOk, RepliesOk, AllInOrder, Reconstruct, AllEncodable, AllGenuine, Body, Sealed,
         C.AllSendable, Window.Check, Window.Refines;
    assert EntryOk(w.a.channels.kinds, w.sent[i], i + 1, w.accepted);
    CheckExact(w.b.crypto.replay, w.unsealed, i + 1);
  }

  lemma WindowsGrow(crypto: Crypto, unsealed: set<nat>, read: set<nat>, n: nat, s: nat, crypto': Crypto, all: bool)
    requires WindowsOk(crypto, unsealed, read, n) && 1 <= s <= n
    requires crypto'.replay == crypto.replay.Inserted(s)
    requires crypto'.acked == if all then crypto.acked.Inserted(s) else crypto.acked
    ensures WindowsOk(crypto', unsealed + {s}, if all then read + {s} else read, n)
  {
    hide Window.Refines, Window.Inserted;
    InsertRefines(crypto.replay, unsealed, s);
    InsertRefines(crypto.acked, read, s);
  }

  lemma NotOpened(w: World, i: nat, header: Header, now: nat, from: nat, token: nat)
    requires Shaped(w.b) && i < |w.sent| && HeaderShaped(header) && !OpensAtB(w, i, header)
    ensures var h := HandleDatagram(w.b, now, from, Datagram(header, w.sent[i].packet), token);
            h.conn == w.b && h.delivered == [] && !h.outcome.Processed?
  {
    hide HandleBody, Window.Check, Reconstruct;
  }

  /** Everything an opened packet changes. */
  lemma Opened(w: World, i: nat, header: Header, now: nat, from: nat, token: nat)
    requires Inv(w) && i < |w.sent| && HeaderShaped(header) && OpensAtB(w, i, header)
    requires C.Sized(w.b.channels) && ReadExactly(w, Arrive(i, header, now, from, token))
    ensures Shaped(w.b)
    ensures var h := HandleDatagram(w.b, now, from, Datagram(header, w.sent[i].packet), token);
            var e := w.sent[i];
            var all := h.outcome.Processed? && (e.control != [] || e.staged != []);
            && C.Sized(h.conn.channels) && h.conn.channels.kinds == w.b.channels.kinds
            && AllInOrder(h.conn.channels, w.accepted, Extended(w.delivered, h.delivered))
            && AllKept(w.b.channels, h.conn.channels) && w.b.channels.dropped <= h.conn.channels.dropped
            && (h.outcome.Processed? && h.conn.channels.dropped == w.b.channels.dropped
                ==> HasAll(h.conn.channels, e.staged))
            && WindowsOk(h.conn.crypto, w.unsealed + {i + 1}, if all then w.read + {i + 1} else w.read, |w.sent|)
  {
    hide I.Valid, SenderOk, FlightOk, RepliesOk, AllInOrder, HandleBody, AllKept, HasAll, Extended, EntryOk,
         ReadsExactly, WindowsOk, Window.Check, Window.Inserted, C.AllSendable;
    ValidSized(w.b, w.bClock);
    OpenedOnce(w, i, header);
    var e, s, newest := w.sent[i], i + 1, w.b.crypto.replay.newest;
    var c1 := w.b.(crypto := w.b.crypto.(replay := w.b.crypto.replay.Inserted(s)));
    var d := Datagram(header, e.packet);
    assert EntryOk(w.a.channels.kinds, e, s, w.accepted);
    BodyReads(c1, now, from, d, s, newest == 0 || s == newest + 1, token, e, w.accepted, w.delivered);
    var h := HandleBody(c1, now, from, d, s, newest == 0 || s == newest + 1, token);
    WindowsGrow(w.b.crypto, w.unsealed, w.read, |w.sent|, s, h.conn.crypto,
                h.outcome.Processed? && (e.control != [] || e.staged != []));
  }

  lemma OpenedGains(w: World, i: nat, header: Header, now: nat, from: nat, token: nat)
    requires Inv(w) && i < |w.sent| && HeaderShaped(header) && OpensAtB(w, i, header)
    requires C.Sized(w.b.channels) && ReadExactly(w, Arrive(i, header, now, from, token))
    requires |w.b.channels.held| <= C.MAX_HELD
    ensures Shaped(w.b)
    ensures var h := HandleDatagram(w.b, now, from, Datagram(header, w.sent[i].packet), token);
            && C.Sized(h.conn.channels) && |h.conn.channels.held| <= C.MAX_HELD
            && Gained(w.b.channels, h.conn.channels, w.sent[i].staged)
  {
    hide I.Valid, SenderOk, FlightOk, RepliesOk, AllInOrder, HandleBody, Gained, EntryOk,
         ReadsExactly, WindowsOk, Window.Check, Window.Inserted, C.AllSendable;
    ValidSized(w.b, w.bClock);
    OpenedOnce(w, i, header);
    var e, s, newest := w.sent[i], i + 1, w.b.crypto.replay.newest;
    var c1 := w.b.(crypto := w.b.crypto.(replay := w.b.crypto.replay.Inserted(s)));
    assert EntryOk(w.a.channels.kinds, e, s, w.accepted);
    BodyGains(c1, now, from, Datagram(header, e.packet), s, newest == 0 || s == newest + 1, token, e, w.accepted,
              w.delivered);
  }

  lemma ArriveInv(w: World, i: nat, header: Header, now: nat, from: nat, token: nat)
    requires Inv(w) && i < |w.sent| && HeaderShaped(header) && Ticks(w.bClock, now) && token < U64
    requires C.Sized(w.b.channels) && ReadExactly(w, Arrive(i, header, now, from, token))
    ensures Shaped(w.a) && Shaped(w.b)
    ensures Inv(Stepped(w, Arrive(i, header, now, from, token)))
  {
    hide I.Valid, LogOk, FlightOk, SenderOk, RepliesOk, WindowsOk, AllInOrder, OpensAtB, HandleDatagram, Extended,
         ReadExactly;
    ValidSized(w.a, w.aClock);
    ValidSized(w.b, w.bClock);
    I.HandleDatagramValid(w.b, w.bClock, now, from, Datagram(header, w.sent[i].packet), token);
    if OpensAtB(w, i, header) {
      Opened(w, i, header, now, from, token);
      RepliesMore(w.replies, w.read, Stepped(w, Arrive(i, header, now, from, token)).read);
    } else {
      NotOpened(w, i, header, now, from, token);
      ExtendedNothing(w.delivered);
    }
  }

  // ----- Runs -----

  /** The step's own preconditions. */
  ghost predicate Runnable(w: World, s: Step) {
    && Shaped(w.a) && Shaped(w.b)
    && (s.TransmitA? ==> Transmittable(w.a) && B.Consistent(w.a.budget))
    && (s.TransmitB? ==> Transmittable(w.b) && B.Consistent(w.b.budget))
    && (s.Arrive? ==> s.i < |w.sent| && HeaderShaped(s.header))
    && (s.Return? ==> s.j < |w.replies| && HeaderShaped(s.header))
  }

  /** The invariant makes every allowed step possible. */
  lemma AllowedRuns(w: World, s: Step)
    requires Inv(w) && C.Sized(w.a.channels) && C.Sized(w.b.channels) && Allowed(w, s)
    ensures Runnable(w, s)
  {
    hide I.Valid, LogOk, FlightOk, SenderOk, RepliesOk, WindowsOk, AllInOrder;
    ValidSized(w.a, w.aClock);
    ValidSized(w.b, w.bClock);
  }

  lemma StepInv(w: World, s: Step)
    requires Inv(w) && Runnable(w, s) && Allowed(w, s) && ReadExactly(w, s)
    ensures Inv(Stepped(w, s))
  {
    hide Inv, Stepped, Transmittable, B.Consistent, ReadExactly;
    match s
    case Submit(channel, payload) => SubmitInv(w, channel, payload);
    case SubmitB(channel, payload) => SubmitBInv(w, channel, payload);
    case TransmitA(now) => TransmitAInv(w, now);
    case TransmitB(now) => TransmitBInv(w, now);
    case ExpireA(now) => ExpireAInv(w, now);
    case ExpireB(now) => ExpireBInv(w, now);
    case CloseA(reason) => RequestAInv(w, reason, NO_CONTROL);
    case CloseB(reason) => RequestBInv(w, reason, NO_CONTROL);
    case QueueA(control) => RequestAInv(w, 0, control);
    case QueueB(control) => RequestBInv(w, 0, control);
    case Return(j, header, now, from, token) => ReturnInv(w, j, header, now, from, token);
    case Arrive(i, header, now, from, token) => ArriveInv(w, i, header, now, from, token);
  }

  /** Worlds `ws` joined by steps `ss`. */
  ghost predicate IsRun(ws: seq<World>, ss: seq<Step>) {
    && |ws| == |ss| + 1
    && (forall k | 0 <= k < |ss| ::
          Runnable(ws[k], ss[k]) && Allowed(ws[k], ss[k]) && ws[k + 1] == Stepped(ws[k], ss[k]))
  }

  ghost predicate AlwaysExact(ws: seq<World>, ss: seq<Step>)
    requires IsRun(ws, ss)
  {
    forall k | 0 <= k < |ss| :: ReadExactly(ws[k], ss[k])
  }

  lemma {:induction false} RunInv(ws: seq<World>, ss: seq<Step>, n: nat)
    requires IsRun(ws, ss) && n <= |ss| && Inv(ws[0]) && AlwaysExact(ws, ss)
    ensures Inv(ws[n])
    decreases n
  {
    hide Inv, Stepped, Runnable, Allowed, ReadExactly;
    if n > 0 {
      RunInv(ws, ss, n - 1);
      StepInv(ws[n - 1], ss[n - 1]);
    }
  }

  lemma InvDelivers(w: World, ch: nat)
    requires Inv(w) && ch < |w.kinds| && w.kinds[ch].ReliableOrdered?
    ensures w.delivered[ch] <= w.accepted[ch]
  {
    hide I.Valid, SenderOk, LogOk, FlightOk, RepliesOk, WindowsOk, Unique;
    ValidSized(w.b, w.bClock);
    assert InOrder(w.b.channels, ch, w.accepted[ch], w.delivered[ch]);
  }

  /** In-order delivery, exactly once, over every run of two fresh connections: as long as no
  opened packet holds an ordered id that its sixteen wire bits misname, what each ordered
  channel has delivered is a prefix of what was accepted on it. */
  lemma DeliveredInOrder(aRole: Role, bRole: Role, aAddr: nat, bAddr: nat, kinds: Kinds, aCfg: Config, bCfg: Config,
                         aClock: nat, bClock: nat, ws: seq<World>, ss: seq<Step>)
    requires ConfigValid(aCfg) && ConfigValid(bCfg) && IsRun(ws, ss) && AlwaysExact(ws, ss)
    requires ws[0] == Start(New(aClock, aRole, aAddr, kinds, aCfg), New(bClock, bRole, bAddr, kinds, bCfg), aClock,
                            bClock)
    ensures forall n, ch | 0 <= n < |ws| && 0 <= ch < |kinds| && kinds[ch].ReliableOrdered? ::
              ws[n].delivered[ch] <= ws[n].accepted[ch]
  {
    hide Inv, Stepped, Runnable, Allowed, ReadExactly;
    StartInv(aRole, bRole, aAddr, bAddr, kinds, aCfg, bCfg, aClock, bClock);
    forall n, ch | 0 <= n < |ws| && 0 <= ch < |kinds| && kinds[ch].ReliableOrdered?
      ensures ws[n].delivered[ch] <= ws[n].accepted[ch]
    {
      RunInv(ws, ss, n);
      RunKinds(ws, ss, n);
      InvDelivers(ws[n], ch);
    }
  }

  lemma StepKinds(w: World, s: Step)
    requires Runnable(w, s)
    ensures Stepped(w, s).kinds == w.kinds
  {
    hide PollTransmit, HandleDatagram, HandleTimeout, C.Send, Drafted, Transmittable, B.Consistent;
  }

  lemma {:induction false} RunKinds(ws: seq<World>, ss: seq<Step>, n: nat)
    requires IsRun(ws, ss) && n <= |ss|
    ensures ws[n].kinds == ws[0].kinds
    decreases n
  {
    hide Stepped, Runnable, Allowed;
    if n > 0 {
      RunKinds(ws, ss, n - 1);
      StepKinds(ws[n - 1], ss[n - 1]);
    }
  }
}
