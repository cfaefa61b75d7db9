/** The steps of two connections, each shown to lose no message, and the theorem over runs in
which ids are read exactly, nothing is dropped, and acknowledgements name the packets they mean. */
module CompleteRuns {
  import opened Machine
  import opened Sequences
  import opened Frames
  import opened Connection
  import opened PacketReading
  import opened OrderedDelivery
  import opened TwoParty
  import opened Arrival
  import opened TwoPartyRuns
  import opened Complete
  import L = Ledger
  import B = Budget
  import C = Channels
  import A = Arena
  import Q = SendQueue
  import I = ConnectionInvariant
  import F = QueueFlow

  /** An acknowledgement that comes back is not so old that it names a later packet. */
  ghost predicate FreshAck(w: World, s: Step)
    requires Runnable(w, s)
  {
    s.Return? && 0 < w.replies[s.j].ack <= |w.sent| ==> !Misnames(|w.sent| - w.replies[s.j].ack)
  }

  /** The receiver had room for every message ahead of a gap, and acknowledgements are fresh. */
  ghost predicate Spared(w: World, s: Step)
    requires Runnable(w, s)
  {
    FreshAck(w, s) && Stepped(w, s).b.channels.dropped == 0
  }

  // ----- Steps that change neither the log nor what `b` has -----

  lemma HasSameAll(c: C.Channels, d: C.Channels)
    requires C.Sized(c) && C.Sized(d) && d == c.(pending := d.pending, nextIds := d.nextIds)
    ensures forall ch: nat, id: nat | ch < MAX_CHANNELS :: Has(c, ch, id) <==> Has(d, ch, id)
  {
    hide Has;
    forall ch: nat, id: nat | ch < MAX_CHANNELS
      ensures Has(c, ch, id) <==> Has(d, ch, id)
    {
      HasSame(c, d, ch, id);
    }
  }

  lemma WholeFrom(w: World, v: World)
    requires Whole(w) && Inv(v) && C.Sized(v.a.channels) && C.Sized(v.b.channels)
    requires v == w.(a := v.a, b := v.b, aClock := v.aClock, bClock := v.bClock, replies := v.replies)
    requires v.b.channels == w.b.channels.(pending := v.b.channels.pending, nextIds := v.b.channels.nextIds)
    requires NoneLost(w.kinds, w.accepted, v.a.channels.pending, w.b.channels)
    ensures Whole(v)
  {
    hide Inv, Has, F.Queued;
    HasSameAll(w.b.channels, v.b.channels);
    forall q | q in v.read
      ensures 1 <= q <= |v.sent| && HasAll(v.b.channels, v.sent[q - 1].staged)
    {
      assert HasAll(w.b.channels, w.sent[q - 1].staged);
    }
  }

  /** A queue that retains its reliable messages loses none. */
  lemma RetainsNoneLost(kinds: Kinds, accepted: PerChannel, before: seq<C.Pending>, after: seq<C.Pending>,
                        b: C.Channels)
    requires C.Sized(b) && NoneLost(kinds, accepted, before, b) && F.Retains(kinds, before, after)
    ensures NoneLost(kinds, accepted, after, b)
  {
    hide Has;
    forall ch: nat, id: nat | OrderedChannel(kinds, ch) && id < |accepted[ch]|
      ensures Has(b, ch, id) || F.Queued(after, C.Key(ch, id))
    {
      if !Has(b, ch, id) {
        var p :| p in before && C.KeyOf(p) == C.Key(ch, id);
        assert F.Queued(after, C.KeyOf(p));
      }
    }
  }

  lemma QuietWhole(w: World, s: Step)
    requires Whole(w) && Runnable(w, s) && Allowed(w, s)
    requires s.CloseA? || s.QueueA? || s.SubmitB? || s.TransmitB? || s.ExpireB? || s.CloseB? || s.QueueB? || s.ExpireA?
    ensures Whole(Stepped(w, s))
  {
    hide Inv, NoneLost, ReadKept, Transmittable, B.Consistent, PollTransmit, HandleTimeout,
         F.From, F.Retains, C.PendingBlocks, A.BlocksFor, Drafted, I.Valid;
    StepInv(w, s);
    var v := Stepped(w, s);
    InvValid(w);
    InvValid(v);
    if s.TransmitB? {
      PollParts(w.b, w.bClock, s.now);
    } else if s.ExpireB? {
      F.TimeoutFlows(w.b, w.bClock, s.now);
    } else if s.ExpireA? {
      F.TimeoutFlows(w.a, w.aClock, s.now);
      RetainsNoneLost(w.kinds, w.accepted, w.a.channels.pending, v.a.channels.pending, w.b.channels);
    }
    WholeFrom(w, v);
  }

  lemma InvValid(w: World)
    requires Inv(w)
    ensures I.Valid(w.a, w.aClock) && I.Valid(w.b, w.bClock) && Shaped(w.a) && Shaped(w.b)
    ensures w.a.channels.kinds == w.kinds && w.b.channels.kinds == w.kinds
  {
    hide I.Valid, SenderOk, LogOk, FlightOk, RepliesOk, WindowsOk, AllInOrder;
    ValidSized(w.a, w.aClock);
    ValidSized(w.b, w.bClock);
  }

  // ----- Accepting a message -----

  lemma SubmitWhole(w: World, channel: nat, payload: Bytes)
    requires Whole(w) && Runnable(w, Submit(channel, payload)) && Allowed(w, Submit(channel, payload))
    ensures Whole(Stepped(w, Submit(channel, payload)))
  {
    hide Inv, Has, C.PendingBlocks, A.BlocksFor, ReadKept, I.Valid;
    SubmitInv(w, channel, payload);
    var v := Stepped(w, Submit(channel, payload));
    SenderCounts(w);
    forall ch: nat, id: nat | OrderedChannel(v.kinds, ch) && id < |v.accepted[ch]|
      ensures Has(v.b.channels, ch, id) || F.Queued(v.a.channels.pending, C.Key(ch, id))
    {
      if id < |w.accepted[ch]| {
        if F.Queued(w.a.channels.pending, C.Key(ch, id)) {
          var p :| p in w.a.channels.pending && C.KeyOf(p) == C.Key(ch, id);
          assert p in v.a.channels.pending;
        }
      } else {
        var p := v.a.channels.pending[|w.a.channels.pending|];
        assert p in v.a.channels.pending && C.KeyOf(p) == C.Key(ch, id);
      }
    }
  }

  lemma SenderCounts(w: World)
    requires Inv(w)
    ensures C.Sized(w.a.channels) && w.a.channels.kinds == w.kinds
    ensures forall ch | 0 <= ch < |w.kinds| :: w.a.channels.nextIds[ch] == |w.accepted[ch]| <= U32_MAX
  {
    hide I.Valid, LogOk, FlightOk, RepliesOk, WindowsOk, AllInOrder, AllGenuine;
    ValidSized(w.a, w.aClock);
  }

  // ----- Transmitting -----

  lemma ReadKeptMore(c: C.Channels, sent: seq<Sent>, e: Sent, read: set<nat>)
    requires C.Sized(c) && ReadKept(c, sent, read)
    ensures ReadKept(c, sent + [e], read)
  {
    hide HasAll;
    assert forall q | q in read :: (sent + [e])[q - 1] == sent[q - 1];
  }

  lemma TransmitWhole(w: World, now: nat)
    requires Whole(w) && Runnable(w, TransmitA(now)) && Allowed(w, TransmitA(now))
    ensures Whole(Stepped(w, TransmitA(now)))
  {
    hide Inv, NoneLost, ReadKept, B.Consistent, PollTransmit, F.Retains, Drafted, I.Valid, ASide, B.Assess,
         Transmittable;
    TransmitAInv(w, now);
    var v := Stepped(w, TransmitA(now));
    InvValid(w);
    InvValid(v);
    InvASide(w);
    SendTransmits(w.a, w.aClock, w.sent, w.accepted, now);
    RetainsNoneLost(w.kinds, w.accepted, w.a.channels.pending, v.a.channels.pending, w.b.channels);
    if PollTransmit(w.a, now).packet.Some? {
      var e := v.sent[|w.sent|];
      assert v.sent == w.sent + [e];
      ReadKeptMore(w.b.channels, w.sent, e, w.read);
    }
  }

  // ----- Acknowledgements -----

  lemma {:induction false} NamedRead(ack: nat, bits: seq<bool>, k: nat, read: set<nat>)
    requires k <= |bits| && ack in read
    requires forall i | 0 <= i < |bits| && bits[i] && ack > i + 1 :: ack - 1 - i in read
    ensures forall q | q in L.Named(ack, bits, k) :: q in read
  {
    if k > 0 {
      NamedRead(ack, bits, k - 1, read);
      assert bits[k - 1] && ack > k ==> ack - 1 - (k - 1) in read;
    }
  }

  /** Unless it misnames them, an acknowledgement is taken to name only packets `b` has read. */
  lemma AckNamesRead(w: World, j: nat)
    requires Inv(w) && j < |w.replies|
    requires 0 < w.replies[j].ack <= |w.sent| ==> !Misnames(|w.sent| - w.replies[j].ack)
    requires HeaderShaped(w.replies[j].packet.header)
    ensures Shaped(w.a)
    ensures forall q | q in F.AckNames(w.a, w.replies[j].packet.header) :: q in w.read
  {
    hide I.Valid, SenderOk, LogOk, FlightOk, AllInOrder, ResolveAck, L.Named, Window.Refines;
    ValidSized(w.a, w.aClock);
    var r := w.replies[j];
    assert ReplyOk(r, w.read);
    if r.ack > 0 {
      AckedPositive(w.b.crypto.acked, w.read, r.ack);
      ResolveAckExact(|w.sent|, r.ack);
      NamedRead(r.ack, r.packet.header.ackBits, ACK_BITS, w.read);
    }
  }

  lemma AckedPositive(acked: Window, read: set<nat>, q: nat)
    requires acked.Refines(read) && q in read
    ensures q >= 1
  {
  }

  /** A message that leaves the queue is one the receiver has. */
  lemma LeaversReceived(w: World, after: seq<C.Pending>, named: seq<nat>)
    requires Inv(w) && C.Sized(w.b.channels) && |w.a.delivery.ring| > 0
    requires F.LeavesByAck(w.a.delivery.ring, w.a.channels.pending, after, named)
    requires forall q | q in named :: q in w.read
    requires NoneLost(w.kinds, w.accepted, w.a.channels.pending, w.b.channels) && ReadKept(w.b.channels, w.sent, w.read)
    ensures NoneLost(w.kinds, w.accepted, after, w.b.channels)
  {
    hide I.Valid, SenderOk, LogOk, WindowsOk, RepliesOk, AllInOrder, Has, C.RecordOf, C.AllSendable;
    forall ch: nat, id: nat | OrderedChannel(w.kinds, ch) && id < |w.accepted[ch]|
      ensures Has(w.b.channels, ch, id) || F.Queued(after, C.Key(ch, id))
    {
      if !Has(w.b.channels, ch, id) && !F.Queued(after, C.Key(ch, id)) {
        var p :| p in w.a.channels.pending && C.KeyOf(p) == C.Key(ch, id);
        var q: nat :| q in named && L.IsInFlight(w.a.delivery.ring, q)
                      && C.KeyOf(p) in L.Get(w.a.delivery.ring, q).value.state.record;
        RecordHas(w.kinds, w.sent[q - 1].staged, ch, id, w.b.channels);
      }
    }
  }

  lemma RecordHas(kinds: Kinds, staged: seq<C.Pending>, ch: nat, id: nat, b: C.Channels)
    requires C.Sized(b) && b.kinds == kinds && OrderedChannel(kinds, ch) && C.AllSendable(kinds, staged)
    requires C.Key(ch, id) in C.RecordOf(kinds, staged) && HasAll(b, staged)
    ensures Has(b, ch, id)
  {
    hide Has, C.KeysWhere;
    Q.KeysWhereExact(kinds, staged, true);
    var i :| 0 <= i < |staged| && C.KeyOf(staged[i]) == C.Key(ch, id);
    assert staged[i] in staged && OnOrdered(kinds, staged[i]);
  }

  lemma ReturnWhole(w: World, j: nat, header: Header, now: nat, from: nat, token: nat)
    requires var s := Return(j, header, now, from, token); Whole(w) && Runnable(w, s) && Allowed(w, s)
    requires FreshAck(w, Return(j, header, now, from, token))
    ensures Whole(Stepped(w, Return(j, header, now, from, token)))
  {
    hide Inv, NoneLost, ReadKept, HandleDatagram, I.Valid, F.LeavesByAck, F.From, F.AckNames;
    ReturnInv(w, j, header, now, from, token);
    var v := Stepped(w, Return(j, header, now, from, token));
    InvValid(w);
    InvValid(v);
    var d := Datagram(header, w.replies[j].packet);
    F.HandleDatagramFlows(w.a, w.aClock, now, from, d, token);
    if header == d.sealed.header {
      AckNamesRead(w, j);
      LeaversReceived(w, v.a.channels.pending, F.AckNames(w.a, header));
    }
    WholeFrom(w, v);
  }

  // ----- Arrivals -----

  lemma KeptNoneLost(kinds: Kinds, accepted: PerChannel, pending: seq<C.Pending>, c: C.Channels, d: C.Channels)
    requires C.Sized(c) && C.Sized(d) && c.kinds == kinds && AllKept(c, d) && NoneLost(kinds, accepted, pending, c)
    ensures NoneLost(kinds, accepted, pending, d)
  {
    hide Has, F.Queued;
    forall ch: nat, id: nat | OrderedChannel(kinds, ch) && id < |accepted[ch]|
      ensures Has(d, ch, id) || F.Queued(pending, C.Key(ch, id))
    {
      assert KeepsAll(c, d, ch);
    }
  }

  lemma KeptHasAll(c: C.Channels, d: C.Channels, staged: seq<C.Pending>)
    requires C.Sized(c) && C.Sized(d) && d.kinds == c.kinds && AllKept(c, d) && HasAll(c, staged)
    ensures HasAll(d, staged)
  {
    hide Has;
    forall m | m in staged && OnOrdered(d.kinds, m)
      ensures Has(d, m.channel, m.id)
    {
      assert KeepsAll(c, d, m.channel);
    }
  }

  lemma KeptRead(c: C.Channels, d: C.Channels, sent: seq<Sent>, read: set<nat>, i: nat, all: bool)
    requires C.Sized(c) && C.Sized(d) && d.kinds == c.kinds && AllKept(c, d) && ReadKept(c, sent, read)
    requires i < |sent| && (all ==> HasAll(d, sent[i].staged))
    ensures ReadKept(d, sent, if all then read + {i + 1} else read)
  {
    hide AllKept, HasAll;
    var more := if all then read + {i + 1} else read;
    forall q | q in more
      ensures 1 <= q <= |sent| && HasAll(d, sent[q - 1].staged)
    {
      if q in read {
        KeptHasAll(c, d, sent[q - 1].staged);
      }
    }
  }

  lemma ArriveWhole(w: World, i: nat, header: Header, now: nat, from: nat, token: nat)
    requires var s := Arrive(i, header, now, from, token);
             Whole(w) && Runnable(w, s) && Allowed(w, s) && ReadExactly(w, s) && Stepped(w, s).b.channels.dropped == 0
    ensures Whole(Stepped(w, Arrive(i, header, now, from, token)))
  {
    hide Inv, NoneLost, ReadKept, HandleDatagram, OpensAtB, AllKept, HasAll, Gained, Extended, ReadExactly, WindowsOk,
         AllInOrder;
    var s := Arrive(i, header, now, from, token);
    ArriveInv(w, i, header, now, from, token);
    var v := Stepped(w, s);
    InvValid(w);
    if OpensAtB(w, i, header) {
      Opened(w, i, header, now, from, token);
      OpenedGains(w, i, header, now, from, token);
      KeptNoneLost(w.kinds, w.accepted, w.a.channels.pending, w.b.channels, v.b.channels);
      var h := HandleDatagram(w.b, now, from, Datagram(header, w.sent[i].packet), token);
      KeptRead(w.b.channels, v.b.channels, w.sent, w.read, i,
               h.outcome.Processed? && (w.sent[i].control != [] || w.sent[i].staged != []));
    } else {
      NotOpened(w, i, header, now, from, token);
      ExtendedNothing(w.delivered);
      WholeFrom(w, v);
    }
  }

  // ----- Runs -----

  lemma StepWhole(w: World, s: Step)
    requires Whole(w) && Runnable(w, s) && Allowed(w, s) && ReadExactly(w, s) && Spared(w, s)
    ensures Whole(Stepped(w, s))
  {
    hide Whole, Stepped, Transmittable, B.Consistent;
    match s
    case Submit(channel, payload) => SubmitWhole(w, channel, payload);
    case TransmitA(now) => TransmitWhole(w, now);
    case Return(j, header, now, from, token) => ReturnWhole(w, j, header, now, from, token);
    case Arrive(i, header, now, from, token) => ArriveWhole(w, i, header, now, from, token);
    case _ => QuietWhole(w, s);
  }

  ghost predicate AlwaysSpared(ws: seq<World>, ss: seq<Step>)
    requires IsRun(ws, ss)
  {
    forall k | 0 <= k < |ss| :: Spared(ws[k], ss[k])
  }

  lemma {:induction false} RunWhole(ws: seq<World>, ss: seq<Step>, n: nat)
    requires IsRun(ws, ss) && n <= |ss| && Whole(ws[0]) && AlwaysExact(ws, ss) && AlwaysSpared(ws, ss)
    ensures Whole(ws[n])
    decreases n
  {
    hide Whole, Stepped, Runnable, Allowed, Spared, ReadExactly;
    if n > 0 {
      RunWhole(ws, ss, n - 1);
      StepWhole(ws[n - 1], ss[n - 1]);
    }
  }

  lemma StartWhole(aRole: Role, bRole: Role, aAddr: nat, bAddr: nat, kinds: Kinds, aCfg: Config, bCfg: Config,
                   aClock: nat, bClock: nat)
    requires ConfigValid(aCfg) && ConfigValid(bCfg)
    ensures Whole(Start(New(aClock, aRole, aAddr, kinds, aCfg), New(bClock, bRole, bAddr, kinds, bCfg), aClock, bClock))
  {
    hide Inv;
    StartInv(aRole, bRole, aAddr, bAddr, kinds, aCfg, bCfg, aClock, bClock);
  }

  /** Every accepted ordered message is delivered, held behind the gap, or still queued. */
  ghost predicate Accounted(w: World, ch: nat, id: nat)
    requires C.Sized(w.b.channels) && ch < MAX_CHANNELS
  {
    || id < |w.delivered[ch]|
    || (exists h :: h in w.b.channels.held && h.channel == ch && h.id == id)
    || F.Queued(w.a.channels.pending, C.Key(ch, id))
  }

  lemma WholeAccounts(w: World, ch: nat)
    requires Whole(w) && ch < |w.kinds| && w.kinds[ch].ReliableOrdered?
    ensures C.Sized(w.b.channels) && w.delivered[ch] <= w.accepted[ch]
    ensures |w.accepted[ch]| <= |w.delivered[ch]| + C.MAX_PENDING + C.MAX_HELD
    ensures forall id: nat | id < |w.accepted[ch]| :: Accounted(w, ch, id)
  {
    hide I.Valid, ReadKept, F.Queued, SenderOk, LogOk, FlightOk, RepliesOk, WindowsOk;
    InvDelivers(w, ch);
    assert InOrder(w.b.channels, ch, w.accepted[ch], w.delivered[ch]);
    QueueBounded(w.a, w.aClock);
    NotFarBehind(w.kinds, w.accepted, w.a.channels.pending, w.b.channels, ch, w.delivered[ch]);
    forall id: nat | id < |w.accepted[ch]|
      ensures Accounted(w, ch, id)
    {
      assert OrderedChannel(w.kinds, ch);
      assert Has(w.b.channels, ch, id) || F.Queued(w.a.channels.pending, C.Key(ch, id));
    }
  }

  lemma QueueBounded(c: Conn, clock: nat)
    requires I.Valid(c, clock)
    ensures |c.channels.pending| <= C.MAX_PENDING
  {
    hide L.Valid, I.NoneStranded, B.Consistent;
  }

  /** Where every message of every ordered channel is. */
  ghost predicate AllAccounted(w: World, kinds: Kinds) {
    forall ch | 0 <= ch < |kinds| && kinds[ch].ReliableOrdered? ::
      && C.Sized(w.b.channels)
      && w.delivered[ch] <= w.accepted[ch]
      && |w.accepted[ch]| <= |w.delivered[ch]| + C.MAX_PENDING + C.MAX_HELD
      && forall id: nat | id < |w.accepted[ch]| :: Accounted(w, ch, id)
  }

  /** Reliable, ordered, exactly once, over every run of two fresh connections in which no opened
  packet holds an ordered id that its wire bits misname, the receiver drops nothing, and no
  acknowledgement names a packet it does not mean: deliveries are a prefix of what was accepted, never more
  than 128 messages short, and every message not yet delivered is still held by the receiver or
  queued by the sender, to be sent until acknowledged. */
  lemma NothingLost(aRole: Role, bRole: Role, aAddr: nat, bAddr: nat, kinds: Kinds, aCfg: Config, bCfg: Config,
                    aClock: nat, bClock: nat, ws: seq<World>, ss: seq<Step>)
    requires ConfigValid(aCfg) && ConfigValid(bCfg) && IsRun(ws, ss) && AlwaysExact(ws, ss) && AlwaysSpared(ws, ss)
    requires ws[0] == Start(New(aClock, aRole, aAddr, kinds, aCfg), New(bClock, bRole, bAddr, kinds, bCfg), aClock,
                            bClock)
    ensures forall n | 0 <= n < |ws| :: AllAccounted(ws[n], kinds)
  {
    hide Whole, Stepped, Allowed, ReadExactly, Spared, Accounted;
    StartWhole(aRole, bRole, aAddr, bAddr, kinds, aCfg, bCfg, aClock, bClock);
    forall n, ch | 0 <= n < |ws| && 0 <= ch < |kinds| && kinds[ch].ReliableOrdered?
      ensures C.Sized(ws[n].b.channels) && ws[n].delivered[ch] <= ws[n].accepted[ch]
      ensures |ws[n].accepted[ch]| <= |ws[n].delivered[ch]| + C.MAX_PENDING + C.MAX_HELD
      ensures forall id: nat | id < |ws[n].accepted[ch]| :: Accounted(ws[n], ch, id)
    {
      RunWhole(ws, ss, n);
      RunKinds(ws, ss, n);
      WholeAccounts(ws[n], ch);
    }
  }

  // ----- Runs without a stale message -----

  ghost predicate AlwaysTimely(ws: seq<World>, ss: seq<Step>)
    requires IsRun(ws, ss)
  {
    forall k | 0 <= k < |ss| :: Timely(ws[k], ss[k])
  }

  /** So far read exactly, the world is whole, and the next step reads exactly when timely. */
  lemma {:induction false} RunTimely(ws: seq<World>, ss: seq<Step>, n: nat)
    requires IsRun(ws, ss) && n <= |ss| && Whole(ws[0]) && AlwaysTimely(ws, ss) && AlwaysSpared(ws, ss)
    ensures Whole(ws[n])
    ensures forall k | 0 <= k < n :: ReadExactly(ws[k], ss[k])
    decreases n
  {
    hide Whole, Stepped, Runnable, Allowed, Spared, ReadExactly, Timely;
    if n > 0 {
      RunTimely(ws, ss, n - 1);
      ReadExactlyIff(ws[n - 1], ss[n - 1]);
      StepWhole(ws[n - 1], ss[n - 1]);
    }
  }

  /** Over a run that spares the receiver, ids are read exactly exactly when no packet is stale. */
  lemma ExactIffTimely(ws: seq<World>, ss: seq<Step>)
    requires IsRun(ws, ss) && Whole(ws[0]) && AlwaysSpared(ws, ss)
    ensures AlwaysExact(ws, ss) <==> AlwaysTimely(ws, ss)
  {
    hide Whole, Stepped, Allowed, Spared, ReadExactly, Timely;
    if AlwaysExact(ws, ss) {
      forall k | 0 <= k < |ss|
        ensures Timely(ws[k], ss[k])
      {
        RunWhole(ws, ss, k);
        ReadExactlyIff(ws[k], ss[k]);
      }
    } else if AlwaysTimely(ws, ss) {
      RunTimely(ws, ss, |ss|);
    }
  }

  /** The same with exact reading discharged: over every run of two fresh connections in which no
  opened packet repeats a message delivered more than half a wire range ago, the receiver drops
  nothing and acknowledgements are fresh, no id is misread and every message is accounted for. */
  lemma TimelyLosesNothing(aRole: Role, bRole: Role, aAddr: nat, bAddr: nat, kinds: Kinds, aCfg: Config, bCfg: Config,
                           aClock: nat, bClock: nat, ws: seq<World>, ss: seq<Step>)
    requires ConfigValid(aCfg) && ConfigValid(bCfg) && IsRun(ws, ss) && AlwaysTimely(ws, ss) && AlwaysSpared(ws, ss)
    requires ws[0] == Start(New(aClock, aRole, aAddr, kinds, aCfg), New(bClock, bRole, bAddr, kinds, bCfg), aClock,
                            bClock)
    ensures AlwaysExact(ws, ss)
    ensures forall n | 0 <= n < |ws| :: AllAccounted(ws[n], kinds)
  {
    hide Whole, Stepped, Allowed, ReadExactly, Spared, AllAccounted, Timely;
    StartWhole(aRole, bRole, aAddr, bAddr, kinds, aCfg, bCfg, aClock, bClock);
    ExactIffTimely(ws, ss);
    NothingLost(aRole, bRole, aAddr, bAddr, kinds, aCfg, bCfg, aClock, bClock, ws, ss);
  }
}
