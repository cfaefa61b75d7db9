/** Exact reading for free: while the sender lets no ordered message fall too far behind its
newest, no id in an opened packet is ever misread, so nothing is lost. */
module SpreadRuns {
  import opened Machine
  import opened Frames
  import opened Connection
  import opened PacketReading
  import opened OrderedDelivery
  import opened TwoParty
  import opened TwoPartyRuns
  import opened Complete
  import opened CompleteRuns
  import opened Spread
  import L = Ledger
  import B = Budget
  import C = Channels
  import A = Arena
  import Q = SendQueue
  import I = ConnectionInvariant
  import T = Transmit
  import F = QueueFlow

  /** The sender transmits only while every queued ordered message is within the spread. */
  ghost predicate Careful(w: World, s: Step)
    requires Runnable(w, s)
  {
    Spared(w, s) && (s.TransmitA? ==> SpreadOk(w.a.channels))
  }

  // ----- The log of packets -----

  /** What a draft stages was queued, so it is no further behind than the queue is. */
  lemma StagedAged(c: Conn, clock: nat, now: nat)
    requires I.Valid(c, clock) && Transmittable(c) && SpreadOk(c.channels)
    ensures forall m | m in Drafted(c, now).staging.staged ::
              && m.channel < |c.channels.kinds| && m.id < c.channels.nextIds[m.channel]
              && (OnOrdered(c.channels.kinds, m) ==> c.channels.nextIds[m.channel] <= m.id + SPREAD)
  {
    hide L.Valid, I.NoneStranded, B.Consistent, Drafted, QueueFor, C.AllSendable, Q.Ordered, ControlValid, Frames.Body;
    DraftStaged(c, now);
    I.QueueForSame(c);
    F.SameFlows(c.channels.kinds, c.channels.pending, QueueFor(c));
    var staged := Drafted(c, now).staging.staged;
    forall m | m in staged
      ensures m.channel < |c.channels.kinds| && m.id < c.channels.nextIds[m.channel]
      ensures OnOrdered(c.channels.kinds, m) ==> c.channels.nextIds[m.channel] <= m.id + SPREAD
    {
      var k :| 0 <= k < |staged| && staged[k] == m;
      assert m in QueueFor(c);
      var p := if m in c.channels.pending then m else m.(inFlight := !m.inFlight);
      assert p in c.channels.pending && p.channel == m.channel && p.id == m.id;
    }
  }

  lemma LogGrows(kinds: Kinds, sent: seq<Sent>, e: Sent, nextIds: seq<nat>)
    requires |nextIds| == MAX_CHANNELS && LogAged(kinds, sent) && IdsGrow(sent, nextIds)
    requires EntryAged(kinds, e) && e.nextIds == nextIds
    ensures LogAged(kinds, sent + [e]) && IdsGrow(sent + [e], nextIds)
  {
    hide EntryAged;
  }

  lemma BroughtMore(c: C.Channels, sent: seq<Sent>, e: Sent, unsealed: set<nat>)
    requires C.Sized(c) && AllBrought(c, sent, unsealed)
    ensures AllBrought(c, sent + [e], unsealed)
  {
    hide Has, Among;
    forall ch: nat, id: nat | OrderedChannel(c.kinds, ch) && Has(c, ch, id)
      ensures Brought(sent + [e], unsealed, ch, id)
    {
      assert Brought(sent, unsealed, ch, id);
      var q: nat :| q in unsealed && 1 <= q <= |sent| && Among(sent[q - 1].staged, ch, id);
      assert (sent + [e])[q - 1] == sent[q - 1];
    }
  }

  lemma BroughtHere(c: C.Channels, d: C.Channels, sent: seq<Sent>, unsealed: set<nat>, i: nat)
    requires C.Sized(c) && C.Sized(d) && d.kinds == c.kinds && AllBrought(c, sent, unsealed)
    requires i < |sent| && Gained(c, d, sent[i].staged)
    ensures AllBrought(d, sent, unsealed + {i + 1})
  {
    hide Has, Among;
    forall ch: nat, id: nat | OrderedChannel(d.kinds, ch) && Has(d, ch, id)
      ensures Brought(sent, unsealed + {i + 1}, ch, id)
    {
      if Has(c, ch, id) {
        assert Brought(sent, unsealed, ch, id);
        var q: nat :| q in unsealed && 1 <= q <= |sent| && Among(sent[q - 1].staged, ch, id);
        assert q in unsealed + {i + 1};
      } else {
        assert i + 1 in unsealed + {i + 1} && Among(sent[i + 1 - 1].staged, ch, id);
      }
    }
  }

  // ----- Steps -----

  /** Steps that change neither the log nor what `b` has. */
  lemma NearFrom(w: World, v: World)
    requires Near(w) && Whole(v) && v.sent == w.sent && v.kinds == w.kinds && v.unsealed == w.unsealed
    requires IdsGrow(w.sent, v.a.channels.nextIds)
    requires v.b.channels == w.b.channels.(pending := v.b.channels.pending, nextIds := v.b.channels.nextIds)
    ensures Near(v)
  {
    hide Inv, LogAged, IdsGrow, Has, Brought, NoneLost, ReadKept;
    HasSameAll(w.b.channels, v.b.channels);
  }

  lemma QuietNear(w: World, s: Step)
    requires Near(w) && Runnable(w, s) && Allowed(w, s) && !s.Arrive? && !s.TransmitA?
    requires Whole(Stepped(w, s))
    ensures Near(Stepped(w, s))
  {
    hide Inv, LogAged, NoneLost, ReadKept, AllBrought, Transmittable, B.Consistent, PollTransmit, HandleTimeout,
         F.From, F.Retains, C.PendingBlocks, A.BlocksFor, Drafted, I.Valid, HandleDatagram, F.AckNames, F.AckFlow;
    var v := Stepped(w, s);
    InvValid(w);
    if s.TransmitB? {
      PollParts(w.b, w.bClock, s.now);
    } else if s.ExpireB? {
      F.TimeoutFlows(w.b, w.bClock, s.now);
    } else if s.ExpireA? {
      F.TimeoutFlows(w.a, w.aClock, s.now);
    } else if s.Return? {
      F.HandleDatagramFlows(w.a, w.aClock, s.now, s.from, Datagram(s.header, w.replies[s.j].packet), s.token);
    }
    NearFrom(w, v);
  }

  lemma TransmitNear(w: World, now: nat)
    requires Near(w) && Runnable(w, TransmitA(now)) && Allowed(w, TransmitA(now)) && SpreadOk(w.a.channels)
    requires Whole(Stepped(w, TransmitA(now)))
    ensures Near(Stepped(w, TransmitA(now)))
  {
    hide Inv, LogAged, IdsGrow, NoneLost, ReadKept, AllBrought, B.Consistent, PollTransmit, F.Retains, Drafted, I.Valid,
         ASide, B.Assess, Transmittable;
    var v := Stepped(w, TransmitA(now));
    InvValid(w);
    InvASide(w);
    SendTransmits(w.a, w.aClock, w.sent, w.accepted, now);
    if PollTransmit(w.a, now).packet.Some? {
      T.AssessedValid(w.a, w.aClock, now);
      var c := Assessed(w.a, now);
      ValidSized(c, now);
      StagedAged(c, now, now);
      var e := v.sent[|w.sent|];
      assert v.sent == w.sent + [e];
      LogGrows(w.kinds, w.sent, e, w.a.channels.nextIds);
      BroughtMore(w.b.channels, w.sent, e, w.unsealed);
    }
  }

  lemma ArriveNear(w: World, i: nat, header: Header, now: nat, from: nat, token: nat)
    requires var s := Arrive(i, header, now, from, token);
             Near(w) && Runnable(w, s) && Allowed(w, s) && Whole(Stepped(w, s))
    ensures Near(Stepped(w, Arrive(i, header, now, from, token)))
  {
    hide Inv, LogAged, IdsGrow, NoneLost, ReadKept, AllBrought, HandleDatagram, OpensAtB, AllKept, HasAll, Gained,
         Extended, ReadExactly, WindowsOk, AllInOrder;
    var s := Arrive(i, header, now, from, token);
    NearExact(w, s);
    var v := Stepped(w, s);
    InvValid(w);
    InvValid(v);
    if OpensAtB(w, i, header) {
      OpenedGains(w, i, header, now, from, token);
      BroughtHere(w.b.channels, v.b.channels, w.sent, w.unsealed, i);
    } else {
      NotOpened(w, i, header, now, from, token);
      NearFrom(w, v);
    }
  }

  lemma StepNear(w: World, s: Step)
    requires Near(w) && Runnable(w, s) && Allowed(w, s) && Careful(w, s)
    ensures Near(Stepped(w, s))
  {
    hide Near, Whole, Stepped, Transmittable, B.Consistent, SpreadOk, ReadExactly;
    NearExact(w, s);
    NearWhole(w);
    StepWhole(w, s);
    match s
    case TransmitA(now) => TransmitNear(w, now);
    case Arrive(i, header, now, from, token) => ArriveNear(w, i, header, now, from, token);
    case _ => QuietNear(w, s);
  }

  lemma NearExact(w: World, s: Step)
    requires Near(w)
    ensures C.Sized(w.b.channels) && ReadExactly(w, s)
  {
    hide Inv, LogAged, IdsGrow, AllBrought, NoneLost, ReadKept, Timely;
    NearTimely(w, s);
    ReadExactlyIff(w, s);
  }

  lemma NearWhole(w: World)
    requires Near(w)
    ensures Whole(w)
  {
  }

  // ----- Runs -----

  ghost predicate AlwaysCareful(ws: seq<World>, ss: seq<Step>)
    requires IsRun(ws, ss)
  {
    forall k | 0 <= k < |ss| :: Careful(ws[k], ss[k])
  }

  lemma {:induction false} RunNear(ws: seq<World>, ss: seq<Step>, n: nat)
    requires IsRun(ws, ss) && n <= |ss| && Near(ws[0]) && AlwaysCareful(ws, ss)
    ensures Near(ws[n])
    decreases n
  {
    hide Near, Stepped, Runnable, Allowed, Careful;
    if n > 0 {
      RunNear(ws, ss, n - 1);
      StepNear(ws[n - 1], ss[n - 1]);
    }
  }

  lemma StartNear(aRole: Role, bRole: Role, aAddr: nat, bAddr: nat, kinds: Kinds, aCfg: Config, bCfg: Config,
                  aClock: nat, bClock: nat)
    requires ConfigValid(aCfg) && ConfigValid(bCfg)
    ensures Near(Start(New(aClock, aRole, aAddr, kinds, aCfg), New(bClock, bRole, bAddr, kinds, bCfg), aClock, bClock))
  {
    hide Inv;
    StartWhole(aRole, bRole, aAddr, bAddr, kinds, aCfg, bCfg, aClock, bClock);
  }

  /** Over every run in which the sender keeps its queue within the spread, nothing is dropped and
  acknowledgements are fresh: no opened packet's ordered id is ever misread, and every accepted
  message is accounted for. */
  lemma SpreadLosesNothing(aRole: Role, bRole: Role, aAddr: nat, bAddr: nat, kinds: Kinds, aCfg: Config, bCfg: Config,
                           aClock: nat, bClock: nat, ws: seq<World>, ss: seq<Step>)
    requires ConfigValid(aCfg) && ConfigValid(bCfg) && IsRun(ws, ss) && AlwaysCareful(ws, ss)
    requires ws[0] == Start(New(aClock, aRole, aAddr, kinds, aCfg), New(bClock, bRole, bAddr, kinds, bCfg), aClock,
                            bClock)
    ensures AlwaysExact(ws, ss)
    ensures forall n | 0 <= n < |ws| :: AllAccounted(ws[n], kinds)
  {
    hide Near, Stepped, Allowed, Timely, Spared, AllAccounted, SpreadOk;
    StartNear(aRole, bRole, aAddr, bAddr, kinds, aCfg, bCfg, aClock, bClock);
    forall n | 0 <= n < |ss|
      ensures Timely(ws[n], ss[n])
    {
      RunNear(ws, ss, n);
      NearExact(ws[n], ss[n]);
      NearTimely(ws[n], ss[n]);
    }
    assert forall n | 0 <= n < |ss| :: Careful(ws[n], ss[n]) ==> Spared(ws[n], ss[n]);
    TimelyLosesNothing(aRole, bRole, aAddr, bAddr, kinds, aCfg, bCfg, aClock, bClock, ws, ss);
  }
}
