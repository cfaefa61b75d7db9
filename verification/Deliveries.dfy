/** What the application is handed over any run of arriving message frames, whatever their order,
repetition and interleaving of channels. The account here keeps only what was delivered: it has
no filter, no mask and no counters, and the receive side agrees with it frame by frame. */
module Deliveries {
  import opened Machine
  import opened Sequences
  import opened BitStream
  import opened Frames
  import C = Channels
  import O = OrderedDelivery
  import P = PacketReading
  import U = UnorderedFilter

  /** A message frame as it arrives. */
  datatype Incoming = Incoming(channel: nat, wire: nat, payload: Bytes)

  /** A message delivered, with the id it was taken for; an unreliable one has none, and 0 stands for
  that. */
  datatype Handed = Handed(id: nat, payload: Bytes)

  predicate Fits(kinds: Kinds, m: Incoming) { m.channel < |kinds| && m.wire < WIRE }

  predicate AllFit(kinds: Kinds, arrivals: seq<Incoming>) {
    forall i | 0 <= i < |arrivals| :: Fits(kinds, arrivals[i])
  }

  // ----- The account -----

  /** The greatest id delivered. */
  function Newest(h: seq<Handed>): (n: nat)
    ensures forall i | 0 <= i < |h| :: h[i].id <= n
    ensures h != [] ==> exists i :: 0 <= i < |h| && h[i].id == n
  {
    if h == [] then 0
    else
      var k := |h| - 1;
      var n := Newest(h[..k]);
      if h[k].id >= n then h[k].id else n
  }

  predicate Delivered(h: seq<Handed>, id: nat) { exists i :: 0 <= i < |h| && h[i].id == id }

  /** The id sixteen wire bits stand for is the one near the newest delivered, if there is one. */
  function Taken(kind: Kind, h: seq<Handed>, wire: nat): Option<nat>
    requires wire < WIRE
  {
    if kind.Unreliable? then Some(0) else C.FromWire(Newest(h), wire)
  }

  /** Whether a message is handed on, by the kind of its channel: always; when it is newer than all
  before it; when it was not delivered and is no more than 63 behind the newest. */
  predicate Wanted(kind: Kind, h: seq<Handed>, id: nat) {
    match kind
    case UnreliableSequenced => h == [] || id > Newest(h)
    case ReliableUnordered => !Delivered(h, id) && (h == [] || Newest(h) < id + 64)
    case _ => true
  }

  function More(kind: Kind, h: seq<Handed>, m: Incoming): seq<Handed>
    requires m.wire < WIRE
  {
    var id := Taken(kind, h, m.wire);
    if id.Some? && Wanted(kind, h, id.value) then h + [Handed(id.value, m.payload)] else h
  }

  /** All that a channel has delivered. */
  function History(kinds: Kinds, arrivals: seq<Incoming>, channel: nat): seq<Handed>
    requires AllFit(kinds, arrivals) && channel < |kinds|
  {
    if arrivals == [] then []
    else
      var n := |arrivals| - 1;
      var h := History(kinds, arrivals[..n], channel);
      if arrivals[n].channel == channel then More(kinds[channel], h, arrivals[n]) else h
  }

  // ----- The receive side -----

  datatype Run = Run(channels: C.Channels, log: seq<C.Delivery>)

  /** The frames received one by one, from a fresh start. */
  function Reading(kinds: Kinds, arrivals: seq<Incoming>): (run: Run)
    requires AllFit(kinds, arrivals)
    ensures C.Sized(run.channels) && run.channels.kinds == kinds
  {
    if arrivals == [] then Run(C.New(kinds), [])
    else
      var n := |arrivals| - 1;
      var run := Reading(kinds, arrivals[..n]);
      var m := arrivals[n];
      P.ReceiveShape(run.channels, m.channel, m.wire, m.payload);
      var r := C.Receive(run.channels, m.channel, m.wire, m.payload);
      Run(r.channels, run.log + r.delivered)
  }

  ghost function Successors(h: seq<Handed>): set<nat> { set i | 0 <= i < |h| :: h[i].id + 1 }

  /** The receive state of a channel stands for what it delivered. */
  ghost predicate Tracks(r: C.Receiver, kind: Kind, h: seq<Handed>) {
    && Newest(h) < U32
    && match kind
       case UnreliableSequenced => r.newest == Newest(h) && (r.hasNewest <==> h != [])
       case ReliableUnordered =>
         && r.seenNewest == Newest(h) && (r.seenStarted <==> h != [])
         && U.WindowOf(r).Refines(Successors(h))
       case _ => true
  }

  lemma NewestMore(h: seq<Handed>, x: Handed)
    ensures Newest(h + [x]) == if x.id >= Newest(h) then x.id else Newest(h)
  {
    assert (h + [x])[..|h|] == h;
  }

  lemma SuccessorsMore(h: seq<Handed>, x: Handed)
    ensures Successors(h + [x]) == Successors(h) + {x.id + 1}
    ensures forall id: nat :: id + 1 in Successors(h) <==> Delivered(h, id)
  {
    forall s | s in Successors(h)
      ensures s in Successors(h + [x])
    {
      var i :| 0 <= i < |h| && h[i].id + 1 == s;
      assert (h + [x])[i] == h[i];
    }
    assert (h + [x])[|h|] == x;
  }

  lemma TakenNear(kind: Kind, h: seq<Handed>, wire: nat)
    requires wire < WIRE && Newest(h) < U32 && kind.NeedsId() && Taken(kind, h, wire).Some?
    ensures var id := Taken(kind, h, wire).value;
            id < U32 && C.Distance(id, Newest(h)) == id - Newest(h)
  {
    hide Reconstruct;
    ReconstructNear(Newest(h), wire);
  }

  /** The duplicate filter passes a message exactly when the account wants it. */
  lemma UnorderedTracks(r: C.Receiver, h: seq<Handed>, x: Handed)
    requires Tracks(r, ReliableUnordered, h) && x.id < U32 && C.Distance(x.id, Newest(h)) == x.id - Newest(h)
    ensures var f := C.AcceptUnordered(r, x.id);
            && (f.isNew <==> Wanted(ReliableUnordered, h, x.id))
            && Tracks(f.receiver, ReliableUnordered, if f.isNew then h + [x] else h)
  {
    hide C.Distance, Window.Check, Window.Inserted, Window.Refines, Successors, Newest, Delivered;
    U.FilterIsWindow(r, x.id);
    CheckExact(U.WindowOf(r), Successors(h), x.id + 1);
    InsertRefines(U.WindowOf(r), Successors(h), x.id + 1);
    SuccessorsMore(h, x);
    NewestMore(h, x);
  }

  /** One frame: what is delivered, whether it is accepted at all, and the state afterwards. */
  lemma ReceiveTracks(c: C.Channels, h: seq<Handed>, m: Incoming)
    requires C.Sized(c) && Fits(c.kinds, m) && !c.kinds[m.channel].ReliableOrdered?
    requires Tracks(c.receivers[m.channel], c.kinds[m.channel], h)
    ensures var r := C.Receive(c, m.channel, m.wire, m.payload);
            var kind := c.kinds[m.channel];
            var id := Taken(kind, h, m.wire);
            && (r.ok <==> id.Some?)
            && r.delivered == (if id.Some? && Wanted(kind, h, id.value) then [C.Delivery(m.channel, m.payload)] else [])
            && C.Sized(r.channels) && Tracks(r.channels.receivers[m.channel], kind, More(kind, h, m))
  {
    hide C.Distance, C.FromWire, C.AcceptUnordered, U.WindowOf, Window.Refines, Newest, Delivered;
    var kind, r := c.kinds[m.channel], c.receivers[m.channel];
    var id := Taken(kind, h, m.wire);
    if kind.NeedsId() && id.Some? {
      TakenNear(kind, h, m.wire);
      NewestMore(h, Handed(id.value, m.payload));
      if kind.ReliableUnordered? {
        UnorderedTracks(r, h, Handed(id.value, m.payload));
      }
    } else if kind.Unreliable? {
      NewestMore(h, Handed(0, m.payload));
    }
  }

  function Payloads(h: seq<Handed>): seq<Bytes> { seq(|h|, i requires 0 <= i < |h| => h[i].payload) }

  /** Over every run, every channel but an ordered one delivers exactly what the account says, in that
  order, and its receive state stands for it. */
  lemma {:induction false} DeliversExactly(kinds: Kinds, arrivals: seq<Incoming>, channel: nat)
    requires AllFit(kinds, arrivals) && channel < |kinds| && !kinds[channel].ReliableOrdered?
    ensures var run := Reading(kinds, arrivals);
            var h := History(kinds, arrivals, channel);
            && O.On(run.log, channel) == Payloads(h)
            && Tracks(run.channels.receivers[channel], kinds[channel], h)
  {
    hide Tracks, C.Receive, O.On, Taken, Wanted;
    if arrivals == [] {
      FreshTracks(kinds, channel);
    } else {
      var n := |arrivals| - 1;
      var m := arrivals[n];
      DeliversExactly(kinds, arrivals[..n], channel);
      var run, h := Reading(kinds, arrivals[..n]), History(kinds, arrivals[..n], channel);
      var r := C.Receive(run.channels, m.channel, m.wire, m.payload);
      O.OnAppend(run.log, r.delivered, channel);
      if m.channel == channel {
        ReceiveTracks(run.channels, h, m);
        OnOne(channel, m.payload);
      } else {
        P.ReceiveElsewhere(run.channels, m.channel, m.wire, m.payload, channel);
      }
    }
  }

  lemma FreshTracks(kinds: Kinds, channel: nat)
    requires channel < |kinds|
    ensures Tracks(C.New(kinds).receivers[channel], kinds[channel], []) && O.On([], channel) == []
  {
    U.FreshWindow();
  }

  lemma OnOne(channel: nat, payload: Bytes)
    ensures O.On([C.Delivery(channel, payload)], channel) == [payload] && O.On([], channel) == []
  {
  }

  // ----- What that comes to, kind by kind -----

  /** The next frame after any run: refused exactly when no id near the newest has its wire bits, and
  otherwise delivered exactly when it is wanted. */
  lemma NextExactly(kinds: Kinds, arrivals: seq<Incoming>, m: Incoming)
    requires AllFit(kinds, arrivals) && Fits(kinds, m) && !kinds[m.channel].ReliableOrdered?
    ensures var kind, h := kinds[m.channel], History(kinds, arrivals, m.channel);
            var r := C.Receive(Reading(kinds, arrivals).channels, m.channel, m.wire, m.payload);
            var id := Taken(kind, h, m.wire);
            && (r.ok <==> id.Some?)
            && r.delivered == (if id.Some? && Wanted(kind, h, id.value) then [C.Delivery(m.channel, m.payload)] else [])
  {
    hide Tracks, C.Receive, Taken, Wanted;
    DeliversExactly(kinds, arrivals, m.channel);
    ReceiveTracks(Reading(kinds, arrivals).channels, History(kinds, arrivals, m.channel), m);
  }

  /** An id is taken for the one with those bits that lies from 32,768 behind the newest to 32,767
  ahead. */
  lemma TakenExactly(kind: Kind, h: seq<Handed>, wire: nat, id: nat)
    requires kind.NeedsId() && wire < WIRE && Newest(h) < U32
    ensures Taken(kind, h, wire) == Some(id)
            <==> id < U32 && id % WIRE == wire && -0x8000 <= id - Newest(h) < 0x8000
  {
    hide Reconstruct;
    ReconstructNear(Newest(h), wire);
    if id < U32 {
      C.WireIdExact(Newest(h), id);
    }
  }

  function Arrived(arrivals: seq<Incoming>, channel: nat): seq<Bytes> {
    if arrivals == [] then []
    else
      var n := |arrivals| - 1;
      Arrived(arrivals[..n], channel) + if arrivals[n].channel == channel then [arrivals[n].payload] else []
  }

  /** An unreliable channel delivers every payload that arrives, as often as it arrives. */
  lemma {:induction false} UnreliableAll(kinds: Kinds, arrivals: seq<Incoming>, channel: nat)
    requires AllFit(kinds, arrivals) && channel < |kinds| && kinds[channel].Unreliable?
    ensures O.On(Reading(kinds, arrivals).log, channel) == Arrived(arrivals, channel)
  {
    hide Reading, O.On, Newest;
    DeliversExactly(kinds, arrivals, channel);
    if arrivals != [] {
      UnreliableAll(kinds, arrivals[..|arrivals| - 1], channel);
      DeliversExactly(kinds, arrivals[..|arrivals| - 1], channel);
    }
  }

  predicate Rising(h: seq<Handed>) { forall i, j | 0 <= i < j < |h| :: h[i].id < h[j].id }

  predicate Distinct(h: seq<Handed>) { forall i, j | 0 <= i < j < |h| :: h[i].id != h[j].id }

  lemma MoreOrdered(kind: Kind, h: seq<Handed>, m: Incoming)
    requires m.wire < WIRE
    ensures kind.UnreliableSequenced? && Rising(h) ==> Rising(More(kind, h, m))
    ensures kind.ReliableUnordered? && Distinct(h) ==> Distinct(More(kind, h, m))
  {
    var id := Taken(kind, h, m.wire);
    if id.Some? && Wanted(kind, h, id.value) {
      var h' := h + [Handed(id.value, m.payload)];
      forall i, j | 0 <= i < j < |h'|
        ensures kind.UnreliableSequenced? && Rising(h) ==> h'[i].id < h'[j].id
        ensures kind.ReliableUnordered? && Distinct(h) ==> h'[i].id != h'[j].id
      {
        assert h'[i] == h[i];
      }
    }
  }

  /** A sequenced channel delivers ids that only go up, and an unordered one delivers none twice. */
  lemma {:induction false} InOrderOnce(kinds: Kinds, arrivals: seq<Incoming>, channel: nat)
    requires AllFit(kinds, arrivals) && channel < |kinds|
    ensures var h := History(kinds, arrivals, channel);
            && (kinds[channel].UnreliableSequenced? ==> Rising(h))
            && (kinds[channel].ReliableUnordered? ==> Distinct(h))
  {
    hide More;
    if arrivals != [] {
      var n := |arrivals| - 1;
      InOrderOnce(kinds, arrivals[..n], channel);
      MoreOrdered(kinds[channel], History(kinds, arrivals[..n], channel), arrivals[n]);
    }
  }

  /** Nothing delivered is forgotten by the account. */
  lemma {:induction false} HistoryGrows(kinds: Kinds, arrivals: seq<Incoming>, k: nat, channel: nat)
    requires AllFit(kinds, arrivals) && channel < |kinds| && k <= |arrivals|
    ensures History(kinds, arrivals[..k], channel) <= History(kinds, arrivals, channel)
    decreases |arrivals|
  {
    hide Taken, Wanted;
    var n := |arrivals| - 1;
    if k == |arrivals| {
      assert arrivals[..k] == arrivals;
    } else {
      assert arrivals[..n][..k] == arrivals[..k];
      HistoryGrows(kinds, arrivals[..n], k, channel);
    }
  }

  lemma DeliveredStays(h: seq<Handed>, h': seq<Handed>, id: nat)
    requires h <= h' && Delivered(h, id)
    ensures Delivered(h', id)
  {
    var i :| 0 <= i < |h| && h[i].id == id;
    assert h'[i] == h[i];
  }

  lemma WantedDelivered(kind: Kind, h: seq<Handed>, m: Incoming)
    requires m.wire < WIRE && Taken(kind, h, m.wire).Some?
    ensures var id := Taken(kind, h, m.wire).value; Wanted(kind, h, id) ==> Delivered(More(kind, h, m), id)
  {
    var id := Taken(kind, h, m.wire).value;
    if Wanted(kind, h, id) {
      assert More(kind, h, m)[|h|].id == id;
    }
  }

  /** Every arrival on an unordered channel is delivered, by it or before it, unless an id 64 or more
  newer came first; on a sequenced channel, unless one as new was delivered before. */
  lemma NoneMissed(kinds: Kinds, arrivals: seq<Incoming>, k: nat)
    requires AllFit(kinds, arrivals) && k < |arrivals|
    ensures var m := arrivals[k];
            var kind, before := kinds[m.channel], History(kinds, arrivals[..k], m.channel);
            var id := Taken(kind, before, m.wire);
            var h := History(kinds, arrivals, m.channel);
            id.Some? ==>
              && (kind.ReliableUnordered? ==> Delivered(h, id.value) || Newest(before) >= id.value + 64)
              && (kind.UnreliableSequenced? ==> Delivered(h, id.value) || Newest(before) >= id.value)
  {
    hide Taken, Delivered, More;
    var m := arrivals[k];
    var before := History(kinds, arrivals[..k], m.channel);
    var after, h := History(kinds, arrivals[..k + 1], m.channel), History(kinds, arrivals, m.channel);
    assert arrivals[..k + 1][..k] == arrivals[..k];
    var id := Taken(kinds[m.channel], before, m.wire);
    if id.Some? {
      WantedDelivered(kinds[m.channel], before, m);
      if Delivered(after, id.value) {
        HistoryGrows(kinds, arrivals, k + 1, m.channel);
        DeliveredStays(after, h, id.value);
      } else if Delivered(before, id.value) {
        HistoryGrows(kinds, arrivals, k, m.channel);
        DeliveredStays(before, h, id.value);
      }
    }
  }
}
