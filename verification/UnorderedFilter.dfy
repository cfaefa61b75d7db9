/** The duplicate filter of an unordered channel, from the sixteen wire bits on. It is the
packet layer's receive window over again, so over any run it lets each id through at most once,
and refuses one it has not seen only when 64 newer ones came first. */
module UnorderedFilter {
  import opened Machine
  import opened Sequences
  import opened Frames
  import C = Channels

  /** The window the filter's fields stand for; sequences start at 1, ids at 0. */
  function WindowOf(r: C.Receiver): Window {
    if r.seenStarted then Window(r.seenNewest + 1, r.seenMask) else EmptyWindow()
  }

  type Wires = w: seq<nat> | forall i | 0 <= i < |w| :: w[i] < WIRE

  /** The id that arriving wire bits are taken for. */
  function Resolved(r: C.Receiver, wire: nat): Option<nat>
    requires wire < WIRE
  {
    C.FromWire(C.Reference(r, ReliableUnordered), wire)
  }

  lemma ResolvedNear(r: C.Receiver, wire: nat)
    requires wire < WIRE && r.seenNewest < U32
    ensures var id := Resolved(r, wire);
            id.Some? ==> id.value < U32 && C.Distance(id.value, r.seenNewest) == id.value - r.seenNewest
  {
    hide Reconstruct;
    ReconstructNear(r.seenNewest, wire);
  }

  /** One arrival, through the filter and through the window. */
  lemma FilterIsWindow(r: C.Receiver, id: nat)
    requires r.seenStarted ==> C.Distance(id, r.seenNewest) == id - r.seenNewest
    ensures var f := C.AcceptUnordered(r, id);
            && (f.isNew <==> WindowOf(r).Check(id + 1) == Fresh)
            && WindowOf(f.receiver) == (if f.isNew then WindowOf(r).Inserted(id + 1) else WindowOf(r))
            && (f.receiver.seenNewest == r.seenNewest || f.receiver.seenNewest == id)
  {
    hide C.Distance;
    if !r.seenStarted {
      assert NoBits()[0 := true] == Shifted(NoBits(), id + 1)[0 := true];
    }
  }

  /** `offered` is what the arrivals were taken for, `delivered` what was let through. */
  datatype Run = Run(receiver: C.Receiver, offered: seq<nat>, delivered: seq<nat>)

  /** The run when `wires` arrive in this order at a fresh channel. */
  function Delivered(wires: Wires): Run {
    if wires == [] then Run(C.NewReceiver(), [], [])
    else
      var n := |wires| - 1;
      var run := Delivered(wires[..n]);
      var id := Resolved(run.receiver, wires[n]);
      if id.None? then run
      else
        var f := C.AcceptUnordered(run.receiver, id.value);
        Run(f.receiver, run.offered + [id.value], if f.isNew then run.delivered + [id.value] else run.delivered)
  }

  function Up(ids: seq<nat>): seq<nat> { seq(|ids|, i requires 0 <= i < |ids| => ids[i] + 1) }

  lemma UpMore(ids: seq<nat>, id: nat)
    ensures Up(ids + [id]) == Up(ids) + [id + 1] && Up(ids + [id])[..|ids|] == Up(ids)
  {
  }

  lemma UpHas(ids: seq<nat>, id: nat)
    ensures id in ids <==> id + 1 in Up(ids)
  {
    if id in ids {
      var i :| 0 <= i < |ids| && ids[i] == id;
      assert Up(ids)[i] == id + 1;
    }
    if id + 1 in Up(ids) {
      var i :| 0 <= i < |ids| && Up(ids)[i] == id + 1;
    }
  }

  /** One arrival more, whatever it is taken for. */
  lemma DeliveredLast(wires: Wires)
    requires wires != []
    ensures var n := |wires| - 1;
            var run := Delivered(wires[..n]);
            var id := Resolved(run.receiver, wires[n]);
            Delivered(wires)
            == if id.None? then run
               else
                 var f := C.AcceptUnordered(run.receiver, id.value);
                 Run(f.receiver, run.offered + [id.value],
                     if f.isNew then run.delivered + [id.value] else run.delivered)
  {
    hide C.AcceptUnordered, Resolved;
  }

  lemma PassedMore(offers: seq<nat>, s: nat)
    requires s >= 1
    ensures var r := Passed(offers);
            Passed(offers + [s])
            == if r.window.Check(s) == Fresh then Passage(r.window.Inserted(s), r.passed + [s]) else r
  {
    hide Window.Check, Window.Inserted;
    assert (offers + [s])[..|offers|] == offers;
  }

  /** Every run of the filter is a run of the window over the ids the arrivals were taken for. */
  lemma {:induction false} RunIsWindow(wires: Wires)
    ensures var run := Delivered(wires);
            && WindowOf(run.receiver) == Passed(Up(run.offered)).window
            && Up(run.delivered) == Passed(Up(run.offered)).passed
            && run.receiver.seenNewest < U32
  {
    hide C.AcceptUnordered, WindowOf, Window.Check, Window.Inserted, Resolved, C.Distance, Delivered, Passed, Up;
    if wires == [] {
      NothingYet();
      FreshWindow();
    } else {
      var n := |wires| - 1;
      RunIsWindow(wires[..n]);
      DeliveredLast(wires);
      var run := Delivered(wires[..n]);
      var id := Resolved(run.receiver, wires[n]);
      if id.Some? {
        ResolvedNear(run.receiver, wires[n]);
        FilterIsWindow(run.receiver, id.value);
        UpMore(run.offered, id.value);
        UpMore(run.delivered, id.value);
        PassedMore(Up(run.offered), id.value + 1);
      }
    }
  }

  lemma NothingYet()
    ensures Delivered([]) == Run(C.NewReceiver(), [], []) && Up([]) == [] && Passed([]) == Passage(EmptyWindow(), [])
  {
  }

  lemma FreshWindow()
    ensures WindowOf(C.NewReceiver()) == EmptyWindow() && C.NewReceiver().seenNewest == 0
  {
  }

  /** When the filter refuses an id, exactly: it was delivered, or 64 or more newer ones came
  first. */
  lemma RefusedExact(wires: Wires, wire: nat)
    requires wire < WIRE && Resolved(Delivered(wires).receiver, wire).Some?
    ensures var run := Delivered(wires);
            var id := Resolved(run.receiver, wire).value;
            !C.AcceptUnordered(run.receiver, id).isNew
            <==> id in run.delivered || (run.receiver.seenStarted && run.receiver.seenNewest >= id + WINDOW)
  {
    hide Delivered, Passed, C.AcceptUnordered, Resolved, Up, C.Distance;
    var run := Delivered(wires);
    var id := Resolved(run.receiver, wire).value;
    RunIsWindow(wires);
    PassedOnce(Up(run.offered));
    ResolvedNear(run.receiver, wire);
    FilterIsWindow(run.receiver, id);
    CheckExact(WindowOf(run.receiver), Elements(Up(run.delivered)), id + 1);
    UpHas(run.delivered, id);
  }

  lemma {:induction false} DeliveredGrows(wires: Wires, k: nat)
    requires k <= |wires|
    ensures Delivered(wires[..k]).delivered <= Delivered(wires).delivered
    decreases |wires|
  {
    hide C.AcceptUnordered, Resolved;
    if k == |wires| {
      assert wires[..k] == wires;
    } else {
      var n := |wires| - 1;
      assert wires[..n][..k] == wires[..k];
      DeliveredGrows(wires[..n], k);
    }
  }

  /** Over any run, whatever its order and repetition: no id is delivered twice, and an arrival
  whose id is never delivered came when the newest was already 64 or more ahead of it. */
  lemma DeliveredOnce(wires: Wires)
    ensures var d := Delivered(wires).delivered; forall i, j | 0 <= i < j < |d| :: d[i] != d[j]
    ensures forall k | 0 <= k < |wires| ::
              var before := Delivered(wires[..k]).receiver;
              var id := Resolved(before, wires[k]);
              id.Some? ==> id.value in Delivered(wires).delivered
                           || (before.seenStarted && before.seenNewest >= id.value + WINDOW)
  {
    hide Delivered, Passed, C.AcceptUnordered, Resolved;
    RunIsWindow(wires);
    PassedOnce(Up(Delivered(wires).offered));
    var d := Delivered(wires).delivered;
    forall i, j | 0 <= i < j < |d|
      ensures d[i] != d[j]
    {
      assert Up(d)[i] != Up(d)[j];
    }
    forall k | 0 <= k < |wires| && Resolved(Delivered(wires[..k]).receiver, wires[k]).Some?
      ensures var before := Delivered(wires[..k]).receiver;
              var id := Resolved(before, wires[k]).value;
              id in d || (before.seenStarted && before.seenNewest >= id + WINDOW)
    {
      RefusedExact(wires[..k], wires[k]);
      AcceptedDelivered(wires, k);
      DeliveredGrows(wires, k);
      DeliveredGrows(wires, k + 1);
    }
  }

  lemma AcceptedDelivered(wires: Wires, k: nat)
    requires k < |wires| && Resolved(Delivered(wires[..k]).receiver, wires[k]).Some?
    ensures var run := Delivered(wires[..k]);
            var id := Resolved(run.receiver, wires[k]).value;
            C.AcceptUnordered(run.receiver, id).isNew ==> id in Delivered(wires[..k + 1]).delivered
  {
    hide C.AcceptUnordered, Resolved;
    assert wires[..k + 1][..k] == wires[..k];
  }

  /** One arrival more. */
  lemma DeliveredMore(wires: Wires, wire: nat, id: nat)
    requires wire < WIRE && Resolved(Delivered(wires).receiver, wire) == Some(id)
    ensures var run := Delivered(wires);
            var f := C.AcceptUnordered(run.receiver, id);
            Delivered(wires + [wire])
            == Run(f.receiver, run.offered + [id], if f.isNew then run.delivered + [id] else run.delivered)
  {
    hide C.AcceptUnordered, Resolved;
    assert (wires + [wire])[..|wires|] == wires;
  }

  /** A message that old need not have been delivered: 5 arrives once, after 100, and is
  refused. */
  lemma OldNeedNotBeDelivered()
    ensures var run := Delivered([100, 5]); run.offered == [100, 5] && run.delivered == [100]
  {
    hide Delivered, C.FromWire, C.Distance;
    FirstArrival();
    C.WireIdExact(100, 5);
    DeliveredMore([100], 5, 5);
    assert [100] + [5] == [100, 5];
  }

  lemma FirstArrival()
    ensures var run := Delivered([100]);
            run.offered == run.delivered == [100] && run.receiver.seenStarted && run.receiver.seenNewest == 100
  {
    hide C.FromWire, C.Distance;
    C.WireIdExact(0, 100);
    DeliveredMore([], 100, 100);
    assert [] + [100] == [100];
  }
}
