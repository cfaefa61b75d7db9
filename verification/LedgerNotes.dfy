/** What the ledger's notifications say about the packets that were in flight: each names one
with its own record, and no packet leaves the flight without one. */
module LedgerNotes {
  import opened Machine
  import opened Ledger

  /** The notification is about a packet in flight and carries its record. */
  ghost predicate Sourced<P>(ring: Ring<P>, note: Note<P>)
    requires |ring| > 0
  {
    !note.what.Spurious? ==> IsInFlight(ring, note.num) && Get(ring, note.num).value.state.record == note.what.record
  }

  ghost predicate AllSourced<P>(ring: Ring<P>, notes: seq<Note<P>>)
    requires |ring| > 0
  {
    forall k | 0 <= k < |notes| :: Sourced(ring, notes[k])
  }

  /** The packet stays in flight unchanged, or a notification returns its record. */
  ghost predicate Accounted<P>(ring: Ring<P>, after: Ring<P>, notes: seq<Note<P>>, q: nat)
    requires |ring| > 0 && |after| > 0
  {
    IsInFlight(ring, q) ==>
      || Get(after, q) == Get(ring, q)
      || exists k :: 0 <= k < |notes| && notes[k].num == q && !notes[k].what.Spurious?
                     && notes[k].what.record == Get(ring, q).value.state.record
  }

  ghost predicate AllAccounted<P>(ring: Ring<P>, after: Ring<P>, notes: seq<Note<P>>)
    requires |ring| > 0 && |after| > 0
  {
    forall q: nat :: Accounted(ring, after, notes, q)
  }

  /** Nothing newly in flight. */
  ghost predicate NoNewFlight<P>(ring: Ring<P>, after: Ring<P>)
    requires |ring| > 0 && |after| > 0
  {
    forall q: nat | IsInFlight(after, q) :: Get(after, q) == Get(ring, q)
  }

  /** A packet with an outcome has left the flight. */
  ghost predicate AllLeft<P>(after: Ring<P>, notes: seq<Note<P>>)
    requires |after| > 0
  {
    forall k | 0 <= k < |notes| && !notes[k].what.Spurious? :: !IsInFlight(after, notes[k].num)
  }

  ghost predicate Reported<P>(ring: Ring<P>, after: Ring<P>, notes: seq<Note<P>>) {
    && |ring| > 0 && |after| > 0
    && AllSourced(ring, notes) && AllAccounted(ring, after, notes) && NoNewFlight(ring, after) && AllLeft(after, notes)
  }

  lemma Compose<P>(a: Ring<P>, b: Ring<P>, c: Ring<P>, first: seq<Note<P>>, second: seq<Note<P>>)
    requires Reported(a, b, first) && Reported(b, c, second)
    ensures Reported(a, c, first + second)
  {
    var notes := first + second;
    forall k | 0 <= k < |notes|
      ensures Sourced(a, notes[k])
    {
      if k < |first| {
        assert Sourced(a, first[k]);
      } else {
        assert Sourced(b, second[k - |first|]);
      }
    }
    forall q: nat
      ensures Accounted(a, c, notes, q)
    {
      assert Accounted(a, b, first, q) && Accounted(b, c, second, q);
      if IsInFlight(a, q) {
        if Get(b, q) != Get(a, q) {
          var k :| 0 <= k < |first| && first[k].num == q && !first[k].what.Spurious?
                   && first[k].what.record == Get(a, q).value.state.record;
          assert notes[k] == first[k];
        } else if Get(c, q) != Get(b, q) {
          var k :| 0 <= k < |second| && second[k].num == q && !second[k].what.Spurious?
                   && second[k].what.record == Get(b, q).value.state.record;
          assert notes[|first| + k] == second[k];
        }
      }
    }
  }

  lemma ResolveReported<P>(ring: Ring<P>, q: nat)
    requires |ring| > 0
    ensures Reported(ring, Resolve(ring, q).ring, Resolve(ring, q).notes)
  {
    var s := Resolve(ring, q);
    forall p: nat
      ensures Accounted(ring, s.ring, s.notes, p)
    {
      if IsInFlight(ring, p) && p == q {
        assert s.notes[0].num == q;
      }
    }
  }

  /** Every packet named that was in flight is reported acknowledged, with its record. */
  ghost predicate AllConfirmed<P>(ring: Ring<P>, named: seq<nat>, notes: seq<Note<P>>)
    requires |ring| > 0
  {
    forall q | q in named && IsInFlight(ring, q) ::
      exists k :: 0 <= k < |notes| && notes[k].num == q && notes[k].what == Acked(Get(ring, q).value.state.record)
  }

  lemma ConfirmedNext<P>(ring: Ring<P>, named: seq<nat>, init: Settled<P>)
    requires |ring| > 0 && named != [] && Reported(ring, init.ring, init.notes)
    requires AllConfirmed(ring, named[..|named| - 1], init.notes)
    requires forall k | 0 <= k < |init.notes| :: init.notes[k].num in named[..|named| - 1]
    ensures AllConfirmed(ring, named, init.notes + Resolve(init.ring, named[|named| - 1]).notes)
  {
    var n := |named| - 1;
    var last := Resolve(init.ring, named[n]).notes;
    var notes := init.notes + last;
    forall q | q in named && IsInFlight(ring, q)
      ensures exists k :: 0 <= k < |notes| && notes[k].num == q
                          && notes[k].what == Acked(Get(ring, q).value.state.record)
    {
      if q in named[..n] {
        var k :| 0 <= k < |init.notes| && init.notes[k].num == q
                 && init.notes[k].what == Acked(Get(ring, q).value.state.record);
        assert notes[k] == init.notes[k];
      } else {
        assert q == named[n] && Accounted(ring, init.ring, init.notes, q);
        assert Get(init.ring, q) == Get(ring, q);
        assert notes[|init.notes|] == last[0];
      }
    }
  }

  lemma {:induction false} ResolveAllReported<P>(ring: Ring<P>, named: seq<nat>)
    requires |ring| > 0
    ensures var s := ResolveAll(ring, named);
            && Reported(ring, s.ring, s.notes)
            && (forall k | 0 <= k < |s.notes| :: s.notes[k].num in named && !s.notes[k].what.Lost?)
            && AllConfirmed(ring, named, s.notes)
  {
    hide Reported;
    if named == [] {
      NothingReported(ring);
    } else {
      var n := |named| - 1;
      var init := ResolveAll(ring, named[..n]);
      ResolveAllReported(ring, named[..n]);
      ResolveReported(init.ring, named[n]);
      Compose(ring, init.ring, Resolve(init.ring, named[n]).ring, init.notes, Resolve(init.ring, named[n]).notes);
      ConfirmedNext(ring, named, init);
    }
  }

  lemma NothingReported<P>(ring: Ring<P>)
    requires |ring| > 0
    ensures Reported(ring, ring, [])
  {
  }

  lemma DeclareReported<P>(ring: Ring<P>, q: nat)
    requires |ring| > 0 && IsInFlight(ring, q)
    ensures var e := Get(ring, q).value;
            Reported(ring, ring[q % |ring| := Some(e.(state := DeclaredLost))], [Note(q, Lost(e.state.record))])
  {
    var e := Get(ring, q).value;
    var after, notes := ring[q % |ring| := Some(e.(state := DeclaredLost))], [Note(q, Lost(e.state.record))];
    forall p: nat
      ensures Accounted(ring, after, notes, p)
    {
      assert notes[0].num == q;
    }
  }

  lemma {:induction false} SweptReported<P>(l: Ledger<P>, now: nat, hi: nat)
    requires RingValid(l.ring, l.largestSent)
    ensures Reported(l.ring, Swept(l, now, hi), LostNotes(l, now, hi))
    ensures forall k | 0 <= k < |LostNotes(l, now, hi)| :: LostNotes(l, now, hi)[k].what.Lost?
  {
    hide Reported, Swept, Overdue;
    if hi == 0 {
      SweptNone(l, now);
      NothingReported(l.ring);
    } else {
      SweptReported(l, now, hi - 1);
      SweptNext(l, now, hi - 1);
      var e := Get(l.ring, hi - 1);
      var ring, notes := Swept(l, now, hi - 1), LostNotes(l, now, hi - 1);
      if e.Some? && Overdue(l, now, e.value) {
        StillInFlight(l, now, hi - 1);
        DeclareReported(ring, hi - 1);
        Compose(l.ring, ring, Swept(l, now, hi), notes, [Note(hi - 1, Lost(e.value.state.record))]);
      } else {
        assert LostNotes(l, now, hi) == notes;
      }
    }
  }

  lemma StillInFlight<P>(l: Ledger<P>, now: nat, q: nat)
    requires |l.ring| > 0 && Get(l.ring, q).Some? && Overdue(l, now, Get(l.ring, q).value)
    ensures Get(Swept(l, now, q), q) == Get(l.ring, q) && IsInFlight(Swept(l, now, q), q)
  {
  }

  lemma DetectLostReported<P>(l: Ledger<P>, now: nat)
    requires RingValid(l.ring, l.largestSent)
    ensures var o := DetectLost(l, now);
            && Reported(l.ring, o.ledger.ring, o.notes)
            && (forall k | 0 <= k < |o.notes| :: o.notes[k].what.Lost?)
  {
    hide Reported, Swept, LostNotes;
    NothingReported(l.ring);
    SweptReported(l, now, l.largestAcked);
  }

  /** An acknowledgement confirms exactly the packets it names that were in flight. */
  lemma OnAckReported<P>(l: Ledger<P>, clock: nat, now: nat, ack: nat, ackDelay: Option<nat>, bits: seq<bool>)
    requires Sound(l, clock) && now >= clock && 1 <= ack <= l.largestSent
    ensures var o := OnAck(l, now, ack, ackDelay, bits);
            && Reported(l.ring, o.ledger.ring, o.notes)
            && (forall k | 0 <= k < |o.notes| && o.notes[k].what.Acked? :: o.notes[k].num in Named(ack, bits, |bits|))
            && AllConfirmed(l.ring, Named(ack, bits, |bits|), o.notes)
  {
    hide Reported, DetectLost, Sound, Named, ResolveAll, AllConfirmed;
    assert |l.ring| > 0 && RingValid(l.ring, l.largestSent) by { SoundRing(l, clock); }
    var named := Named(ack, bits, |bits|);
    var a := Acknowledged(l, now, ack, ackDelay, bits);
    AcknowledgedSound(l, clock, now, ack, ackDelay, bits);
    SoundRing(a.ledger, now);
    ResolveAllReported(l.ring, named);
    DetectLostReported(a.ledger, now);
    var d := DetectLost(a.ledger, now);
    Compose(l.ring, a.ledger.ring, d.ledger.ring, a.notes, d.notes);
    ConfirmedMore(l.ring, named, a.notes, d.notes);
  }

  lemma ConfirmedMore<P>(ring: Ring<P>, named: seq<nat>, notes: seq<Note<P>>, more: seq<Note<P>>)
    requires |ring| > 0 && AllConfirmed(ring, named, notes)
    ensures AllConfirmed(ring, named, notes + more)
  {
    forall q | q in named && IsInFlight(ring, q)
      ensures exists k :: 0 <= k < |notes + more| && (notes + more)[k].num == q
                          && (notes + more)[k].what == Acked(Get(ring, q).value.state.record)
    {
      var k :| 0 <= k < |notes| && notes[k].num == q && notes[k].what == Acked(Get(ring, q).value.state.record);
      assert (notes + more)[k] == notes[k];
    }
  }

  lemma SoundRing<P>(l: Ledger<P>, clock: nat)
    requires Sound(l, clock)
    ensures |l.ring| > 0 && RingValid(l.ring, l.largestSent)
  {
  }

  lemma OnTimeoutReported<P>(l: Ledger<P>, clock: nat, now: nat)
    requires Sound(l, clock)
    ensures var t := OnTimeout(l, now);
            && Reported(l.ring, t.ledger.ring, t.notes)
            && (forall k | 0 <= k < |t.notes| :: t.notes[k].what.Lost?)
  {
    hide Reported, DetectLost;
    DetectLostReported(l, now);
  }

  /** A tracked packet joins the flight; only the occupant of its slot can leave it. */
  lemma OnSentReported<P>(l: Ledger<P>, clock: nat, now: nat, q: nat, outgoing: Outgoing<P>)
    requires Sound(l, clock) && q > l.largestSent
    ensures var o := OnSent(l, now, q, outgoing);
            && |l.ring| > 0 && |o.ledger.ring| > 0
            && AllSourced(l.ring, o.notes) && AllAccounted(l.ring, o.ledger.ring, o.notes)
            && AllLeft(o.ledger.ring, o.notes)
            && (forall p: nat | IsInFlight(o.ledger.ring, p) && p != q :: Get(o.ledger.ring, p) == Get(l.ring, p))
            && (outgoing.Eliciting? ==> IsInFlight(o.ledger.ring, q)
                                        && Get(o.ledger.ring, q).value.state.record == outgoing.record)
            && (outgoing.AckOnly? ==> o.ledger.ring == l.ring && o.notes == [])
            && (forall k | 0 <= k < |o.notes| :: o.notes[k].what.Lost?)
  {
    hide FirstInFlight, CountInFlight;
    var n, o := |l.ring|, OnSent(l, now, q, outgoing);
    var evicted := l.ring[q % n];
    if evicted.Some? {
      assert Get(l.ring, evicted.value.num) == evicted;
    }
    forall p: nat
      ensures Accounted(l.ring, o.ledger.ring, o.notes, p)
    {
      if IsInFlight(l.ring, p) && outgoing.Eliciting? && p % n == q % n {
        assert o.notes[0].num == p;
      }
    }
  }
}
