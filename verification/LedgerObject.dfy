/** The ledger as the program keeps it: a ring of slots updated in place, a scan that stops
early, and a cursor moved forward. Each method is proved to make exactly the step that
module `Ledger` gives for it.
*/
module LedgerObject {
  import opened Machine
  import L = Ledger
  import Rtt

  class Delivery<P> {
    const sent: array<Option<L.Sent<P>>>
    var largestSent: nat
    var oldest: nat
    var largestAcked: nat
    var lastEliciting: nat
    var rtt: Rtt.Rtt
    var inFlight: int
    var backoff: nat
    const peerAckDelay: nat

    function View(): L.Ledger<P>
      reads this, sent
    {
      L.Ledger(sent[..], largestSent, oldest, largestAcked, lastEliciting, rtt, inFlight, backoff, peerAckDelay)
    }

    ghost predicate Valid(clock: nat)
      reads this, sent
    {
      L.Valid(View(), clock)
    }

    constructor (n: nat, now: nat, peerAckDelay: nat)
      requires n > 0
      ensures fresh(sent)
      ensures View() == L.New(n, now, peerAckDelay)
      ensures Valid(now)
    {
      sent := new Option<L.Sent<P>>[n](_ => None);
      largestSent, oldest, largestAcked, lastEliciting := 0, 1, 0, now;
      rtt, inFlight, backoff := None, 0, 0;
      this.peerAckDelay := peerAckDelay;
      new;
      assert sent[..] == seq(n, _ => None);
      L.NewValid<P>(n, now, peerAckDelay);
    }

    function Lookup(q: nat): (e: Option<L.Sent<P>>)
      requires sent.Length > 0
      reads this, sent
      ensures e == L.Get(sent[..], q)
    {
      var e := sent[q % sent.Length];
      if e.Some? && e.value.num == q then e else None
    }

    method AdvanceOldest()
      requires sent.Length > 0
      modifies this`oldest
      ensures View() == L.Advanced(old(View()))
    {
      if largestSent == 0 {
        return;
      }
      while oldest <= largestSent && !(Lookup(oldest).Some? && Lookup(oldest).value.state.InFlight?)
        invariant L.FirstInFlight(sent[..], oldest, largestSent) == L.FirstInFlight(sent[..], old(oldest), largestSent)
        decreases largestSent + 1 - oldest
      {
        oldest := oldest + 1;
      }
    }

    method OnSent(now: nat, q: nat, outgoing: L.Outgoing<P>, ghost clock: nat) returns (notes: seq<L.Note<P>>)
      requires Valid(clock) && now >= clock && q > largestSent
      modifies this, sent
      ensures L.Outcome(View(), notes) == L.OnSent(old(View()), now, q, outgoing)
      ensures Valid(now)
    {
      L.OnSentValid(View(), clock, now, q, outgoing);
      notes := [];
      largestSent := Max(largestSent, q);
      match outgoing {
        case AckOnly =>
        case Eliciting(record) =>
          lastEliciting := now;
          inFlight := inFlight + 1;
          var at := q % sent.Length;
          var evicted := sent[at];
          sent[at] := Some(L.Sent(q, now, L.InFlight(record)));
          if evicted.Some? && evicted.value.state.InFlight? {
            inFlight := inFlight - 1;
            notes := [L.Note(evicted.value.num, L.Lost(evicted.value.state.record))];
          }
          assert sent[..] == old(sent[..])[at := Some(L.Sent(q, now, L.InFlight(record)))];
      }
      AdvanceOldest();
    }

    /** `sentAt` is given only for a packet that was in flight. */
    method Resolve(q: nat) returns (sentAt: Option<nat>, notes: seq<L.Note<P>>)
      requires sent.Length > 0
      modifies this`inFlight, sent
      ensures L.Settled(sent[..], notes) == L.Resolve(old(sent[..]), q)
      ensures sentAt == L.SentAt(old(sent[..]), q)
      ensures inFlight == old(inFlight) - L.AckedCount(notes)
      ensures sentAt.Some? <==> L.AckedCount(notes) > 0
      ensures |notes| <= 1
    {
      notes, sentAt := [], None;
      var e := Lookup(q);
      if e.Some? {
        var at := q % sent.Length;
        sent[at] := Some(e.value.(state := L.Confirmed));
        assert sent[..] == old(sent[..])[at := Some(e.value.(state := L.Confirmed))];
        match e.value.state {
          case Confirmed =>
          case DeclaredLost =>
            notes := [L.Note(q, L.Spurious)];
          case InFlight(record) =>
            inFlight := inFlight - 1;
            notes := [L.Note(q, L.Acked(record))];
            sentAt := Some(e.value.at);
        }
      }
    }

    method ResolveNamed(ack: nat, bits: seq<bool>)
      returns (sentAt: Option<nat>, confirmedAny: bool, notes: seq<L.Note<P>>)
      requires sent.Length > 0
      modifies this`inFlight, sent
      ensures L.Settled(sent[..], notes) == L.ResolveAll(old(sent[..]), L.Named(ack, bits, |bits|))
      ensures sentAt == L.SentAt(old(sent[..]), ack)
      ensures inFlight == old(inFlight) - L.AckedCount(notes)
      ensures confirmedAny <==> L.AckedCount(notes) > 0
    {
      hide L.Resolve, L.Get, L.IsInFlight, L.CountInFlight, L.SentAt;
      ghost var ring := sent[..];
      sentAt, notes := Resolve(ack);
      confirmedAny := sentAt.Some?;
      assert L.Named(ack, bits, 0)[..0] == [];
      assert L.ResolveAll(ring, L.Named(ack, bits, 0)).notes == notes;
      for k := 0 to |bits|
        invariant L.Settled(sent[..], notes) == L.ResolveAll(ring, L.Named(ack, bits, k))
        invariant inFlight == old(inFlight) - L.AckedCount(notes)
        invariant confirmedAny <==> L.AckedCount(notes) > 0
      {
        if bits[k] && ack > k + 1 {
          var at, more := Resolve(ack - (k + 1));
          ghost var rest := L.Named(ack, bits, k);
          assert L.Named(ack, bits, k + 1)[..|rest|] == rest;
          CountAppend(notes, more);
          notes := notes + more;
          confirmedAny := confirmedAny || at.Some?;
        }
      }
    }

    static lemma CountAppend(a: seq<L.Note<P>>, b: seq<L.Note<P>>)
      requires |b| <= 1
      ensures L.AckedCount(a + b) == L.AckedCount(a) + L.AckedCount(b)
    {
      if b == [] {
        assert a + b == a;
      } else {
        assert b == [b[0]] && b[..0] == [];
        L.AckedCountAppend(a, b[0]);
      }
    }

    /** Scans forward from the oldest packet and stops at the first one in flight that is not
    overdue. The result is that of judging every packet ever sent. */
    method Scan(now: nat, ghost clock: nat) returns (notes: seq<L.Note<P>>)
      requires L.Sound(View(), clock) && largestAcked > 0
      modifies this`inFlight, sent
      ensures sent[..] == L.Swept(old(View()), now, largestAcked)
      ensures notes == L.LostNotes(old(View()), now, largestAcked)
      ensures inFlight == old(inFlight) - |notes|
    {
      hide L.Swept, L.LostNotes, L.LossDelay, L.Overdue, L.CountInFlight, L.Chronological, L.IsInFlight, L.Get;
      ghost var was := View();
      var delay := L.LossDelay(rtt);
      var q := oldest;
      notes := [];
      Unswept(was, now);
      while q < largestAcked
        invariant q <= Max(oldest, largestAcked)
        invariant sent[..] == L.Swept(was, now, q)
        invariant notes == L.LostNotes(was, now, q)
        invariant inFlight == was.inFlight - |notes|
      {
        var stop, lost := Judge(now, q, delay, was);
        if stop {
          NothingFurther(was, clock, now, q, largestAcked);
          return;
        }
        notes := notes + lost;
        q := q + 1;
      }
      SweptPast(was, now, q);
    }

    /** Judges one packet of the scan: spared, lost, or not in flight. */
    method Judge(now: nat, q: nat, delay: nat, ghost was: L.Ledger<P>) returns (stop: bool, lost: seq<L.Note<P>>)
      requires L.RingValid(was.ring, was.largestSent) && sent.Length == |was.ring| && q < largestAcked
      requires largestAcked == was.largestAcked && delay == L.LossDelay(was.rtt)
      requires sent[..] == L.Swept(was, now, q)
      modifies this`inFlight, sent
      ensures stop ==> L.IsInFlight(was.ring, q) && !L.Overdue(was, now, L.Get(was.ring, q).value)
      ensures stop ==> sent[..] == old(sent[..]) && inFlight == old(inFlight)
      ensures !stop ==> sent[..] == L.Swept(was, now, q + 1)
      ensures !stop ==> L.LostNotes(was, now, q + 1) == L.LostNotes(was, now, q) + lost
      ensures !stop ==> inFlight == old(inFlight) - |lost|
    {
      stop, lost := false, [];
      var e := Lookup(q);
      ScanStep(was, now, q);
      if e.Some? && e.value.state.InFlight? {
        var byCount := largestAcked > L.REORDER_THRESHOLD && q <= largestAcked - L.REORDER_THRESHOLD;
        var byTime := Since(now, e.value.at) >= delay;
        if byCount || byTime {
          sent[q % sent.Length] := Some(e.value.(state := L.DeclaredLost));
          inFlight := inFlight - 1;
          lost := [L.Note(q, L.Lost(e.value.state.record))];
        } else {
          stop := true;
        }
      }
    }

    method DetectLost(now: nat, ghost clock: nat) returns (notes: seq<L.Note<P>>)
      requires L.Sound(View(), clock)
      modifies this`inFlight, this`oldest, sent
      ensures L.Outcome(View(), notes) == L.DetectLost(old(View()), now)
    {
      notes := [];
      if largestAcked != 0 {
        notes := Scan(now, clock);
        AdvanceOldest();
      }
    }

    /** What judging the packet `q` adds to a scan that has reached it. */
    static lemma ScanStep(l: L.Ledger<P>, now: nat, q: nat)
      requires L.RingValid(l.ring, l.largestSent) && q < l.largestAcked
      ensures var e := L.Get(l.ring, q);
              var lost := e.Some? && e.value.state.InFlight?
                          && (q + L.REORDER_THRESHOLD <= l.largestAcked
                              || Since(now, e.value.at) >= L.LossDelay(l.rtt));
              && L.Get(L.Swept(l, now, q), q) == e
              && (lost ==>
                    && L.Swept(l, now, q + 1)
                       == L.Swept(l, now, q)[q % |l.ring| := Some(e.value.(state := L.DeclaredLost))]
                    && L.LostNotes(l, now, q + 1) == L.LostNotes(l, now, q) + [L.Note(q, L.Lost(e.value.state.record))])
              && (!lost ==>
                    && L.Swept(l, now, q + 1) == L.Swept(l, now, q)
                    && L.LostNotes(l, now, q + 1) == L.LostNotes(l, now, q))
    {
      L.SweptNext(l, now, q);
    }

    /** Nothing before the oldest packet in flight can be overdue. */
    static lemma Unswept(l: L.Ledger<P>, now: nat)
      requires L.RingValid(l.ring, l.largestSent) && L.OldestBound(l)
      ensures L.Swept(l, now, l.oldest) == l.ring
      ensures L.LostNotes(l, now, l.oldest) == []
    {
      NoNotesBelow(l, now, l.oldest);
      forall i | 0 <= i < |l.ring| && l.ring[i].Some? && l.ring[i].value.num < l.oldest
        ensures !l.ring[i].value.state.InFlight?
      {
        assert !L.IsInFlight(l.ring, l.ring[i].value.num);
      }
    }

    static lemma {:induction false} NoNotesBelow(l: L.Ledger<P>, now: nat, hi: nat)
      requires L.RingValid(l.ring, l.largestSent) && L.OldestBound(l) && hi <= l.oldest
      ensures L.LostNotes(l, now, hi) == []
    {
      if hi > 0 {
        NoNotesBelow(l, now, hi - 1);
        assert !L.IsInFlight(l.ring, hi - 1);
      }
    }

    static lemma SweptPast(l: L.Ledger<P>, now: nat, q: nat)
      requires L.RingValid(l.ring, l.largestSent) && L.OldestBound(l)
               && l.largestAcked <= q <= Max(l.oldest, l.largestAcked)
      ensures L.Swept(l, now, l.largestAcked) == L.Swept(l, now, q)
      ensures L.LostNotes(l, now, l.largestAcked) == L.LostNotes(l, now, q)
    {
      if l.largestAcked < q {
        NoNotesBelow(l, now, q);
        NoNotesBelow(l, now, l.largestAcked);
      }
    }

    /** Both loss rules are monotone, so once one packet in flight is spared all later ones are. */
    static lemma {:induction false} NothingFurther(l: L.Ledger<P>, clock: nat, now: nat, q: nat, hi: nat)
      requires L.Sound(l, clock) && q <= hi
      requires L.IsInFlight(l.ring, q) && !L.Overdue(l, now, L.Get(l.ring, q).value)
      ensures L.Swept(l, now, hi) == L.Swept(l, now, q)
      ensures L.LostNotes(l, now, hi) == L.LostNotes(l, now, q)
    {
      hide L.Swept, L.CountInFlight, L.LossDelay, L.FirstInFlight;
      if q < hi {
        NothingFurther(l, clock, now, q, hi - 1);
        L.SweptNext(l, now, hi - 1);
        var e := L.Get(l.ring, hi - 1);
        if e.Some? {
          L.OverdueMonotone(l, clock, now, q % |l.ring|, (hi - 1) % |l.ring|);
        }
      }
    }

    method Acknowledge(now: nat, ack: nat, ackDelay: Option<nat>, bits: seq<bool>) returns (notes: seq<L.Note<P>>)
      requires sent.Length > 0 && ack >= 1
      modifies this, sent
      ensures L.Outcome(View(), notes) == L.Acknowledged(old(View()), now, ack, ackDelay, bits)
    {
      hide L.ResolveAll, L.Named, L.SentAt, L.AckedCount, Rtt.Update;
      var sentAt, confirmedAny;
      sentAt, confirmedAny, notes := ResolveNamed(ack, bits);
      if largestAcked == 0 || ack > largestAcked {
        largestAcked := ack;
        if sentAt.Some? && ackDelay.Some? {
          rtt := Rtt.Update(rtt, now, Since(now, sentAt.value), ackDelay.value);
        }
      }
      if confirmedAny {
        backoff := 0;
      }
    }

    method OnAck(now: nat, ack: nat, ackDelay: Option<nat>, bits: seq<bool>, ghost clock: nat)
      returns (notes: seq<L.Note<P>>)
      requires Valid(clock) && now >= clock && 1 <= ack <= largestSent
      modifies this, sent
      ensures L.Outcome(View(), notes) == L.OnAck(old(View()), now, ack, ackDelay, bits)
      ensures Valid(now)
    {
      L.OnAckValid(View(), clock, now, ack, ackDelay, bits);
      L.AcknowledgedSound(View(), clock, now, ack, ackDelay, bits);
      notes := Acknowledge(now, ack, ackDelay, bits);
      var lost := DetectLost(now, now);
      notes := notes + lost;
    }

    method OnPathChange()
      modifies this`rtt, this`backoff
      ensures View() == L.OnPathChange(old(View()))
    {
      rtt, backoff := None, 0;
    }

    method OnTimeout(now: nat, ghost clock: nat) returns (notes: seq<L.Note<P>>, probes: nat)
      requires Valid(clock) && now >= clock
      modifies this, sent
      ensures L.TimedOut(View(), notes, probes) == L.OnTimeout(old(View()), now)
      ensures Valid(now)
    {
      L.OnTimeoutValid(View(), clock, now);
      notes := DetectLost(now, clock);
      probes := 0;
      var deadline := L.ProbeDeadline(View());
      if deadline.Some? && deadline.value <= now {
        backoff := if backoff + 1 > L.MAX_BACKOFF then L.MAX_BACKOFF else backoff + 1;
        probes := L.PROBE_PACKETS;
      }
    }
  }
}
