/** What the ledger promises over whole runs, whatever the size of its ring: every record
handed to it comes back exactly once, and a lost packet can be vindicated at most once. */
module LedgerRuns {
  import opened Machine
  import L = Ledger

  datatype Op<P> =
    | Send(now: nat, num: nat, outgoing: L.Outgoing<P>)
    | Ack(now: nat, ack: nat, delay: Option<nat>, bits: seq<bool>)
    | Timeout(now: nat)
    | PathChange

  /** A ledger with its history: what was tracked, and every notification made. */
  datatype Trace<P> = Trace(ledger: L.Ledger<P>, tracked: map<nat, P>, log: seq<L.Note<P>>, clock: nat)

  function Start<P>(n: nat, now: nat, peerAckDelay: nat): Trace<P> {
    Trace(L.New(n, now, peerAckDelay), map[], [], now)
  }

  /** Time does not run backwards, sequences increase, and an acknowledgement names
  something sent. */
  predicate Allowed<P>(t: Trace<P>, op: Op<P>) {
    match op
    case Send(now, num, _) => now >= t.clock && num > t.ledger.largestSent
    case Ack(now, ack, _, _) => now >= t.clock && 1 <= ack <= t.ledger.largestSent
    case Timeout(now) => now >= t.clock
    case PathChange => true
  }

  function Step<P>(t: Trace<P>, op: Op<P>): Trace<P>
    requires |t.ledger.ring| > 0
  {
    match op
    case Send(now, num, outgoing) =>
      var o := L.OnSent(t.ledger, now, num, outgoing);
      Trace(o.ledger, if outgoing.Eliciting? then t.tracked[num := outgoing.record] else t.tracked,
            t.log + o.notes, now)
    case Ack(now, ack, delay, bits) =>
      var o := L.OnAck(t.ledger, now, ack, delay, bits);
      Trace(o.ledger, t.tracked, t.log + o.notes, now)
    case Timeout(now) =>
      var o := L.OnTimeout(t.ledger, now);
      Trace(o.ledger, t.tracked, t.log + o.notes, now)
    case PathChange => t.(ledger := L.OnPathChange(t.ledger))
  }

  /** `t` follows from a new ledger by the operations `ops`, each allowed where it is made. */
  ghost predicate Reaches<P(!new)>(start: Trace<P>, ops: seq<Op<P>>, t: Trace<P>)
    decreases |ops|
  {
    if ops == [] then t == start
    else exists u: Trace<P> ::
           && Reaches(start, ops[..|ops| - 1], u)
           && |u.ledger.ring| > 0
           && Allowed(u, ops[|ops| - 1])
           && t == Step(u, ops[|ops| - 1])
  }

  // ----- Fates -----

  /** What the notifications about one packet add up to. `Broken` is anything the ledger
  must never do: a second outcome, a record not its own, a vindication without a loss. */
  datatype Fate<P> = Flying(record: P) | Arrived | Missing | Late | Broken

  ghost function NextFate<P>(f: Fate<P>, what: L.Resolved<P>): Fate<P> {
    match (f, what)
    case (Flying(r), Acked(r')) => if r == r' then Arrived else Broken
    case (Flying(r), Lost(r')) => if r == r' then Missing else Broken
    case (Missing, Spurious) => Late
    case _ => Broken
  }

  ghost function FateOf<P>(record: P, log: seq<L.Note<P>>, q: nat): Fate<P> {
    if log == [] then Flying(record)
    else
      var f := FateOf(record, log[..|log| - 1], q);
      var note := log[|log| - 1];
      if note.num == q then NextFate(f, note.what) else f
  }

  /** The slot a packet sits in tells its fate; a packet no longer there has an outcome. */
  ghost predicate Matches<P>(e: Option<L.Sent<P>>, f: Fate<P>) {
    match e
    case None => f.Arrived? || f.Missing? || f.Late?
    case Some(s) =>
      match s.state
      case InFlight(r) => f == Flying(r)
      case Confirmed => f.Arrived? || f.Late?
      case DeclaredLost => f.Missing?
  }

  ghost predicate Agrees<P>(ring: L.Ring<P>, tracked: map<nat, P>, log: seq<L.Note<P>>)
    requires |ring| > 0
  {
    && (forall q | q in tracked :: Matches(L.Get(ring, q), FateOf(tracked[q], log, q)))
    && (forall i | 0 <= i < |ring| && ring[i].Some? :: ring[i].value.num in tracked)
    && (forall k | 0 <= k < |log| :: log[k].num in tracked)
  }

  lemma FateAppend<P>(record: P, log: seq<L.Note<P>>, note: L.Note<P>, q: nat)
    ensures FateOf(record, log + [note], q)
            == if note.num == q then NextFate(FateOf(record, log, q), note.what) else FateOf(record, log, q)
  {
    assert (log + [note])[..|log|] == log;
  }

  lemma {:induction false} FateUntouched<P>(record: P, log: seq<L.Note<P>>, q: nat)
    requires forall k | 0 <= k < |log| :: log[k].num != q
    ensures FateOf(record, log, q) == Flying(record)
  {
    if log != [] {
      FateUntouched(record, log[..|log| - 1], q);
    }
  }

  lemma ResolveAgrees<P>(ring: L.Ring<P>, tracked: map<nat, P>, log: seq<L.Note<P>>, q: nat)
    requires |ring| > 0 && Agrees(ring, tracked, log)
    ensures var s := L.Resolve(ring, q); Agrees(s.ring, tracked, log + s.notes)
  {
    hide FateOf;
    var s := L.Resolve(ring, q);
    if s.notes == [] {
      assert log + s.notes == log;
    } else {
      assert log + s.notes == log + [s.notes[0]];
      forall p | p in tracked
        ensures Matches(L.Get(s.ring, p), FateOf(tracked[p], log + s.notes, p))
      {
        FateAppend(tracked[p], log, s.notes[0], p);
      }
    }
  }

  lemma {:induction false} ResolveAllAgrees<P>(ring: L.Ring<P>, tracked: map<nat, P>, log: seq<L.Note<P>>,
                                               named: seq<nat>)
    requires |ring| > 0 && Agrees(ring, tracked, log)
    ensures var s := L.ResolveAll(ring, named); Agrees(s.ring, tracked, log + s.notes)
  {
    hide Agrees, L.Resolve;
    if named == [] {
      assert log + [] == log;
    } else {
      var n := |named| - 1;
      var init := L.ResolveAll(ring, named[..n]);
      ResolveAllAgrees(ring, tracked, log, named[..n]);
      ResolveAgrees(init.ring, tracked, log + init.notes, named[n]);
      assert log + init.notes + L.Resolve(init.ring, named[n]).notes
             == log + (init.notes + L.Resolve(init.ring, named[n]).notes);
    }
  }

  lemma {:induction false} SweptAgrees<P>(l: L.Ledger<P>, tracked: map<nat, P>, log: seq<L.Note<P>>, now: nat, hi: nat)
    requires L.RingValid(l.ring, l.largestSent) && Agrees(l.ring, tracked, log)
    ensures Agrees(L.Swept(l, now, hi), tracked, log + L.LostNotes(l, now, hi))
  {
    hide Agrees;
    if hi == 0 {
      assert L.Swept(l, now, 0) == l.ring;
      assert log + L.LostNotes(l, now, 0) == log;
    } else {
      SweptAgrees(l, tracked, log, now, hi - 1);
      SweptStep(l, tracked, log, now, hi - 1);
    }
  }

  lemma SweptStep<P>(l: L.Ledger<P>, tracked: map<nat, P>, log: seq<L.Note<P>>, now: nat, q: nat)
    requires L.RingValid(l.ring, l.largestSent)
    requires Agrees(L.Swept(l, now, q), tracked, log + L.LostNotes(l, now, q))
    ensures Agrees(L.Swept(l, now, q + 1), tracked, log + L.LostNotes(l, now, q + 1))
  {
    var ring, notes := L.Swept(l, now, q), L.LostNotes(l, now, q);
    L.SweptNext(l, now, q);
    GetSwept(l, now, q);
    var e := L.Get(l.ring, q);
    if e.Some? && L.Overdue(l, now, e.value) {
      var note := L.Note(q, L.Lost(e.value.state.record));
      DeclareAgrees(ring, tracked, log + notes, q);
      assert log + L.LostNotes(l, now, q + 1) == log + notes + [note];
    } else {
      assert L.LostNotes(l, now, q + 1) == notes;
    }
  }

  lemma GetSwept<P>(l: L.Ledger<P>, now: nat, hi: nat)
    requires |l.ring| > 0
    ensures L.Get(L.Swept(l, now, hi), hi) == L.Get(l.ring, hi)
  {
  }

  lemma DeclareAgrees<P>(ring: L.Ring<P>, tracked: map<nat, P>, log: seq<L.Note<P>>, q: nat)
    requires |ring| > 0 && Agrees(ring, tracked, log) && L.IsInFlight(ring, q)
    ensures var e := L.Get(ring, q).value;
            Agrees(ring[q % |ring| := Some(e.(state := L.DeclaredLost))], tracked,
                   log + [L.Note(q, L.Lost(e.state.record))])
  {
    hide FateOf;
    var e := L.Get(ring, q).value;
    var note := L.Note(q, L.Lost(e.state.record));
    forall p | p in tracked {
      FateAppend(tracked[p], log, note, p);
    }
  }

  lemma SendAgrees<P>(l: L.Ledger<P>, tracked: map<nat, P>, log: seq<L.Note<P>>, now: nat, q: nat, record: P)
    requires L.RingValid(l.ring, l.largestSent) && q > l.largestSent && Agrees(l.ring, tracked, log)
    requires forall p | p in tracked :: p <= l.largestSent
    ensures var o := L.OnSent(l, now, q, L.Eliciting(record));
            Agrees(o.ledger.ring, tracked[q := record], log + o.notes)
  {
    hide FateOf, L.FirstInFlight;
    var n := |l.ring|;
    var o := L.OnSent(l, now, q, L.Eliciting(record));
    FateUntouched(record, log, q);
    var occupant := l.ring[q % n];
    if o.notes == [] {
      assert log + o.notes == log;
    } else {
      assert L.Get(l.ring, occupant.value.num) == occupant;
      assert log + o.notes == log + [o.notes[0]];
      FateAppend(record, log, o.notes[0], q);
      forall p | p in tracked {
        FateAppend(tracked[p], log, o.notes[0], p);
      }
    }
  }

  ghost predicate Good<P>(t: Trace<P>) {
    && L.Valid(t.ledger, t.clock)
    && Agrees(t.ledger.ring, t.tracked, t.log)
    && (forall q | q in t.tracked :: 1 <= q <= t.ledger.largestSent)
  }

  lemma DetectLostAgrees<P>(l: L.Ledger<P>, clock: nat, tracked: map<nat, P>, log: seq<L.Note<P>>, now: nat)
    requires L.Sound(l, clock) && Agrees(l.ring, tracked, log)
    ensures var o := L.DetectLost(l, now); Agrees(o.ledger.ring, tracked, log + o.notes)
  {
    if l.largestAcked == 0 {
      assert log + [] == log;
    } else {
      SweptAgrees(l, tracked, log, now, l.largestAcked);
    }
  }

  lemma SendGood<P>(t: Trace<P>, now: nat, num: nat, outgoing: L.Outgoing<P>)
    requires Good(t) && Allowed(t, Send(now, num, outgoing))
    ensures Good(Step(t, Send(now, num, outgoing)))
  {
    L.OnSentValid(t.ledger, t.clock, now, num, outgoing);
    if outgoing.Eliciting? {
      SendAgrees(t.ledger, t.tracked, t.log, now, num, outgoing.record);
    } else {
      assert t.log + [] == t.log;
    }
  }

  lemma AckAgrees<P>(t: Trace<P>, now: nat, ack: nat, delay: Option<nat>, bits: seq<bool>)
    requires L.Sound(t.ledger, t.clock) && now >= t.clock && 1 <= ack <= t.ledger.largestSent
    requires Agrees(t.ledger.ring, t.tracked, t.log)
    ensures var o := L.OnAck(t.ledger, now, ack, delay, bits);
            Agrees(o.ledger.ring, t.tracked, t.log + o.notes)
  {
    hide Agrees, L.ResolveAll, L.Named, L.DetectLost, L.Chronological, L.OldestBound, L.CountInFlight;
    L.AcknowledgedSound(t.ledger, t.clock, now, ack, delay, bits);
    var a := L.Acknowledged(t.ledger, now, ack, delay, bits);
    ResolveAllAgrees(t.ledger.ring, t.tracked, t.log, L.Named(ack, bits, |bits|));
    DetectLostAgrees(a.ledger, now, t.tracked, t.log + a.notes, now);
    var d := L.DetectLost(a.ledger, now);
    assert t.log + a.notes + d.notes == t.log + (a.notes + d.notes);
  }

  lemma AckGood<P>(t: Trace<P>, now: nat, ack: nat, delay: Option<nat>, bits: seq<bool>)
    requires Good(t) && Allowed(t, Ack(now, ack, delay, bits))
    ensures Good(Step(t, Ack(now, ack, delay, bits)))
  {
    L.OnAckValid(t.ledger, t.clock, now, ack, delay, bits);
    AckAgrees(t, now, ack, delay, bits);
  }

  lemma TimeoutGood<P>(t: Trace<P>, now: nat)
    requires Good(t) && now >= t.clock
    ensures Good(Step(t, Timeout(now)))
  {
    L.OnTimeoutValid(t.ledger, t.clock, now);
    DetectLostAgrees(t.ledger, t.clock, t.tracked, t.log, now);
  }

  lemma StepGood<P>(t: Trace<P>, op: Op<P>)
    requires Good(t) && Allowed(t, op)
    ensures Good(Step(t, op))
  {
    hide Agrees, L.OnSent, L.OnAck, L.OnTimeout;
    match op
    case Send(now, num, outgoing) => SendGood(t, now, num, outgoing);
    case Ack(now, ack, delay, bits) => AckGood(t, now, ack, delay, bits);
    case Timeout(now) => TimeoutGood(t, now);
    case PathChange =>
  }

  /** In every reachable state the counters, the cursor and the slots agree with the fates
  that the notifications so far add up to, and no fate is broken. */
  lemma {:induction false} EveryRunGood<P(!new)>(n: nat, now: nat, peerAckDelay: nat, ops: seq<Op<P>>, t: Trace<P>)
    requires n > 0 && Reaches(Start(n, now, peerAckDelay), ops, t)
    ensures Good(t)
    decreases |ops|
  {
    if ops == [] {
      L.NewValid<P>(n, now, peerAckDelay);
    } else {
      var m := |ops| - 1;
      var u: Trace<P> :| Reaches(Start(n, now, peerAckDelay), ops[..m], u) && |u.ledger.ring| > 0
                         && Allowed(u, ops[m]) && t == Step(u, ops[m]);
      EveryRunGood(n, now, peerAckDelay, ops[..m], u);
      StepGood(u, ops[m]);
    }
  }

  // ----- Read as counts -----

  function Outcomes<P>(log: seq<L.Note<P>>, q: nat): nat {
    if log == [] then 0
    else
      var note := log[|log| - 1];
      Outcomes(log[..|log| - 1], q) + if note.num == q && !note.what.Spurious? then 1 else 0
  }

  function Vindications<P>(log: seq<L.Note<P>>, q: nat): nat {
    if log == [] then 0
    else
      var note := log[|log| - 1];
      Vindications(log[..|log| - 1], q) + if note.num == q && note.what.Spurious? then 1 else 0
  }

  lemma {:induction false} FateCounts<P>(record: P, log: seq<L.Note<P>>, q: nat)
    requires !FateOf(record, log, q).Broken?
    ensures Outcomes(log, q) == if FateOf(record, log, q).Flying? then 0 else 1
    ensures Vindications(log, q) == if FateOf(record, log, q).Late? then 1 else 0
  {
    if log != [] {
      FateCounts(record, log[..|log| - 1], q);
    }
  }

  ghost predicate LossBefore<P>(record: P, log: seq<L.Note<P>>, q: nat, k: nat) {
    exists j :: 0 <= j < k && j < |log| && log[j] == L.Note(q, L.Lost(record))
  }

  /** The k-th notification, if it is about `q`: its own record, or a loss already reported. */
  ghost predicate Lawful<P>(record: P, log: seq<L.Note<P>>, q: nat, k: nat)
    requires k < |log|
  {
    log[k].num == q ==>
      if log[k].what.Spurious? then LossBefore(record, log, q, k) else log[k].what.record == record
  }

  lemma {:induction false} FateLawful<P>(record: P, log: seq<L.Note<P>>, q: nat)
    requires !FateOf(record, log, q).Broken?
    ensures forall k | 0 <= k < |log| :: Lawful(record, log, q, k)
    ensures FateOf(record, log, q).Missing? ==> LossBefore(record, log, q, |log|)
    ensures FateOf(record, log, q).Flying? ==> FateOf(record, log, q) == Flying(record)
  {
    if log != [] {
      var n := |log| - 1;
      var init := log[..n];
      FateLawful(record, init, q);
      if LossBefore(record, init, q, n) {
        var j :| 0 <= j < n && init[j] == L.Note(q, L.Lost(record));
        assert log[j] == init[j];
      }
      forall k | 0 <= k < n
        ensures Lawful(record, log, q, k)
      {
        assert Lawful(record, init, q, k) && init[k] == log[k];
        if LossBefore(record, init, q, k) {
          var j :| 0 <= j < k && init[j] == L.Note(q, L.Lost(record));
          assert log[j] == init[j];
        }
      }
      assert log[n] == L.Note(q, L.Lost(record)) ==> LossBefore(record, log, q, |log|);
    }
  }

  /** Every tracked record is returned exactly once, as acknowledged or lost, or is still in
  flight; it is that packet's own record; at most one vindication follows, after its loss;
  and the count in flight is the number of slots in flight. */
  lemma RecordsReturnedOnce<P(!new)>(n: nat, now: nat, peerAckDelay: nat, ops: seq<Op<P>>, t: Trace<P>, q: nat)
    requires n > 0 && Reaches(Start(n, now, peerAckDelay), ops, t) && q in t.tracked
    ensures L.IsInFlight(t.ledger.ring, q) <==> Outcomes(t.log, q) == 0
    ensures Outcomes(t.log, q) <= 1 && Vindications(t.log, q) <= Outcomes(t.log, q)
    ensures forall k | 0 <= k < |t.log| :: Lawful(t.tracked[q], t.log, q, k)
    ensures t.ledger.inFlight == L.CountInFlight(t.ledger.ring)
  {
    EveryRunGood(n, now, peerAckDelay, ops, t);
    assert Matches(L.Get(t.ledger.ring, q), FateOf(t.tracked[q], t.log, q));
    FateCounts(t.tracked[q], t.log, q);
    FateLawful(t.tracked[q], t.log, q);
  }
}
