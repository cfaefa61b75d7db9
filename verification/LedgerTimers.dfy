/** What the ledger's deadlines and thresholds amount to: which packets are given up (sections 6.1.1
and 6.1.2 of RFC 9002), when probes are owed (section 6.2.1), and what an acknowledgement teaches. */
module LedgerTimers {
  import opened Machine
  import opened Bits
  import opened Ledger
  import LedgerRuns
  import Rtt

  const MILLISECOND: nat := 1_000_000

  // ----- Losses -----

  /** How long a packet may stay unacknowledged behind one that was: nine eighths of the round trip,
  and two milliseconds at least. */
  function Tolerance(r: Rtt.Rtt): nat {
    var trip := match r case None => 100 * MILLISECOND case Some(e) => Max(e.smoothed, e.latest);
    Max(Min(9 * trip, U64_MAX) / 8, 2 * MILLISECOND)
  }

  /** Three behind the largest acknowledged, or behind it for too long. */
  predicate GivenUp<P>(l: Ledger<P>, now: nat, q: nat, at: nat) {
    q < l.largestAcked && (q + 3 <= l.largestAcked || at + Tolerance(l.rtt) <= now)
  }

  /** Exactly the packets in flight that are three behind the largest acknowledged, or have been
  behind it for the tolerance, leave the flight, each reported lost with its own record. */
  lemma LostExact<P>(l: Ledger<P>, clock: nat, now: nat, q: nat)
    requires Valid(l, clock) && clock <= now && IsInFlight(l.ring, q)
    ensures var d, e := DetectLost(l, now), Get(l.ring, q).value;
            && |d.ledger.ring| > 0
            && (GivenUp(l, now, q, e.at) <==> !IsInFlight(d.ledger.ring, q))
            && (GivenUp(l, now, q, e.at) <==> Note(q, Lost(e.state.record)) in d.notes)
            && d.ledger == l.(ring := d.ledger.ring, inFlight := d.ledger.inFlight, oldest := d.ledger.oldest)
  {
    hide FirstInFlight, CountInFlight;
    var hi := l.largestAcked;
    if hi > 0 {
      LostNotesExact(l, now, hi, q);
    }
  }

  lemma {:induction false} LostNotesExact<P>(l: Ledger<P>, now: nat, hi: nat, q: nat)
    requires |l.ring| > 0 && Get(l.ring, q).Some? && Get(l.ring, q).value.state.InFlight?
    ensures Note(q, Lost(Get(l.ring, q).value.state.record)) in LostNotes(l, now, hi)
            <==> q < hi && Overdue(l, now, Get(l.ring, q).value)
    ensures forall k | 0 <= k < |LostNotes(l, now, hi)| :: LostNotes(l, now, hi)[k].num < hi
  {
    hide Overdue;
    if hi > 0 {
      LostNotesExact(l, now, hi - 1, q);
    }
  }

  // ----- Probes -----

  /** How long the tail of the flight is waited for before the first probe: the round trip, four
  deviations of it, and the peer's holding time. */
  function Patience(r: Rtt.Rtt, peerAckDelay: nat): nat {
    match r
    case None => 100 * MILLISECOND + 200 * MILLISECOND + peerAckDelay
    case Some(e) => e.smoothed + Max(4 * e.variation, 2 * MILLISECOND) + peerAckDelay
  }

  lemma FactorIsPower(k: nat)
    ensures Factor(k) == Pow2(k)
  {
  }

  lemma SaturatedLast(a: nat, s: nat, jitter: nat, p: nat, f: nat, now: nat)
    requires now < U64_MAX && f >= 1
    ensures SatAdd(a, SatMul(SatAdd(SatAdd(s, jitter), p), f)) <= now <==> a + (s + jitter + p) * f <= now
  {
    var base, wait := s + jitter + p, SatAdd(SatAdd(s, jitter), p);
    if wait == base {
    } else {
      assert wait == U64_MAX < base && wait * f >= U64_MAX && base * f >= base;
    }
  }

  lemma SomeInFlight<P>(l: Ledger<P>, clock: nat)
    requires Valid(l, clock)
    ensures IsInFlight(l.ring, l.oldest) <==> exists q: nat :: IsInFlight(l.ring, q)
  {
  }

  /** A timeout owes two probes exactly when something is in flight after its losses and the last
  packet worth acknowledging went out the patience ago, doubled once for each step of the backoff; the
  backoff is then one more, up to six. Nothing else but the losses changes. */
  lemma ProbesExact<P>(l: Ledger<P>, clock: nat, now: nat)
    requires Valid(l, clock) && clock <= now < U64_MAX
    ensures var t := OnTimeout(l, now);
            && |t.ledger.ring| > 0 && t.notes == DetectLost(l, now).notes
            && t.ledger == DetectLost(l, now).ledger.(backoff := t.ledger.backoff)
            && t.probes == (if (exists q: nat :: IsInFlight(t.ledger.ring, q))
                               && l.lastEliciting + Patience(l.rtt, l.peerAckDelay) * Pow2(l.backoff) <= now
                            then 2 else 0)
            && t.ledger.backoff == if t.probes > 0 then Min(l.backoff + 1, 6) else l.backoff
  {
    hide FirstInFlight, CountInFlight, LostNotes, Swept;
    var d := DetectLost(l, now).ledger;
    if l.largestAcked > 0 {
      DetectLostValid(l, clock, now);
    } else {
      ValidLater(l, clock, now);
    }
    SomeInFlight(d, now);
    FactorIsPower(l.backoff);
    var jitter := Max(SatMul(Rtt.Variation(l.rtt), 4), Rtt.TIMER_GRANULARITY);
    SaturatedLast(l.lastEliciting, Rtt.Smoothed(l.rtt), jitter, l.peerAckDelay, Factor(l.backoff), now);
    if SatMul(Rtt.Variation(l.rtt), 4) == U64_MAX {
      LongWait(l.lastEliciting, Patience(l.rtt, l.peerAckDelay), Factor(l.backoff));
      LongWait(l.lastEliciting, Rtt.Smoothed(l.rtt) + jitter + l.peerAckDelay, Factor(l.backoff));
    }
  }

  lemma LongWait(a: nat, base: nat, f: nat)
    requires base >= U64_MAX && f >= 1
    ensures a + base * f >= U64_MAX
  {
    assert base * f >= base;
  }

  lemma ValidLater<P>(l: Ledger<P>, clock: nat, now: nat)
    requires Valid(l, clock) && clock <= now
    ensures Valid(l, now)
  {
  }

  // ----- Acknowledgements -----

  /** An acknowledgement names its own packet, and the packets its set bits stand for, from the one
  before it backwards. */
  lemma {:induction false} NamedExact(ack: nat, bits: seq<bool>, k: nat, q: nat)
    requires k <= |bits| && ack >= 1
    ensures q in Named(ack, bits, k) <==> q == ack || (1 <= q < ack && ack - 1 - q < k && bits[ack - 1 - q])
  {
    if k > 0 {
      NamedExact(ack, bits, k - 1, q);
    }
  }

  /** Some packet in flight is among those named. */
  ghost predicate Hits<P>(ring: Ring<P>, ack: nat, bits: seq<bool>)
    requires |ring| > 0
  {
    exists q: nat :: IsInFlight(ring, q) && q in Named(ack, bits, |bits|)
  }

  /** What an acknowledgement teaches, before losses are looked for. The largest acknowledged never
  goes back. A round trip is measured exactly when the packet named first is in flight, beyond every
  packet acknowledged before, and the peer says how long it waited; it lasted from that packet's
  departure until now. The backoff ends exactly when a packet in flight is confirmed. */
  lemma AckTeaches<P>(l: Ledger<P>, clock: nat, now: nat, ack: nat, delay: Option<nat>, bits: seq<bool>)
    requires Valid(l, clock) && clock <= now && 1 <= ack <= l.largestSent
    ensures var r := OnAck(l, now, ack, delay, bits).ledger;
            && r.largestAcked == Max(l.largestAcked, ack)
            && r.lastEliciting == l.lastEliciting && r.largestSent == l.largestSent && r.peerAckDelay == l.peerAckDelay
            && r.backoff == (if Hits(l.ring, ack, bits) then 0 else l.backoff)
            && (if ack > l.largestAcked && IsInFlight(l.ring, ack) && delay.Some?
                then r.rtt == Rtt.Update(l.rtt, now, now - Get(l.ring, ack).value.at, delay.value)
                else r.rtt == l.rtt)
  {
    hide FirstInFlight, CountInFlight, LostNotes, Swept, Named, ResolveAll, AckedCount, Rtt.Update;
    AckedSome(l.ring, Named(ack, bits, |bits|));
    if IsInFlight(l.ring, ack) {
      assert Get(l.ring, ack).value.at <= clock;
    }
  }

  /** A packet is confirmed exactly when one in flight is named. */
  /** One packet named: it is reported acknowledged exactly if it is in flight, and no other entry changes. */
  lemma ResolveOne<P>(ring: Ring<P>, notes: seq<Note<P>>, q: nat)
    requires |ring| > 0
    ensures var last := Resolve(ring, q);
            && AckedCount(notes + last.notes) == AckedCount(notes) + (if IsInFlight(ring, q) then 1 else 0)
            && forall k: nat | k != q :: Get(last.ring, k) == Get(ring, k)
  {
    hide AckedCount;
    var last := Resolve(ring, q);
    if last.notes != [] {
      assert last.notes == [last.notes[0]];
      AckedCountAppend(notes, last.notes[0]);
    } else {
      assert notes + last.notes == notes;
    }
  }

  lemma {:induction false} AckedSome<P>(ring: Ring<P>, named: seq<nat>)
    requires |ring| > 0
    ensures AckedCount(ResolveAll(ring, named).notes) > 0 <==> exists q: nat :: IsInFlight(ring, q) && q in named
    ensures forall q: nat | q !in named :: Get(ResolveAll(ring, named).ring, q) == Get(ring, q)
  {
    hide Get, Resolve;
    if named != [] {
      var n := |named| - 1;
      var init := ResolveAll(ring, named[..n]);
      AckedSome(ring, named[..n]);
      ResolveOne(init.ring, init.notes, named[n]);
      FewerInFlight(ring, named[..n]);
      assert forall q :: q in named <==> q in named[..n] || q == named[n];
    }
  }

  lemma FewerInFlight<P>(ring: Ring<P>, named: seq<nat>)
    requires |ring| > 0
    ensures forall q: nat | IsInFlight(ResolveAll(ring, named).ring, q) :: IsInFlight(ring, q)
  {
    ResolveAllSlots(ring, named);
  }

  // ----- Over every run -----

  datatype Trail<P> = Trail(states: seq<LedgerRuns.Trace<P>>, ops: seq<LedgerRuns.Op<P>>)

  /** A run of a ledger from `states[0]` on. */
  ghost predicate IsTrail<P>(r: Trail<P>) {
    && |r.states| == |r.ops| + 1
    && (forall k | 0 <= k < |r.ops| ::
          && |r.states[k].ledger.ring| > 0 && LedgerRuns.Allowed(r.states[k], r.ops[k])
          && r.states[k + 1] == LedgerRuns.Step(r.states[k], r.ops[k]))
  }

  /** When the last packet worth acknowledging went out. */
  ghost function LastSent<P>(r: Trail<P>, n: nat): nat
    requires IsTrail(r) && n <= |r.ops|
  {
    if n == 0 then r.states[0].clock
    else if r.ops[n - 1].Send? && r.ops[n - 1].outgoing.Eliciting? then r.ops[n - 1].now
    else LastSent(r, n - 1)
  }

  /** The timeouts that owed probes since a packet in flight was last acknowledged, or the path
  changed. */
  ghost function Unanswered<P>(r: Trail<P>, n: nat): nat
    requires IsTrail(r) && n <= |r.ops|
  {
    if n == 0 then 0
    else
      var l, op := r.states[n - 1].ledger, r.ops[n - 1];
      if op.PathChange? || (op.Ack? && Hits(l.ring, op.ack, op.bits)) then 0
      else if op.Timeout? && OnTimeout(l, op.now).probes > 0 then Unanswered(r, n - 1) + 1
      else Unanswered(r, n - 1)
  }

  lemma {:induction false} TrailKeeps<P>(r: Trail<P>, size: nat, start: nat, peerAckDelay: nat, n: nat)
    requires IsTrail(r) && n <= |r.ops| && size > 0 && r.states[0] == LedgerRuns.Start(size, start, peerAckDelay)
    requires forall k | 0 <= k < |r.ops| :: r.ops[k].Timeout? ==> r.ops[k].now < U64_MAX
    ensures var s := r.states[n];
            && Valid(s.ledger, s.clock) && s.ledger.peerAckDelay == peerAckDelay
            && s.ledger.lastEliciting == LastSent(r, n) && s.ledger.backoff == Min(Unanswered(r, n), 6)
    decreases n
  {
    hide Valid, OnSent, OnAck, OnTimeout;
    if n == 0 {
      NewValid<P>(size, start, peerAckDelay);
    } else {
      TrailKeeps(r, size, start, peerAckDelay, n - 1);
      var s, op := r.states[n - 1], r.ops[n - 1];
      match op
      case Send(now, num, outgoing) =>
        OnSentValid(s.ledger, s.clock, now, num, outgoing);
        SendTeaches(s.ledger, now, num, outgoing);
      case Ack(now, ack, delay, bits) =>
        OnAckValid(s.ledger, s.clock, now, ack, delay, bits);
        AckTeaches(s.ledger, s.clock, now, ack, delay, bits);
      case Timeout(now) =>
        OnTimeoutValid(s.ledger, s.clock, now);
        ProbesExact(s.ledger, s.clock, now);
        LossesTeach(s.ledger, now);
      case PathChange =>
        PathValid(s.ledger, s.clock);
    }
  }

  lemma SendTeaches<P>(l: Ledger<P>, now: nat, num: nat, outgoing: Outgoing<P>)
    requires |l.ring| > 0
    ensures var r := OnSent(l, now, num, outgoing).ledger;
            && r.lastEliciting == (if outgoing.Eliciting? then now else l.lastEliciting)
            && r.backoff == l.backoff && r.peerAckDelay == l.peerAckDelay && r.rtt == l.rtt
  {
    hide FirstInFlight;
  }

  lemma LossesTeach<P>(l: Ledger<P>, now: nat)
    requires |l.ring| > 0
    ensures var r := DetectLost(l, now).ledger;
            r.lastEliciting == l.lastEliciting && r.peerAckDelay == l.peerAckDelay && r.rtt == l.rtt
  {
    hide FirstInFlight, LostNotes, Swept;
  }

  lemma PathValid<P>(l: Ledger<P>, clock: nat)
    requires Valid(l, clock)
    ensures Valid(OnPathChange(l), clock)
  {
  }

  /** Over every run: a timeout owes probes exactly when something is still in flight and the last
  packet worth acknowledging went out the patience ago, doubled once for every timeout that owed
  probes since the peer was last heard to confirm a packet, though at most six times. */
  lemma ProbesOverRuns<P>(r: Trail<P>, size: nat, start: nat, peerAckDelay: nat, n: nat)
    requires IsTrail(r) && n < |r.ops| && size > 0 && r.states[0] == LedgerRuns.Start(size, start, peerAckDelay)
    requires r.ops[n].Timeout? && forall k | 0 <= k < |r.ops| :: r.ops[k].Timeout? ==> r.ops[k].now < U64_MAX
    ensures var l, now := r.states[n].ledger, r.ops[n].now;
            var t := OnTimeout(l, now);
            && |t.ledger.ring| > 0
            && t.probes == if (exists q: nat :: IsInFlight(t.ledger.ring, q))
                              && LastSent(r, n) + Patience(l.rtt, peerAckDelay) * Pow2(Min(Unanswered(r, n), 6)) <= now
                           then 2 else 0
  {
    hide Valid, OnTimeout;
    TrailKeeps(r, size, start, peerAckDelay, n);
    ProbesExact(r.states[n].ledger, r.states[n].clock, r.ops[n].now);
  }
}
