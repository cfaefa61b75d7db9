/** The delivery ledger: which packets are outstanding, which are confirmed or lost, and
when the next judgement falls due. Loss follows sections 6.1.1 and 6.1.2 of RFC 9002 and
the probe timeout section 6.2.1.

The functions give each operation as a step on values. `LedgerObject` holds the class that
performs the same steps in place, and `LedgerRuns` what holds over whole runs.
*/
module Ledger {
  import opened Machine
  import Rtt

  const REORDER_THRESHOLD: nat := 3
  const PROBE_PACKETS: nat := 2
  const MAX_BACKOFF: nat := 6
  const ACK_BITS: nat := 32

  datatype State<P> = InFlight(record: P) | Confirmed | DeclaredLost

  datatype Sent<P> = Sent(num: nat, at: nat, state: State<P>)

  /** Sequence q can only sit at index q modulo the length. */
  type Ring<P> = seq<Option<Sent<P>>>

  datatype Resolved<P> = Acked(record: P) | Lost(record: P) | Spurious

  /** A notification, tagged with the packet it is about. */
  datatype Note<P> = Note(num: nat, what: Resolved<P>)

  datatype Outgoing<P> = AckOnly | Eliciting(record: P)

  /** `largestSent` and `largestAcked` are 0 until there is one. */
  datatype Ledger<P> = Ledger(
    ring: Ring<P>,
    largestSent: nat,
    oldest: nat,
    largestAcked: nat,
    lastEliciting: nat,
    rtt: Rtt.Rtt,
    inFlight: int,
    backoff: nat,
    peerAckDelay: nat)

  /** A step's new ledger and the notifications it makes, in order. */
  datatype Outcome<P> = Outcome(ledger: Ledger<P>, notes: seq<Note<P>>)

  function Get<P>(ring: Ring<P>, q: nat): (e: Option<Sent<P>>)
    requires |ring| > 0
  {
    var e := ring[q % |ring|];
    if e.Some? && e.value.num == q then e else None
  }

  predicate IsInFlight<P>(ring: Ring<P>, q: nat)
    requires |ring| > 0
  {
    Get(ring, q).Some? && Get(ring, q).value.state.InFlight?
  }

  function New<P>(n: nat, now: nat, peerAckDelay: nat): Ledger<P> {
    Ledger(seq(n, _ => None), 0, 1, 0, now, None, 0, 0, peerAckDelay)
  }

  /** The first sequence from `q` on that is in flight, or the one after the largest sent. */
  function FirstInFlight<P>(ring: Ring<P>, q: nat, largestSent: nat): (r: nat)
    requires |ring| > 0
    ensures r >= q
    ensures q <= largestSent + 1 ==> r <= largestSent + 1
    ensures r <= largestSent ==> IsInFlight(ring, r)
    ensures forall k | q <= k < r :: !IsInFlight(ring, k)
    decreases largestSent + 1 - q
  {
    if q > largestSent || IsInFlight(ring, q) then q else FirstInFlight(ring, q + 1, largestSent)
  }

  function Advanced<P>(l: Ledger<P>): Ledger<P>
    requires |l.ring| > 0
  {
    if l.largestSent == 0 then l else l.(oldest := FirstInFlight(l.ring, l.oldest, l.largestSent))
  }

  /** Tracking a packet may evict another, which then counts as lost if it was in flight. */
  function OnSent<P>(l: Ledger<P>, now: nat, q: nat, outgoing: Outgoing<P>): Outcome<P>
    requires |l.ring| > 0
  {
    var l1 := l.(largestSent := Max(l.largestSent, q));
    match outgoing
    case AckOnly => Outcome(Advanced(l1), [])
    case Eliciting(record) =>
      var evicted := l.ring[q % |l.ring|];
      var unresolved := evicted.Some? && evicted.value.state.InFlight?;
      var l2 := l1.(ring := l.ring[q % |l.ring| := Some(Sent(q, now, InFlight(record)))],
                    lastEliciting := now,
                    inFlight := l.inFlight + if unresolved then 0 else 1);
      Outcome(Advanced(l2),
              if unresolved then [Note(evicted.value.num, Lost(evicted.value.state.record))] else [])
  }

  /** A ring and the notifications made in reaching it. */
  datatype Settled<P> = Settled(ring: Ring<P>, notes: seq<Note<P>>)

  /** What an acknowledgement of `q` does to the ring. */
  function Resolve<P>(ring: Ring<P>, q: nat): Settled<P>
    requires |ring| > 0
  {
    var e := Get(ring, q);
    if e.None? then Settled(ring, [])
    else
      var ring' := ring[q % |ring| := Some(e.value.(state := Confirmed))];
      match e.value.state
      case Confirmed => Settled(ring', [])
      case DeclaredLost => Settled(ring', [Note(q, Spurious)])
      case InFlight(record) => Settled(ring', [Note(q, Acked(record))])
  }

  /** The sequences an acknowledgement names: `ack`, then `ack - 1 - i` for each set bit i. */
  function Named(ack: nat, bits: seq<bool>, k: nat): (named: seq<nat>)
    requires k <= |bits|
    ensures |named| >= 1 && named[0] == ack
    ensures forall i | 0 <= i < |named| :: named[i] <= ack
  {
    if k == 0 then [ack]
    else
      var rest := Named(ack, bits, k - 1);
      if bits[k - 1] && ack > k then rest + [ack - k] else rest
  }

  function ResolveAll<P>(ring: Ring<P>, named: seq<nat>): (s: Settled<P>)
    requires |ring| > 0
    ensures |s.ring| == |ring|
  {
    if named == [] then Settled(ring, [])
    else
      var init := ResolveAll(ring, named[..|named| - 1]);
      var last := Resolve(init.ring, named[|named| - 1]);
      Settled(last.ring, init.notes + last.notes)
  }

  function AckedCount<P>(notes: seq<Note<P>>): (n: nat)
    ensures n <= |notes|
  {
    if notes == [] then 0
    else AckedCount(notes[..|notes| - 1]) + if notes[|notes| - 1].what.Acked? then 1 else 0
  }

  function LossDelay(rtt: Rtt.Rtt): nat {
    Max(SatMul(Max(Rtt.Smoothed(rtt), Rtt.Latest(rtt)), 9) / 8, Rtt.TIMER_GRANULARITY)
  }

  /** Lost by count or by time, and older than the largest acknowledged. */
  predicate Overdue<P>(l: Ledger<P>, now: nat, s: Sent<P>) {
    && s.state.InFlight?
    && s.num < l.largestAcked
    && (s.num + REORDER_THRESHOLD <= l.largestAcked || Since(now, s.at) >= LossDelay(l.rtt))
  }

  /** The ring with every overdue packet below `hi` declared lost. */
  function Swept<P>(l: Ledger<P>, now: nat, hi: nat): (ring: Ring<P>)
    ensures |ring| == |l.ring|
  {
    seq(|l.ring|, i requires 0 <= i < |l.ring| =>
      var e := l.ring[i];
      if e.Some? && e.value.num < hi && Overdue(l, now, e.value)
      then Some(e.value.(state := DeclaredLost)) else e)
  }

  /** The losses below `hi`, oldest first. */
  function LostNotes<P>(l: Ledger<P>, now: nat, hi: nat): seq<Note<P>>
    requires |l.ring| > 0
  {
    if hi == 0 then []
    else
      var e := Get(l.ring, hi - 1);
      LostNotes(l, now, hi - 1) +
      if e.Some? && Overdue(l, now, e.value) then [Note(hi - 1, Lost(e.value.state.record))] else []
  }

  /** Loss detection without shortcuts: all sequences ever sent are judged. */
  function DetectLost<P>(l: Ledger<P>, now: nat): Outcome<P>
    requires |l.ring| > 0
  {
    if l.largestAcked == 0 then Outcome(l, [])
    else
      var notes := LostNotes(l, now, l.largestAcked);
      Outcome(Advanced(l.(ring := Swept(l, now, l.largestAcked), inFlight := l.inFlight - |notes|)), notes)
  }

  /** The send time of `q`, when it is still in flight. */
  function SentAt<P>(ring: Ring<P>, q: nat): Option<nat>
    requires |ring| > 0
  {
    if IsInFlight(ring, q) then Some(Get(ring, q).value.at) else None
  }

  function Acknowledged<P>(l: Ledger<P>, now: nat, ack: nat, ackDelay: Option<nat>, bits: seq<bool>): Outcome<P>
    requires |l.ring| > 0
  {
    var s := ResolveAll(l.ring, Named(ack, bits, |bits|));
    var sample := SentAt(l.ring, ack);
    var newest := ack > l.largestAcked;
    Outcome(l.(ring := s.ring,
               inFlight := l.inFlight - AckedCount(s.notes),
               largestAcked := Max(l.largestAcked, ack),
               rtt := if newest && sample.Some? && ackDelay.Some?
                      then Rtt.Update(l.rtt, now, Since(now, sample.value), ackDelay.value) else l.rtt,
               backoff := if AckedCount(s.notes) > 0 then 0 else l.backoff),
            s.notes)
  }

  function OnAck<P>(l: Ledger<P>, now: nat, ack: nat, ackDelay: Option<nat>, bits: seq<bool>): Outcome<P>
    requires |l.ring| > 0
  {
    var a := Acknowledged(l, now, ack, ackDelay, bits);
    var d := DetectLost(a.ledger, now);
    Outcome(d.ledger, a.notes + d.notes)
  }

  function Factor(backoff: nat): nat { if backoff == 0 then 1 else 2 * Factor(backoff - 1) }

  /** The deadline of the packet at the cursor, if something sent after it has been acknowledged. */
  function LossTime<P>(l: Ledger<P>): Option<nat>
    requires |l.ring| > 0
  {
    if l.oldest < l.largestAcked && IsInFlight(l.ring, l.oldest)
    then Some(SatAdd(Get(l.ring, l.oldest).value.at, LossDelay(l.rtt))) else None
  }

  function ProbeDeadline<P>(l: Ledger<P>): Option<nat>
    requires |l.ring| > 0
  {
    if !IsInFlight(l.ring, l.oldest) then None
    else
      var jitter := Max(SatMul(Rtt.Variation(l.rtt), 4), Rtt.TIMER_GRANULARITY);
      var wait := SatAdd(SatAdd(Rtt.Smoothed(l.rtt), jitter), l.peerAckDelay);
      Some(SatAdd(l.lastEliciting, SatMul(wait, Factor(l.backoff))))
  }

  function NextTimeout<P>(l: Ledger<P>): Option<nat>
    requires |l.ring| > 0
  {
    Earlier(LossTime(l), ProbeDeadline(l))
  }

  /** `probes` is how many packets are owed. */
  datatype TimedOut<P> = TimedOut(ledger: Ledger<P>, notes: seq<Note<P>>, probes: nat)

  function OnTimeout<P>(l: Ledger<P>, now: nat): TimedOut<P>
    requires |l.ring| > 0
  {
    var d := DetectLost(l, now);
    if Due(ProbeDeadline(d.ledger), now)
    then TimedOut(d.ledger.(backoff := Min(d.ledger.backoff + 1, MAX_BACKOFF)), d.notes, PROBE_PACKETS)
    else TimedOut(d.ledger, d.notes, 0)
  }

  function OnPathChange<P>(l: Ledger<P>): Ledger<P> { l.(rtt := None, backoff := 0) }

  // ----- The invariant -----

  function CountInFlight<P>(ring: Ring<P>): (n: nat) {
    if ring == [] then 0
    else
      var e := ring[|ring| - 1];
      CountInFlight(ring[..|ring| - 1]) + if e.Some? && e.value.state.InFlight? then 1 else 0
  }

  ghost predicate RingValid<P>(ring: Ring<P>, largestSent: nat) {
    && |ring| > 0
    && (forall i | 0 <= i < |ring| && ring[i].Some? ::
          ring[i].value.num % |ring| == i && 1 <= ring[i].value.num <= largestSent)
  }

  /** Send times grow with sequences and end at `clock`. */
  ghost predicate Chronological<P>(ring: Ring<P>, clock: nat) {
    && (forall i | 0 <= i < |ring| && ring[i].Some? :: ring[i].value.at <= clock)
    && (forall i, j | 0 <= i < |ring| && 0 <= j < |ring| && ring[i].Some? && ring[j].Some? ::
          ring[i].value.num <= ring[j].value.num ==> ring[i].value.at <= ring[j].value.at)
  }

  /** Nothing before `oldest` is in flight. */
  ghost predicate OldestBound<P>(l: Ledger<P>)
    requires |l.ring| > 0
  {
    && 1 <= l.oldest <= l.largestSent + 1
    && (forall q | 0 <= q < l.oldest :: !IsInFlight(l.ring, q))
  }

  /** What holds even between a packet's resolution and the scan that follows it. */
  ghost predicate Sound<P>(l: Ledger<P>, clock: nat) {
    && RingValid(l.ring, l.largestSent)
    && Chronological(l.ring, clock)
    && OldestBound(l)
    && l.inFlight == CountInFlight(l.ring)
    && l.largestAcked <= l.largestSent
    && l.lastEliciting <= clock
    && l.backoff <= MAX_BACKOFF
  }

  /** No packet in flight is as far behind the largest acknowledged as the reorder threshold. */
  ghost predicate NoneTrailing<P>(l: Ledger<P>)
    requires |l.ring| > 0
  {
    forall q: nat | IsInFlight(l.ring, q) :: q + REORDER_THRESHOLD > l.largestAcked
  }

  /** Between operations `oldest` is the smallest sequence in flight, or one past the
  largest sent, and what is lost by count has been declared so. */
  ghost predicate Valid<P>(l: Ledger<P>, clock: nat) {
    && Sound(l, clock)
    && (l.oldest <= l.largestSent ==> IsInFlight(l.ring, l.oldest))
    && NoneTrailing(l)
  }

  lemma {:induction false} CountUpdate<P>(ring: Ring<P>, i: nat, e: Option<Sent<P>>)
    requires i < |ring|
    ensures CountInFlight(ring[i := e])
            == CountInFlight(ring)
               - (if ring[i].Some? && ring[i].value.state.InFlight? then 1 else 0)
               + (if e.Some? && e.value.state.InFlight? then 1 else 0)
  {
    var n := |ring| - 1;
    if i == n {
      assert ring[i := e][..n] == ring[..n];
    } else {
      assert ring[i := e][..n] == ring[..n][i := e];
      CountUpdate(ring[..n], i, e);
    }
  }

  lemma {:induction false} CountZero<P>(ring: Ring<P>)
    requires forall i | 0 <= i < |ring| :: ring[i].Some? ==> !ring[i].value.state.InFlight?
    ensures CountInFlight(ring) == 0
  {
    if ring != [] {
      assert forall i | 0 <= i < |ring| - 1 :: ring[..|ring| - 1][i] == ring[i];
      CountZero(ring[..|ring| - 1]);
    }
  }

  lemma CountPositive<P>(ring: Ring<P>, i: nat)
    requires i < |ring| && ring[i].Some? && ring[i].value.state.InFlight?
    ensures CountInFlight(ring) > 0
  {
    CountUpdate(ring, i, None);
  }

  lemma NewValid<P>(n: nat, now: nat, peerAckDelay: nat)
    requires n > 0
    ensures Valid(New<P>(n, now, peerAckDelay), now)
  {
    CountZero(New<P>(n, now, peerAckDelay).ring);
  }

  /** Advancing from any bound below every packet in flight lands on the smallest one. */
  lemma AdvancedValid<P>(l: Ledger<P>, clock: nat)
    requires Sound(l, clock) && NoneTrailing(l)
    ensures Valid(Advanced(l), clock)
  {
  }

  lemma OnSentValid<P>(l: Ledger<P>, clock: nat, now: nat, q: nat, outgoing: Outgoing<P>)
    requires Valid(l, clock) && now >= clock && q > l.largestSent
    ensures Valid(OnSent(l, now, q, outgoing).ledger, now)
    ensures OnSent(l, now, q, outgoing).ledger.largestSent == q
  {
    hide CountInFlight, FirstInFlight;
    var n := |l.ring|;
    var l1 := l.(largestSent := q);
    match outgoing
    case AckOnly =>
      AdvancedValid(l1, now);
    case Eliciting(record) =>
      var e := Some(Sent(q, now, InFlight(record)));
      CountUpdate(l.ring, q % n, e);
      var evicted := l.ring[q % n];
      var l2 := l1.(ring := l.ring[q % n := e], lastEliciting := now,
                    inFlight := l.inFlight + if evicted.Some? && evicted.value.state.InFlight? then 0 else 1);
      forall k | 0 <= k < l.oldest
        ensures !IsInFlight(l2.ring, k)
      {
        assert !IsInFlight(l.ring, k);
      }
      AdvancedValid(l2, now);
  }

  /** What resolving a packet does to each slot: only states change, and only its own. */
  ghost predicate SameSlots<P>(a: Ring<P>, b: Ring<P>) {
    && |a| == |b|
    && (forall i | 0 <= i < |a| ::
          && (a[i].Some? <==> b[i].Some?)
          && (a[i].Some? ==> a[i].value.num == b[i].value.num && a[i].value.at == b[i].value.at)
          && (b[i].Some? && b[i].value.state.InFlight? ==> a[i] == b[i]))
  }

  lemma SameSlotsKeeps<P>(a: Ring<P>, b: Ring<P>, largestSent: nat, clock: nat)
    requires SameSlots(a, b) && RingValid(a, largestSent) && Chronological(a, clock)
    ensures RingValid(b, largestSent) && Chronological(b, clock)
    ensures forall q: nat | IsInFlight(b, q) :: IsInFlight(a, q)
  {
  }

  lemma AckedCountAppend<P>(a: seq<Note<P>>, note: Note<P>)
    ensures AckedCount(a + [note]) == AckedCount(a) + if note.what.Acked? then 1 else 0
  {
    assert (a + [note])[..|a|] == a;
  }

  lemma ResolveSlots<P>(ring: Ring<P>, q: nat)
    requires |ring| > 0
    ensures var s := Resolve(ring, q);
            && SameSlots(ring, s.ring)
            && CountInFlight(s.ring) == CountInFlight(ring) - AckedCount(s.notes)
  {
    var e := Get(ring, q);
    if e.Some? {
      CountUpdate(ring, q % |ring|, Some(e.value.(state := Confirmed)));
    }
  }

  lemma {:induction false} ResolveAllSlots<P>(ring: Ring<P>, named: seq<nat>)
    requires |ring| > 0
    ensures var s := ResolveAll(ring, named);
            && SameSlots(ring, s.ring)
            && CountInFlight(s.ring) == CountInFlight(ring) - AckedCount(s.notes)
  {
    if named != [] {
      var n := |named| - 1;
      var init := ResolveAll(ring, named[..n]);
      ResolveAllSlots(ring, named[..n]);
      ResolveSlots(init.ring, named[n]);
      var last := Resolve(init.ring, named[n]);
      if last.notes == [] {
        assert init.notes + last.notes == init.notes;
      } else {
        AckedCountAppend(init.notes, last.notes[0]);
        assert init.notes + last.notes == init.notes + [last.notes[0]];
      }
    }
  }

  lemma SweptSlots<P>(l: Ledger<P>, now: nat, hi: nat)
    ensures SameSlots(l.ring, Swept(l, now, hi))
  {
  }

  /** One more sequence swept changes at most its own slot. */
  lemma SweptNext<P>(l: Ledger<P>, now: nat, hi: nat)
    requires RingValid(l.ring, l.largestSent)
    ensures var e := Get(l.ring, hi);
            Swept(l, now, hi + 1) ==
            if e.Some? && Overdue(l, now, e.value)
            then Swept(l, now, hi)[hi % |l.ring| := Some(e.value.(state := DeclaredLost))]
            else Swept(l, now, hi)
  {
  }

  /** A packet not yet swept is as it was, and one given up was in flight. */
  lemma SweptBefore<P>(l: Ledger<P>, now: nat, q: nat)
    requires |l.ring| > 0 && Get(l.ring, q).Some?
    ensures Swept(l, now, q)[q % |l.ring|] == Get(l.ring, q)
    ensures Overdue(l, now, Get(l.ring, q).value) ==> Get(l.ring, q).value.state.InFlight?
  {
  }

  lemma {:induction false} SweptCount<P>(l: Ledger<P>, now: nat, hi: nat)
    requires RingValid(l.ring, l.largestSent)
    ensures CountInFlight(Swept(l, now, hi)) == CountInFlight(l.ring) - |LostNotes(l, now, hi)|
  {
    hide CountInFlight, Overdue, Swept, Get;
    if hi == 0 {
      SweptNone(l, now);
    } else {
      SweptCount(l, now, hi - 1);
      SweptNext(l, now, hi - 1);
      var e := Get(l.ring, hi - 1);
      if e.Some? && Overdue(l, now, e.value) {
        SweptBefore(l, now, hi - 1);
        CountUpdate(Swept(l, now, hi - 1), (hi - 1) % |l.ring|, Some(e.value.(state := DeclaredLost)));
      }
    }
  }

  lemma SweptNone<P>(l: Ledger<P>, now: nat)
    ensures Swept(l, now, 0) == l.ring
  {
  }

  lemma SweptTrailing<P>(l: Ledger<P>, now: nat)
    requires |l.ring| > 0
    ensures NoneTrailing(l.(ring := Swept(l, now, l.largestAcked)))
  {
  }

  lemma DetectLostValid<P>(l: Ledger<P>, clock: nat, now: nat)
    requires Sound(l, clock) && now >= clock && l.largestAcked > 0
    ensures Valid(DetectLost(l, now).ledger, now)
  {
    var hi := l.largestAcked;
    SweptSlots(l, now, hi);
    SweptCount(l, now, hi);
    SameSlotsKeeps(l.ring, Swept(l, now, hi), l.largestSent, now);
    SweptTrailing(l, now);
    AdvancedValid(l.(ring := Swept(l, now, hi), inFlight := l.inFlight - |LostNotes(l, now, hi)|), now);
  }

  lemma AcknowledgedSound<P>(l: Ledger<P>, clock: nat, now: nat, ack: nat, ackDelay: Option<nat>, bits: seq<bool>)
    requires Sound(l, clock) && now >= clock && 1 <= ack <= l.largestSent
    ensures Sound(Acknowledged(l, now, ack, ackDelay, bits).ledger, now)
  {
    var named := Named(ack, bits, |bits|);
    ResolveAllSlots(l.ring, named);
    SameSlotsKeeps(l.ring, ResolveAll(l.ring, named).ring, l.largestSent, now);
  }

  lemma OnAckValid<P>(l: Ledger<P>, clock: nat, now: nat, ack: nat, ackDelay: Option<nat>, bits: seq<bool>)
    requires Valid(l, clock) && now >= clock && 1 <= ack <= l.largestSent
    ensures Valid(OnAck(l, now, ack, ackDelay, bits).ledger, now)
  {
    AcknowledgedSound(l, clock, now, ack, ackDelay, bits);
    DetectLostValid(Acknowledged(l, now, ack, ackDelay, bits).ledger, now, now);
  }

  lemma OnTimeoutValid<P>(l: Ledger<P>, clock: nat, now: nat)
    requires Valid(l, clock) && now >= clock
    ensures Valid(OnTimeout(l, now).ledger, now)
  {
    if l.largestAcked > 0 {
      DetectLostValid(l, clock, now);
    }
  }

  lemma OnAckKeepsSent<P>(l: Ledger<P>, now: nat, ack: nat, ackDelay: Option<nat>, bits: seq<bool>)
    requires |l.ring| > 0
    ensures OnAck(l, now, ack, ackDelay, bits).ledger.largestSent == l.largestSent
  {
    hide FirstInFlight, ResolveAll, Named, AckedCount, LostNotes, Rtt.Update, SentAt;
  }

  lemma OnTimeoutKeepsSent<P>(l: Ledger<P>, now: nat)
    requires |l.ring| > 0
    ensures OnTimeout(l, now).ledger.largestSent == l.largestSent
  {
    hide FirstInFlight, LostNotes, ProbeDeadline;
  }

  // ----- Deadlines -----

  lemma OverdueMonotone<P>(l: Ledger<P>, clock: nat, now: nat, i: nat, j: nat)
    requires Chronological(l.ring, clock) && i < |l.ring| && j < |l.ring|
    requires l.ring[i].Some? && l.ring[j].Some? && l.ring[i].value.num <= l.ring[j].value.num
    requires l.ring[i].value.state.InFlight? && !Overdue(l, now, l.ring[i].value)
    ensures !Overdue(l, now, l.ring[j].value)
  {
  }

  /** The loss deadline read from one slot is the earliest over all of them, and there is
  one exactly when some packet in flight precedes the largest acknowledged. */
  lemma LossTimeEarliest<P>(l: Ledger<P>, clock: nat)
    requires Valid(l, clock)
    ensures LossTime(l).Some? <==> exists q: nat :: IsInFlight(l.ring, q) && q < l.largestAcked
    ensures forall q: nat | IsInFlight(l.ring, q) && q < l.largestAcked ::
              LossTime(l).Some? && LossTime(l).value <= SatAdd(Get(l.ring, q).value.at, LossDelay(l.rtt))
    ensures LossTime(l).Some? ==>
              exists q: nat :: IsInFlight(l.ring, q) && q < l.largestAcked
                               && LossTime(l).value == SatAdd(Get(l.ring, q).value.at, LossDelay(l.rtt))
  {
    forall q: nat | IsInFlight(l.ring, q)
      ensures l.oldest <= q && IsInFlight(l.ring, l.oldest)
      ensures Get(l.ring, l.oldest).value.at <= Get(l.ring, q).value.at
    {
      assert q <= l.largestSent;
    }
  }

  /** A timer is armed exactly while something is in flight, so no packet waits unjudged. */
  lemma TimerArmedIffInFlight<P>(l: Ledger<P>, clock: nat)
    requires Valid(l, clock)
    ensures NextTimeout(l).Some? <==> l.inFlight > 0
  {
    if l.oldest <= l.largestSent {
      CountPositive(l.ring, l.oldest % |l.ring|);
    } else {
      forall i | 0 <= i < |l.ring|
        ensures l.ring[i].Some? ==> !l.ring[i].value.state.InFlight?
      {
        if l.ring[i].Some? {
          assert !IsInFlight(l.ring, l.ring[i].value.num);
        }
      }
      CountZero(l.ring);
    }
  }

  lemma {:induction false} LostNotesMember<P>(l: Ledger<P>, now: nat, hi: nat, q: nat)
    requires |l.ring| > 0 && q < hi
    requires Get(l.ring, q).Some? && Overdue(l, now, Get(l.ring, q).value)
    ensures LostNotes(l, now, hi) != []
  {
    if q < hi - 1 {
      LostNotesMember(l, now, hi - 1, q);
    }
  }

  /** A timeout serviced at or after its deadline always reports a loss or owes probes,
  even where a deadline has saturated at the end of the clock's range. */
  lemma TimeoutMakesProgress<P>(l: Ledger<P>, clock: nat, now: nat)
    requires Valid(l, clock) && clock <= now <= U64_MAX
    requires Due(NextTimeout(l), now)
    ensures var t := OnTimeout(l, now); t.notes != [] || t.probes == PROBE_PACKETS
  {
    if Due(LossTime(l), now) && now < U64_MAX {
      LostNotesMember(l, now, l.largestAcked, l.oldest);
    } else if l.largestAcked > 0 && DetectLost(l, now).notes == [] {
      NothingLost(l, clock, now);
    }
  }

  lemma NothingLost<P>(l: Ledger<P>, clock: nat, now: nat)
    requires Valid(l, clock) && l.largestAcked > 0
    requires LostNotes(l, now, l.largestAcked) == []
    ensures DetectLost(l, now).ledger == l
  {
    var hi := l.largestAcked;
    forall i | 0 <= i < |l.ring| && l.ring[i].Some?
      ensures !(l.ring[i].value.num < hi && Overdue(l, now, l.ring[i].value))
    {
      var q := l.ring[i].value.num;
      if q < hi && Overdue(l, now, l.ring[i].value) {
        assert Get(l.ring, q) == l.ring[i];
        LostNotesMember(l, now, hi, q);
      }
    }
    assert Swept(l, now, hi) == l.ring;
  }
}
