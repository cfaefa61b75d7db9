/** What the send budget comes to over runs: how much can be spent in a stretch of time, what moves
the rate and by how much, and how soon it recovers. */
module BudgetRuns {
  import opened Machine
  import opened Budget
  import Rtt

  // ----- What moves the rate -----

  /** The least round trip of late is above the least known by a quarter of it, and by 10 ms. */
  predicate Queueing(rtt: Rtt.Rtt) {
    rtt.Some?
    && var least, late := rtt.value.min.Get(), rtt.value.recent.Get();
       late > least + least / 4 && late > least + 10_000_000
  }

  /** More than one packet in fifty was lost, or a queue is seen at a second assessment running. */
  predicate Congested(b: Budget, rtt: Rtt.Rtt) {
    50 * b.windowLost > b.windowSent || (Queueing(rtt) && b.queueSignals >= 1)
  }

  /** The rate is judged: a round trip and 100 ms have gone by, and twenty packets. */
  predicate Judges(b: Budget, now: nat, rtt: Rtt.Rtt) {
    now >= b.lastAssessed + Rtt.Smoothed(rtt) && now >= b.lastAssessed + 100_000_000 && b.windowSent >= 20
  }

  /** Round trips are 64-bit numbers. */
  predicate Sixtyfour(rtt: Rtt.Rtt) { rtt.Some? ==> rtt.value.recent.Get() <= U64_MAX }

  /** An assessment that judges lowers the rate to three quarters on congestion, but not below 2000, and
  otherwise raises it by a sixteenth of the configured one, up to that; the count starts again. One that
  does not judge leaves the rate, the counts and the queue seen as they were. */
  lemma AssessExact(b: Budget, now: nat, rtt: Rtt.Rtt)
    requires Consistent(b) && b.lastAssessed <= now && Sixtyfour(rtt)
    ensures var r := Assess(b, now, rtt);
            if Judges(b, now, rtt) then
              && r.rate == (if Congested(b, rtt) then Max(3 * (b.rate / 4), 2000)
                            else Min(b.rate + Max(b.config.rate / 16, 1), b.config.rate))
              && r.queueSignals == (if Congested(b, rtt) || !Queueing(rtt) then 0 else 1)
              && r.windowSent == 0 && r.windowLost == 0 && r.lastAssessed == now
              && r.tokens == Min(b.tokens, r.capacity) && r.lastRefill == b.lastRefill
            else r == b || r == b.(lastAssessed := now)
  {
    hide Refill, CapacityFor, Rtt.Smoothed;
  }

  // ----- Runs -----

  /** Anything that can happen to a budget. */
  datatype Op =
    | Earn(now: nat)
    | Spend(len: nat, eliciting: bool)
    | Lose
    | Excuse
    | Judge(now: nat, rtt: Rtt.Rtt)
    | Move(now: nat)

  function Step(b: Budget, op: Op): Budget {
    match op
    case Earn(now) => Advance(b, now)
    case Spend(len, eliciting) => OnSent(b, len, eliciting)
    case Lose => OnLost(b)
    case Excuse => OnSpurious(b)
    case Judge(now, rtt) => Assess(b, now, rtt)
    case Move(now) => OnPathChange(b, now)
  }

  /** Assessments are not made in the past. */
  ghost predicate Timely(b: Budget, op: Op) { op.Judge? ==> b.lastAssessed <= op.now && Sixtyfour(op.rtt) }

  ghost predicate IsRun(bs: seq<Budget>, ops: seq<Op>) {
    && |bs| == |ops| + 1
    && forall k | 0 <= k < |ops| :: Timely(bs[k], ops[k]) && bs[k + 1] == Step(bs[k], ops[k])
  }

  lemma StepConsistent(b: Budget, op: Op)
    requires Consistent(b)
    ensures Consistent(Step(b, op)) && Step(b, op).config == b.config
  {
    hide Consistent, Advance, OnSent, OnLost, OnSpurious, Assess, OnPathChange;
    match op {
      case Earn(now) => OperationsConsistent(b, now, 0, false, None);
      case Spend(len, eliciting) => OperationsConsistent(b, 0, len, eliciting, None);
      case Judge(now, rtt) => OperationsConsistent(b, now, 0, false, rtt);
      case Move(now) => OperationsConsistent(b, now, 0, false, None);
      case _ => OperationsConsistent(b, 0, 0, false, None);
    }
    SameConfig(b, op);
  }

  lemma SameConfig(b: Budget, op: Op)
    ensures Step(b, op).config == b.config
  {
    hide Refill, CapacityFor;
  }

  lemma {:induction false} RunConsistent(bs: seq<Budget>, ops: seq<Op>, n: nat)
    requires IsRun(bs, ops) && Consistent(bs[0]) && n <= |ops|
    ensures Consistent(bs[n]) && bs[n].config == bs[0].config
    decreases n
  {
    hide Consistent, Step;
    if n > 0 {
      RunConsistent(bs, ops, n - 1);
      StepConsistent(bs[n - 1], ops[n - 1]);
    }
  }

  // ----- What is counted -----

  /** A loss that turns out not to have been one is as if it had not been reported. */
  lemma LossWithdrawn(b: Budget)
    requires b.windowLost < U32_MAX
    ensures OnSpurious(OnLost(b)) == b
  {
  }

  predicate Resets(b: Budget, op: Op) { op.Move? || (op.Judge? && Judges(b, op.now, op.rtt)) }

  function Eliciting(ops: seq<Op>): nat {
    if ops == [] then 0
    else Eliciting(ops[..|ops| - 1]) + if ops[|ops| - 1].Spend? && ops[|ops| - 1].eliciting then 1 else 0
  }

  lemma StepCounts(b: Budget, op: Op)
    requires Consistent(b) && Timely(b, op) && !Resets(b, op) && b.windowSent <= U32_MAX
    ensures Step(b, op).windowSent == Min(b.windowSent + Eliciting([op]), U32_MAX)
  {
    hide Refill, CapacityFor, Judges, Assess;
    assert [op][..0] == [];
    if op.Judge? {
      AssessExact(b, op.now, op.rtt);
    }
  }

  /** Between judgements, the packets counted are those that ask to be acknowledged, and no others. */
  lemma {:induction false} SentCounted(bs: seq<Budget>, ops: seq<Op>, n: nat)
    requires IsRun(bs, ops) && Consistent(bs[0]) && n <= |ops| && bs[0].windowSent == 0
    requires forall k | 0 <= k < n :: !Resets(bs[k], ops[k])
    ensures bs[n].windowSent == Min(Eliciting(ops[..n]), U32_MAX)
    decreases n
  {
    hide Step, Resets, Timely, Consistent;
    if n > 0 {
      SentCounted(bs, ops, n - 1);
      RunConsistent(bs, ops, n - 1);
      StepCounts(bs[n - 1], ops[n - 1]);
      assert ops[..n][..n - 1] == ops[..n - 1] && [ops[n - 1]][..0] == [];
    }
  }

  // ----- What can be spent -----

  /** The bytes of a packet the bucket covers. */
  function Covered(b: Budget, op: Op): nat {
    if op.Spend? && op.len * FRACTION <= b.tokens then op.len else 0
  }

  function Paid(bs: seq<Budget>, ops: seq<Op>, n: nat): nat
    requires n <= |ops| && |bs| == |ops| + 1
  {
    if n == 0 then 0 else Paid(bs, ops, n - 1) + Covered(bs[n - 1], ops[n - 1])
  }

  lemma RefillGrows(rate: nat, more: nat)
    requires rate <= more
    ensures Refill(rate) <= Refill(more)
    ensures NANOS_PER_SECOND * Refill(rate) <= rate * FRACTION
  {
  }

  lemma Times(x: nat, y: nat, k: nat)
    requires x <= y
    ensures k * x <= k * y
  {
  }

  lemma RefillBelow(b: Budget, elapsed: nat)
    requires Consistent(b)
    ensures SatMul(elapsed, b.refill) <= Refill(b.config.rate) * elapsed
  {
    hide CapacityFor, Refill, SatMul;
    RefillGrows(b.rate, b.config.rate);
    Product(elapsed, b.refill);
    Times(b.refill, Refill(b.config.rate), elapsed);
  }

  lemma EarnPays(b: Budget, now: nat)
    requires Consistent(b)
    ensures var r := Advance(b, now);
            && r.lastRefill >= b.lastRefill && r.config == b.config
            && r.tokens <= b.tokens + Refill(b.config.rate) * (r.lastRefill - b.lastRefill)
  {
    hide Consistent, Refill, SatMul;
    var r, elapsed := Advance(b, now), Since(now, b.lastRefill);
    RefillBelow(b, elapsed);
    assert r.lastRefill - b.lastRefill == elapsed;
  }

  /** A step leaves no more than there was, less what it paid for, and what the time earned. */
  lemma StepPays(b: Budget, op: Op)
    requires Consistent(b)
    ensures var r := Step(b, op);
            && r.lastRefill >= b.lastRefill
            && FRACTION * Covered(b, op) + r.tokens <= b.tokens + Refill(b.config.rate) * (r.lastRefill - b.lastRefill)
  {
    hide Consistent, Advance, Refill, CapacityFor;
    if op.Earn? {
      EarnPays(b, op.now);
    }
  }

  lemma {:induction false} RunPays(bs: seq<Budget>, ops: seq<Op>, n: nat)
    requires IsRun(bs, ops) && Consistent(bs[0]) && n <= |ops|
    ensures bs[n].lastRefill >= bs[0].lastRefill
    ensures FRACTION * Paid(bs, ops, n) + bs[n].tokens
            <= bs[0].tokens + Refill(bs[0].config.rate) * (bs[n].lastRefill - bs[0].lastRefill)
    decreases n
  {
    hide Consistent, Step, Refill, Covered;
    if n > 0 {
      RunPays(bs, ops, n - 1);
      RunConsistent(bs, ops, n - 1);
      StepPays(bs[n - 1], ops[n - 1]);
      var r := Refill(bs[0].config.rate);
      var d, e := bs[n - 1].lastRefill - bs[0].lastRefill, bs[n].lastRefill - bs[n - 1].lastRefill;
      Distribute(d, e, r);
      assert r * d + r * e == r * (d + e);
    }
  }

  /** Over any run: what is sent within the allowance in a stretch of time is at most a burst, a quarter of
  a second's worth or one packet, and the configured rate for that time. */
  lemma SpendingBounded(bs: seq<Budget>, ops: seq<Op>, n: nat)
    requires IsRun(bs, ops) && Consistent(bs[0]) && n <= |ops|
    ensures bs[n].lastRefill >= bs[0].lastRefill
    ensures 1_000_000_000 * Paid(bs, ops, n)
            <= 1_000_000_000 * Max(bs[0].config.rate / 4, bs[0].config.maxPacket)
               + bs[0].config.rate * (bs[n].lastRefill - bs[0].lastRefill)
  {
    hide Step, Refill, Paid;
    RunPays(bs, ops, n);
    var rate, elapsed := bs[0].config.rate, bs[n].lastRefill - bs[0].lastRefill;
    var burst := Max(rate / 4, bs[0].config.maxPacket);
    assert bs[0].tokens <= burst * FRACTION;
    RefillGrows(rate, rate);
    Scaled(Paid(bs, ops, n), burst, rate, elapsed, Refill(rate));
  }

  lemma Scaled(paid: nat, burst: nat, rate: nat, elapsed: nat, refill: nat)
    requires FRACTION * paid <= burst * FRACTION + refill * elapsed
    requires NANOS_PER_SECOND * refill <= rate * FRACTION
    ensures 1_000_000_000 * paid <= 1_000_000_000 * burst + rate * elapsed
  {
    Times(NANOS_PER_SECOND * refill, rate * FRACTION, elapsed);
    assert elapsed * (NANOS_PER_SECOND * refill) == NANOS_PER_SECOND * (refill * elapsed);
    assert elapsed * (rate * FRACTION) == FRACTION * (rate * elapsed);
  }

  // ----- Recovery -----

  predicate Clear(b: Budget, op: Op) { op.Judge? && Judges(b, op.now, op.rtt) ==> !Congested(b, op.rtt) }

  function Judged(bs: seq<Budget>, ops: seq<Op>, n: nat): nat
    requires n <= |ops| && |bs| == |ops| + 1
  {
    if n == 0 then 0
    else
      var b, op := bs[n - 1], ops[n - 1];
      Judged(bs, ops, n - 1) + if op.Judge? && Judges(b, op.now, op.rtt) then 1 else 0
  }

  lemma StepRises(b: Budget, op: Op)
    requires Consistent(b) && Timely(b, op) && Clear(b, op)
    ensures var r := Step(b, op);
            if op.Judge? && Judges(b, op.now, op.rtt)
            then r.rate == Min(b.rate + Max(b.config.rate / 16, 1), b.config.rate)
            else r.rate >= b.rate
  {
    hide Refill, CapacityFor, Judges, Congested, Assess, Queueing;
    if op.Judge? {
      AssessExact(b, op.now, op.rtt);
    }
  }

  /** While no judgement finds congestion the rate never falls, and each raises it by a sixteenth of the
  configured one until it is there again: which seventeen of them are enough for, from any rate. */
  lemma {:induction false} RateRecovers(bs: seq<Budget>, ops: seq<Op>, n: nat)
    requires IsRun(bs, ops) && Consistent(bs[0]) && n <= |ops|
    requires forall k | 0 <= k < n :: Clear(bs[k], ops[k])
    ensures bs[n].rate >= Min(bs[0].config.rate, bs[0].rate + Judged(bs, ops, n) * Max(bs[0].config.rate / 16, 1))
    ensures Judged(bs, ops, n) >= 17 ==> bs[n].rate == bs[0].config.rate
    decreases n
  {
    hide Step, Refill, CapacityFor, Clear, Judges;
    RunConsistent(bs, ops, n);
    var step := Max(bs[0].config.rate / 16, 1);
    if n > 0 {
      RateRecovers(bs, ops, n - 1);
      RunConsistent(bs, ops, n - 1);
      StepRises(bs[n - 1], ops[n - 1]);
      Distribute(Judged(bs, ops, n - 1), 1, step);
    }
    if Judged(bs, ops, n) >= 17 {
      Times(17, Judged(bs, ops, n), step);
      assert 17 * step >= bs[0].config.rate;
    }
  }
}
