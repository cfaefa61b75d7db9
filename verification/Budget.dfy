/** What a connection may send: a bucket that earns bytes with time, counted in 2^-32 parts of a
byte, and the rule by which its rate is lowered and raised. */
module Budget {
  import opened Machine
  import opened Frames
  import Rtt

  const FRACTION: nat := 0x1_0000_0000
  const NANOS_PER_SECOND: nat := 1_000_000_000
  const MIN_RATE: nat := 2000
  const HEADER_MAX: nat := 14
  const TAG_LEN: nat := 16
  const MAX_DATAGRAM: nat := 1200
  const MIN_PACKET: nat := HEADER_MAX + TAG_LEN + MESSAGE_FRAME_OVERHEAD + MAX_MESSAGE
  const MIN_LOSS_SAMPLES: nat := 20
  const MIN_QUEUE_DELAY: nat := 10_000_000
  const MIN_ASSESS_INTERVAL: nat := 100_000_000
  const QUEUE_PERSISTENCE: nat := 2

  datatype Config = Config(rate: nat, maxPacket: nat)

  /** What the configuration's constructor admits. */
  predicate Admissible(c: Config) {
    MIN_RATE <= c.rate <= U32_MAX && MIN_PACKET <= c.maxPacket <= MAX_DATAGRAM
  }

  datatype Budget = Budget(
    config: Config,
    rate: nat,
    refill: nat,
    tokens: nat,
    capacity: nat,
    lastRefill: nat,
    lastAssessed: nat,
    windowSent: nat,
    windowLost: nat,
    queueSignals: nat)

  /** What a nanosecond earns at this rate, in units of 1 / `FRACTION` byte. */
  function Refill(rate: nat): nat { rate * FRACTION / NANOS_PER_SECOND }

  /** The bucket holds what 250 milliseconds earn, or a whole datagram if that is more. */
  function CapacityFor(rate: nat, config: Config): nat { Max(rate / 4, config.maxPacket) * FRACTION }

  function New(now: nat, config: Config): Budget {
    var capacity := CapacityFor(config.rate, config);
    Budget(config, config.rate, Refill(config.rate), capacity, capacity, now, now, 0, 0, 0)
  }

  /** Earns for the time since the last refill, saturating, then capped. */
  function Advance(b: Budget, now: nat): Budget {
    var elapsed := Since(now, b.lastRefill);
    if elapsed == 0 then b
    else b.(lastRefill := now, tokens := Min(SatAdd(b.tokens, SatMul(elapsed, b.refill)), b.capacity))
  }

  /** Whole bytes the bucket, as it stands, allows the next datagram. */
  function Available(b: Budget): nat { Min(b.tokens / FRACTION, b.config.maxPacket) }

  /** What a datagram carrying a message of `len` bytes may need of the allowance. */
  function Needed(b: Budget, len: nat): nat {
    Min(HEADER_MAX + TAG_LEN + MESSAGE_FRAME_OVERHEAD + len, b.config.maxPacket)
  }

  function ReadyFor(b: Budget, len: nat): nat
    requires b.refill > 0
  {
    var deficit := SatSub(Needed(b, len) * FRACTION, b.tokens);
    if deficit == 0 then b.lastRefill else SatAdd(b.lastRefill, CeilDiv(deficit, b.refill))
  }

  function OnSent(b: Budget, len: nat, eliciting: bool): Budget {
    b.(tokens := SatSub(b.tokens, len * FRACTION),
       windowSent := if eliciting then Min(b.windowSent + 1, U32_MAX) else b.windowSent)
  }

  function OnLost(b: Budget): Budget { b.(windowLost := Min(b.windowLost + 1, U32_MAX)) }

  function OnSpurious(b: Budget): Budget { b.(windowLost := SatSub(b.windowLost, 1)) }

  function SetRate(b: Budget, rate: nat): Budget {
    var capacity := CapacityFor(rate, b.config);
    b.(rate := rate, refill := Refill(rate), capacity := capacity, tokens := Min(b.tokens, capacity))
  }

  function OnPathChange(b: Budget, now: nat): Budget {
    SetRate(b, b.config.rate).(lastAssessed := now, windowSent := 0, windowLost := 0, queueSignals := 0)
  }

  /** The least recent round trip exceeds the least known by a quarter, and by ten milliseconds. */
  predicate IsQueueing(rtt: Rtt.Rtt) {
    rtt.Some? &&
    var baseline := rtt.value.min.Get();
    rtt.value.recent.Get() > SatAdd(baseline, Max(baseline / 4, MIN_QUEUE_DELAY))
  }

  /** At most once per interval, and only after twenty packets: three quarters of the rate on loss
  or a lasting queue, else a sixteenth of the configured rate more. */
  function Assess(b: Budget, now: nat, rtt: Rtt.Rtt): Budget {
    if Since(now, b.lastAssessed) < Max(Rtt.Smoothed(rtt), MIN_ASSESS_INTERVAL) then b
    else if b.windowSent < MIN_LOSS_SAMPLES then b.(lastAssessed := now)
    else
      var lossy := b.windowLost * 50 > b.windowSent;
      var signals := if IsQueueing(rtt) then Min(b.queueSignals + 1, 255) else 0;
      var b1 := b.(lastAssessed := now, windowSent := 0, windowLost := 0);
      if lossy || signals >= QUEUE_PERSISTENCE
      then SetRate(b1.(queueSignals := 0), Max(b.rate / 4 * 3, MIN_RATE))
      else SetRate(b1.(queueSignals := signals), Min(b.rate + Max(b.config.rate / 16, 1), b.config.rate))
  }

  // ----- What every operation keeps -----

  /** Earnings and capacity are those of the rate, and the level is within capacity. */
  ghost predicate Consistent(b: Budget) {
    && Admissible(b.config)
    && MIN_RATE <= b.rate <= b.config.rate
    && b.refill == Refill(b.rate)
    && b.capacity == CapacityFor(b.rate, b.config)
    && b.tokens <= b.capacity
  }

  lemma RateBounds(rate: nat, config: Config)
    requires MIN_RATE <= rate <= U32_MAX && Admissible(config)
    ensures Refill(rate) > 0
    ensures config.maxPacket * FRACTION <= CapacityFor(rate, config) <= U64_MAX
  {
  }

  lemma NewConsistent(now: nat, config: Config)
    requires Admissible(config)
    ensures Consistent(New(now, config))
  {
  }

  lemma OperationsConsistent(b: Budget, now: nat, len: nat, eliciting: bool, rtt: Rtt.Rtt)
    requires Consistent(b)
    ensures Consistent(Advance(b, now))
    ensures Consistent(OnSent(b, len, eliciting))
    ensures Consistent(OnLost(b)) && Consistent(OnSpurious(b))
    ensures Consistent(OnPathChange(b, now))
    ensures Consistent(Assess(b, now, rtt))
    ensures b.refill > 0 && b.config.maxPacket * FRACTION <= b.capacity <= U64_MAX
  {
    hide Refill, CapacityFor;
    RateBounds(b.rate, b.config);
  }

  // ----- Refills compose -----

  lemma Distribute(a: nat, b: nat, r: nat)
    ensures (a + b) * r == a * r + b * r
  {
  }

  /** Two polls earn exactly what one poll at the end would, despite saturation and the cap. */
  lemma AdvanceTwice(b: Budget, t1: nat, t2: nat)
    requires b.tokens <= b.capacity <= U64_MAX && b.lastRefill <= t1 <= t2
    ensures Advance(Advance(b, t1), t2) == Advance(b, t2)
  {
    var e1, e2 := t1 - b.lastRefill, t2 - t1;
    Distribute(e1, e2, b.refill);
    Product(e1, b.refill);
    Product(e2, b.refill);
    Product(e1 + e2, b.refill);
    hide SatMul;
  }

  lemma Product(e: nat, r: nat)
    ensures SatMul(e, r) == Min(e * r, U64_MAX)
    ensures e * r >= 0
  {
  }

  function Polled(b: Budget, times: seq<nat>): Budget {
    if times == [] then b else Advance(Polled(b, times[..|times| - 1]), times[|times| - 1])
  }

  /** However an interval is split into polls, the level at its end is the same. */
  lemma {:induction false} PollsDoNotMatter(b: Budget, times: seq<nat>)
    requires b.tokens <= b.capacity <= U64_MAX && times != []
    requires forall i, j | 0 <= i <= j < |times| :: b.lastRefill <= times[i] <= times[j]
    ensures Polled(b, times) == Advance(b, times[|times| - 1])
  {
    var n := |times| - 1;
    if n > 0 {
      PollsDoNotMatter(b, times[..n]);
      AdvanceTwice(b, times[n - 1], times[n]);
    } else {
      assert times[..0] == [];
    }
  }

  // ----- The wake-up time is exact -----

  lemma CeilDivExact(deficit: nat, refill: nat, elapsed: nat)
    requires refill > 0
    ensures CeilDiv(deficit, refill) <= elapsed <==> deficit <= elapsed * refill
  {
    var q, x := CeilDiv(deficit, refill), deficit + refill - 1;
    assert x == refill * q + x % refill;
    assert refill * q - refill < deficit <= refill * q;
    if q <= elapsed {
      assert refill * q <= refill * elapsed;
    } else {
      assert refill * elapsed <= refill * (q - 1) == refill * q - refill;
    }
  }

  /** The allowance covers a datagram for the message exactly from `ReadyFor` on: a driver
  woken then can send, and one woken before cannot. */
  lemma ReadyForExact(b: Budget, len: nat, now: nat)
    requires Consistent(b) && b.lastRefill <= now < U64_MAX && b.refill > 0
    ensures ReadyFor(b, len) <= now <==> Available(Advance(b, now)) >= Needed(b, len)
  {
    hide Refill, CapacityFor;
    RateBounds(b.rate, b.config);
    var needed, elapsed := Needed(b, len) * FRACTION, now - b.lastRefill;
    assert needed <= b.capacity;
    CeilDivExact(SatSub(needed, b.tokens), b.refill, elapsed);
    Product(elapsed, b.refill);
    var level := Advance(b, now).tokens;
    assert level >= needed <==> b.tokens + elapsed * b.refill >= needed;
    assert level / FRACTION >= Needed(b, len) <==> level >= needed;
  }
}
