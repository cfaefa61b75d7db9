/** The send allowance as the object the connection holds: its methods change the fields in
place and each is proved to leave the state the value-level step names. */
module BudgetObject {
  import opened Machine
  import Frames
  import Rtt
  import Spec = Budget

  class SendBudget {
    const config: Spec.Config
    var rate: nat
    var refill: nat
    var tokens: nat
    var capacity: nat
    var lastRefill: nat
    var lastAssessed: nat
    var windowSent: nat
    var windowLost: nat
    var queueSignals: nat

    ghost function View(): Spec.Budget
      reads this
    {
      Spec.Budget(config, rate, refill, tokens, capacity, lastRefill, lastAssessed, windowSent, windowLost,
                  queueSignals)
    }

    ghost predicate Valid()
      reads this
    {
      Spec.Consistent(View())
    }

    constructor (now: nat, config: Spec.Config)
      requires Spec.Admissible(config)
      ensures Valid() && View() == Spec.New(now, config)
    {
      var full := Spec.CapacityFor(config.rate, config);
      this.config := config;
      rate, refill := config.rate, Spec.Refill(config.rate);
      tokens, capacity := full, full;
      lastRefill, lastAssessed := now, now;
      windowSent, windowLost, queueSignals := 0, 0, 0;
    }

    method Advance(now: nat)
      requires Valid()
      modifies this
      ensures Valid() && View() == Spec.Advance(old(View()), now)
    {
      var elapsed := Since(now, lastRefill);
      if elapsed == 0 { return; }
      lastRefill := now;
      tokens := Min(SatAdd(tokens, SatMul(elapsed, refill)), capacity);
    }

    /** Refills, then says how much one datagram may take: never more than the bucket holds or
    than a datagram may be. */
    method Available(now: nat) returns (bytes: nat)
      requires Valid()
      modifies this
      ensures Valid() && View() == Spec.Advance(old(View()), now)
      ensures bytes == Spec.Available(View())
      ensures bytes <= config.maxPacket && bytes * Spec.FRACTION <= tokens
    {
      Advance(now);
      bytes := Min(tokens / Spec.FRACTION, config.maxPacket);
    }

    /** The time from which a message of this length can be afforded. */
    method ReadyFor(len: nat) returns (at: nat)
      requires refill > 0
      ensures at == Spec.ReadyFor(View(), len)
    {
      var needed := Min(Spec.HEADER_MAX + Spec.TAG_LEN + Frames.MESSAGE_FRAME_OVERHEAD + len, config.maxPacket);
      var deficit := SatSub(needed * Spec.FRACTION, tokens);
      if deficit == 0 {
        return lastRefill;
      }
      return SatAdd(lastRefill, CeilDiv(deficit, refill));
    }

    method OnSent(len: nat, eliciting: bool)
      requires Valid()
      modifies this
      ensures Valid() && View() == Spec.OnSent(old(View()), len, eliciting)
    {
      tokens := SatSub(tokens, len * Spec.FRACTION);
      if eliciting { windowSent := Min(windowSent + 1, U32_MAX); }
    }

    method OnLost()
      requires Valid()
      modifies this
      ensures Valid() && View() == Spec.OnLost(old(View()))
    {
      windowLost := Min(windowLost + 1, U32_MAX);
    }

    method OnSpurious()
      requires Valid()
      modifies this
      ensures Valid() && View() == Spec.OnSpurious(old(View()))
    {
      windowLost := SatSub(windowLost, 1);
    }

    method SetRate(to: nat)
      requires Valid() && Spec.MIN_RATE <= to <= config.rate
      modifies this
      ensures Valid() && View() == Spec.SetRate(old(View()), to)
    {
      rate := to;
      refill := Spec.Refill(to);
      capacity := Spec.CapacityFor(to, config);
      tokens := Min(tokens, capacity);
    }

    method OnPathChange(now: nat)
      requires Valid()
      modifies this
      ensures Valid() && View() == Spec.OnPathChange(old(View()), now)
    {
      SetRate(config.rate);
      lastAssessed := now;
      windowSent, windowLost, queueSignals := 0, 0, 0;
    }

    method Decrease()
      requires Valid()
      modifies this
      ensures Valid() && View() == Spec.SetRate(old(View()), Max(old(rate) / 4 * 3, Spec.MIN_RATE))
      ensures rate <= old(rate)
    {
      SetRate(Max(rate / 4 * 3, Spec.MIN_RATE));
    }

    method Increase()
      requires Valid()
      modifies this
      ensures Valid()
      ensures View() == Spec.SetRate(old(View()), Min(old(rate) + Max(config.rate / 16, 1), config.rate))
      ensures rate > old(rate) || rate == config.rate
    {
      SetRate(Min(rate + Max(config.rate / 16, 1), config.rate));
    }

    method Assess(now: nat, rtt: Rtt.Rtt)
      requires Valid()
      modifies this
      ensures Valid() && View() == Spec.Assess(old(View()), now, rtt)
    {
      if Since(now, lastAssessed) < Max(Rtt.Smoothed(rtt), Spec.MIN_ASSESS_INTERVAL) { return; }
      lastAssessed := now;
      if windowSent < Spec.MIN_LOSS_SAMPLES { return; }
      var lossy := windowLost * 50 > windowSent;
      windowSent, windowLost := 0, 0;
      queueSignals := if Spec.IsQueueing(rtt) then Min(queueSignals + 1, 255) else 0;
      if lossy || queueSignals >= Spec.QUEUE_PERSISTENCE {
        queueSignals := 0;
        Decrease();
      } else {
        Increase();
      }
    }
  }
}
