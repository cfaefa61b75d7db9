/** What paces handshakes: a bucket that earns a token each interval until it is full. */
module Bucket {
  import opened Machine

  datatype State = State(tokens: nat, lastRefill: nat)

  datatype Policy = Policy(burst: nat, interval: nat)

  predicate PolicyOk(p: Policy) { 0 < p.burst <= U32_MAX && 0 < p.interval }

  /** Time counts in whole intervals; the rest is carried over, or lost when full. */
  function Refilled(p: Policy, b: State, now: nat): State
    requires PolicyOk(p) && b.tokens <= p.burst
  {
    var intervals := Since(now, b.lastRefill) / p.interval;
    if intervals == 0 then b
    else if intervals <= U32_MAX && intervals < p.burst - b.tokens
    then State(b.tokens + intervals, SatAdd(b.lastRefill, SatMul(p.interval, intervals)))
    else State(p.burst, now)
  }

  datatype Taken = Taken(state: State, granted: bool)

  /** A request at a time; it is wanted unless another bucket refuses it first. */
  datatype Request = Request(at: nat, wanted: bool)

  /** A request first refills, then is granted while a token is left. */
  function Take(p: Policy, b: State, q: Request): Taken
    requires PolicyOk(p) && b.tokens <= p.burst
  {
    var r := Refilled(p, b, q.at);
    if r.tokens > 0 && q.wanted then Taken(r.(tokens := r.tokens - 1), true) else Taken(r, false)
  }

  // ----- What the bucket is worth -----

  /** The bucket's worth at a time, in time: a token is an interval. */
  function Worth(p: Policy, b: State, now: nat): nat
    requires b.lastRefill <= now
  {
    p.interval * b.tokens + (now - b.lastRefill)
  }

  lemma Product(k: nat, a: nat, b: nat)
    ensures k * (a + b) == k * a + k * b
  {
  }

  lemma ProductBelow(k: nat, a: nat, b: nat)
    requires a <= b
    ensures k * a <= k * b
  {
    Product(k, a, b - a);
  }

  lemma Quotient(x: nat, k: nat)
    requires k > 0
    ensures k * (x / k) <= x < k * (x / k) + k
  {
    assert x == k * (x / k) + x % k;
  }

  /** Refilling creates nothing, and leaves the bucket worth less than one interval more than
  full. */
  lemma RefillWorth(p: Policy, b: State, now: nat)
    requires PolicyOk(p) && b.tokens <= p.burst && b.lastRefill <= now <= U64_MAX
    ensures var r := Refilled(p, b, now);
            && r.tokens <= p.burst && r.lastRefill <= now
            && Worth(p, r, now) <= Worth(p, b, now)
            && Worth(p, r, now) < p.interval * p.burst + p.interval
  {
    var elapsed := now - b.lastRefill;
    var intervals := elapsed / p.interval;
    Quotient(elapsed, p.interval);
    Product(p.interval, b.tokens, intervals);
    if intervals == 0 {
      ProductBelow(p.interval, b.tokens, p.burst);
    } else if intervals < p.burst - b.tokens {
      ProductBelow(p.interval, b.tokens + intervals, p.burst);
    } else {
      ProductBelow(p.interval, p.burst, b.tokens + intervals);
    }
  }

  lemma TakeWorth(p: Policy, b: State, q: Request)
    requires PolicyOk(p) && b.tokens <= p.burst && b.lastRefill <= q.at <= U64_MAX
    ensures var t, now := Take(p, b, q), q.at;
            && t.state.tokens <= p.burst && t.state.lastRefill <= now
            && Worth(p, t.state, now) + (if t.granted then p.interval else 0) <= Worth(p, b, now)
            && Worth(p, t.state, now) + (if t.granted then p.interval else 0) < p.interval * p.burst + p.interval
  {
    hide Refilled;
    RefillWorth(p, b, q.at);
    var r := Refilled(p, b, q.at);
    if r.tokens > 0 {
      Product(p.interval, r.tokens - 1, 1);
    }
  }

  // ----- Runs -----

  ghost predicate Nondecreasing(qs: seq<Request>) { forall i, j | 0 <= i < j < |qs| :: qs[i].at <= qs[j].at }

  function After(p: Policy, b: State, qs: seq<Request>): (r: State)
    requires PolicyOk(p) && b.tokens <= p.burst
    ensures r.tokens <= p.burst
  {
    if qs == [] then b else Take(p, After(p, b, qs[..|qs| - 1]), qs[|qs| - 1]).state
  }

  function Grants(p: Policy, b: State, qs: seq<Request>): nat
    requires PolicyOk(p) && b.tokens <= p.burst
  {
    if qs == [] then 0
    else
      var n := |qs| - 1;
      Grants(p, b, qs[..n]) + if Take(p, After(p, b, qs[..n]), qs[n]).granted then 1 else 0
  }

  /** What was granted is paid for by what the bucket was worth and the time that passed. */
  lemma {:induction false} RunWorth(p: Policy, b: State, qs: seq<Request>)
    requires PolicyOk(p) && b.tokens <= p.burst && qs != [] && Nondecreasing(qs)
    requires b.lastRefill <= qs[0].at && qs[|qs| - 1].at <= U64_MAX
    ensures var last := qs[|qs| - 1].at;
            && After(p, b, qs).lastRefill <= last
            && Worth(p, After(p, b, qs), last) + p.interval * Grants(p, b, qs)
               < p.interval * p.burst + p.interval + (last - qs[0].at)
  {
    hide Take, Worth;
    var n := |qs| - 1;
    var init, last := qs[..n], qs[n];
    if n == 0 {
      assert init == [];
      TakeWorth(p, b, last);
    } else {
      RunWorth(p, b, init);
      var s := After(p, b, init);
      WorthLater(p, s, init[n - 1].at, last.at);
      TakeWorth(p, s, last);
      Product(p.interval, Grants(p, b, init), 1);
    }
  }

  lemma WorthLater(p: Policy, b: State, now: nat, later: nat)
    requires b.lastRefill <= now <= later
    ensures Worth(p, b, later) == Worth(p, b, now) + (later - now)
  {
  }

  /** Between any two requests of any run, fewer than burst + 1 + (t1 - t0) / interval tokens
  are granted. */
  lemma GrantsBounded(p: Policy, b: State, qs: seq<Request>)
    requires PolicyOk(p) && b.tokens <= p.burst && qs != [] && Nondecreasing(qs)
    requires b.lastRefill <= qs[0].at && qs[|qs| - 1].at <= U64_MAX
    ensures p.interval * Grants(p, b, qs) < p.interval * (p.burst + 1) + (qs[|qs| - 1].at - qs[0].at)
  {
    hide Grants, After, Worth;
    RunWorth(p, b, qs);
    Product(p.interval, p.burst, 1);
  }

  // ----- And no less -----

  /** Refilling loses nothing but what a full bucket cannot hold. */
  lemma RefillKeeps(p: Policy, b: State, now: nat)
    requires PolicyOk(p) && b.tokens <= p.burst && b.lastRefill <= now <= U64_MAX
    ensures var r := Refilled(p, b, now);
            && r.lastRefill <= now && Worth(p, r, now) >= Min(Worth(p, b, now), p.interval * p.burst)
            && (r.tokens > 0 <==> Worth(p, b, now) >= p.interval)
  {
    var elapsed := now - b.lastRefill;
    var intervals := elapsed / p.interval;
    Quotient(elapsed, p.interval);
    Product(p.interval, b.tokens, intervals);
    if b.tokens > 0 {
      ProductBelow(p.interval, 1, b.tokens);
    }
    if intervals > 0 {
      ProductBelow(p.interval, 1, intervals);
      if intervals < p.burst - b.tokens {
        ProductBelow(p.interval, intervals, p.burst);
      }
    }
  }

  /** A request is granted exactly when it is wanted and the bucket is worth a token at that time. */
  lemma GrantedExact(p: Policy, b: State, q: Request)
    requires PolicyOk(p) && b.tokens <= p.burst && b.lastRefill <= q.at <= U64_MAX
    ensures var t := Take(p, b, q);
            && (t.granted <==> q.wanted && Worth(p, b, q.at) >= p.interval)
            && t.state.lastRefill <= q.at
            && Worth(p, t.state, q.at) + (if t.granted then p.interval else 0)
               >= Min(Worth(p, b, q.at), p.interval * p.burst)
  {
    hide Refilled;
    RefillKeeps(p, b, q.at);
    RefillWorth(p, b, q.at);
    var r := Refilled(p, b, q.at);
    if r.tokens > 0 {
      Product(p.interval, r.tokens - 1, 1);
    }
  }

  /** One request more, while the bucket is not full: nothing of its worth is lost. */
  lemma NothingLostNow(p: Policy, b: State, q: Request, granted: nat, sum: nat)
    requires PolicyOk(p) && b.tokens <= p.burst && b.lastRefill <= q.at <= U64_MAX
    requires Worth(p, b, q.at) < p.interval * p.burst && Worth(p, b, q.at) + p.interval * granted >= sum
    ensures var t := Take(p, b, q);
            && t.state.lastRefill <= q.at
            && Worth(p, t.state, q.at) + p.interval * (granted + if t.granted then 1 else 0) >= sum
  {
    hide Take, Worth;
    GrantedExact(p, b, q);
    Product(p.interval, granted, 1);
  }

  /** And while it is full. */
  lemma NothingLostFull(p: Policy, b: State, q: Request)
    requires PolicyOk(p) && b.tokens <= p.burst && b.lastRefill <= q.at <= U64_MAX
    requires Worth(p, b, q.at) >= p.interval * p.burst
    ensures var t := Take(p, b, q);
            && t.state.lastRefill <= q.at
            && Worth(p, t.state, q.at) + p.interval * (if t.granted then 1 else 0) >= p.interval * p.burst
  {
    hide Take, Worth;
    GrantedExact(p, b, q);
  }

  lemma {:induction false} GrantsGrow(p: Policy, b: State, qs: seq<Request>, j: nat)
    requires PolicyOk(p) && b.tokens <= p.burst && j <= |qs|
    ensures Grants(p, b, qs[..j]) <= Grants(p, b, qs)
    decreases |qs|
  {
    hide Take, After;
    if j == |qs| {
      assert qs[..j] == qs;
    } else {
      assert qs[..|qs| - 1][..j] == qs[..j];
      GrantsGrow(p, b, qs[..|qs| - 1], j);
    }
  }

  /** Tokens granted from request `j` on. */
  function GrantsSince(p: Policy, b: State, qs: seq<Request>, j: nat): nat
    requires PolicyOk(p) && b.tokens <= p.burst && j <= |qs|
  {
    GrantsGrow(p, b, qs, j);
    Grants(p, b, qs) - Grants(p, b, qs[..j])
  }

  /** From a full bucket on: since some request, all that a full bucket and the time passed are worth
  has been granted or is left. */
  lemma {:induction false} NothingLost(p: Policy, b: State, qs: seq<Request>) returns (j: nat)
    requires PolicyOk(p) && b.tokens == p.burst && qs != [] && Nondecreasing(qs)
    requires b.lastRefill <= qs[0].at && qs[|qs| - 1].at <= U64_MAX
    ensures j < |qs| && After(p, b, qs).lastRefill <= qs[|qs| - 1].at
    ensures Worth(p, After(p, b, qs), qs[|qs| - 1].at) + p.interval * GrantsSince(p, b, qs, j)
            >= p.interval * p.burst + (qs[|qs| - 1].at - qs[j].at)
  {
    hide Take, Worth;
    var n := |qs| - 1;
    var init, last := qs[..n], qs[n];
    var s := After(p, b, init);
    if n == 0 {
      assert init == [];
      FullWorth(p, b, last.at);
    } else {
      j := NothingLost(p, b, init);
      WorthLater(p, s, init[n - 1].at, last.at);
    }
    if n > 0 && Worth(p, s, last.at) < p.interval * p.burst {
      assert init[..j] == qs[..j];
      NothingLostNow(p, s, last, GrantsSince(p, b, init, j), p.interval * p.burst + (last.at - qs[j].at));
      assert GrantsSince(p, b, qs, j) == GrantsSince(p, b, init, j) + if Take(p, s, last).granted then 1 else 0;
    } else {
      NothingLostFull(p, s, last);
      j := n;
      assert GrantsSince(p, b, qs, n) == if Take(p, s, last).granted then 1 else 0;
    }
  }

  lemma FullWorth(p: Policy, b: State, now: nat)
    requires b.tokens == p.burst && b.lastRefill <= now
    ensures Worth(p, b, now) >= p.interval * p.burst
  {
  }

  /** So one that is wanted is refused only after, since some earlier request, a full burst and a token for
  every interval passed have been granted, short of one. */
  lemma RefusedOnlySpent(p: Policy, b: State, qs: seq<Request>, q: Request) returns (j: nat)
    requires PolicyOk(p) && b.tokens == p.burst && Nondecreasing(qs + [q])
    requires b.lastRefill <= (qs + [q])[0].at && q.at <= U64_MAX && q.wanted
    requires !Take(p, After(p, b, qs), q).granted
    ensures j < |qs|
    ensures p.interval * (GrantsSince(p, b, qs, j) + 1) > p.interval * p.burst + (q.at - qs[j].at)
  {
    hide Take, Worth, GrantsSince;
    if qs == [] {
      FullWorth(p, b, q.at);
      GrantedExact(p, b, q);
      ProductBelow(p.interval, 1, p.burst);
      assert false;
    }
    assert (qs + [q])[0] == qs[0] && (qs + [q])[|qs| - 1] == qs[|qs| - 1] && (qs + [q])[|qs|] == q;
    assert Nondecreasing(qs) by {
      assert forall i | 0 <= i < |qs| :: (qs + [q])[i] == qs[i];
    }
    j := NothingLost(p, b, qs);
    WorthLater(p, After(p, b, qs), qs[|qs| - 1].at, q.at);
    GrantedExact(p, After(p, b, qs), q);
    Product(p.interval, GrantsSince(p, b, qs, j), 1);
  }

  /** The bucket as it is kept. */
  class Limiter {
    const policy: Policy
    var tokens: nat
    var lastRefill: nat

    ghost predicate Valid()
      reads this
    {
      PolicyOk(policy) && tokens <= policy.burst
    }

    ghost function View(): State
      reads this
    {
      State(tokens, lastRefill)
    }

    constructor (policy: Policy)
      requires PolicyOk(policy)
      ensures Valid() && View() == State(policy.burst, 0) && this.policy == policy
    {
      this.policy, tokens, lastRefill := policy, policy.burst, 0;
    }

    method Refill(now: nat)
      requires Valid()
      modifies this
      ensures Valid() && View() == Refilled(policy, old(View()), now)
    {
      var elapsed := Since(now, lastRefill);
      var intervals := elapsed / policy.interval;
      if intervals == 0 {
        return;
      }
      var missing := policy.burst - tokens;
      if intervals <= U32_MAX && intervals < missing {
        tokens := tokens + intervals;
        lastRefill := SatAdd(lastRefill, SatMul(policy.interval, intervals));
      } else {
        tokens := policy.burst;
        lastRefill := now;
      }
    }

    /** Refills, then says whether there is a token to spend. */
    method Reserve(now: nat) returns (held: bool)
      requires Valid()
      modifies this
      ensures Valid() && View() == Refilled(policy, old(View()), now) && (held <==> tokens > 0)
    {
      Refill(now);
      held := tokens > 0;
    }
  }

  /** A handshake packet costs a token of each bucket, or of neither: the shared bucket's token
  is only spent once the address's own bucket has paid. */
  method Charge(shared: Limiter, own: Limiter, now: nat) returns (ok: bool)
    requires shared.Valid() && own.Valid() && shared != own
    modifies shared, own
    ensures shared.Valid() && own.Valid()
    ensures Taken(shared.View(), ok) == Take(shared.policy, old(shared.View()), Request(now, ok))
    ensures ok ==> Taken(own.View(), true) == Take(own.policy, old(own.View()), Request(now, true))
    ensures !ok ==> own.View() == old(own.View())
                    || own.View() == Take(own.policy, old(own.View()), Request(now, false)).state
    ensures ok <==> Refilled(shared.policy, old(shared.View()), now).tokens > 0
                    && Refilled(own.policy, old(own.View()), now).tokens > 0
  {
    var held := shared.Reserve(now);
    if !held {
      return false;
    }
    held := own.Reserve(now);
    if !held {
      return false;
    }
    own.tokens := own.tokens - 1;
    shared.tokens := shared.tokens - 1;
    return true;
  }
}
