/** The round-trip estimate: smoothed average, mean deviation and two windowed minima,
following section 5.3 of RFC 9002 and section 2 of RFC 6298. All of it is copied by
value in the program, so it is modelled on values.
*/
module Rtt {
  import opened Machine

  const INITIAL_RTT: nat := 100_000_000
  const TIMER_GRANULARITY: nat := 2_000_000
  const MIN_RTT_WINDOW: nat := 10_000_000_000
  const RECENT_RTT_WINDOW: nat := 500_000_000

  /** The least sample of the current half window, that of the one before, and when the current began. */
  datatype WindowedMin = WindowedMin(current: nat, previous: nat, epoch: nat) {
    function Update(half: nat, now: nat, sample: nat): WindowedMin {
      if Since(now, epoch) >= half then WindowedMin(sample, current, now)
      else this.(current := Min(current, sample))
    }

    function Get(): nat { Min(current, previous) }
  }

  datatype Estimate = Estimate(
    latest: nat,
    smoothed: nat,
    variation: nat,
    min: WindowedMin,
    recent: WindowedMin)

  type Rtt = Option<Estimate>

  function Smoothed(r: Rtt): nat { if r.Some? then r.value.smoothed else INITIAL_RTT }

  function Latest(r: Rtt): nat { if r.Some? then r.value.latest else INITIAL_RTT }

  function Variation(r: Rtt): nat { if r.Some? then r.value.variation else INITIAL_RTT / 2 }

  /** The sample less the peer's holding time, unless that would undercut the best round trip. */
  function Adjusted(sample: nat, ackDelay: nat, best: nat): nat {
    var corrected := SatSub(sample, ackDelay);
    if corrected >= best then corrected else sample
  }

  function AbsDiff(a: nat, b: nat): nat { if a >= b then a - b else b - a }

  /** Sixty-four bit multiply-accumulate, wrapping as the machine does. */
  function Weighted(history: nat, weight: nat, sample: nat): nat {
    ((history * weight) % U64 + sample) % U64
  }

  function Update(r: Rtt, now: nat, sample: nat, ackDelay: nat): Rtt {
    match r
    case None =>
      var first := WindowedMin(sample, sample, now);
      Some(Estimate(sample, sample, sample / 2, first, first))
    case Some(e) =>
      var min := e.min.Update(MIN_RTT_WINDOW / 2, now, sample);
      var recent := e.recent.Update(RECENT_RTT_WINDOW / 2, now, sample);
      var adjusted := Adjusted(sample, ackDelay, min.Get());
      var deviation := AbsDiff(adjusted, e.smoothed);
      Some(Estimate(sample,
                    Weighted(e.smoothed, 7, adjusted) / 8,
                    Weighted(e.variation, 3, deviation) / 4,
                    min, recent))
  }

  /** Every figure the estimator keeps is at most `b`. */
  predicate Within(r: Rtt, b: nat) {
    r.Some? ==>
      var e := r.value;
      && e.latest <= b && e.smoothed <= b && e.variation <= b
      && e.min.current <= b && e.min.previous <= b && e.min.Get() <= e.latest
  }

  /** While every sample is at most `b` and eight times `b` fits the machine word, no step wraps, the
  averages stay at most `b`, and a sample `x` moves the smoothed value by an eighth and the variation
  by a quarter. `x` is the sample less the peer's holding time where that is no shorter than the best
  round trip, and the whole sample otherwise, so it is never below the best or above the sample. A
  first sample stands for itself, with half of it for the variation. */
  lemma UpdateBounded(r: Rtt, now: nat, sample: nat, ackDelay: nat, b: nat)
    requires sample <= b && 8 * b < U64 && Within(r, b)
    ensures var r' := Update(r, now, sample, ackDelay);
            && Within(r', b) && r'.Some? && r'.value.latest == sample && r'.value.min.Get() <= sample
            && (r.None? ==>
                  && r'.value.smoothed == sample && r'.value.variation == sample / 2
                  && r'.value.min.Get() == r'.value.recent.Get() == sample)
            && (r.Some? ==>
                  var best, was := r'.value.min.Get(), r.value;
                  var x := if best + ackDelay <= sample then sample - ackDelay else if best == 0 then 0 else sample;
                  && best <= x <= sample
                  && r'.value.smoothed == (7 * was.smoothed + x) / 8
                  && r'.value.variation
                     == (3 * was.variation + if x >= was.smoothed then x - was.smoothed else was.smoothed - x) / 4)
  {
    if r.Some? {
      var e := r.value;
      var adjusted := Adjusted(sample, ackDelay, e.min.Update(MIN_RTT_WINDOW / 2, now, sample).Get());
      NoWrap(e.smoothed, adjusted, b);
      NoWrap(e.variation, AbsDiff(adjusted, e.smoothed), b);
    }
  }

  lemma NoWrap(history: nat, sample: nat, b: nat)
    requires history <= b && sample <= b && 8 * b < U64
    ensures Weighted(history, 7, sample) == 7 * history + sample <= 8 * b
    ensures Weighted(history, 3, sample) == 3 * history + sample <= 4 * b
  {
    assert (history * 7) % U64 == history * 7 && (history * 3) % U64 == history * 3;
  }

  datatype Sample = Sample(at: nat, rtt: nat, ackDelay: nat)

  function Run(samples: seq<Sample>): Rtt {
    if samples == [] then None
    else
      var s := samples[|samples| - 1];
      Update(Run(samples[..|samples| - 1]), s.at, s.rtt, s.ackDelay)
  }

  /** The bounds hold over every run of samples, from the first one on. */
  lemma {:induction false} RunBounded(samples: seq<Sample>, b: nat)
    requires 8 * b < U64
    requires forall i | 0 <= i < |samples| :: samples[i].rtt <= b
    ensures Within(Run(samples), b)
  {
    if samples != [] {
      var s := samples[|samples| - 1];
      RunBounded(samples[..|samples| - 1], b);
      UpdateBounded(Run(samples[..|samples| - 1]), s.at, s.rtt, s.ackDelay, b);
    }
  }

  // ----- What the windowed minimum covers -----

  function MinOf(samples: seq<Sample>): nat
    requires samples != []
  {
    var last := samples[|samples| - 1].rtt;
    if |samples| == 1 then last else Min(MinOf(samples[..|samples| - 1]), last)
  }

  lemma {:induction false} MinOfIsLeast(samples: seq<Sample>)
    requires samples != []
    ensures forall i | 0 <= i < |samples| :: MinOf(samples) <= samples[i].rtt
    ensures exists i | 0 <= i < |samples| :: samples[i].rtt == MinOf(samples)
  {
    var n := |samples| - 1;
    if n > 0 {
      MinOfIsLeast(samples[..n]);
      var i :| 0 <= i < n && samples[..n][i].rtt == MinOf(samples[..n]);
      assert samples[i].rtt == MinOf(samples[..n]);
    }
    assert samples[n].rtt == samples[|samples| - 1].rtt;
  }

  /** A filter together with where its two half-windows begin in the sample history. */
  datatype Covered = Covered(filter: WindowedMin, from: nat, mid: nat)

  function Cover(half: nat, samples: seq<Sample>): Covered
    requires samples != []
  {
    var n := |samples| - 1;
    var s := samples[n];
    if n == 0 then Covered(WindowedMin(s.rtt, s.rtt, s.at), 0, 0)
    else
      var c := Cover(half, samples[..n]);
      var filter := c.filter.Update(half, s.at, s.rtt);
      if Since(s.at, c.filter.epoch) >= half then Covered(filter, c.mid, n) else c.(filter := filter)
  }

  ghost predicate Ordered(samples: seq<Sample>) {
    forall i, j | 0 <= i <= j < |samples| :: samples[i].at <= samples[j].at
  }

  ghost predicate Covers(half: nat, samples: seq<Sample>, c: Covered) {
    && c.from <= c.mid < |samples|
    && c.filter.epoch == samples[c.mid].at
    && c.filter.current == MinOf(samples[c.mid..])
    && c.filter.Get() == MinOf(samples[c.from..])
    && (samples[c.from].at + half <= samples[c.mid].at || c.from == 0)
  }

  /** The reported minimum is exactly the minimum of a suffix of the history, and that
  suffix holds every sample younger than half the window. */
  lemma WindowedMinCovers(half: nat, samples: seq<Sample>)
    requires samples != [] && Ordered(samples)
    ensures Covers(half, samples, Cover(half, samples))
    ensures forall k | 0 <= k < |samples| && samples[|samples| - 1].at - samples[k].at < half ::
              k >= Cover(half, samples).from
  {
    CoversAlways(half, samples);
  }

  lemma {:induction false} CoversAlways(half: nat, samples: seq<Sample>)
    requires samples != [] && Ordered(samples)
    ensures Covers(half, samples, Cover(half, samples))
  {
    var n := |samples| - 1;
    if n == 0 {
      assert samples[0..] == samples;
    } else {
      CoversAlways(half, samples[..n]);
      CoverStep(half, samples, Cover(half, samples[..n]));
    }
  }

  lemma CoverStep(half: nat, samples: seq<Sample>, c: Covered)
    requires |samples| > 1 && Ordered(samples) && Covers(half, samples[..|samples| - 1], c)
    ensures var n := |samples| - 1;
            var filter := c.filter.Update(half, samples[n].at, samples[n].rtt);
            Covers(half, samples, if Since(samples[n].at, c.filter.epoch) >= half then Covered(filter, c.mid, n)
                                  else c.(filter := filter))
  {
    var n := |samples| - 1;
    var init := samples[..n];
    Suffix(samples, c.mid);
    Suffix(samples, c.from);
    assert init[c.mid] == samples[c.mid] && init[c.from] == samples[c.from];
    assert samples[c.mid].at <= samples[n].at;
  }

  lemma Suffix(samples: seq<Sample>, k: nat)
    requires k < |samples| - 1
    ensures var n := |samples| - 1;
            && MinOf(samples[k..]) == Min(MinOf(samples[..n][k..]), samples[n].rtt)
            && MinOf(samples[n..]) == samples[n].rtt
  {
    var n := |samples| - 1;
    assert samples[k..][..n - k] == samples[..n][k..];
  }

  /** Each of the estimator's two minima is such a filter. */
  lemma {:induction false} RunFilters(samples: seq<Sample>)
    requires samples != []
    ensures Run(samples).Some?
    ensures Run(samples).value.min == Cover(MIN_RTT_WINDOW / 2, samples).filter
    ensures Run(samples).value.recent == Cover(RECENT_RTT_WINDOW / 2, samples).filter
  {
    hide Weighted, Adjusted;
    var n := |samples| - 1;
    if n > 0 {
      RunFilters(samples[..n]);
    } else {
      assert samples[..n] == [];
    }
  }

  /** A filter never exceeds a sample of the last half window. */
  lemma NeverAboveRecent(half: nat, samples: seq<Sample>, k: nat)
    requires samples != [] && Ordered(samples) && k < |samples|
    requires samples[|samples| - 1].at - samples[k].at < half
    ensures Cover(half, samples).filter.Get() <= samples[k].rtt
  {
    WindowedMinCovers(half, samples);
    var from := Cover(half, samples).from;
    MinOfIsLeast(samples[from..]);
    assert samples[from..][k - from] == samples[k];
  }

  /** Nor do the estimator's minima, whatever the history. */
  lemma MinimaNeverAbove(samples: seq<Sample>, k: nat)
    requires samples != [] && Ordered(samples) && k < |samples|
    ensures Run(samples).Some?
    ensures var e, age := Run(samples).value, samples[|samples| - 1].at - samples[k].at;
            && (age < MIN_RTT_WINDOW / 2 ==> e.min.Get() <= samples[k].rtt)
            && (age < RECENT_RTT_WINDOW / 2 ==> e.recent.Get() <= samples[k].rtt)
  {
    hide Run, Cover;
    RunFilters(samples);
    var age := samples[|samples| - 1].at - samples[k].at;
    if age < MIN_RTT_WINDOW / 2 {
      NeverAboveRecent(MIN_RTT_WINDOW / 2, samples, k);
    }
    if age < RECENT_RTT_WINDOW / 2 {
      NeverAboveRecent(RECENT_RTT_WINDOW / 2, samples, k);
    }
  }

  // ----- How far back the minimum can reach -----

  ghost predicate Gaps(samples: seq<Sample>, gap: nat) {
    forall i | 0 < i < |samples| :: samples[i].at - samples[i - 1].at <= gap
  }

  /** The age of the oldest sample the minimum still covers. */
  function Reach(half: nat, samples: seq<Sample>): int
    requires samples != [] && Cover(half, samples).from < |samples|
  {
    samples[|samples| - 1].at - samples[Cover(half, samples).from].at
  }

  lemma {:induction false} CoverPositions(half: nat, samples: seq<Sample>)
    requires samples != []
    ensures var c := Cover(half, samples); c.from <= c.mid < |samples| && c.filter.epoch == samples[c.mid].at
  {
    var n := |samples| - 1;
    if n > 0 {
      CoverPositions(half, samples[..n]);
    }
  }

  /** With samples at most `gap` apart, the minimum reaches back at most the window less two, and
  one gap. */
  lemma {:induction false} DenseSamplesBoundReach(half: nat, samples: seq<Sample>, gap: nat)
    requires samples != [] && Ordered(samples) && half > 0 && Gaps(samples, gap)
    ensures var c := Cover(half, samples);
            && c.from <= c.mid < |samples|
            && samples[|samples| - 1].at - samples[c.mid].at < half
            && samples[c.mid].at - samples[c.from].at < half + gap
    ensures Reach(half, samples) <= 2 * half - 2 + gap
  {
    CoverPositions(half, samples);
    var n := |samples| - 1;
    if n > 0 {
      DenseSamplesBoundReach(half, samples[..n], gap);
      assert samples[n].at - samples[n - 1].at <= gap;
    }
  }

  /** A history that reaches back exactly that far: a sample every instant, except that one gap
  falls at the end of the first half window. */
  function Late(half: nat, gap: nat): (samples: seq<Sample>)
    ensures |samples| == 2 * half
  {
    seq(2 * half, i requires 0 <= i < 2 * half =>
      Sample(if i < half then i else i - 1 + gap, if i == 0 then 1 else 5, 0))
  }

  lemma {:induction false} LateCover(half: nat, gap: nat, n: nat)
    requires 0 < half && 0 < gap && 0 < n <= 2 * half
    ensures var c := Cover(half, Late(half, gap)[..n]);
            c.from == 0 && c.mid == (if n <= half then 0 else half)
            && c.filter.epoch == (if n <= half then 0 else half - 1 + gap)
  {
    var samples := Late(half, gap)[..n];
    if n > 1 {
      assert samples[..n - 1] == Late(half, gap)[..n - 1];
      LateCover(half, gap, n - 1);
    }
  }

  lemma LateReaches(half: nat, gap: nat)
    requires 0 < half && 0 < gap
    ensures var samples := Late(half, gap);
            && Ordered(samples) && Gaps(samples, gap)
            && Cover(half, samples).from == 0 && Reach(half, samples) == 2 * half - 2 + gap
            && Cover(half, samples).filter.Get() == samples[0].rtt < samples[1].rtt
  {
    var samples := Late(half, gap);
    assert samples[..2 * half] == samples && samples[0..] == samples;
    LateCover(half, gap, 2 * half);
    WindowedMinCovers(half, samples);
    MinOfIsLeast(samples);
  }

  /** The minimum covers at most its window for every history with gaps up to `gap`. */
  ghost predicate WithinWindow(half: nat, gap: nat) {
    forall samples | samples != [] && Ordered(samples) && Gaps(samples, gap) ::
      Cover(half, samples).from < |samples| && Reach(half, samples) <= 2 * half
  }

  /** That holds exactly for gaps of at most two nanoseconds: for any longer, a sample older than
  the window can still be the minimum. */
  lemma WithinWindowExact(half: nat, gap: nat)
    requires half > 0
    ensures WithinWindow(half, gap) <==> gap <= 2
  {
    hide Cover;
    if gap <= 2 {
      forall samples | samples != [] && Ordered(samples) && Gaps(samples, gap)
        ensures Cover(half, samples).from < |samples| && Reach(half, samples) <= 2 * half
      {
        DenseSamplesBoundReach(half, samples, gap);
      }
    } else {
      LateReaches(half, gap);
    }
  }

  /** A sample of any age can define the estimator's minimum: a filter rolls over only when a
  sample arrives. */
  lemma SparseSamplesOutliveWindow(age: nat)
    requires age >= MIN_RTT_WINDOW
    ensures var samples := [Sample(0, 1, 0), Sample(age, 5, 0)];
            && Ordered(samples) && Run(samples).Some?
            && Run(samples).value.min.Get() == Run(samples).value.recent.Get() == samples[0].rtt
  {
    hide Run, Cover;
    RunFilters([Sample(0, 1, 0), Sample(age, 5, 0)]);
    SparseCover(MIN_RTT_WINDOW / 2, age);
    SparseCover(RECENT_RTT_WINDOW / 2, age);
  }

  lemma SparseCover(half: nat, age: nat)
    requires age >= half
    ensures Cover(half, [Sample(0, 1, 0), Sample(age, 5, 0)]).filter.Get() == 1
  {
    assert [Sample(0, 1, 0), Sample(age, 5, 0)][..1] == [Sample(0, 1, 0)];
  }
}
