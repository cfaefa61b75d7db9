/** How long a list must be to hold everything in an interval. */
module Counting {
  ghost function Members(ids: seq<nat>): set<nat> { set x | x in ids }

  /** The numbers from `lo` up to but not including `hi`. */
  function Range(lo: nat, hi: nat): (r: set<nat>)
    requires lo <= hi
    ensures forall i: nat :: i in r <==> lo <= i < hi
    ensures |r| == hi - lo
    decreases hi - lo
  {
    if lo == hi then {} else Range(lo, hi - 1) + {hi - 1}
  }

  lemma {:induction false} ElementsSize(ids: seq<nat>)
    ensures |Members(ids)| <= |ids|
  {
    if ids != [] {
      var n := |ids| - 1;
      ElementsSize(ids[..n]);
      assert Members(ids) == Members(ids[..n]) + {ids[n]};
    } else {
      assert Members(ids) == {};
    }
  }

  lemma SubsetSize(a: set<nat>, b: set<nat>)
    requires a <= b
    ensures |a| <= |b|
  {
    assert a + (b - a) == b;
  }

  /** A list that covers an interval is at least as long. */
  lemma CoverSize(lo: nat, hi: nat, ids: seq<nat>)
    requires lo <= hi && forall i: nat | lo <= i < hi :: i in ids
    ensures hi - lo <= |ids|
  {
    ElementsSize(ids);
    SubsetSize(Range(lo, hi), Members(ids));
  }

  /** A list without repeats is no longer than what it is drawn from. */
  lemma {:induction false} DistinctSize(ids: seq<nat>, from: set<nat>)
    requires forall i, j | 0 <= i < j < |ids| :: ids[i] != ids[j]
    requires forall i | 0 <= i < |ids| :: ids[i] in from
    ensures |ids| <= |from|
  {
    if ids != [] {
      var n := |ids| - 1;
      DistinctSize(ids[..n], from - {ids[n]});
    }
  }
}
