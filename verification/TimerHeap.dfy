/** A binary heap of (deadline, slot) entries with the position of each slot beside it: it refines
a map from slots to deadlines. */
module TimerHeap {
  import opened Machine

  const ABSENT: nat := U32_MAX

  datatype Entry = Entry(at: nat, slot: nat)

  /** The order of the pair (deadline, slot). */
  predicate Precedes(a: Entry, b: Entry) { a.at < b.at || (a.at == b.at && a.slot < b.slot) }

  function Parent(position: nat): nat
    requires position > 0
  {
    (position - 1) / 2
  }

  /** The live part of the heap and, for each slot, where its entry is. */
  datatype Heap = Heap(entries: seq<Entry>, positions: seq<nat>)

  /** Entries and positions are mutually inverse. */
  ghost predicate Indexed(h: Heap) {
    && |h.entries| <= |h.positions| < ABSENT
    && (forall i | 0 <= i < |h.entries| ::
          h.entries[i].slot < |h.positions| && h.positions[h.entries[i].slot] == i)
    && (forall s | 0 <= s < |h.positions| && h.positions[s] != ABSENT ::
          h.positions[s] < |h.entries| && h.entries[h.positions[s]].slot == s)
  }

  ghost predicate Ordered(h: Heap) {
    forall i | 0 < i < |h.entries| :: !Precedes(h.entries[i], h.entries[Parent(i)])
  }

  /** The map the heap stands for. */
  ghost function Deadlines(h: Heap): map<nat, nat>
    requires Indexed(h)
  {
    map s: nat | s < |h.positions| && h.positions[s] != ABSENT :: h.entries[h.positions[s]].at
  }

  /** Two entries trade places. */
  function Swapped(h: Heap, i: nat, j: nat): Heap
    requires i < |h.entries| && j < |h.entries|
    requires h.entries[i].slot < |h.positions| && h.entries[j].slot < |h.positions|
  {
    Heap(h.entries[i := h.entries[j]][j := h.entries[i]],
         h.positions[h.entries[j].slot := i][h.entries[i].slot := j])
  }

  /** Where slots map and which entries they find decides the map. */
  lemma SameDeadlines(h: Heap, g: Heap, gone: set<nat>)
    requires Indexed(h) && Indexed(g) && |g.positions| == |h.positions|
    requires forall s: nat | s < |h.positions| :: g.positions[s] == ABSENT <==> h.positions[s] == ABSENT || s in gone
    requires forall s: nat | s < |h.positions| && g.positions[s] != ABSENT ::
               g.entries[g.positions[s]] == h.entries[h.positions[s]]
    ensures Deadlines(g) == Deadlines(h) - gone
  {
    hide Indexed;
    assert Deadlines(g).Keys == Deadlines(h).Keys - gone;
  }

  lemma SwapIndexed(h: Heap, i: nat, j: nat)
    requires Indexed(h) && i < |h.entries| && j < |h.entries| && i != j
    ensures Indexed(Swapped(h, i, j))
  {
    var g := Swapped(h, i, j);
    assert h.entries[i].slot != h.entries[j].slot;
    forall s | 0 <= s < |g.positions| && g.positions[s] != ABSENT
      ensures g.positions[s] < |g.entries| && g.entries[g.positions[s]].slot == s
    {
      assert h.positions[s] != ABSENT;
    }
  }

  lemma SwapRefines(h: Heap, i: nat, j: nat)
    requires Indexed(h) && i < |h.entries| && j < |h.entries| && i != j
    ensures Indexed(Swapped(h, i, j)) && Deadlines(Swapped(h, i, j)) == Deadlines(h)
  {
    hide Deadlines;
    SwapIndexed(h, i, j);
    var g := Swapped(h, i, j);
    assert h.entries[i].slot != h.entries[j].slot;
    forall s: nat | s < |h.positions| && g.positions[s] != ABSENT
      ensures g.entries[g.positions[s]] == h.entries[h.positions[s]]
    {
      assert h.positions[s] != ABSENT;
    }
    SameDeadlines(h, g, {});
    assert Deadlines(h) - {} == Deadlines(h);
  }

  // ----- Moving towards the root -----

  /** In order, except that the entry at `p` may belong further up. */
  ghost predicate OrderedBut(h: Heap, p: nat) {
    && p < |h.entries|
    && (forall i | 0 < i < |h.entries| && i != p :: !Precedes(h.entries[i], h.entries[Parent(i)]))
    && (forall c | 0 < c < |h.entries| && Parent(c) == p && p > 0 :: !Precedes(h.entries[c], h.entries[Parent(p)]))
  }

  lemma UpStep(h: Heap, p: nat)
    requires Indexed(h) && OrderedBut(h, p) && p > 0 && Precedes(h.entries[p], h.entries[Parent(p)])
    ensures OrderedBut(Swapped(h, p, Parent(p)), Parent(p))
  {
    hide Indexed;
    var above := Parent(p);
    IndexedSlots(h, p, above);
    var e, g := h.entries, Swapped(h, p, above).entries;
    forall i | 0 < i < |g| && i != above
      ensures !Precedes(g[i], g[Parent(i)])
    {
      if Parent(i) == above && i != p {
        assert !Precedes(e[i], e[above]);
      }
    }
    if above > 0 {
      forall c | 0 < c < |g| && Parent(c) == above
        ensures !Precedes(g[c], g[Parent(above)])
      {
        assert !Precedes(e[above], e[Parent(above)]);
        assert c != p ==> !Precedes(e[c], e[above]);
      }
    }
  }

  lemma IndexedSlots(h: Heap, i: nat, j: nat)
    requires Indexed(h) && i < |h.entries| && j < |h.entries|
    ensures h.entries[i].slot < |h.positions| && h.entries[j].slot < |h.positions|
  {
  }

  lemma UpDone(h: Heap, p: nat)
    requires OrderedBut(h, p) && (p == 0 || !Precedes(h.entries[p], h.entries[Parent(p)]))
    ensures Ordered(h)
  {
  }

  // ----- Moving away from the root -----

  /** In order, except that the entry at `p` may belong further down. */
  ghost predicate OrderedAbove(h: Heap, p: nat) {
    && p < |h.entries|
    && (forall i | 0 < i < |h.entries| && Parent(i) != p :: !Precedes(h.entries[i], h.entries[Parent(i)]))
    && (forall c | 0 < c < |h.entries| && Parent(c) == p && p > 0 :: !Precedes(h.entries[c], h.entries[Parent(p)]))
  }

  /** The child that comes first, if there is one. */
  ghost predicate FirstChild(h: Heap, p: nat, child: nat) {
    && 0 < child < |h.entries| && Parent(child) == p
    && (forall c | 0 < c < |h.entries| && Parent(c) == p :: !Precedes(h.entries[c], h.entries[child]))
  }

  lemma DownStep(h: Heap, p: nat, child: nat)
    requires Indexed(h) && OrderedAbove(h, p) && FirstChild(h, p, child) && Precedes(h.entries[child], h.entries[p])
    ensures OrderedAbove(Swapped(h, p, child), child)
  {
    hide Indexed;
    IndexedSlots(h, p, child);
    var e, g := h.entries, Swapped(h, p, child).entries;
    forall i | 0 < i < |g| && Parent(i) != child
      ensures !Precedes(g[i], g[Parent(i)])
    {
      if i == p {
        assert !Precedes(e[child], e[Parent(p)]);
      } else if Parent(i) == p {
        assert !Precedes(e[i], e[child]);
      }
    }
    forall c | 0 < c < |g| && Parent(c) == child
      ensures !Precedes(g[c], g[Parent(child)])
    {
      assert !Precedes(e[c], e[child]);
    }
  }

  lemma DownDone(h: Heap, p: nat)
    requires OrderedAbove(h, p)
    requires forall c | 0 < c < |h.entries| && Parent(c) == p :: !Precedes(h.entries[c], h.entries[p])
    ensures Ordered(h)
  {
  }

  /** The first child, found by looking at two entries. */
  lemma ChildFirst(h: Heap, p: nat, child: nat)
    requires p < |h.entries|
    requires var left := 2 * p + 1;
             left < |h.entries| && child == if left + 1 < |h.entries| && Precedes(h.entries[left + 1], h.entries[left])
                                           then left + 1 else left
    ensures FirstChild(h, p, child)
  {
    forall c | 0 < c < |h.entries| && Parent(c) == p
      ensures c == 2 * p + 1 || c == 2 * p + 2
    {
    }
  }

  lemma FirstDone(h: Heap, p: nat, child: nat)
    requires OrderedAbove(h, p) && FirstChild(h, p, child) && !Precedes(h.entries[child], h.entries[p])
    ensures Ordered(h)
  {
    forall c | 0 < c < |h.entries| && Parent(c) == p
      ensures !Precedes(h.entries[c], h.entries[p])
    {
      assert !Precedes(h.entries[c], h.entries[child]);
    }
    DownDone(h, p);
  }

  lemma LeafDone(h: Heap, p: nat)
    requires OrderedAbove(h, p) && 2 * p + 1 >= |h.entries|
    ensures Ordered(h)
  {
    DownDone(h, p);
  }

  /** Moving an entry into the gap moves the gap. */
  lemma GapMoves(entries: seq<Entry>, positions: seq<nat>, len: nat, p: nat, q: nat, entry: Entry)
    requires p < len <= |entries| && q < len && p != q && entry.slot < |positions| && entries[q].slot < |positions|
    requires entry.slot != entries[q].slot
    ensures Heap(entries[p := entries[q]][..len][q := entry],
                 positions[entries[q].slot := p][entry.slot := q])
            == Swapped(Heap(entries[..len][p := entry], positions[entry.slot := p]), p, q)
  {
    var h := Heap(entries[..len][p := entry], positions[entry.slot := p]);
    assert entries[p := entries[q]][..len][q := entry] == h.entries[p := h.entries[q]][q := h.entries[p]];
    assert positions[entries[q].slot := p][entry.slot := q]
        == h.positions[h.entries[q].slot := p][h.entries[p].slot := q];
  }

  lemma DistinctSlots(h: Heap, i: nat, j: nat)
    requires Indexed(h) && i < |h.entries| && j < |h.entries| && i != j
    ensures h.entries[i].slot < |h.positions| && h.entries[j].slot < |h.positions|
    ensures h.entries[i].slot != h.entries[j].slot
  {
  }

  /** With every entry after its parent, the first entry is the least. */
  lemma {:induction false} RootLeast(h: Heap, i: nat)
    requires Ordered(h) && i < |h.entries|
    ensures !Precedes(h.entries[i], h.entries[0])
    decreases i
  {
    if i > 0 {
      RootLeast(h, Parent(i));
      assert !Precedes(h.entries[i], h.entries[Parent(i)]);
    }
  }

  // ----- The map operations, on heaps out of order -----

  /** The slot had no deadline: its entry goes last. */
  lemma AddedRefines(h: Heap, slot: nat, at: nat)
    requires Indexed(h) && slot < |h.positions| && h.positions[slot] == ABSENT
    ensures |h.entries| < |h.positions|
    ensures var g := Heap(h.entries + [Entry(at, slot)], h.positions[slot := |h.entries|]);
            Indexed(g) && Deadlines(g) == Deadlines(h)[slot := at]
  {
    Room(h, slot);
    var g := Heap(h.entries + [Entry(at, slot)], h.positions[slot := |h.entries|]);
    assert Deadlines(g).Keys == Deadlines(h).Keys + {slot};
  }

  /** Distinct slots below the slot count, with one missing, leave room for another entry. */
  lemma Room(h: Heap, slot: nat)
    requires Indexed(h) && slot < |h.positions| && h.positions[slot] == ABSENT
    ensures |h.entries| < |h.positions|
  {
    SlotsFit(h, slot, |h.entries|);
  }

  ghost function SlotsOf(h: Heap, k: nat): set<nat>
    requires k <= |h.entries|
  {
    if k == 0 then {} else SlotsOf(h, k - 1) + {h.entries[k - 1].slot}
  }

  ghost function Below(n: nat): (s: set<nat>)
    ensures forall i: nat :: i in s <==> i < n
    ensures |s| == n
  {
    if n == 0 then {} else Below(n - 1) + {n - 1}
  }

  lemma {:induction false} SlotsCounted(h: Heap, k: nat)
    requires Indexed(h) && k <= |h.entries|
    ensures |SlotsOf(h, k)| == k
    ensures forall s :: s in SlotsOf(h, k) ==> s < |h.positions| && h.positions[s] < k
  {
    if k > 0 {
      SlotsCounted(h, k - 1);
    }
  }

  lemma SlotsFit(h: Heap, slot: nat, k: nat)
    requires Indexed(h) && slot < |h.positions| && h.positions[slot] == ABSENT && k == |h.entries|
    ensures k < |h.positions|
  {
    SlotsCounted(h, k);
    var all, others := Below(|h.positions|), SlotsOf(h, k);
    assert others <= all - {slot};
    assert others + (all - {slot} - others) == all - {slot};
  }

  /** The slot's entry is changed where it is. */
  lemma ChangedRefines(h: Heap, slot: nat, at: nat)
    requires Indexed(h) && slot < |h.positions| && h.positions[slot] != ABSENT
    ensures var p := h.positions[slot];
            var g := Heap(h.entries[p := Entry(at, slot)], h.positions);
            Indexed(g) && Deadlines(g) == Deadlines(h)[slot := at]
  {
    var p := h.positions[slot];
    var g := Heap(h.entries[p := Entry(at, slot)], h.positions);
    assert Deadlines(g).Keys == Deadlines(h).Keys;
  }

  lemma ChangedOrdered(h: Heap, p: nat, e: Entry)
    requires Ordered(h) && p < |h.entries|
    ensures var g := Heap(h.entries[p := e], h.positions);
            && (!Precedes(h.entries[p], e) ==> OrderedBut(g, p))
            && (!Precedes(e, h.entries[p]) ==> OrderedAbove(g, p))
  {
    var g := Heap(h.entries[p := e], h.positions);
    forall c | 0 < c < |g.entries| && Parent(c) == p
      ensures !Precedes(h.entries[p], e) ==> !Precedes(g.entries[c], g.entries[p])
      ensures p > 0 ==> !Precedes(g.entries[c], g.entries[Parent(p)])
    {
      assert !Precedes(h.entries[c], h.entries[p]);
      assert p > 0 ==> !Precedes(h.entries[p], h.entries[Parent(p)]);
    }
  }

  /** The entry at `p` is dropped and the last one takes its place. */
  function Removed(h: Heap, p: nat): Heap
    requires p < |h.entries| && h.entries[p].slot < |h.positions|
    requires h.entries[|h.entries| - 1].slot < |h.positions|
  {
    var n := |h.entries| - 1;
    var gone := h.positions[h.entries[p].slot := ABSENT];
    if p == n then Heap(h.entries[..n], gone)
    else Heap(h.entries[..n][p := h.entries[n]], gone[h.entries[n].slot := p])
  }

  lemma RemovedIndexed(h: Heap, p: nat)
    requires Indexed(h) && p < |h.entries|
    ensures Indexed(Removed(h, p))
  {
    var g, n := Removed(h, p), |h.entries| - 1;
    assert p != n ==> h.entries[p].slot != h.entries[n].slot;
    forall s | 0 <= s < |g.positions| && g.positions[s] != ABSENT
      ensures g.positions[s] < |g.entries| && g.entries[g.positions[s]].slot == s
    {
      assert h.positions[s] != ABSENT && h.positions[s] != p;
    }
  }

  lemma RemovedRefines(h: Heap, p: nat)
    requires Indexed(h) && p < |h.entries|
    ensures Indexed(Removed(h, p))
    ensures Deadlines(Removed(h, p)) == Deadlines(h) - {h.entries[p].slot}
  {
    hide Deadlines;
    RemovedIndexed(h, p);
    var g, n := Removed(h, p), |h.entries| - 1;
    assert p != n ==> h.entries[p].slot != h.entries[n].slot;
    forall s: nat | s < |h.positions| && g.positions[s] != ABSENT
      ensures g.entries[g.positions[s]] == h.entries[h.positions[s]]
    {
      assert h.positions[s] != ABSENT && h.positions[s] != p;
    }
    SameDeadlines(h, g, {h.entries[p].slot});
  }

  lemma RemovedOrdered(h: Heap, p: nat)
    requires Indexed(h) && Ordered(h) && p < |h.entries|
    ensures p == |h.entries| - 1 ==> Ordered(Removed(h, p))
    ensures p < |h.entries| - 1 ==>
              var g := Removed(h, p);
              if p > 0 && Precedes(g.entries[p], g.entries[Parent(p)]) then OrderedBut(g, p) else OrderedAbove(g, p)
  {
    hide Indexed;
    IndexedSlots(h, p, |h.entries| - 1);
    if p < |h.entries| - 1 {
      var e, g := h.entries, Removed(h, p).entries;
      forall c | 0 < c < |g| && Parent(c) == p
        ensures p > 0 ==> !Precedes(g[c], g[Parent(p)])
        ensures p > 0 && Precedes(g[p], g[Parent(p)]) ==> !Precedes(g[c], g[p])
      {
        assert !Precedes(e[c], e[p]);
        assert p > 0 ==> !Precedes(e[p], e[Parent(p)]);
      }
      forall i | 0 < i < |g| && i != p && Parent(i) != p
        ensures !Precedes(g[i], g[Parent(i)])
      {
        assert !Precedes(e[i], e[Parent(i)]);
      }
    }
  }

  lemma StartsWithin(h: Heap, p: nat)
    requires OrderedBut(h, p) || OrderedAbove(h, p)
    ensures p < |h.entries|
  {
  }

  // ----- The structure itself -----

  class Timers {
    var entries: array<Entry>
    var len: nat
    var positions: array<nat>

    /** The heap as a value. */
    ghost function View(): Heap
      requires len <= entries.Length
      reads this, entries, positions
    {
      Heap(entries[..len], positions[..])
    }

    ghost predicate Valid()
      reads this, entries, positions
    {
      && len <= entries.Length && entries.Length == positions.Length
      && Indexed(View()) && Ordered(View())
    }

    /** What the structure means: each slot's deadline. */
    ghost function Map(): map<nat, nat>
      requires Valid()
      reads this, entries, positions
    {
      Deadlines(View())
    }

    constructor (slots: nat)
      requires slots < ABSENT
      ensures Valid() && fresh(entries) && fresh(positions) && positions.Length == slots
      ensures Map() == map[]
    {
      entries := new Entry[slots](_ => Entry(0, ABSENT));
      positions := new nat[slots](_ => ABSENT);
      len := 0;
    }

    method Deadline(slot: nat) returns (at: Option<nat>)
      requires Valid()
      ensures at == if slot in Map() then Some(Map()[slot]) else None
    {
      if slot >= positions.Length || positions[slot] == ABSENT {
        return None;
      }
      return Some(entries[positions[slot]].at);
    }

    /** The least pair of deadline and slot. */
    method Peek() returns (first: Option<Entry>)
      requires Valid()
      ensures first.None? <==> Map() == map[]
      ensures first.Some? ==>
                && first.value.slot in Map() && Map()[first.value.slot] == first.value.at
                && forall s | s in Map() :: !Precedes(Entry(Map()[s], s), first.value)
    {
      if len == 0 {
        return None;
      }
      first := Some(entries[0]);
      ghost var h := View();
      assert h.entries[0] == first.value;
      forall s | s in Map()
        ensures !Precedes(Entry(Map()[s], s), first.value)
      {
        RootLeast(h, h.positions[s]);
      }
      assert first.value.slot in Map();
    }

    method Place(position: nat, entry: Entry)
      requires position < entries.Length && entry.slot < positions.Length
      modifies entries, positions
      ensures entries[..] == old(entries[..])[position := entry]
      ensures positions[..] == old(positions[..])[entry.slot := position]
    {
      entries[position] := entry;
      positions[entry.slot] := position;
    }

    /** The heap with `entry`, which is in hand, at `position`. */
    ghost function Holding(position: nat, entry: Entry): Heap
      requires position < len <= entries.Length && entry.slot < positions.Length
      reads this, entries, positions
    {
      Heap(entries[..len][position := entry], positions[..][entry.slot := position])
    }

    method SiftUp(start: nat)
      requires len <= entries.Length && entries.Length == positions.Length
      requires Indexed(View()) && OrderedBut(View(), start)
      modifies entries, positions
      ensures Valid() && Map() == old(Deadlines(View()))
    {
      hide Indexed, OrderedBut, Ordered, Deadlines, Swapped, Precedes;
      ghost var h := View();
      StartsWithin(h, start);
      var position := start;
      var entry := entries[position];
      HoldingHere(position);
      while position > 0
        invariant position < len && entry.slot < positions.Length
        invariant h == Holding(position, entry) && h.entries[position] == entry
        invariant Indexed(h) && Deadlines(h) == old(Deadlines(View()))
        invariant OrderedBut(h, position)
      {
        var above := Parent(position);
        assert entries[above] == h.entries[above];
        if !Precedes(entry, entries[above]) {
          break;
        }
        DistinctSlots(h, position, above);
        SwapRefines(h, position, above);
        UpStep(h, position);
        GapMoves(entries[..], positions[..], len, position, above, entry);
        h := Swapped(h, position, above);
        Place(position, entries[above]);
        position := above;
      }
      UpDone(h, position);
      Place(position, entry);
      assert View() == h;
    }

    method SiftDown(start: nat)
      requires len <= entries.Length && entries.Length == positions.Length
      requires Indexed(View()) && OrderedAbove(View(), start)
      modifies entries, positions
      ensures Valid() && Map() == old(Deadlines(View()))
    {
      hide Indexed, OrderedAbove, Ordered, Deadlines, Swapped, Precedes, FirstChild;
      ghost var h := View();
      StartsWithin(h, start);
      var position := start;
      var entry := entries[position];
      HoldingHere(position);
      while true
        invariant position < len && entry.slot < positions.Length
        invariant h == Holding(position, entry) && h.entries[position] == entry
        invariant Indexed(h) && Deadlines(h) == old(Deadlines(View()))
        invariant OrderedAbove(h, position)
        decreases len - position
      {
        var left := 2 * position + 1;
        if left >= len {
          LeafDone(h, position);
          break;
        }
        var right := left + 1;
        var child := if right < len && Precedes(entries[right], entries[left]) then right else left;
        assert entries[left] == h.entries[left] && (right < len ==> entries[right] == h.entries[right]);
        ChildFirst(h, position, child);
        if !Precedes(entries[child], entry) {
          FirstDone(h, position, child);
          break;
        }
        DistinctSlots(h, position, child);
        SwapRefines(h, position, child);
        DownStep(h, position, child);
        GapMoves(entries[..], positions[..], len, position, child, entry);
        h := Swapped(h, position, child);
        Place(position, entries[child]);
        position := child;
      }
      Place(position, entry);
      assert View() == h;
    }

    lemma HoldingHere(position: nat)
      requires len <= entries.Length && Indexed(View()) && position < len
      ensures entries[position].slot < positions.Length && Holding(position, entries[position]) == View()
    {
    }

    /** The slot's deadline is now this one, whatever it was. */
    method Set(slot: nat, at: nat)
      requires Valid() && slot < positions.Length
      modifies this, entries, positions
      ensures Valid() && entries == old(entries) && positions == old(positions)
      ensures Map() == old(Map())[slot := at]
    {
      ghost var h := View();
      var position := positions[slot];
      if position == ABSENT {
        AddedRefines(h, slot, at);
        position := len;
        len := len + 1;
        Place(position, Entry(at, slot));
        assert View() == Heap(h.entries + [Entry(at, slot)], h.positions[slot := position]);
        SiftUp(position);
        return;
      }
      ChangedRefines(h, slot, at);
      ChangedOrdered(h, position, Entry(at, slot));
      var earlier := at < entries[position].at;
      entries[position] := Entry(at, slot);
      assert View() == Heap(h.entries[position := Entry(at, slot)], h.positions);
      if earlier {
        SiftUp(position);
      } else {
        SiftDown(position);
      }
    }

    method RemoveAt(position: nat)
      requires Valid() && position < len
      modifies this, entries, positions
      ensures Valid() && entries == old(entries) && positions == old(positions)
      ensures Map() == old(Map()) - {old(entries[position].slot)}
    {
      ghost var h := View();
      RemovedRefines(h, position);
      RemovedOrdered(h, position);
      var removed := entries[position].slot;
      positions[removed] := ABSENT;
      len := len - 1;
      if position == len {
        assert View() == Removed(h, position);
        return;
      }
      var last := entries[len];
      Place(position, last);
      assert View() == Removed(h, position);
      if position > 0 && Precedes(last, entries[Parent(position)]) {
        SiftUp(position);
      } else {
        SiftDown(position);
      }
    }

    method Cancel(slot: nat)
      requires Valid() && slot < positions.Length
      modifies this, entries, positions
      ensures Valid() && entries == old(entries) && positions == old(positions)
      ensures Map() == old(Map()) - {slot}
    {
      var position := positions[slot];
      if position != ABSENT {
        RemoveAt(position);
      }
    }

    /** Takes the least due pair, or nothing exactly when nothing is due. */
    method PopDue(now: nat) returns (slot: Option<nat>)
      requires Valid()
      modifies this, entries, positions
      ensures Valid() && entries == old(entries) && positions == old(positions)
      ensures slot.None? ==> Map() == old(Map()) && forall s | s in Map() :: Map()[s] > now
      ensures slot.Some? ==>
                && slot.value in old(Map()) && old(Map())[slot.value] <= now
                && Map() == old(Map()) - {slot.value}
                && forall s | s in Map() :: Precedes(Entry(old(Map())[slot.value], slot.value), Entry(Map()[s], s))
    {
      var first := Peek();
      if first.None? || first.value.at > now {
        return None;
      }
      assert entries[0] == first.value by { RootFirst(first.value); }
      RemoveAt(0);
      return Some(first.value.slot);
    }

    /** The least entry of the map sits first. */
    lemma RootFirst(e: Entry)
      requires Valid() && e.slot in Map() && Map()[e.slot] == e.at
      requires forall s | s in Map() :: !Precedes(Entry(Map()[s], s), e)
      ensures len > 0 && entries[0] == e
    {
      var h := View();
      RootLeast(h, h.positions[e.slot]);
      assert h.entries[0].slot in Map();
    }
  }
}
