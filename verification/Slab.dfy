/** A slab of slots with generations over a dense array of items: it refines a partial map from
handles to items and never issues a handle twice. */
module Slab {
  import opened Machine
  import opened Counting

  const NONE: nat := U32_MAX

  datatype Handle = Handle(index: nat, generation: nat)

  /** Odd generations are those of occupants. `link` leads an occupied slot to its item and a
  free one to the rest of the free list. */
  datatype Slot = Slot(generation: nat, link: nat) {
    predicate Occupied() { generation % 2 == 1 }
    /** Free for another occupant; a slot back at generation zero is not. */
    predicate Reusable() { generation % 2 == 0 && generation != 0 }
  }

  function Bumped(generation: nat): nat { (generation + 1) % U32 }

  datatype Store<T> = Store(slots: seq<Slot>, items: seq<T>, owners: seq<nat>, freeHead: nat)

  /** Slots, items and owners are mutually inverse. */
  ghost predicate Inverse<T>(s: Store<T>) {
    && |s.owners| == |s.items| && |s.slots| < NONE
    && (forall i | 0 <= i < |s.slots| :: s.slots[i].generation < U32)
    && (forall d | 0 <= d < |s.owners| ::
          s.owners[d] < |s.slots| && s.slots[s.owners[d]].Occupied() && s.slots[s.owners[d]].link == d)
    && (forall i | 0 <= i < |s.slots| && s.slots[i].Occupied() ::
          s.slots[i].link < |s.owners| && s.owners[s.slots[i].link] == i)
  }

  /** `free` is the chain of links from `head`, and its slots are all different. */
  ghost predicate Chain(slots: seq<Slot>, head: nat, free: seq<nat>)
    decreases |free|
  {
    if free == [] then head == NONE
    else head == free[0] < |slots| && head !in free[1..] && Chain(slots, slots[head].link, free[1..])
  }

  /** The free list holds exactly the slots that may be used again. */
  ghost predicate FreeExact(slots: seq<Slot>, free: seq<nat>) {
    forall i | 0 <= i < |slots| :: i in free <==> slots[i].Reusable()
  }

  ghost function Live(slots: seq<Slot>): set<Handle> {
    set i | 0 <= i < |slots| && slots[i].Occupied() :: Handle(i, slots[i].generation)
  }

  /** The map the slab stands for. */
  ghost function Contents<T>(s: Store<T>): map<Handle, T>
    requires Inverse(s)
  {
    map h | h in Live(s.slots) :: s.items[s.slots[h.index].link]
  }

  /** Membership by slot: a handle is live when its slot is in its generation. */
  lemma ContentsExact<T>(s: Store<T>, h: Handle)
    requires Inverse(s)
    ensures h in Contents(s)
            <==> h.index < |s.slots| && s.slots[h.index].Occupied() && s.slots[h.index].generation == h.generation
    ensures h in Contents(s) ==> s.slots[h.index].link < |s.items| && Contents(s)[h] == s.items[s.slots[h.index].link]
  {
  }

  // ----- Occupying a slot -----

  /** `index` is either a free slot or the one just past the end. */
  function Filled<T>(s: Store<T>, index: nat, item: T, freeHead: nat): Store<T>
    requires index < |s.slots|
  {
    Store(s.slots[index := Slot(Bumped(s.slots[index].generation), |s.items|)], s.items + [item], s.owners + [index],
          freeHead)
  }

  lemma FilledInverse<T>(s: Store<T>, index: nat, item: T, freeHead: nat)
    requires Inverse(s) && index < |s.slots| && !s.slots[index].Occupied()
    ensures Inverse(Filled(s, index, item, freeHead))
  {
    assert s.slots[index].generation % 2 == 0 && Bumped(s.slots[index].generation) == s.slots[index].generation + 1;
  }

  lemma FilledContents<T>(s: Store<T>, index: nat, item: T, freeHead: nat)
    requires Inverse(s) && index < |s.slots| && !s.slots[index].Occupied()
    ensures var h := Handle(index, s.slots[index].generation + 1);
            && Inverse(Filled(s, index, item, freeHead))
            && h !in Contents(s) && Contents(Filled(s, index, item, freeHead)) == Contents(s)[h := item]
  {
    hide Contents;
    FilledInverse(s, index, item, freeHead);
    assert s.slots[index].generation % 2 == 0 && Bumped(s.slots[index].generation) == s.slots[index].generation + 1;
    var h, g := Handle(index, s.slots[index].generation + 1), Filled(s, index, item, freeHead);
    ContentsExact(s, h);
    SameContents(s, g, h, item);
  }

  lemma SameContents<T>(s: Store<T>, g: Store<T>, h: Handle, item: T)
    requires Inverse(s) && Inverse(g) && h.index < |s.slots| == |g.slots| && !s.slots[h.index].Occupied()
    requires g.slots == s.slots[h.index := Slot(h.generation, |s.items|)] && g.items == s.items + [item]
    requires g.slots[h.index].Occupied()
    ensures Contents(g) == Contents(s)[h := item]
  {
    hide Contents;
    forall k: Handle
      ensures k in Contents(g) <==> k in Contents(s)[h := item]
      ensures k in Contents(g) ==> Contents(g)[k] == Contents(s)[h := item][k]
    {
      ContentsExact(g, k);
      ContentsExact(s, k);
    }
    assert Contents(g).Keys == Contents(s)[h := item].Keys;
  }

  // ----- Emptying a slot -----

  /** The last item moves to the place left, and its slot is told. */
  function Emptied<T>(s: Store<T>, index: nat): Store<T>
    requires Inverse(s) && index < |s.slots| && s.slots[index].Occupied()
  {
    var d, n := s.slots[index].link, |s.items| - 1;
    var items := s.items[d := s.items[n]][..n];
    var owners := s.owners[d := s.owners[n]][..n];
    var moved := if d < n then s.slots[owners[d] := s.slots[owners[d]].(link := d)] else s.slots;
    var generation := Bumped(s.slots[index].generation);
    if generation != 0 then Store(moved[index := Slot(generation, s.freeHead)], items, owners, index)
    else Store(moved[index := moved[index].(generation := 0)], items, owners, s.freeHead)
  }

  lemma BumpEven(generation: nat)
    requires generation % 2 == 1 && generation < U32
    ensures Bumped(generation) < U32 && Bumped(generation) % 2 == 0
    ensures Bumped(generation) == 0 <==> generation == U32_MAX
    ensures Bumped(generation) != 0 ==> Bumped(generation) == generation + 1
  {
  }

  lemma EmptiedInverse<T>(s: Store<T>, index: nat)
    requires Inverse(s) && index < |s.slots| && s.slots[index].Occupied()
    ensures Inverse(Emptied(s, index))
  {
    BumpEven(s.slots[index].generation);
    var g := Emptied(s, index);
    var d, n := s.slots[index].link, |s.items| - 1;
    forall i | 0 <= i < |g.slots| && g.slots[i].Occupied()
      ensures g.slots[i].link < |g.owners| && g.owners[g.slots[i].link] == i
    {
      assert i != index && s.slots[i].Occupied();
    }
    forall e | 0 <= e < |g.owners|
      ensures g.owners[e] < |g.slots| && g.slots[g.owners[e]].Occupied() && g.slots[g.owners[e]].link == e
    {
      assert g.owners[e] != index;
    }
  }

  lemma EmptiedContents<T>(s: Store<T>, index: nat)
    requires Inverse(s) && index < |s.slots| && s.slots[index].Occupied()
    ensures Inverse(Emptied(s, index))
    ensures Contents(Emptied(s, index)) == Contents(s) - {Handle(index, s.slots[index].generation)}
  {
    hide Contents;
    EmptiedInverse(s, index);
    BumpEven(s.slots[index].generation);
    var g, h := Emptied(s, index), Handle(index, s.slots[index].generation);
    forall k: Handle
      ensures k in Contents(g) <==> k in Contents(s) && k != h
      ensures k in Contents(g) ==> Contents(g)[k] == Contents(s)[k]
    {
      ContentsExact(g, k);
      ContentsExact(s, k);
    }
    assert Contents(g).Keys == (Contents(s) - {h}).Keys;
  }

  // ----- The free list -----

  /** Links outside the chain may change. */
  lemma {:induction false} ChainElsewhere(slots: seq<Slot>, head: nat, free: seq<nat>, slots': seq<Slot>)
    requires Chain(slots, head, free) && |slots| <= |slots'|
    requires forall i: nat | i in free && i < |slots| :: slots'[i].link == slots[i].link
    ensures Chain(slots', head, free)
    decreases |free|
  {
    if free != [] {
      assert forall i | i in free[1..] :: i in free;
      ChainElsewhere(slots, slots[head].link, free[1..], slots');
    }
  }

  lemma ChainMore(slots: seq<Slot>, head: nat, free: seq<nat>, index: nat)
    requires Chain(slots, head, free) && index < |slots| && index !in free && slots[index].link == head
    ensures Chain(slots, index, [index] + free)
  {
    assert ([index] + free)[1..] == free;
  }

  lemma {:induction false} ChainWithin(slots: seq<Slot>, head: nat, free: seq<nat>)
    requires Chain(slots, head, free)
    ensures forall i | i in free :: i < |slots|
    decreases |free|
  {
    if free != [] {
      ChainWithin(slots, slots[head].link, free[1..]);
      assert free == [free[0]] + free[1..];
    }
  }

  // ----- Which slot is next -----

  /** The slot the next item goes to: the head of the free list, else a new one under capacity. */
  function NextSlot<T>(s: Store<T>, capacity: nat): Option<nat> {
    if s.freeHead < |s.slots| then Some(s.freeHead) else if |s.slots| < capacity then Some(|s.slots|) else None
  }

  /** The handle the next item gets. */
  function Offered<T>(s: Store<T>, capacity: nat): Option<Handle> {
    match NextSlot(s, capacity)
    case None => None
    case Some(index) => Some(Handle(index, if index < |s.slots| then Bumped(s.slots[index].generation) else 1))
  }

  /** The slot taken off the free list, or made. */
  function Claimed<T>(s: Store<T>, capacity: nat): Store<T> {
    if s.freeHead < |s.slots| then s.(freeHead := s.slots[s.freeHead].link)
    else if |s.slots| < capacity then s.(slots := s.slots + [Slot(0, NONE)]) else s
  }

  function Inserted<T>(s: Store<T>, capacity: nat, item: T): Store<T> {
    var index := NextSlot(s, capacity);
    var c := Claimed(s, capacity);
    if index.None? then s else Filled(c, index.value, item, c.freeHead)
  }

  /** Its generation ran out. */
  predicate Worn(slot: Slot) { slot.generation == 0 }

  /** No slot is left exactly when all have been made and each is occupied or worn out. */
  lemma RefusesExact<T>(s: Store<T>, capacity: nat, free: seq<nat>)
    requires Inverse(s) && |s.slots| <= capacity && Chain(s.slots, s.freeHead, free) && FreeExact(s.slots, free)
    ensures Offered(s, capacity).None?
            <==> |s.slots| == capacity && forall i | 0 <= i < |s.slots| :: s.slots[i].Occupied() || Worn(s.slots[i])
  {
    ChainWithin(s.slots, s.freeHead, free);
    if free != [] {
      assert free[0] in free;
    }
  }

  /** So while there are fewer items than capacity, only a worn slot can be the reason. */
  lemma RefusesOnlyWorn<T>(s: Store<T>, capacity: nat, free: seq<nat>)
    requires Inverse(s) && |s.slots| <= capacity && Chain(s.slots, s.freeHead, free) && FreeExact(s.slots, free)
    requires |s.items| < capacity && Offered(s, capacity).None?
    ensures exists i :: 0 <= i < |s.slots| && Worn(s.slots[i])
  {
    RefusesExact(s, capacity, free);
    if forall i | 0 <= i < |s.slots| :: s.slots[i].Occupied() {
      forall i: nat | 0 <= i < |s.slots|
        ensures i in s.owners
      {
        assert s.owners[s.slots[i].link] == i;
      }
      CoverSize(0, |s.slots|, s.owners);
    }
  }

  /** A worn slot is one item fewer. */
  lemma WornLeavesRoom<T>(s: Store<T>, i: nat)
    requires Inverse(s) && i < |s.slots| && Worn(s.slots[i])
    ensures |s.items| < |s.slots|
  {
    var others := Range(0, |s.slots|) - {i};
    forall a, b | 0 <= a < b < |s.owners|
      ensures s.owners[a] != s.owners[b]
    {
      assert s.slots[s.owners[a]].link == a && s.slots[s.owners[b]].link == b;
    }
    forall a | 0 <= a < |s.owners|
      ensures s.owners[a] in others
    {
      assert s.slots[s.owners[a]].Occupied();
    }
    DistinctSize(s.owners, others);
  }

  /** How many occupants a slot can have. */
  const OCCUPANTS: nat := 0x8000_0000

  /** One item, in the first slot. */
  function One<T>(item: T, generation: nat): Store<T> { Store([Slot(generation, 0)], [item], [0], NONE) }

  lemma InsertedOne<T>(s: Store<T>, capacity: nat, item: T, generation: nat)
    requires 0 < capacity && generation % 2 == 0 && generation < U32_MAX && s.items == [] && s.owners == []
    requires if generation == 0 then s.slots == [] && s.freeHead == NONE
             else s.slots == [Slot(generation, NONE)] && s.freeHead == 0
    ensures Inserted(s, capacity, item) == One(item, generation + 1)
  {
    assert [Slot(generation, NONE)][0 := Slot(generation + 1, 0)] == [Slot(generation + 1, 0)];
    assert [] + [Slot(0, NONE)] == [Slot(0, NONE)] && [] + [item] == [item] && [] + [0] == [0];
  }

  lemma OneInverse<T>(item: T, generation: nat)
    requires generation % 2 == 1 && generation < U32
    ensures Inverse(One(item, generation))
  {
    assert [0][0] == 0;
  }

  lemma EmptiedOne<T>(item: T, generation: nat)
    requires generation % 2 == 1 && generation < U32
    ensures Inverse(One(item, generation))
    ensures Emptied(One(item, generation), 0) ==
            if generation < U32_MAX then Store([Slot(generation + 1, NONE)], [], [], 0)
            else Store([Slot(0, 0)], [], [], NONE)
  {
    OneInverse(item, generation);
    BumpEven(generation);
    hide Bumped, Inverse;
    assert [item][0 := item][..0] == [] && [0][0 := 0][..0] == [];
    assert [Slot(generation, 0)][0 := Slot(0, 0)] == [Slot(0, 0)];
  }

  /** What is left of a slab when `k` items have come and gone one by one: the first slot, in its next
  generation or worn out. */
  function Hollow<T>(k: nat): Store<T>
    requires k <= OCCUPANTS
  {
    if k == 0 then Store([], [], [], NONE)
    else if k < OCCUPANTS then Store([Slot(2 * k, NONE)], [], [], 0)
    else Store([Slot(0, 0)], [], [], NONE)
  }

  lemma HollowFilled<T>(k: nat, capacity: nat, item: T)
    requires k < OCCUPANTS && 0 < capacity
    ensures Offered(Hollow<T>(k), capacity) == Some(Handle(0, 2 * k + 1))
    ensures Inserted(Hollow(k), capacity, item) == One(item, 2 * k + 1)
  {
    InsertedOne(Hollow(k), capacity, item, 2 * k);
  }

  lemma HollowEmptied<T>(k: nat, item: T)
    requires k < OCCUPANTS
    ensures Inverse(One(item, 2 * k + 1)) && Emptied(One(item, 2 * k + 1), 0) == Hollow(k + 1)
  {
    EmptiedOne(item, 2 * k + 1);
  }

  lemma HollowInverse<T>(k: nat)
    requires k <= OCCUPANTS
    ensures Inverse(Hollow<T>(k)) && Contents(Hollow<T>(k)) == map[]
  {
    hide Contents;
    forall h: Handle
      ensures h !in Contents(Hollow<T>(k))
    {
      ContentsExact(Hollow<T>(k), h);
    }
  }

  lemma OneContents<T>(item: T, generation: nat)
    requires generation % 2 == 1 && generation < U32
    ensures Inverse(One(item, generation)) && Contents(One(item, generation)) == map[Handle(0, generation) := item]
  {
    hide Contents;
    OneInverse(item, generation);
    forall h: Handle
      ensures h in Contents(One(item, generation)) <==> h == Handle(0, generation)
      ensures h in Contents(One(item, generation)) ==> Contents(One(item, generation))[h] == item
    {
      ContentsExact(One(item, generation), h);
    }
  }

  /** After its last occupant the first slot is worn out, and a slab of two refuses a second item. */
  lemma HollowRefuses<T>(kept: T)
    ensures var worn := Hollow<T>(OCCUPANTS);
            && Offered(worn, 2) == Some(Handle(1, 1))
            && var s := Inserted(worn, 2, kept);
               && s == Store([Slot(0, 0), Slot(1, 0)], [kept], [1], NONE)
               && Inverse(s) && Chain(s.slots, s.freeHead, []) && FreeExact(s.slots, [])
               && |s.items| < 2 && Offered(s, 2).None?
  {
    var slots := [Slot(0, 0)] + [Slot(0, NONE)];
    assert slots[1 := Slot(1, 0)] == [Slot(0, 0), Slot(1, 0)];
    assert [] + [kept] == [kept] && [] + [1] == [1];
  }

  // ----- The structure itself -----

  /** Handles issued so far are no newer than their slots. */
  ghost predicate NoneAhead(slots: seq<Slot>, issued: set<Handle>) {
    forall h | h in issued ::
      && h.index < |slots| && h.generation % 2 == 1
      && (slots[h.index].generation == 0 || h.generation <= slots[h.index].generation)
  }

  class Slab<T> {
    const capacity: nat
    var slots: seq<Slot>
    var items: seq<T>
    var owners: seq<nat>
    var freeHead: nat
    ghost var free: seq<nat>
    ghost var issued: set<Handle>

    ghost function View(): Store<T>
      reads this
    {
      Store(slots, items, owners, freeHead)
    }

    ghost predicate Valid()
      reads this
    {
      && |slots| <= capacity < NONE
      && Inverse(View()) && Chain(slots, freeHead, free) && FreeExact(slots, free)
      && NoneAhead(slots, issued) && (forall h | h in Contents(View()) :: h in issued)
    }

    /** What the slab means. */
    ghost function Map(): map<Handle, T>
      requires Valid()
      reads this
    {
      Contents(View())
    }

    constructor (capacity: nat)
      requires capacity < NONE
      ensures Valid() && Map() == map[] && issued == {} && this.capacity == capacity
    {
      this.capacity := capacity;
      slots, items, owners, freeHead := [], [], [], NONE;
      free, issued := [], {};
    }

    /** Whether no slot can be claimed: all are occupied or retired. */
    ghost predicate Full()
      reads this
    {
      |slots| == capacity && forall i | 0 <= i < |slots| :: !slots[i].Reusable()
    }

    /** The next slot to use. It is unoccupied, off the free list, and ahead of every handle issued
    for it. */
    method Claim() returns (claimed: Option<nat>)
      requires Valid()
      modifies this
      ensures issued == old(issued) && items == old(items) && owners == old(owners)
      ensures claimed == NextSlot(old(View()), capacity) && View() == Claimed(old(View()), capacity)
      ensures claimed.None? <==> old(Full())
      ensures claimed.None? ==> Valid()
      ensures claimed.Some? ==>
                && claimed.value < |slots| <= capacity && !slots[claimed.value].Occupied()
                && slots[claimed.value].generation < U32_MAX
                && Inverse(View()) && Contents(View()) == old(Contents(View()))
                && Chain(slots, freeHead, free) && claimed.value !in free
                && (forall i | 0 <= i < |slots| && i != claimed.value :: i in free <==> slots[i].Reusable())
                && NoneAhead(slots, issued)
                && (forall h | h in issued && h.index == claimed.value ::
                    h.generation <= slots[claimed.value].generation)
    {
      if freeHead != NONE {
        var index := freeHead;
        assert index in free;
        assert slots[index].Reusable();
        freeHead := slots[index].link;
        free := free[1..];
        ContentsSame(Store(slots, items, owners, index), View());
        return Some(index);
      }
      if |slots| < capacity {
        ghost var before := View();
        slots := slots + [Slot(0, NONE)];
        ChainElsewhere(before.slots, freeHead, free, slots);
        ContentsSame(before, View());
        return Some(|slots| - 1);
      }
      return None;
    }

    method Fill(index: nat, item: T) returns (h: Handle)
      requires index < |slots| <= capacity < NONE && !slots[index].Occupied() && slots[index].generation < U32_MAX
      requires Inverse(View()) && Chain(slots, freeHead, free) && index !in free
      requires forall i | 0 <= i < |slots| && i != index :: i in free <==> slots[i].Reusable()
      requires NoneAhead(slots, issued) && (forall h | h in Contents(View()) :: h in issued)
      requires forall h | h in issued && h.index == index :: h.generation <= slots[index].generation
      modifies this
      ensures Valid() && h == Handle(index, old(slots[index].generation) + 1)
      ensures View() == Filled(old(View()), index, item, old(freeHead))
      ensures h !in old(issued) && issued == old(issued) + {h}
      ensures h !in old(Contents(View())) && Map() == old(Contents(View()))[h := item]
    {
      hide Contents;
      FilledContents(View(), index, item, freeHead);
      ghost var before := View();
      var dense := |items|;
      items := items + [item];
      owners := owners + [index];
      var generation := Bumped(slots[index].generation);
      assert generation == slots[index].generation + 1;
      slots := slots[index := Slot(generation, dense)];
      h := Handle(index, generation);
      assert View() == Filled(before, index, item, freeHead);
      ChainElsewhere(before.slots, freeHead, free, slots);
      issued := issued + {h};
    }

    /** The item is made once its handle is known. */
    method InsertWith(make: Handle -> T) returns (h: Option<Handle>)
      requires Valid()
      modifies this
      ensures Valid() && (h.None? <==> old(Full())) && h == Offered(old(View()), capacity)
      ensures h.None? ==> Map() == old(Map()) && issued == old(issued)
      ensures h.Some? ==> View() == Inserted(old(View()), capacity, make(h.value))
      ensures h.Some? ==>
                && h.value !in old(issued) && issued == old(issued) + {h.value}
                && h.value.index < capacity && (forall k | k in old(Map()) :: k.index != h.value.index)
                && Map() == old(Map())[h.value := make(h.value)] && h.value !in old(Map())
    {
      hide Contents, Inverse, Chain;
      var index := Claim();
      if index.None? {
        return None;
      }
      NoneInSlot(View(), index.value);
      var made := Handle(index.value, Bumped(slots[index.value].generation));
      var filled := Fill(index.value, make(made));
      assert filled == made;
      return Some(filled);
    }

    method Insert(item: T) returns (h: Option<Handle>)
      requires Valid()
      modifies this
      ensures Valid() && (h.None? <==> old(Full())) && h == Offered(old(View()), capacity)
      ensures View() == Inserted(old(View()), capacity, item)
      ensures h.Some? ==>
                && h.value !in old(issued) && issued == old(issued) + {h.value}
                && Map() == old(Map())[h.value := item] && h.value !in old(Map())
    {
      hide Contents, Inverse, Chain;
      var index := Claim();
      if index.None? {
        return None;
      }
      var filled := Fill(index.value, item);
      return Some(filled);
    }

    method DenseIndex(h: Handle) returns (d: Option<nat>)
      requires Valid() && h.generation % 2 == 1
      ensures d.Some? <==> h in Map()
      ensures d.Some? ==> d.value == slots[h.index].link < |items| && Map()[h] == items[d.value]
    {
      hide Contents;
      ContentsExact(View(), h);
      if h.index >= |slots| || slots[h.index].generation != h.generation {
        return None;
      }
      return Some(slots[h.index].link);
    }

    method Get(h: Handle) returns (item: Option<T>)
      requires Valid() && h.generation % 2 == 1
      ensures item == if h in Map() then Some(Map()[h]) else None
    {
      var d := DenseIndex(h);
      return if d.None? then None else Some(items[d.value]);
    }

    /** Changes an item in place. */
    method Put(h: Handle, item: T)
      requires Valid() && h in Map()
      modifies this
      ensures Valid() && Map() == old(Map())[h := item] && issued == old(issued)
      ensures slots == old(slots) && freeHead == old(freeHead)
    {
      hide Contents;
      ghost var before := View();
      ContentsExact(before, h);
      items := items[slots[h.index].link := item];
      PutContents(before, View(), h, item);
    }

    /** The one live handle with this index, if any. */
    method HandleAt(index: nat) returns (h: Option<Handle>)
      requires Valid()
      ensures h.Some? ==> h.value in Map() && h.value.index == index
      ensures h.None? ==> forall k | k in Map() :: k.index != index
      ensures forall k | k in Map() && k.index == index :: h == Some(k)
    {
      hide Contents;
      forall k: Handle
        ensures k in Map()
                <==> k.index < |slots| && slots[k.index].Occupied() && slots[k.index].generation == k.generation
      {
        ContentsExact(View(), k);
      }
      if index >= |slots| || !slots[index].Occupied() {
        return None;
      }
      return Some(Handle(index, slots[index].generation));
    }

    method Remove(h: Handle) returns (item: Option<T>)
      requires Valid() && h.generation % 2 == 1
      modifies this
      ensures Valid() && issued == old(issued)
      ensures item == if h in old(Map()) then Some(old(Map())[h]) else None
      ensures Map() == old(Map()) - {h}
      ensures View() == if h in old(Map()) then Emptied(old(View()), h.index) else old(View())
    {
      hide Contents, Inverse, Chain, FreeExact, NoneAhead, Bumped;
      ghost var before := View();
      var dense := DenseIndex(h);
      if dense.None? {
        return None;
      }
      var d, n := dense.value, |items| - 1;
      ContentsExact(before, h);
      EmptiedContents(before, h.index);
      EmptiedShape(before, h.index);
      item := Some(items[d]);
      items := items[d := items[n]][..n];
      owners := owners[d := owners[n]][..n];
      if d < |items| {
        var moved := owners[d];
        slots := slots[moved := slots[moved].(link := d)];
      }
      var generation := Bumped(slots[h.index].generation);
      slots := slots[h.index := slots[h.index].(generation := generation)];
      if generation != 0 {
        slots := slots[h.index := slots[h.index].(link := freeHead)];
        freeHead := h.index;
      }
      assert View() == Emptied(before, h.index);
      RemovedFree(before, h.index, free);
      if generation != 0 {
        free := [h.index] + free;
      }
      RemovedAhead(before, h.index, issued);
    }
  }

  lemma ContentsSame<T>(s: Store<T>, g: Store<T>)
    requires Inverse(s) && |g.slots| < NONE
    requires g.items == s.items && g.owners == s.owners
    requires g.slots == s.slots || g.slots == s.slots + [Slot(0, NONE)]
    ensures Inverse(g) && Contents(g) == Contents(s)
  {
    hide Contents;
    assert Inverse(g);
    forall k: Handle
      ensures k in Contents(g) <==> k in Contents(s)
      ensures k in Contents(g) ==> Contents(g)[k] == Contents(s)[k]
    {
      ContentsExact(g, k);
      ContentsExact(s, k);
    }
    assert Contents(g).Keys == Contents(s).Keys;
  }

  lemma PutContents<T>(s: Store<T>, g: Store<T>, h: Handle, item: T)
    requires Inverse(s) && h in Contents(s) && h.index < |s.slots| && s.slots[h.index].link < |s.items|
    requires g == s.(items := s.items[s.slots[h.index].link := item])
    ensures Inverse(g) && Contents(g) == Contents(s)[h := item]
  {
    hide Contents;
    assert Inverse(g);
    ContentsExact(s, h);
    forall k: Handle
      ensures k in Contents(g) <==> k in Contents(s)
      ensures k in Contents(g) ==> Contents(g)[k] == Contents(s)[h := item][k]
    {
      ContentsExact(g, k);
      ContentsExact(s, k);
    }
    assert Contents(g).Keys == Contents(s)[h := item].Keys;
  }

  lemma RemovedFree<T>(s: Store<T>, index: nat, free: seq<nat>)
    requires Inverse(s) && index < |s.slots| && s.slots[index].Occupied()
    requires Chain(s.slots, s.freeHead, free) && FreeExact(s.slots, free)
    ensures var g := Emptied(s, index);
            var free' := if Bumped(s.slots[index].generation) != 0 then [index] + free else free;
            Chain(g.slots, g.freeHead, free') && FreeExact(g.slots, free')
  {
    hide Chain, Inverse, Bumped;
    BumpEven(s.slots[index].generation) by { SlotBounded(s, index); }
    var g := Emptied(s, index);
    EmptiedShape(s, index);
    assert index !in free;
    forall i | 0 <= i < |s.slots| && i != index
      ensures g.slots[i].generation == s.slots[i].generation
      ensures i in free ==> g.slots[i] == s.slots[i]
    {
      EmptiedSlots(s, index, i);
    }
    ChainWithin(s.slots, s.freeHead, free);
    ChainElsewhere(s.slots, s.freeHead, free, g.slots);
    if Bumped(s.slots[index].generation) != 0 {
      ChainMore(g.slots, s.freeHead, free, index);
    }
  }

  lemma NoneInSlot<T>(s: Store<T>, index: nat)
    requires Inverse(s) && index < |s.slots| && !s.slots[index].Occupied()
    ensures forall k | k in Contents(s) :: k.index != index
  {
  }

  ghost function FirstHandles<T>(s: Store<T>, n: nat): set<Handle>
    requires Inverse(s) && n <= |s.owners|
  {
    if n == 0 then {} else FirstHandles(s, n - 1) + {Handle(s.owners[n - 1], s.slots[s.owners[n - 1]].generation)}
  }

  /** The handle is live and its item is among the first `n`. */
  ghost predicate LiveBelow<T>(s: Store<T>, h: Handle, n: nat) {
    && h.index < |s.slots| && s.slots[h.index].Occupied() && s.slots[h.index].generation == h.generation
    && s.slots[h.index].link < n
  }

  lemma LiveNext<T>(s: Store<T>, h: Handle, n: nat)
    requires Inverse(s) && n < |s.owners|
    ensures s.owners[n] < |s.slots|
    ensures LiveBelow(s, h, n + 1) <==>
              LiveBelow(s, h, n) || h == Handle(s.owners[n], s.slots[s.owners[n]].generation)
    ensures !LiveBelow(s, Handle(s.owners[n], s.slots[s.owners[n]].generation), n)
  {
  }

  lemma {:induction false} FirstHandlesExact<T>(s: Store<T>, n: nat)
    requires Inverse(s) && n <= |s.owners|
    ensures |FirstHandles(s, n)| == n
    ensures forall h :: h in FirstHandles(s, n) <==> LiveBelow(s, h, n)
  {
    hide Inverse, LiveBelow;
    if n > 0 {
      FirstHandlesExact(s, n - 1);
      LiveNext(s, Handle(0, 0), n - 1);
      var last := Handle(s.owners[n - 1], s.slots[s.owners[n - 1]].generation);
      assert last !in FirstHandles(s, n - 1);
      forall h
        ensures h in FirstHandles(s, n) <==> LiveBelow(s, h, n)
      {
        LiveNext(s, h, n - 1);
      }
    } else {
      NoneBelow(s);
    }
  }

  lemma NoneBelow<T>(s: Store<T>)
    ensures forall h :: !LiveBelow(s, h, 0)
  {
  }

  /** As many handles are live as there are items. */
  lemma ContentsSize<T>(s: Store<T>)
    requires Inverse(s)
    ensures |Contents(s)| == |s.items|
  {
    hide Contents;
    FirstHandlesExact(s, |s.owners|);
    forall h
      ensures h in Contents(s) <==> h in FirstHandles(s, |s.owners|)
    {
      ContentsExact(s, h);
    }
    assert Contents(s).Keys == FirstHandles(s, |s.owners|);
    assert |Contents(s)| == |Contents(s).Keys|;
  }

  lemma SlotBounded<T>(s: Store<T>, index: nat)
    requires Inverse(s) && index < |s.slots|
    ensures s.slots[index].generation < U32
  {
  }

  /** Emptying a slot changes no other slot's generation, and no free slot at all. */
  lemma EmptiedSlots<T>(s: Store<T>, index: nat, i: nat)
    requires Inverse(s) && index < |s.slots| && s.slots[index].Occupied() && i < |s.slots| && i != index
    ensures |Emptied(s, index).slots| == |s.slots|
    ensures Emptied(s, index).slots[i].generation == s.slots[i].generation
    ensures !s.slots[i].Occupied() ==> Emptied(s, index).slots[i] == s.slots[i]
  {
  }

  lemma EmptiedShape<T>(s: Store<T>, index: nat)
    requires Inverse(s) && index < |s.slots| && s.slots[index].Occupied()
    ensures s.slots[index].link < |s.items| == |s.owners|
    ensures forall d | 0 <= d < |s.owners| :: s.owners[d] < |s.slots|
    ensures s.slots[index].link < |s.items| - 1 ==> s.owners[|s.owners| - 1] != index
    ensures |Emptied(s, index).slots| == |s.slots|
  {
  }

  lemma RemovedAhead<T>(s: Store<T>, index: nat, issued: set<Handle>)
    requires Inverse(s) && index < |s.slots| && s.slots[index].Occupied() && NoneAhead(s.slots, issued)
    ensures NoneAhead(Emptied(s, index).slots, issued)
  {
    BumpEven(s.slots[index].generation);
  }
}
