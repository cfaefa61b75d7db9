/** Payloads kept in chains of fixed blocks. Live chains and the free list partition the blocks,
so storing, writing piecewise, loading and releasing act on a map from references to
payloads. */
module Arena {
  import opened Machine

  const BLOCK: nat := 64
  const NONE: nat := 0xFFFF
  const U16_MAX: nat := 0xFFFF

  type Block = b: Bytes | |b| == BLOCK witness seq(BLOCK, _ => 0)

  /** A stored message by its first block and its length. */
  datatype ByteRef = ByteRef(start: nat, count: nat) {
    predicate IsNone() { start == NONE }
  }

  /** An empty payload is given a block like any other. */
  function BlocksFor(len: nat): (n: nat)
    ensures n >= 1 && BLOCK * n >= len && (n > 1 ==> BLOCK * (n - 1) < len)
  {
    Max((len + BLOCK - 1) / BLOCK, 1)
  }

  // ----- Chains -----

  /** `chain` is the list of links from `head`, its blocks all different. */
  ghost predicate Chain(next: seq<nat>, head: nat, chain: seq<nat>)
    decreases |chain|
  {
    if chain == [] then head == NONE
    else head == chain[0] < |next| && head !in chain[1..] && Chain(next, next[head], chain[1..])
  }

  /** The link out of the k-th block of a chain. */
  lemma {:induction false} ChainAt(next: seq<nat>, head: nat, chain: seq<nat>, k: nat)
    requires Chain(next, head, chain) && k < |chain|
    ensures chain[k] < |next|
    ensures Chain(next, next[chain[k]], chain[k + 1..])
    ensures chain[k] !in chain[k + 1..] && chain[k] !in chain[..k]
    decreases |chain|
  {
    if k > 0 {
      ChainAt(next, next[head], chain[1..], k - 1);
      assert chain[1..][k - 1] == chain[k] && chain[1..][k..] == chain[k + 1..];
      assert chain[..k] == [chain[0]] + chain[1..][..k - 1];
    }
  }

  lemma {:induction false} ChainElsewhere(next: seq<nat>, head: nat, chain: seq<nat>, next': seq<nat>)
    requires Chain(next, head, chain) && |next'| == |next|
    requires forall b: nat | b in chain && b < |next| :: next'[b] == next[b]
    ensures Chain(next', head, chain)
    decreases |chain|
  {
    if chain != [] {
      assert forall b | b in chain[1..] :: b in chain;
      ChainElsewhere(next, next[head], chain[1..], next');
    }
  }

  /** A chain cut after its k-th block. */
  lemma {:induction false} ChainCut(next: seq<nat>, head: nat, chain: seq<nat>, k: nat)
    requires Chain(next, head, chain) && 0 < k <= |chain|
    ensures chain[k - 1] < |next|
    ensures var next' := next[chain[k - 1] := NONE];
            Chain(next', head, chain[..k]) && Chain(next', next[chain[k - 1]], chain[k..])
    decreases |chain|
  {
    if k == 1 {
      var next' := next[head := NONE];
      assert chain[..1] == [head] && [head][1..] == [];
      ChainElsewhere(next, next[head], chain[1..], next');
    } else {
      ChainCut(next, next[head], chain[1..], k - 1);
      assert chain[1..][k - 2] == chain[k - 1] && chain[1..][k - 1..] == chain[k..];
      assert chain[..k][1..] == chain[1..][..k - 1];
    }
  }

  lemma ChainPush(next: seq<nat>, head: nat, chain: seq<nat>, b: nat)
    requires Chain(next, head, chain) && b < |next| && b !in chain
    ensures Chain(next[b := head], b, [b] + chain)
  {
    ChainElsewhere(next, head, chain, next[b := head]);
    assert ([b] + chain)[1..] == chain;
  }

  // ----- What a chain holds -----

  /** The bytes of a chain's blocks, end to end. */
  function Flat(blocks: seq<Block>, chain: seq<nat>): (r: Bytes)
    ensures |r| == BLOCK * |chain|
  {
    if chain == [] then []
    else
      var n := |chain| - 1;
      Flat(blocks, chain[..n]) + if chain[n] < |blocks| then blocks[chain[n]] else seq(BLOCK, _ => 0)
  }

  /** `s` with `piece` written over it at `at`. */
  function Patched(s: Bytes, at: nat, piece: Bytes): (r: Bytes)
    requires at + |piece| <= |s|
    ensures |r| == |s|
  {
    s[..at] + piece + s[at + |piece|..]
  }

  lemma {:induction false} FlatElsewhere(blocks: seq<Block>, chain: seq<nat>, b: nat, block: Block)
    requires b < |blocks| && b !in chain
    ensures Flat(blocks[b := block], chain) == Flat(blocks, chain)
  {
    if chain != [] {
      FlatElsewhere(blocks, chain[..|chain| - 1], b, block);
    }
  }

  /** Writing into one block of a chain writes into the bytes it holds. */
  lemma {:induction false} FlatPatched(blocks: seq<Block>, chain: seq<nat>, q: nat, within: nat, piece: Bytes)
    requires q < |chain| && chain[q] < |blocks| && within + |piece| <= BLOCK
    requires chain[q] !in chain[..q] && chain[q] !in chain[q + 1..]
    ensures var block := Patched(blocks[chain[q]], within, piece);
            Flat(blocks[chain[q] := block], chain) == Patched(Flat(blocks, chain), BLOCK * q + within, piece)
    decreases |chain|
  {
    hide Patched;
    var block := Patched(blocks[chain[q]], within, piece);
    var n, init := |chain| - 1, chain[..|chain| - 1];
    if q == n {
      FlatElsewhere(blocks, init, chain[q], block);
      assert init == chain[..q];
      PatchRight(Flat(blocks, init), blocks[chain[q]], within, piece);
    } else {
      assert init[..q] == chain[..q] && init[q + 1..] == chain[q + 1..][..n - q - 1];
      FlatPatched(blocks, init, q, within, piece);
      assert chain[n] in chain[q + 1..];
      PatchLeft(Flat(blocks, init), Flat(blocks, chain)[BLOCK * n..], BLOCK * q + within, piece);
      assert Flat(blocks, chain) == Flat(blocks, init) + Flat(blocks, chain)[BLOCK * n..];
    }
  }

  lemma PatchRight(a: Bytes, b: Bytes, at: nat, piece: Bytes)
    requires at + |piece| <= |b|
    ensures Patched(a + b, |a| + at, piece) == a + Patched(b, at, piece)
  {
  }

  lemma PatchLeft(a: Bytes, b: Bytes, at: nat, piece: Bytes)
    requires at + |piece| <= |a|
    ensures Patched(a + b, at, piece) == Patched(a, at, piece) + b
  {
  }

  lemma PatchedAt(s: Bytes, at: nat, piece: Bytes, i: nat)
    requires at + |piece| <= |s| && i < |s|
    ensures Patched(s, at, piece)[i] == if at <= i < at + |piece| then piece[i - at] else s[i]
  {
  }

  lemma PatchTwice(s: Bytes, at: nat, a: Bytes, b: Bytes)
    requires at + |a| + |b| <= |s|
    ensures Patched(Patched(s, at, a), at + |a|, b) == Patched(s, at, a + b)
  {
  }

  /** The q-th block is a slice of the whole. */
  lemma {:induction false} FlatSlice(blocks: seq<Block>, chain: seq<nat>, q: nat)
    requires q < |chain| && chain[q] < |blocks|
    ensures Flat(blocks, chain)[BLOCK * q..BLOCK * q + BLOCK] == blocks[chain[q]]
    decreases |chain|
  {
    var n := |chain| - 1;
    if q < n {
      FlatSlice(blocks, chain[..n], q);
      var whole, init := Flat(blocks, chain), Flat(blocks, chain[..n]);
      assert whole[..BLOCK * n] == init;
      assert whole[BLOCK * q..BLOCK * q + BLOCK] == init[BLOCK * q..BLOCK * q + BLOCK];
    }
  }

  // ----- Pieces -----

  datatype Piece = Piece(at: nat, bytes: Bytes)

  /** Pieces written one after another. */
  function WrittenAll(s: Bytes, pieces: seq<Piece>): (r: Bytes)
    requires forall p | p in pieces :: p.at + |p.bytes| <= |s|
    ensures |r| == |s|
  {
    if pieces == [] then s
    else
      var n := |pieces| - 1;
      Patched(WrittenAll(s, pieces[..n]), pieces[n].at, pieces[n].bytes)
  }

  ghost predicate Covers(pieces: seq<Piece>, i: nat) {
    exists k :: 0 <= k < |pieces| && pieces[k].at <= i < pieces[k].at + |pieces[k].bytes|
  }

  /** Pieces of a message, in any order and overlapping or not: what they cover is written. */
  lemma {:induction false} PiecesWritten(s: Bytes, message: Bytes, pieces: seq<Piece>, i: nat)
    requires |message| == |s| && i < |s|
    requires forall p | p in pieces :: p.at + |p.bytes| <= |s| && p.bytes == message[p.at..p.at + |p.bytes|]
    ensures WrittenAll(s, pieces)[i] == if Covers(pieces, i) then message[i] else s[i]
  {
    hide Patched;
    if pieces != [] {
      var n := |pieces| - 1;
      var p := pieces[n];
      assert p in pieces;
      PiecesWritten(s, message, pieces[..n], i);
      PatchedAt(WrittenAll(s, pieces[..n]), p.at, p.bytes, i);
      CoversLast(pieces, i);
    }
  }

  lemma CoversLast(pieces: seq<Piece>, i: nat)
    requires pieces != []
    ensures var n := |pieces| - 1;
            Covers(pieces, i) <==> Covers(pieces[..n], i) || pieces[n].at <= i < pieces[n].at + |pieces[n].bytes|
  {
    var n := |pieces| - 1;
    var init := pieces[..n];
    if Covers(init, i) {
      var k :| 0 <= k < n && init[k].at <= i < init[k].at + |init[k].bytes|;
      assert pieces[k] == init[k];
    }
    if Covers(pieces, i) {
      var k :| 0 <= k < |pieces| && pieces[k].at <= i < pieces[k].at + |pieces[k].bytes|;
      assert k < n ==> init[k] == pieces[k];
    }
  }

  /** Pieces that cover a message leave exactly that message. */
  lemma Reassembled(s: Bytes, message: Bytes, pieces: seq<Piece>)
    requires |message| == |s|
    requires forall p | p in pieces :: p.at + |p.bytes| <= |s| && p.bytes == message[p.at..p.at + |p.bytes|]
    requires forall i: nat | i < |s| :: Covers(pieces, i)
    ensures WrittenAll(s, pieces) == message
  {
    forall i | 0 <= i < |s|
      ensures WrittenAll(s, pieces)[i] == message[i]
    {
      PiecesWritten(s, message, pieces, i);
    }
  }

  // ----- Ownership of blocks -----

  type Live = map<ByteRef, seq<nat>>

  ghost predicate Owns(live: Live, r: ByteRef, b: nat) { r in live && b in live[r] }

  /** Every block is on the free list, in hand, or in exactly one live chain. */
  ghost predicate Partition(n: nat, free: seq<nat>, hand: seq<nat>, live: Live) {
    && (forall b | b in free :: b < n && b !in hand)
    && (forall b | b in hand :: b < n)
    && (forall r, b: nat | Owns(live, r, b) :: b < n && b !in free && b !in hand)
    && (forall r, t, b: nat | Owns(live, r, b) && Owns(live, t, b) :: r == t)
    && (forall b: nat | b < n :: b in free || b in hand || exists r :: Owns(live, r, b))
  }

  ghost predicate Linked(next: seq<nat>, freeHead: nat, free: seq<nat>, live: Live) {
    && Chain(next, freeHead, free)
    && (forall r | r in live :: Chain(next, r.start, live[r]) && |live[r]| == BlocksFor(r.count))
  }

  lemma SplitIn(s: seq<nat>, k: nat)
    requires k <= |s|
    ensures forall b :: b in s <==> b in s[..k] || b in s[k..]
  {
    forall b
      ensures b in s <==> b in s[..k] || b in s[k..]
    {
      assert s == s[..k] + s[k..];
      assert b in s[..k] + s[k..] <==> b in s[..k] || b in s[k..];
    }
  }

  /** Blocks leave the free list for the hand. */
  lemma TakeInHand(n: nat, free: seq<nat>, live: Live, k: nat)
    requires Partition(n, free, [], live) && k <= |free|
    requires forall i, j | 0 <= i < j < |free| :: free[i] != free[j]
    ensures Partition(n, free[k..], free[..k], live)
  {
    SplitIn(free, k);
    forall b | b in free[k..]
      ensures b !in free[..k]
    {
    }
  }

  /** The hand becomes a live chain. */
  lemma HandLive(n: nat, free: seq<nat>, hand: seq<nat>, live: Live, r: ByteRef)
    requires Partition(n, free, hand, live) && r !in live
    ensures Partition(n, free, [], live[r := hand])
  {
    var more := live[r := hand];
    forall t, b: nat
      ensures Owns(more, t, b) <==> if t == r then b in hand else Owns(live, t, b)
    {
    }
    forall b: nat | b < n
      ensures b in free || exists t :: Owns(more, t, b)
    {
      if b in hand {
        assert Owns(more, r, b);
      } else if b !in free {
        var t :| Owns(live, t, b);
        assert Owns(more, t, b);
      }
    }
  }

  /** A live chain comes into the hand. */
  lemma LiveHand(n: nat, free: seq<nat>, live: Live, r: ByteRef)
    requires Partition(n, free, [], live) && r in live
    ensures Partition(n, free, live[r], live - {r})
  {
    var less := live - {r};
    forall t, b: nat
      ensures Owns(less, t, b) <==> t != r && Owns(live, t, b)
    {
    }
    forall b | b in live[r]
      ensures b < n && b !in free && Owns(live, r, b)
    {
      assert Owns(live, r, b);
    }
    forall b: nat | b < n
      ensures b in free || b in live[r] || exists t :: Owns(less, t, b)
    {
      if b !in free && b !in live[r] {
        var t :| Owns(live, t, b);
        assert Owns(less, t, b);
      }
    }
  }

  /** One block goes from the hand to the free list. */
  lemma HandFree(n: nat, free: seq<nat>, hand: seq<nat>, live: Live)
    requires Partition(n, free, hand, live) && hand != [] && hand[0] !in hand[1..]
    ensures Partition(n, [hand[0]] + free, hand[1..], live)
  {
    SplitIn(hand, 1);
    SplitIn([hand[0]] + free, 1);
    assert ([hand[0]] + free)[..1] == [hand[0]] && ([hand[0]] + free)[1..] == free;
  }

  lemma {:induction false} ChainDistinct(next: seq<nat>, head: nat, chain: seq<nat>)
    requires Chain(next, head, chain)
    ensures forall i, j | 0 <= i < j < |chain| :: chain[i] != chain[j]
    decreases |chain|
  {
    if chain != [] {
      ChainDistinct(next, next[head], chain[1..]);
      forall i, j | 0 <= i < j < |chain|
        ensures chain[i] != chain[j]
      {
        assert chain[j] == chain[1..][j - 1];
        if i > 0 {
          assert chain[i] == chain[1..][i - 1];
        }
      }
    }
  }

  /** A change of links outside every live chain keeps them. */
  lemma FreeNotLive(n: nat, free: seq<nat>, hand: seq<nat>, live: Live, b: nat)
    requires Partition(n, free, hand, live) && (b in free || b in hand)
    ensures forall r | r in live :: b !in live[r]
  {
    forall r | r in live
      ensures b !in live[r]
    {
      assert Owns(live, r, b) <==> b in live[r];
    }
  }

  lemma LiveElsewhere(next: seq<nat>, next': seq<nat>, live: Live, b: nat)
    requires b < |next| && |next'| == |next| && (forall c: nat | c < |next| && c != b :: next'[c] == next[c])
    requires forall r | r in live :: b !in live[r] && Chain(next, r.start, live[r])
    ensures forall r | r in live :: Chain(next', r.start, live[r])
  {
    forall r | r in live
      ensures Chain(next', r.start, live[r])
    {
      ChainElsewhere(next, r.start, live[r], next');
    }
  }

  lemma ChainHead(next: seq<nat>, head: nat, chain: seq<nat>)
    requires Chain(next, head, chain)
    ensures head == if chain == [] then NONE else chain[0]
    ensures chain != [] ==> head < |next|
  {
  }

  lemma {:induction false} Counting(next: seq<nat>, n: nat, k: nat)
    requires |next| == n < NONE && k <= n && forall i | 0 <= i < n :: next[i] == if i + 1 < n then i + 1 else NONE
    ensures Chain(next, if k < n then k else NONE, seq(n - k, i requires 0 <= i < n - k => k + i))
    decreases n - k
  {
    if k < n {
      Counting(next, n, k + 1);
      var chain, rest := seq(n - k, i requires 0 <= i < n - k => k + i),
                         seq(n - k - 1, i requires 0 <= i < n - k - 1 => k + 1 + i);
      assert chain[1..] == rest;
    }
  }

  lemma AllFree(next: seq<nat>, n: nat)
    requires |next| == n < NONE && n > 0 && forall i | 0 <= i < n :: next[i] == if i + 1 < n then i + 1 else NONE
    ensures var free := seq(n, i requires 0 <= i < n => i); Chain(next, 0, free) && Partition(n, free, [], map[])
  {
    hide Chain;
    Counting(next, n, 0);
    var free := seq(n, i requires 0 <= i < n => i);
    assert free == seq(n - 0, i requires 0 <= i < n - 0 => 0 + i);
    forall b: nat | b < n
      ensures b in free
    {
      assert free[b] == b;
    }
  }

  lemma ReservedOk(next: seq<nat>, head: nat, free: seq<nat>, live: Live, needed: nat, r: ByteRef)
    requires Partition(|next|, free, [], live) && Linked(next, head, free, live)
    requires 0 < needed == BlocksFor(r.count) <= |free| && r.start == head && |next| < NONE
    ensures r !in live && !r.IsNone()
    ensures free[needed - 1] < |next|
    ensures var next' := next[free[needed - 1] := NONE];
            var live' := live[r := free[..needed]];
            Partition(|next|, free[needed..], [], live') && Linked(next', next[free[needed - 1]], free[needed..], live')
  {
    hide Chain, BlocksFor;
    ChainDistinct(next, head, free);
    ChainHead(next, head, free);
    assert free[0] in free;
    NotYetLive(next, free, live, r);
    ChainCut(next, head, free, needed);
    TakeInHand(|next|, free, live, needed);
    HandLive(|next|, free[needed..], free[..needed], live, r);
    var last := free[needed - 1];
    FreeNotLive(|next|, free, [], live, last);
    LiveElsewhere(next, next[last := NONE], live, last);
  }

  lemma NotYetLive(next: seq<nat>, free: seq<nat>, live: Live, r: ByteRef)
    requires Partition(|next|, free, [], live) && r.start in free
    requires forall t | t in live :: Chain(next, t.start, live[t]) && |live[t]| == BlocksFor(t.count)
    ensures r !in live
  {
    FreeNotLive(|next|, free, [], live, r.start);
  }

  lemma LinkedFree(next: seq<nat>, head: nat, free: seq<nat>, live: Live)
    requires Linked(next, head, free, live)
    ensures Chain(next, head, free)
  {
  }

  lemma LiveRef(next: seq<nat>, head: nat, free: seq<nat>, live: Live, r: ByteRef)
    requires Linked(next, head, free, live) && r in live
    ensures Chain(next, r.start, live[r]) && |live[r]| == BlocksFor(r.count) >= 1 && BLOCK * |live[r]| >= r.count
  {
  }

  lemma PatchNothing(s: Bytes, at: nat)
    requires at <= |s|
    ensures Patched(s, at, []) == s
  {
  }

  lemma PatchPrefix(s: Bytes, count: nat, at: nat, piece: Bytes)
    requires count <= |s| && at + |piece| <= count
    ensures Patched(s, at, piece)[..count] == Patched(s[..count], at, piece)
  {
  }

  /** One block's worth of a write: this message is patched and no other changes. */
  lemma WriteStep(n: nat, blocks: seq<Block>, free: seq<nat>, live: Live, r: ByteRef, q: nat, within: nat, piece: Bytes)
    requires n == |blocks| && Partition(n, free, [], live) && r in live && q < |live[r]| && within + |piece| <= BLOCK
    requires live[r][q] !in live[r][..q] && live[r][q] !in live[r][q + 1..] && live[r][q] < n
    ensures var blocks' := blocks[live[r][q] := Patched(blocks[live[r][q]], within, piece)];
            && Flat(blocks', live[r]) == Patched(Flat(blocks, live[r]), BLOCK * q + within, piece)
            && forall t | t in live && t != r :: Flat(blocks', live[t]) == Flat(blocks, live[t])
  {
    hide Patched, Flat;
    FlatPatched(blocks, live[r], q, within, piece);
    var b := live[r][q];
    assert Owns(live, r, b);
    forall t | t in live && t != r
      ensures Flat(blocks[b := Patched(blocks[b], within, piece)], live[t]) == Flat(blocks, live[t])
    {
      assert Owns(live, t, b) <==> b in live[t];
      FlatElsewhere(blocks, live[t], b, Patched(blocks[b], within, piece));
    }
  }

  // ----- The structure itself -----

  class Arena {
    const blocks: array<Block>
    const next: array<nat>
    var freeHead: nat
    var freeCount: nat
    ghost var free: seq<nat>
    ghost var live: Live

    ghost predicate Valid()
      reads this, blocks, next
    {
      && 0 < blocks.Length == next.Length < NONE
      && Partition(next.Length, free, [], live) && Linked(next[..], freeHead, free, live)
      && freeCount == |free|
    }

    /** What the arena means: each live reference's payload. */
    ghost function Map(): (m: map<ByteRef, Bytes>)
      requires Valid()
      reads this, blocks, next
      ensures forall r | r in m :: |m[r]| == r.count
    {
      map r | r in live :: Flat(blocks[..], live[r])[..r.count]
    }

    constructor (n: nat)
      requires 0 < n < NONE
      ensures Valid() && fresh(blocks) && fresh(next) && Map() == map[] && next.Length == n && freeCount == n
    {
      blocks := new Block[n](_ => seq(BLOCK, _ => 0));
      next := new nat[n](i requires 0 <= i < n => if i + 1 < n then i + 1 else NONE);
      freeHead, freeCount := 0, n;
      free, live := seq(n, i requires 0 <= i < n => i), map[];
      new;
      AllFree(next[..], n);
    }

    /** Reserves space; refused exactly when the free blocks do not suffice. */
    method Reserve(len: nat) returns (r: Option<ByteRef>)
      requires Valid()
      modifies this, next
      ensures Valid()
      ensures r.None? <==> len > U16_MAX || BlocksFor(len) > old(freeCount)
      ensures r.None? ==> Map() == old(Map()) && freeCount == old(freeCount)
      ensures r.Some? ==>
                && r.value.count == len && !r.value.IsNone() && r.value !in old(Map())
                && Map().Keys == old(Map()).Keys + {r.value}
                && (forall t | t in old(Map()) :: Map()[t] == old(Map())[t])
                && freeCount == old(freeCount) - BlocksFor(len)
    {
      hide Chain, BlocksFor, Flat, Partition, Linked;
      if len > U16_MAX {
        return None;
      }
      var needed := BlocksFor(len);
      if needed > freeCount {
        return None;
      }
      ghost var next0, free0, head0 := next[..], free, freeHead;
      var first := freeHead;
      var block := first;
      LinkedFree(next0, head0, free0, live);
      ChainAt(next0, head0, free0, needed - 1);
      ChainHead(next0, head0, free0);
      for step := 0 to needed
        invariant step < needed ==> next[..] == next0 && freeHead == head0 && block == free0[step]
        invariant step == needed ==>
                    next[..] == next0[free0[needed - 1] := NONE] && freeHead == next0[free0[needed - 1]]
        invariant free == free0 && live == old(live) && freeCount == old(freeCount)
      {
        ChainAt(next0, head0, free0, step);
        var following := next[block];
        if step + 1 == needed {
          next[block] := NONE;
          freeHead := following;
        } else {
          ChainHead(next0, following, free0[step + 1..]);
          block := following;
        }
      }
      freeCount := freeCount - needed;
      var made := ByteRef(first, len);
      ReservedOk(next0, head0, free0, live, needed, made);
      free := free0[needed..];
      live := live[made := free0[..needed]];
      return Some(made);
    }

    /** Refused exactly when the bytes would pass the message's end. Other messages are untouched. */
    method WriteAt(r: ByteRef, offset: nat, bytes: Bytes) returns (ok: bool)
      requires Valid() && (r in Map() || r.IsNone())
      modifies blocks
      ensures Valid() && ok == (!r.IsNone() && offset + |bytes| <= r.count)
      ensures !ok ==> Map() == old(Map())
      ensures ok ==> r in old(Map()) && Map() == old(Map())[r := Patched(old(Map())[r], offset, bytes)]
    {
      hide Chain, BlocksFor, Flat, Partition, Patched;
      if r.IsNone() || offset + |bytes| > r.count {
        return false;
      }
      LiveRef(next[..], freeHead, free, live, r);
      ghost var chain, flat := live[r], Flat(blocks[..], live[r]);
      PatchNothing(flat, offset);
      if |bytes| == 0 {
        PatchNothing(flat[..r.count], offset);
        assert bytes == [];
        return true;
      }
      var block := r.start;
      ChainHead(next[..], r.start, chain);
      for i := 0 to offset / BLOCK
        invariant i < |chain| && block == chain[i] && blocks[..] == old(blocks[..])
      {
        ChainAt(next[..], r.start, chain, i);
        block := next[block];
        ChainHead(next[..], block, chain[i + 1..]);
        assert block != NONE;
      }
      var written: nat, within: nat := 0, offset % BLOCK;
      ghost var q := offset / BLOCK;
      assert bytes[..written] == [];
      while written < |bytes|
        invariant written <= |bytes| && within < BLOCK
        invariant written < |bytes| ==> BLOCK * q + within == offset + written && q < |chain| && block == chain[q]
        invariant Flat(blocks[..], chain) == Patched(flat, offset, bytes[..written])
        invariant forall t | t in live && t != r :: Flat(blocks[..], live[t]) == old(Flat(blocks[..], live[t]))
      {
        ChainAt(next[..], r.start, chain, q);
        assert block != NONE;
        var take := Min(BLOCK - within, |bytes| - written);
        var piece := bytes[written..written + take];
        WriteStep(next.Length, blocks[..], free, live, r, q, within, piece);
        blocks[block] := Patched(blocks[block], within, piece);
        PatchTwice(flat, offset, bytes[..written], piece);
        assert bytes[..written] + piece == bytes[..written + take];
        written := written + take;
        within := 0;
        block := next[block];
        ChainHead(next[..], block, chain[q + 1..]);
        q := q + 1;
      }
      assert bytes[..written] == bytes;
      PatchPrefix(flat, r.count, offset, bytes);
      assert Map().Keys == old(Map()).Keys;
      return true;
    }

    /** Pieces written one call after another. */
    method WritePieces(r: ByteRef, pieces: seq<Piece>)
      requires Valid() && r in Map() && !r.IsNone()
      requires forall p | p in pieces :: p.at + |p.bytes| <= r.count
      modifies blocks
      ensures Valid() && Map() == old(Map())[r := WrittenAll(old(Map())[r], pieces)]
    {
      hide Arena.Valid, Arena.Map, Patched;
      ghost var m := Map();
      assert pieces[..0] == [] && m[r := m[r]] == m;
      for k := 0 to |pieces|
        invariant Valid() && Map() == m[r := WrittenAll(m[r], pieces[..k])]
      {
        assert pieces[..k + 1][..k] == pieces[..k] && pieces[k] in pieces;
        var ok := WriteAt(r, pieces[k].at, pieces[k].bytes);
      }
      assert pieces[..|pieces|] == pieces;
    }

    /** Pieces of a message written in any order, overlapping or not, that together cover it: what
    is loaded is the message, and every other message is as it was. */
    method Reassemble(r: ByteRef, pieces: seq<Piece>, out: array<byte>, ghost message: Bytes)
      requires Valid() && r in Map() && !r.IsNone() && |message| == r.count <= out.Length
      requires forall p | p in pieces :: p.at + |p.bytes| <= r.count && p.bytes == message[p.at..p.at + |p.bytes|]
      requires forall i: nat | i < r.count :: Covers(pieces, i)
      modifies blocks, out
      ensures Valid() && out[..r.count] == message && Map() == old(Map())[r := message]
    {
      hide Arena.Valid, Arena.Map, WrittenAll;
      Reassembled(Map()[r], message, pieces);
      WritePieces(r, pieces);
      var n := Load(r, out);
    }

    /** A reservation and the write that fills it. */
    method Store(payload: Bytes) returns (r: Option<ByteRef>)
      requires Valid()
      modifies this, next, blocks
      ensures Valid()
      ensures r.None? <==> |payload| > U16_MAX || BlocksFor(|payload|) > old(freeCount)
      ensures r.None? ==> Map() == old(Map()) && freeCount == old(freeCount)
      ensures r.Some? ==>
                && r.value.count == |payload| && !r.value.IsNone() && r.value !in old(Map())
                && Map() == old(Map())[r.value := payload]
                && freeCount == old(freeCount) - BlocksFor(|payload|)
    {
      hide Partition, Linked, BlocksFor, Flat, Patched;
      r := Reserve(|payload|);
      if r.Some? {
        ghost var reserved := Map();
        var ok := WriteAt(r.value, 0, payload);
        assert ok;
        PatchWhole(reserved[r.value], payload);
        assert Map() == old(Map())[r.value := payload];
      }
    }

    method Load(r: ByteRef, out: array<byte>) returns (n: Option<nat>)
      requires Valid() && (r in Map() || r.IsNone())
      modifies out
      ensures n.None? <==> r.IsNone() || out.Length < r.count
      ensures n.Some? ==> n == Some(r.count) && r in Map() && out[..r.count] == Map()[r]
      ensures Valid() && Map() == old(Map())
    {
      hide Chain, BlocksFor, Flat, Partition;
      if r.IsNone() || out.Length < r.count {
        return None;
      }
      LiveRef(next[..], freeHead, free, live, r);
      ghost var chain, flat, links := live[r], Flat(blocks[..], live[r]), next[..];
      ChainHead(links, r.start, chain);
      var block, read: nat := r.start, 0;
      ghost var q := 0;
      while read < r.count
        invariant next[..] == links && blocks[..] == old(blocks[..])
        invariant read <= r.count && out[..read] == flat[..read]
        invariant read < r.count ==> read == BLOCK * q && q < |chain| && block == chain[q]
      {
        ChainAt(links, r.start, chain, q);
        assert block != NONE;
        var take := Min(r.count - read, BLOCK);
        FlatSlice(blocks[..], chain, q);
        ghost var slice := flat[read..read + BLOCK];
        forall i | 0 <= i < take {
          out[read + i] := blocks[block][i];
        }
        assert out[..read + take] == flat[..read] + slice[..take];
        read := read + take;
        block := next[block];
        ChainHead(links, block, chain[q + 1..]);
        q := q + 1;
      }
      return Some(r.count);
    }

    /** A message's bytes, block by block. */
    method Chunks(r: ByteRef) returns (chunks: seq<Bytes>)
      requires Valid() && r in Map()
      ensures Joined(chunks) == Map()[r]
      ensures forall i | 0 <= i < |chunks| :: 1 <= |chunks[i]| <= BLOCK
    {
      hide Chain, BlocksFor, Flat, Partition, Joined;
      LiveRef(next[..], freeHead, free, live, r);
      ghost var chain, flat := live[r], Flat(blocks[..], live[r]);
      ChainHead(next[..], r.start, chain);
      var block, remaining: nat := r.start, r.count;
      chunks := [];
      assert Joined(chunks) == [] by { JoinedNone(); }
      ghost var q := 0;
      while remaining > 0
        invariant remaining <= r.count && Joined(chunks) == flat[..r.count - remaining]
        invariant remaining > 0 ==> r.count - remaining == BLOCK * q && q < |chain| && block == chain[q]
        invariant forall i | 0 <= i < |chunks| :: 1 <= |chunks[i]| <= BLOCK
      {
        ChainAt(next[..], r.start, chain, q);
        assert block != NONE;
        var take := Min(remaining, BLOCK);
        FlatSlice(blocks[..], chain, q);
        var chunk := blocks[block][..take];
        assert flat[..r.count - remaining + take] == flat[..r.count - remaining] + chunk;
        JoinedMore(chunks, chunk);
        chunks := chunks + [chunk];
        block := next[block];
        ChainHead(next[..], block, chain[q + 1..]);
        remaining := remaining - take;
        q := q + 1;
      }
    }

    /** The payload is forgotten and its chain is free again. */
    method Release(r: ByteRef)
      requires Valid() && (r in Map() || r.IsNone())
      modifies this, next
      ensures Valid()
      ensures r.IsNone() ==> Map() == old(Map()) && freeCount == old(freeCount)
      ensures !r.IsNone() ==> Map() == old(Map()) - {r} && freeCount == old(freeCount) + BlocksFor(r.count)
    {
      hide Chain, BlocksFor, Flat, Partition;
      if r.IsNone() {
        return;
      }
      LiveRef(next[..], freeHead, free, live, r);
      ghost var chain := live[r];
      LiveHand(next.Length, free, live, r);
      live := live - {r};
      ghost var hand := chain;
      var block := r.start;
      while true
        invariant 0 < blocks.Length == next.Length < NONE && live == old(live) - {r}
        invariant Partition(next.Length, free, hand, live) && Linked(next[..], freeHead, free, live)
        invariant hand != [] && Chain(next[..], block, hand)
        invariant freeCount == |free| && freeCount + |hand| == old(freeCount) + |chain|
        decreases |hand|
      {
        ChainHead(next[..], block, hand);
        ChainAt(next[..], block, hand, 0);
        ReleaseStep(next[..], freeHead, free, hand, live);
        var following := next[block];
        next[block] := freeHead;
        freeHead := block;
        freeCount := freeCount + 1;
        free := [block] + free;
        hand := hand[1..];
        ChainHead(next[..], following, hand);
        if following == NONE {
          break;
        }
        block := following;
      }
    }
  }

  lemma ReleaseStep(next: seq<nat>, freeHead: nat, free: seq<nat>, hand: seq<nat>, live: Live)
    requires Partition(|next|, free, hand, live) && Linked(next, freeHead, free, live)
    requires hand != [] && Chain(next, hand[0], hand)
    ensures hand[0] < |next|
    ensures var next' := next[hand[0] := freeHead];
            && Partition(|next|, [hand[0]] + free, hand[1..], live)
            && Linked(next', hand[0], [hand[0]] + free, live)
            && Chain(next', next[hand[0]], hand[1..])
  {
    hide BlocksFor;
    var b := hand[0];
    assert b in hand && b !in free;
    FreeNotLive(|next|, free, hand, live, b);
    HandFree(|next|, free, hand, live);
    ChainPush(next, freeHead, free, b);
    LiveElsewhere(next, next[b := freeHead], live, b);
    ChainElsewhere(next, next[b], hand[1..], next[b := freeHead]);
  }

  function Joined(chunks: seq<Bytes>): Bytes {
    if chunks == [] then [] else Joined(chunks[..|chunks| - 1]) + chunks[|chunks| - 1]
  }

  lemma JoinedNone()
    ensures Joined([]) == []
  {
  }

  lemma JoinedMore(chunks: seq<Bytes>, chunk: Bytes)
    ensures Joined(chunks + [chunk]) == Joined(chunks) + chunk
  {
    assert (chunks + [chunk])[..|chunks|] == chunks;
  }

  lemma PatchWhole(s: Bytes, bytes: Bytes)
    requires |s| == |bytes|
    ensures Patched(s, 0, bytes) == bytes
  {
  }
}
