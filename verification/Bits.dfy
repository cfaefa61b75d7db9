/** Numbers as little-endian bit sequences, and the machine word operations on them. */
module Bits {
  import opened Machine

  function Pow2(n: nat): (p: nat)
    ensures p >= 1
  {
    if n == 0 then 1 else 2 * Pow2(n - 1)
  }

  /** The low `n` bits of `x`, least significant first. */
  function BitsOf(x: nat, n: nat): (b: seq<bool>)
    ensures |b| == n
  {
    if n == 0 then [] else [x % 2 == 1] + BitsOf(x / 2, n - 1)
  }

  function ToNat(b: seq<bool>): nat {
    if b == [] then 0 else (if b[0] then 1 else 0) + 2 * ToNat(b[1..])
  }

  /** `x << n`, in a word wide enough to hold it. */
  function Shl(x: nat, n: nat): nat { if n == 0 then x else 2 * Shl(x, n - 1) }

  /** `x >> n` */
  function Shr(x: nat, n: nat): nat { if n == 0 then x else Shr(x / 2, n - 1) }

  /** `x & ((1 << n) - 1)` */
  function Low(x: nat, n: nat): (r: nat)
    ensures r < Pow2(n)
  {
    if n == 0 then 0 else x % 2 + 2 * Low(x / 2, n - 1)
  }

  /** `x | y` */
  function Or(x: nat, y: nat): nat
    decreases x + y
  {
    if x == 0 then y
    else if y == 0 then x
    else (if x % 2 == 1 || y % 2 == 1 then 1 else 0) + 2 * Or(x / 2, y / 2)
  }

  lemma {:induction false} ToNatBelow(b: seq<bool>)
    ensures ToNat(b) < Pow2(|b|)
  {
    if b != [] {
      ToNatBelow(b[1..]);
    }
  }

  lemma {:induction false} ToNatInverse(x: nat, n: nat)
    requires x < Pow2(n)
    ensures ToNat(BitsOf(x, n)) == x
  {
    if n > 0 {
      ToNatInverse(x / 2, n - 1);
      assert BitsOf(x, n)[1..] == BitsOf(x / 2, n - 1);
    }
  }

  lemma {:induction false} BitsInverse(b: seq<bool>)
    ensures BitsOf(ToNat(b), |b|) == b
  {
    if b != [] {
      BitsInverse(b[1..]);
      assert b == [b[0]] + b[1..];
    }
  }

  lemma {:induction false} Pow2Monotone(m: nat, n: nat)
    requires m <= n
    ensures Pow2(m) <= Pow2(n)
    decreases n
  {
    if m < n {
      Pow2Monotone(m, n - 1);
    }
  }

  lemma OrEven(x: nat, w: nat)
    ensures Or(x, 2 * w) == x % 2 + 2 * Or(x / 2, w)
  {
    assert (2 * w) / 2 == w && (2 * w) % 2 == 0;
  }

  /** OR with bits shifted clear of `x` appends them. */
  lemma {:induction false} OrAppends(x: nat, s: nat, v: nat, n: nat)
    requires x < Pow2(s)
    ensures BitsOf(Or(x, Shl(v, s)), s + n) == BitsOf(x, s) + BitsOf(v, n)
    ensures v < Pow2(n) ==> Or(x, Shl(v, s)) < Pow2(s + n)
  {
    if s > 0 {
      OrEven(x, Shl(v, s - 1));
      OrAppends(x / 2, s - 1, v, n);
      var y := Or(x, Shl(v, s));
      assert y / 2 == Or(x / 2, Shl(v, s - 1)) && y % 2 == x % 2;
    }
  }

  lemma {:induction false} LowBits(x: nat, n: nat)
    ensures BitsOf(Low(x, n), n) == BitsOf(x, n)
    ensures ToNat(BitsOf(x, n)) == Low(x, n)
    ensures x < Pow2(n) ==> Low(x, n) == x
  {
    if n > 0 {
      LowBits(x / 2, n - 1);
      assert Low(x, n) / 2 == Low(x / 2, n - 1) && Low(x, n) % 2 == x % 2;
      assert BitsOf(x, n)[1..] == BitsOf(x / 2, n - 1);
    }
  }

  /** A shift drops the low bits, and only those. */
  lemma {:induction false} ShrBits(x: nat, s: nat, n: nat)
    ensures BitsOf(x, s + n) == BitsOf(x, s) + BitsOf(Shr(x, s), n)
    ensures x < Pow2(s + n) ==> Shr(x, s) < Pow2(n)
  {
    if s > 0 {
      ShrBits(x / 2, s - 1, n);
    }
  }

  lemma Pow2Values()
    ensures Pow2(3) == 8 && Pow2(8) == 0x100 && Pow2(10) == 0x400 && Pow2(11) == 0x800
    ensures Pow2(16) == 0x1_0000 && Pow2(32) == 0x1_0000_0000 && Pow2(64) == U64
  {
    assert Pow2(4) == 16;
    assert Pow2(12) == 0x1000;
    assert Pow2(20) == 0x10_0000;
    assert Pow2(26) == 0x400_0000;
    assert Pow2(40) == 0x100_0000_0000;
    assert Pow2(52) == 0x10_0000_0000_0000;
  }

  // ----- Bytes -----

  function ByteBits(bytes: Bytes): (b: seq<bool>)
    ensures |b| == 8 * |bytes|
  {
    if bytes == [] then [] else ByteBits(bytes[..|bytes| - 1]) + BitsOf(bytes[|bytes| - 1], 8)
  }

  lemma {:induction false} ByteBitsAppend(a: Bytes, b: Bytes)
    ensures ByteBits(a + b) == ByteBits(a) + ByteBits(b)
  {
    if b == [] {
      assert a + b == a;
    } else {
      var n := |b| - 1;
      assert (a + b)[..|a| + n] == a + b[..n];
      ByteBitsAppend(a, b[..n]);
    }
  }

  lemma OneByte(b: byte)
    ensures ByteBits([b]) == BitsOf(b, 8)
  {
  }

  lemma Middle(a: seq<bool>, b: seq<bool>, c: seq<bool>, i: nat, j: nat)
    requires i == |a| && j == |a| + |b|
    ensures (a + b + c)[i..j] == b
  {
  }

  /** A run of bytes is a run of the stream. */
  lemma ByteBitsSlice(bytes: Bytes, i: nat, j: nat)
    requires i <= j <= |bytes|
    ensures ByteBits(bytes[i..j]) == ByteBits(bytes)[8 * i..8 * j]
  {
    hide *;
    assert bytes == bytes[..i] + bytes[i..j] + bytes[j..];
    ByteBitsAppend(bytes[..i] + bytes[i..j], bytes[j..]);
    ByteBitsAppend(bytes[..i], bytes[i..j]);
    Middle(ByteBits(bytes[..i]), ByteBits(bytes[i..j]), ByteBits(bytes[j..]), 8 * i, 8 * j);
  }

  /** The `n` bytes that a stream of `8 * n` bits spells. */
  function FromBits(b: seq<bool>, n: nat): (bytes: Bytes)
    requires |b| == 8 * n
    ensures |bytes| == n
    decreases |b|
  {
    if n == 0 then []
    else
      Pow2Values();
      ToNatBelow(b[|b| - 8..]);
      FromBits(b[..|b| - 8], n - 1) + [ToNat(b[|b| - 8..])]
  }

  lemma {:induction false} FromByteBits(bytes: Bytes)
    ensures FromBits(ByteBits(bytes), |bytes|) == bytes
  {
    if bytes != [] {
      var n := |bytes| - 1;
      var b := ByteBits(bytes);
      FromByteBits(bytes[..n]);
      assert b[..|b| - 8] == ByteBits(bytes[..n]) && b[|b| - 8..] == BitsOf(bytes[n], 8);
      Pow2Values();
      ToNatInverse(bytes[n], 8);
    }
  }

  lemma {:induction false} ByteBitsFrom(b: seq<bool>, n: nat)
    requires |b| == 8 * n
    ensures ByteBits(FromBits(b, n)) == b
    decreases |b|
  {
    if n > 0 {
      var k := |b| - 8;
      ByteBitsFrom(b[..k], n - 1);
      BitsInverse(b[k..]);
      assert FromBits(b, n)[..n - 1] == FromBits(b[..k], n - 1);
      assert b == b[..k] + b[k..];
    }
  }

  /** The low `n` bytes of a word, least significant first: `to_le_bytes`. */
  function LittleEndian(w: nat, n: nat): (b: Bytes)
    ensures |b| == n
  {
    FromBits(BitsOf(w, 8 * n), n)
  }

  lemma LittleEndianBits(w: nat, n: nat)
    ensures ByteBits(LittleEndian(w, n)) == BitsOf(w, 8 * n)
  {
    ByteBitsFrom(BitsOf(w, 8 * n), n);
  }

  /** The word that bytes spell, least significant first: `from_le_bytes`. */
  function FromLittleEndian(b: Bytes): nat { ToNat(ByteBits(b)) }

  lemma FromLittleEndianBits(b: Bytes)
    ensures BitsOf(FromLittleEndian(b), 8 * |b|) == ByteBits(b)
    ensures FromLittleEndian(b) < Pow2(8 * |b|)
  {
    BitsInverse(ByteBits(b));
    ToNatBelow(ByteBits(b));
  }

  lemma LittleEndianInverse(w: nat, n: nat)
    requires w < Pow2(8 * n)
    ensures FromLittleEndian(LittleEndian(w, n)) == w
  {
    LittleEndianBits(w, n);
    ToNatInverse(w, 8 * n);
  }

  lemma Assoc(a: seq<bool>, b: seq<bool>, c: seq<bool>)
    ensures a + b + c == a + (b + c)
  {
  }

  // ----- Ranges -----

  /** The length of `range` in binary. */
  function BitsRequired(range: nat): nat { if range == 0 then 0 else 1 + BitsRequired(range / 2) }

  lemma {:induction false} BitsRequiredExact(range: nat)
    ensures range < Pow2(BitsRequired(range))
    ensures range > 0 ==> Pow2(BitsRequired(range) - 1) <= range
  {
    if range > 0 {
      BitsRequiredExact(range / 2);
    }
  }

  lemma BitsRequiredAtMost32(range: nat)
    requires range < U32
    ensures BitsRequired(range) <= 32
  {
    BitsRequiredExact(range);
    Pow2Values();
    if BitsRequired(range) > 32 {
      Pow2Monotone(32, BitsRequired(range) - 1);
      assert false;
    }
  }
}
