/** The bit writer and reader. Both work a 32-bit word at a time through a scratch register;
both are proved against the plain sequence of bits they stand for. */
module BitStream {
  import opened Machine
  import opened Bits

  datatype WriteResult = Written | Overflow | OutOfRange

  datatype ReadResult<+T> = Value(value: T) | Eof | Invalid

  function Zeros(n: nat): (z: seq<bool>)
    ensures |z| == n
  {
    seq(n, _ => false)
  }

  /** `len.div_ceil(8)`: the bytes that hold `len` bits. */
  function CeilBytes(len: nat): (n: nat)
    ensures 8 * n - 8 < len <= 8 * n
  {
    if len == 0 then 0 else if len <= 8 then 1 else 1 + CeilBytes(len - 8)
  }

  /** The first byte boundary at or after a position. */
  function AlignUp(at: nat): (up: nat)
    ensures at <= up < at + 8
  {
    8 * CeilBytes(at)
  }

  /** Bits of padding that bring a stream of `len` bits to a whole byte. */
  function Pad(len: nat): nat { AlignUp(len) - len }

  predicate Aligned(at: nat) { Pad(at) == 0 }

  lemma CeilBytesIsDivCeil(len: nat)
    ensures CeilBytes(len) == CeilDiv(len, 8)
    ensures Pad(len) == (8 - len % 8) % 8
    ensures Aligned(len) <==> len % 8 == 0
  {
  }

  lemma WholeBytes(n: nat)
    ensures 8 * (n / 8) <= n && (8 * (n / 8) == n <==> Aligned(n))
  {
  }

  lemma {:induction false} CeilBytesAdd(k: nat, n: nat)
    ensures CeilBytes(8 * k + n) == k + CeilBytes(n)
  {
    var m := CeilBytes(8 * k + n);
    assert 8 * m - 8 < 8 * (k + CeilBytes(n)) && 8 * (k + CeilBytes(n)) - 8 < 8 * m;
  }

  lemma {:induction false} ZeroBits(n: nat)
    ensures BitsOf(0, n) == Zeros(n)
  {
    if n > 0 {
      ZeroBits(n - 1);
      assert Zeros(n) == [false] + Zeros(n - 1);
    }
  }

  lemma WordPosition(pos: nat)
    ensures pos == 8 * (pos / 32 * 4) + pos % 32 && pos % 32 < 32 && (pos / 32 * 4) % 4 == 0
  {
  }

  /** Reloading the word at `at`, masked to `k` bits, recovers the stream up to there. */
  lemma Reload(buf: Bytes, at: nat, k: nat, take: nat)
    requires k <= 8 * take && at + take <= |buf|
    ensures Low(FromLittleEndian(buf[at..at + take]), k) < Pow2(k)
    ensures ByteBits(buf[..at]) + BitsOf(Low(FromLittleEndian(buf[at..at + take]), k), k) == ByteBits(buf)[..8 * at + k]
  {
    hide *;
    var word := buf[at..at + take];
    assert ByteBits(word) == ByteBits(buf)[8 * at..8 * at + 8 * take] by {
      ByteBitsSlice(buf, at, at + take);
    }
    PrefixBits(buf, at);
    WordLow(word, k);
    Regroup(ByteBits(buf), 8 * at, k, 8 * take, ByteBits(buf[..at]), ByteBits(word),
            BitsOf(Low(FromLittleEndian(word), k), k));
  }

  lemma PrefixBits(buf: Bytes, at: nat)
    requires at <= |buf|
    ensures ByteBits(buf[..at]) == ByteBits(buf)[..8 * at]
  {
    hide *;
    ByteBitsSlice(buf, 0, at);
    assert buf[0..at] == buf[..at];
  }

  lemma WordLow(word: Bytes, k: nat)
    requires k <= 8 * |word|
    ensures BitsOf(Low(FromLittleEndian(word), k), k) == ByteBits(word)[..k]
  {
    hide *;
    FromLittleEndianBits(word);
    ShrBits(FromLittleEndian(word), k, 8 * |word| - k);
    LowBits(FromLittleEndian(word), k);
  }

  lemma Regroup(all: seq<bool>, at: nat, k: nat, n: nat, head: seq<bool>, word: seq<bool>, low: seq<bool>)
    requires k <= n && at + n <= |all|
    requires head == all[..at] && word == all[at..at + n] && low == word[..k]
    ensures head + low == all[..at + k]
  {
  }

  /** Moving a full word from the scratch register to the buffer leaves the stream alone. */
  lemma FlushKeeps(flushed: Bytes, scratch: nat, bits: nat, word: Bytes, w: nat)
    requires w == 8 * |word| <= bits && scratch < Pow2(bits) && word == LittleEndian(scratch, |word|)
    ensures ByteBits(flushed + word) + BitsOf(Shr(scratch, w), bits - w)
            == ByteBits(flushed) + BitsOf(scratch, bits)
    ensures Shr(scratch, w) < Pow2(bits - w)
  {
    hide *;
    LittleEndianBits(scratch, |word|);
    ShrBits(scratch, w, bits - w);
    ByteBitsAppend(flushed, word);
    Assoc(ByteBits(flushed), BitsOf(scratch, w), BitsOf(Shr(scratch, w), bits - w));
  }

  lemma ZeroAbove(x: nat, s: nat, n: nat)
    requires x < Pow2(s)
    ensures BitsOf(x, s + n) == BitsOf(x, s) + Zeros(n)
  {
    ShrBits(x, s, 0);
    ShrBits(x, s, n);
    ZeroBits(n);
  }

  /** The pending bits as the first `tail` bytes of their word, zero-padded. */
  lemma TailBytes(flushed: Bytes, scratch: nat, bits: nat, word: Bytes, tail: nat)
    requires scratch < Pow2(bits) && bits <= 8 * tail && tail <= |word| && word == LittleEndian(scratch, |word|)
    ensures ByteBits(flushed + word[..tail]) == ByteBits(flushed) + BitsOf(scratch, bits) + Zeros(8 * tail - bits)
  {
    hide *;
    LittleEndianBits(scratch, |word|);
    ByteBitsSlice(word, 0, tail);
    assert word[0..tail] == word[..tail];
    ShrBits(scratch, 8 * tail, 8 * |word| - 8 * tail);
    assert ByteBits(word[..tail]) == BitsOf(scratch, 8 * tail);
    ZeroAbove(scratch, bits, 8 * tail - bits);
    ByteBitsAppend(flushed, word[..tail]);
    Assoc(ByteBits(flushed), BitsOf(scratch, bits), Zeros(8 * tail - bits));
  }

  /** `value.wrapping_sub(min)` */
  function WrappingSub(value: nat, min: nat): nat { (value - min) % U32 }

  lemma WrapOffset(value: nat, min: nat, max: nat)
    requires min <= max < U32 && value < U32
    ensures WrappingSub(value, min) <= max - min <==> min <= value <= max
    ensures min <= value ==> WrappingSub(value, min) == value - min
  {
  }

  class BitWriter {
    const buf: array<byte>
    /** The tail of the stream as a number below `2^scratchBits`. */
    var scratch: nat
    var scratchBits: nat
    /** How many bytes of the buffer hold flushed words. */
    var wordIndex: nat
    var bitsWritten: nat

    ghost predicate Valid()
      reads this
    {
      && bitsWritten == 8 * wordIndex + scratchBits <= 8 * buf.Length
      && wordIndex % 4 == 0 && scratchBits < 32
      && scratch < Pow2(scratchBits)
    }

    /** Everything written so far. */
    ghost function Stream(): (s: seq<bool>)
      requires Valid()
      reads this, buf
      ensures |s| == bitsWritten
    {
      ByteBits(buf[..wordIndex]) + BitsOf(scratch, scratchBits)
    }

    constructor (buf: array<byte>)
      ensures this.buf == buf
      ensures Valid() && Stream() == []
    {
      this.buf := buf;
      scratch, scratchBits, wordIndex, bitsWritten := 0, 0, 0, 0;
      new;
      assert buf[..0] == [];
    }

    function BitsRemaining(): int
      reads this
    {
      8 * buf.Length - bitsWritten
    }

    method Copy(at: nat, bytes: Bytes)
      requires at + |bytes| <= buf.Length
      modifies buf
      ensures buf[..] == old(buf[..at]) + bytes + old(buf[at + |bytes|..])
    {
      forall i | 0 <= i < |bytes| {
        buf[at + i] := bytes[i];
      }
    }

    /** Appends the low `bits` of `value`, or fails and changes nothing. */
    method WriteBits(value: nat, bits: nat) returns (r: WriteResult)
      requires Valid() && bits <= 32
      modifies this, buf
      ensures Valid()
      ensures r == if old(bitsWritten) + bits <= 8 * buf.Length then Written else Overflow
      ensures r.Written? ==> Stream() == old(Stream()) + BitsOf(value, bits)
      ensures !r.Written? ==> unchanged(this) && unchanged(buf)
    {
      hide Pow2, BitsOf, ByteBits, ToNat, Low, Shl, Shr, Or, FromBits, LittleEndian, FromLittleEndian, CeilBytes;
      if bits > BitsRemaining() {
        return Overflow;
      }
      var v := Low(value, bits);
      LowBits(value, bits);
      OrAppends(scratch, scratchBits, v, bits);
      scratch := Or(scratch, Shl(v, scratchBits));
      scratchBits := scratchBits + bits;
      bitsWritten := bitsWritten + bits;
      assert ByteBits(buf[..wordIndex]) + BitsOf(scratch, scratchBits) == old(Stream()) + BitsOf(value, bits);
      if scratchBits >= 32 {
        FlushWord();
      }
      r := Written;
    }

    method FlushWord()
      requires 32 <= scratchBits < 64 && scratch < Pow2(scratchBits)
      requires wordIndex % 4 == 0 && 8 * wordIndex + scratchBits == bitsWritten <= 8 * buf.Length
      modifies this`scratch, this`scratchBits, this`wordIndex, buf
      ensures Valid()
      ensures Stream() == old(ByteBits(buf[..wordIndex]) + BitsOf(scratch, scratchBits))
    {
      hide Pow2, BitsOf, ByteBits, ToNat, Low, Shl, Shr, Or, FromBits, LittleEndian, FromLittleEndian, CeilBytes;
      var word := WordBytes(scratch);
      var w := 8 * |word|;
      FlushKeeps(buf[..wordIndex], scratch, scratchBits, word, w);
      Copy(wordIndex, word);
      assert buf[..wordIndex + 4] == buf[..][..wordIndex + 4] == old(buf[..wordIndex]) + word;
      scratch := Shr(scratch, w);
      scratchBits := scratchBits - w;
      wordIndex := wordIndex + 4;
    }

    static method WordBytes(w: nat) returns (word: Bytes)
      ensures |word| == 4 && word == LittleEndian(w, |word|)
    {
      var n := 4;
      word := LittleEndian(w, n);
    }

    method WriteU64(value: nat) returns (r: WriteResult)
      requires Valid() && value < U64
      modifies this, buf
      ensures Valid()
      ensures r.Written? <==> old(bitsWritten) + 64 <= 8 * buf.Length
      ensures r.Written? ==> Stream() == old(Stream()) + BitsOf(value, 64)
      ensures !r.Written? ==> r == Overflow && old(Stream()) <= Stream()
    {
      hide Pow2, BitsOf, ByteBits, ToNat, Low, Shl, Shr, Or, FromBits, LittleEndian, FromLittleEndian, CeilBytes;
      ShrBits(value, 32, 32);
      r := WriteBits(value, 32);
      if r.Written? {
        r := WriteBits(Shr(value, 32), 32);
      }
    }

    /** A number known to lie in a range costs only the bits that tell its members apart. A value
    below the range wraps to an offset above it. */
    method WriteRange(value: nat, min: nat, max: nat) returns (r: WriteResult)
      requires Valid() && min <= max < U32 && value < U32
      modifies this, buf
      ensures Valid()
      ensures r.OutOfRange? <==> !(min <= value <= max)
      ensures r.Written? ==> Stream() == old(Stream()) + BitsOf(value - min, BitsRequired(max - min))
      ensures r.Overflow? ==> old(bitsWritten) + BitsRequired(max - min) > 8 * buf.Length
      ensures !r.Written? ==> unchanged(this) && unchanged(buf)
    {
      hide WrappingSub, BitsRequired, Pow2, BitsOf, ByteBits, ToNat, Low, Shl, Shr, Or, FromBits,
           LittleEndian, FromLittleEndian, CeilBytes;
      var range := max - min;
      var offset := WrappingSub(value, min);
      WrapOffset(value, min, max);
      if offset > range {
        return OutOfRange;
      }
      BitsRequiredAtMost32(range);
      r := WriteBits(offset, BitsRequired(range));
    }

    method Align() returns (r: WriteResult)
      requires Valid()
      modifies this, buf
      ensures Valid()
      ensures r.Written? <==> old(bitsWritten) + Pad(old(bitsWritten)) <= 8 * buf.Length
      ensures r.Written? ==> Stream() == old(Stream()) + Zeros(Pad(old(bitsWritten)))
      ensures !r.Written? ==> unchanged(this) && unchanged(buf)
    {
      ZeroBits(Pad(bitsWritten));
      r := WriteBits(0, Pad(bitsWritten));
    }

    /** Puts the pending bits into the buffer, padded with zeros to a whole byte. */
    method FlushPartial()
      requires Valid()
      modifies buf
      ensures Stream() == old(Stream())
      ensures CeilBytes(bitsWritten) <= buf.Length
      ensures ByteBits(buf[..CeilBytes(bitsWritten)]) == Stream() + Zeros(Pad(bitsWritten))
    {
      hide Pow2, BitsOf, ByteBits, ToNat, Low, Shl, Shr, Or, FromBits, LittleEndian, FromLittleEndian, CeilBytes;
      var tail := CeilBytes(scratchBits);
      var word := WordBytes(scratch);
      var bytes := word[..tail];
      TailBytes(buf[..wordIndex], scratch, scratchBits, word, tail);
      Copy(wordIndex, bytes);
      assert buf[..wordIndex] == buf[..][..wordIndex] == old(buf[..wordIndex]);
      assert buf[..wordIndex + tail] == buf[..][..wordIndex + tail] == old(buf[..wordIndex]) + bytes;
      CeilBytesAdd(wordIndex, scratchBits);
    }

    /** Copies whole bytes at a byte boundary, or fails and changes nothing. */
    method WriteBytes(bytes: Bytes) returns (r: WriteResult)
      requires Valid() && Aligned(bitsWritten)
      modifies this, buf
      ensures Valid()
      ensures r == if old(bitsWritten) + 8 * |bytes| <= 8 * buf.Length then Written else Overflow
      ensures r.Written? ==> Stream() == old(Stream()) + ByteBits(bytes)
      ensures !r.Written? ==> unchanged(this) && unchanged(buf)
    {
      hide Pow2, BitsOf, ByteBits, ToNat, Low, Shl, Shr, Or, FromBits, LittleEndian, FromLittleEndian, CeilBytes;
      if 8 * |bytes| > BitsRemaining() {
        return Overflow;
      }
      r := Written;
      if |bytes| == 0 {
        return;
      }
      ghost var was := Stream();
      FlushPartial();
      var at := CeilBytes(bitsWritten);
      assert ByteBits(buf[..at]) == was;
      ByteBitsAppend(buf[..at], bytes);
      ghost var before := buf[..at];
      Copy(at, bytes);
      assert buf[..at + |bytes|] == buf[..][..at + |bytes|] == before + bytes;
      Resume(bitsWritten + 8 * |bytes|);
      ByteBitsSlice(buf[..], 0, at + |bytes|);
      assert buf[..][0..at + |bytes|] == buf[..at + |bytes|];
    }

    /** Goes on from bit `pos` as though the buffer's bits before it had just been written. */
    method Resume(pos: nat)
      requires pos <= 8 * buf.Length
      modifies this
      ensures Valid() && bitsWritten == pos
      ensures Stream() == ByteBits(buf[..])[..pos]
    {
      hide Pow2, BitsOf, ByteBits, ToNat, Low, Shl, Shr, Or, FromBits, LittleEndian, FromLittleEndian, CeilBytes;
      WordPosition(pos);
      bitsWritten := pos;
      wordIndex := pos / 32 * 4;
      scratchBits := pos % 32;
      var take := Min(4, buf.Length - wordIndex);
      Reload(buf[..], wordIndex, scratchBits, take);
      scratch := Low(FromLittleEndian(buf[wordIndex..wordIndex + take]), scratchBits);
      assert buf[..][wordIndex..wordIndex + take] == buf[wordIndex..wordIndex + take];
      assert buf[..][..wordIndex] == buf[..wordIndex];
    }

    function Checkpoint(): nat
      reads this
    {
      bitsWritten
    }

    /** Discards everything after the checkpoint, across any number of flushed words. */
    method Rollback(cp: nat)
      requires Valid() && cp <= bitsWritten
      modifies this
      ensures Valid() && Stream() == old(Stream())[..cp]
    {
      hide Pow2, BitsOf, ByteBits, ToNat, Low, Shl, Shr, Or, FromBits, LittleEndian, FromLittleEndian, CeilBytes;
      var at, k := cp / 32 * 4, cp % 32;
      WordPosition(cp);
      if at < wordIndex {
        PrefixBits(buf[..], wordIndex);
        assert buf[..][..wordIndex] == buf[..wordIndex];
        Truncate(ByteBits(buf[..]), 8 * wordIndex, BitsOf(scratch, scratchBits), cp);
        Resume(cp);
      } else {
        ShrBits(scratch, k, scratchBits - k);
        LowBits(scratch, k);
        Shorten(ByteBits(buf[..wordIndex]), BitsOf(scratch, k), BitsOf(Shr(scratch, k), scratchBits - k));
        scratch := Low(scratch, k);
        scratchBits, bitsWritten := k, cp;
      }
    }

    static lemma Truncate(all: seq<bool>, n: nat, rest: seq<bool>, cp: nat)
      requires cp <= n <= |all|
      ensures (all[..n] + rest)[..cp] == all[..cp]
    {
    }

    static lemma Shorten(a: seq<bool>, b: seq<bool>, c: seq<bool>)
      ensures (a + (b + c))[..|a| + |b|] == a + b
    {
    }

    /** Leaves exactly the bits written, zero-padded to a byte, and reports how many bytes. */
    method Finish() returns (len: nat)
      requires Valid()
      modifies buf
      ensures len == CeilBytes(bitsWritten) <= buf.Length
      ensures ByteBits(buf[..len]) == old(Stream()) + Zeros(Pad(bitsWritten))
    {
      FlushPartial();
      len := CeilBytes(bitsWritten);
    }
  }

  class BitReader {
    const buffer: Bytes
    var scratch: nat
    var scratchBits: nat
    var byteIndex: nat
    var bitsRead: nat

    ghost function Stream(): seq<bool> { ByteBits(buffer) }

    ghost predicate Valid()
      reads this
    {
      && byteIndex <= |buffer|
      && bitsRead + scratchBits == 8 * byteIndex
      && scratchBits < 64
      && scratch < Pow2(scratchBits)
      && BitsOf(scratch, scratchBits) == Stream()[bitsRead..8 * byteIndex]
    }

    constructor (buffer: Bytes)
      ensures this.buffer == buffer
      ensures Valid() && bitsRead == 0
    {
      this.buffer := buffer;
      scratch, scratchBits, byteIndex, bitsRead := 0, 0, 0, 0;
    }

    function BitsRemaining(): int
      reads this
    {
      8 * |buffer| - bitsRead
    }

    /** Takes a word, or near the end a byte, into the scratch register. */
    method Refill()
      requires Valid() && scratchBits < 32 && byteIndex < |buffer|
      modifies this`scratch, this`scratchBits, this`byteIndex
      ensures Valid() && byteIndex > old(byteIndex)
    {
      hide Pow2, BitsOf, ByteBits, ToNat, Low, Shl, Shr, Or, FromBits, LittleEndian, FromLittleEndian, CeilBytes;
      var take := if byteIndex + 4 <= |buffer| then 4 else 1;
      var word := buffer[byteIndex..byteIndex + take];
      FromLittleEndianBits(word);
      ByteBitsSlice(buffer, byteIndex, byteIndex + take);
      var v := FromLittleEndian(word);
      OrAppends(scratch, scratchBits, v, 8 * take);
      scratch := Or(scratch, Shl(v, scratchBits));
      scratchBits := scratchBits + 8 * take;
      byteIndex := byteIndex + take;
    }

    /** Reads the next `bits` bits as a number, or fails and consumes nothing. */
    method ReadBits(bits: nat) returns (r: ReadResult<nat>)
      requires Valid() && bits <= 32
      modifies this
      ensures Valid()
      ensures r.Value? <==> old(bitsRead) + bits <= 8 * |buffer|
      ensures r.Value? ==> r.value == ToNat(Stream()[old(bitsRead)..old(bitsRead) + bits])
                           && bitsRead == old(bitsRead) + bits
      ensures !r.Value? ==> r == Eof && unchanged(this)
    {
      hide Pow2, BitsOf, ByteBits, ToNat, Low, Shl, Shr, Or, FromBits, LittleEndian, FromLittleEndian, CeilBytes;
      if bits > BitsRemaining() {
        return Eof;
      }
      while scratchBits < bits
        invariant Valid() && bitsRead == old(bitsRead)
        decreases |buffer| - byteIndex
      {
        Refill();
      }
      r := Take(bits);
    }

    method Take(bits: nat) returns (r: ReadResult<nat>)
      requires Valid() && bits <= scratchBits
      modifies this
      ensures Valid() && bitsRead == old(bitsRead) + bits
      ensures r == Value(ToNat(Stream()[old(bitsRead)..old(bitsRead) + bits]))
    {
      hide Pow2, BitsOf, ByteBits, ToNat, Low, Shl, Shr, Or, FromBits, LittleEndian, FromLittleEndian, CeilBytes;
      ghost var s := Stream()[bitsRead..8 * byteIndex];
      LowBits(scratch, bits);
      ShrBits(scratch, bits, scratchBits - bits);
      Dividing(s, BitsOf(scratch, bits), BitsOf(Shr(scratch, bits), scratchBits - bits));
      assert Stream()[bitsRead..bitsRead + bits] == s[..bits];
      assert Stream()[bitsRead + bits..8 * byteIndex] == s[bits..];
      r := Value(Low(scratch, bits));
      scratch := Shr(scratch, bits);
      scratchBits := scratchBits - bits;
      bitsRead := bitsRead + bits;
    }

    static lemma Dividing(s: seq<bool>, a: seq<bool>, b: seq<bool>)
      requires s == a + b
      ensures s[..|a|] == a && s[|a|..] == b
    {
    }

    /** The inverse of `WriteRange`, which also meets offsets no writer produces and refuses them. */
    method ReadRange(min: nat, max: nat) returns (r: ReadResult<nat>)
      requires Valid() && min <= max < U32
      modifies this
      ensures Valid()
      ensures var w := BitsRequired(max - min);
              && (r.Eof? <==> old(bitsRead) + w > 8 * |buffer|)
              && (r.Eof? ==> bitsRead == old(bitsRead))
              && (!r.Eof? ==>
                    && old(bitsRead) + w <= |Stream()| && bitsRead == old(bitsRead) + w
                    && var offset := ToNat(Stream()[old(bitsRead)..old(bitsRead) + w]);
                       r == if offset <= max - min then Value(min + offset) else Invalid)
    {
      hide Pow2, BitsOf, ByteBits, ToNat, Low, Shl, Shr, Or, FromBits, LittleEndian, FromLittleEndian, CeilBytes;
      var range := max - min;
      BitsRequiredAtMost32(range);
      r := ReadBits(BitsRequired(range));
      if r.Value? {
        r := if r.value > range then Invalid else Value(min + r.value);
      }
    }

    method ReadU64() returns (r: ReadResult<nat>)
      requires Valid()
      modifies this
      ensures Valid()
      ensures r.Value? <==> old(bitsRead) + 64 <= 8 * |buffer|
      ensures r.Value? ==> r.value == ToNat(Stream()[old(bitsRead)..old(bitsRead) + 64])
                           && bitsRead == old(bitsRead) + 64
      ensures !r.Value? ==> r == Eof
    {
      hide Pow2, BitsOf, ByteBits, ToNat, Low, Shl, Shr, Or, FromBits, LittleEndian, FromLittleEndian, CeilBytes;
      ghost var at := bitsRead;
      r := ReadBits(32);
      if r.Value? {
        var lo := r.value;
        r := ReadBits(32);
        if r.Value? {
          var hi := r.value;
          ghost var low, high := Stream()[at..at + 32], Stream()[at + 32..at + 64];
          assert Stream()[at..at + 64] == low + high;
          ToNatBelow(low);
          ToNatBelow(high);
          BitsInverse(low);
          BitsInverse(high);
          OrAppends(lo, 32, hi, 32);
          ToNatInverse(Or(lo, Shl(hi, 32)), 64);
          r := Value(Or(lo, Shl(hi, 32)));
        }
      }
    }

    method Align() returns (r: ReadResult<nat>)
      requires Valid()
      modifies this
      ensures Valid() && r.Value? && bitsRead == old(bitsRead) + Pad(old(bitsRead))
    {
      r := ReadBits(Pad(bitsRead));
    }

    /** The next `len` bytes, at a byte boundary only. */
    function PeekBytes(len: nat): (r: Option<Bytes>)
      reads this
      requires Valid()
      ensures r.Some? <==> Aligned(bitsRead) && bitsRead + 8 * len <= 8 * |buffer|
      ensures r.Some? ==> |r.value| == len && ByteBits(r.value) == Stream()[bitsRead..bitsRead + 8 * len]
    {
      var at := CeilBytes(bitsRead);
      if Aligned(bitsRead) && at + len <= |buffer| then
        ByteBitsSlice(buffer, at, at + len);
        Some(buffer[at..at + len])
      else None
    }

    /** Moves past `len` bytes. At a byte boundary the reader stays in step
    with the stream; elsewhere the bits between the boundary and the position come again. */
    method SkipBytes(len: nat) returns (r: ReadResult<()>)
      requires Valid()
      modifies this
      ensures r.Value? <==> old(bitsRead) + 8 * len <= 8 * |buffer|
      ensures r.Value? ==> bitsRead == old(bitsRead) + 8 * len
      ensures r.Value? ==> (Valid() <==> Aligned(old(bitsRead)))
      ensures !r.Value? ==> r == Eof && unchanged(this)
    {
      if 8 * len > BitsRemaining() {
        return Eof;
      }
      hide Pow2, BitsOf, ByteBits, CeilBytes;
      CeilBytesAdd(len, bitsRead);
      bitsRead := bitsRead + 8 * len;
      WholeBytes(bitsRead);
      byteIndex := bitsRead / 8;
      scratch, scratchBits := 0, 0;
      r := Value(());
    }
  }

  // ----- What is written is read -----

  datatype Item = Item(value: nat, width: nat)

  /** The bits of values written one after another. */
  function Spelled(items: seq<Item>): seq<bool> {
    if items == [] then [] else
      var n := |items| - 1;
      Spelled(items[..n]) + BitsOf(items[n].value, items[n].width)
  }

  lemma {:induction false} SpelledPrefix(items: seq<Item>, k: nat)
    requires k <= |items|
    ensures Spelled(items[..k]) <= Spelled(items)
    decreases |items|
  {
    var n := |items| - 1;
    if k == |items| {
      assert items[..k] == items;
    } else {
      assert items[..n][..k] == items[..k];
      SpelledPrefix(items[..n], k);
    }
  }

  /** Where the k-th value is in the stream. */
  lemma SpelledAt(items: seq<Item>, k: nat, tail: seq<bool>)
    requires k < |items|
    ensures var at, end := |Spelled(items[..k])|, |Spelled(items[..k + 1])|;
            && end == at + items[k].width && end <= |Spelled(items)|
            && (Spelled(items) + tail)[at..end] == BitsOf(items[k].value, items[k].width)
  {
    hide BitsOf;
    assert items[..k + 1][..k] == items[..k];
    SpelledPrefix(items, k + 1);
  }

  method WriteAll(w: BitWriter, items: seq<Item>) returns (ok: bool)
    requires w.Valid() && w.Stream() == [] && forall i | 0 <= i < |items| :: items[i].width <= 32
    modifies w, w.buf
    ensures w.Valid() && (ok <==> |Spelled(items)| <= 8 * w.buf.Length)
    ensures ok ==> w.Stream() == Spelled(items)
  {
    hide BitWriter.Valid, BitWriter.Stream, BitsOf;
    assert items[..0] == [];
    for k := 0 to |items|
      invariant w.Valid() && w.Stream() == Spelled(items[..k]) && w.bitsWritten <= 8 * w.buf.Length
    {
      assert items[..k + 1][..k] == items[..k];
      SpelledPrefix(items, k + 1);
      var r := w.WriteBits(items[k].value, items[k].width);
      if !r.Written? {
        return false;
      }
    }
    assert items[..|items|] == items;
    return true;
  }

  /** Values of given widths written in turn, finished, and read in turn come back in order, each
  cut to its width; it fails exactly when they do not all fit. */
  method WriteThenRead(items: seq<Item>, capacity: nat) returns (values: Option<seq<nat>>)
    requires forall i | 0 <= i < |items| :: items[i].width <= 32
    ensures values.None? <==> |Spelled(items)| > 8 * capacity
    ensures values.Some? ==> |values.value| == |items|
    ensures values.Some? ==> forall i | 0 <= i < |items| :: values.value[i] == Low(items[i].value, items[i].width)
  {
    hide BitWriter.Valid, BitWriter.Stream, BitReader.Valid, BitsOf, ByteBits, Low, Spelled, CeilBytes;
    var buf := new byte[capacity];
    var w := new BitWriter(buf);
    var ok := WriteAll(w, items);
    if !ok {
      return None;
    }
    var len := w.Finish();
    var r := new BitReader(buf[..len]);
    ghost var tail := Zeros(Pad(w.bitsWritten));
    var read: seq<nat> := [];
    SpelledNone(items);
    for k := 0 to |items|
      invariant r.Valid() && fresh(r) && r.Stream() == Spelled(items) + tail && r.bitsRead == |Spelled(items[..k])|
      invariant |read| == k && forall i | 0 <= i < k :: read[i] == Low(items[i].value, items[i].width)
    {
      SpelledAt(items, k, tail);
      LowBits(items[k].value, items[k].width);
      var v := r.ReadBits(items[k].width);
      read := read + [v.value];
    }
    return Some(read);
  }

  lemma SpelledNone(items: seq<Item>)
    ensures Spelled(items[..0]) == []
  {
  }
}
