/** The bytes in front of a sealed body, and the connection id they carry. */
module Wire {
  import opened Machine
  import opened Bits

  const SHARDS: nat := 256
  const SLOTS: nat := 16384
  const OCCUPANCIES: nat := 1024
  const PAYLOAD: nat := 0
  const ACK: nat := 4
  const ACK_BITS: nat := 8
  const MIN_PAYLOAD_HEADER: nat := 7

  // ----- Connection ids -----

  datatype ConnId = ConnId(slot: nat, occupancy: nat, shard: nat)

  predicate InRange(c: ConnId) { c.slot < SLOTS && c.occupancy < OCCUPANCIES && c.shard < SHARDS }

  /** From the low end: shard, slot, occupancy. */
  function Packed(slot: nat, occupancy: nat, shard: nat): (id: nat)
    requires shard < SHARDS
    ensures id < U32
  {
    (occupancy % OCCUPANCIES) * (SHARDS * SLOTS) + (slot % SLOTS) * SHARDS + shard
  }

  function Unpacked(id: nat): (c: ConnId)
    requires id < U32
    ensures InRange(c)
  {
    ConnId((id / SHARDS) % SLOTS, id / (SHARDS * SLOTS), id % SHARDS)
  }

  /** An id names its shard, its slot and its occupancy, as far as they fit. */
  lemma UnpackPacked(slot: nat, occupancy: nat, shard: nat)
    requires shard < SHARDS
    ensures Unpacked(Packed(slot, occupancy, shard)) == ConnId(slot % SLOTS, occupancy % OCCUPANCIES, shard)
  {
    var o, l := occupancy % OCCUPANCIES, slot % SLOTS;
    var id := Packed(slot, occupancy, shard);
    assert id == SHARDS * (SLOTS * o + l) + shard;
    assert id / SHARDS == SLOTS * o + l;
  }

  /** Only the low bits of an occupancy are packed. */
  lemma PackedLow(slot: nat, occupancy: nat, shard: nat)
    requires shard < SHARDS
    ensures Packed(slot, occupancy % OCCUPANCIES, shard) == Packed(slot, occupancy, shard)
  {
  }

  lemma PackUnpacked(id: nat)
    requires id < U32
    ensures var c := Unpacked(id); Packed(c.slot, c.occupancy, c.shard) == id
  {
    var rest := id / SHARDS;
    assert id == SHARDS * rest + id % SHARDS;
    assert rest == SLOTS * (rest / SLOTS) + rest % SLOTS;
    assert rest / SLOTS == id / (SHARDS * SLOTS);
  }

  // ----- The header -----

  datatype Header = Header(kind: nat, connId: nat, sequence: nat, ack: Option<nat>, ackDelay: nat, ackBits: nat)

  predicate Fits(h: Header) {
    && h.kind < 4 && h.connId < U32 && h.sequence < 65536 && h.ackDelay < 256 && h.ackBits < U32
    && (h.ack.Some? ==> h.ack.value < 65536)
  }

  function Flags(h: Header): nat
    requires Fits(h)
  {
    h.kind + (if h.ack.Some? then ACK + (if h.ackBits != 0 then ACK_BITS else 0) else 0)
  }

  function Tail(h: Header): Bytes
    requires Fits(h)
  {
    match h.ack
    case None => []
    case Some(ack) =>
      LittleEndian(ack, 2) + LittleEndian(h.ackDelay, 1)
      + (if h.ackBits != 0 then LittleEndian(h.ackBits, 4) else [])
  }

  function Encode(h: Header): (b: Bytes)
    requires Fits(h)
    ensures 7 <= |b| <= 14
  {
    [Flags(h)] + LittleEndian(h.connId, 4) + LittleEndian(h.sequence, 2) + Tail(h)
  }

  datatype Decoded = Decoded(header: Header, len: nat) | Refused

  function ReadArray(b: Bytes, at: nat, n: nat): Option<nat> {
    if at + n <= |b| then Some(FromLittleEndian(b[at..at + n])) else None
  }

  /** Reserved flags, a cut-off field, and history without an acknowledgement are refused. */
  function Decode(b: Bytes): Decoded {
    if b == [] || b[0] >= 16 then Refused
    else
      var hasAck, hasBits := (b[0] / ACK) % 2 == 1, b[0] / ACK_BITS == 1;
      var conn, sequence := ReadArray(b, 1, 4), ReadArray(b, 5, 2);
      if conn.None? || sequence.None? then Refused
      else if !hasAck then
        if hasBits then Refused else Decoded(Header(b[0] % ACK, conn.value, sequence.value, None, 0, 0), 7)
      else
        var ack, delay := ReadArray(b, 7, 2), ReadArray(b, 9, 1);
        if ack.None? || delay.None? then Refused
        else if !hasBits then Decoded(Header(b[0] % ACK, conn.value, sequence.value, ack, delay.value, 0), 10)
        else
          var bits := ReadArray(b, 10, 4);
          if bits.None? then Refused
          else Decoded(Header(b[0] % ACK, conn.value, sequence.value, ack, delay.value, bits.value), 14)
  }

  lemma ReadAt(b: Bytes, at: nat, v: nat, n: nat)
    requires at + n <= |b| && b[at..at + n] == LittleEndian(v, n) && v < Pow2(8 * n)
    ensures ReadArray(b, at, n) == Some(v)
  {
    LittleEndianInverse(v, n);
  }

  /** What a sender writes without an acknowledgement, delay or history are not carried. */
  function Carried(h: Header): Header { if h.ack.None? then h.(ackDelay := 0, ackBits := 0) else h }

  /** Whatever follows it, an encoded header decodes to what it carries, and says where it ends. */
  lemma DecodeEncoded(h: Header, rest: Bytes)
    requires Fits(h)
    ensures Decode(Encode(h) + rest) == Decoded(Carried(h), |Encode(h)|)
  {
    hide LittleEndian, FromLittleEndian, Pow2;
    Pow2Values();
    var b := Encode(h) + rest;
    assert b[0] == Flags(h);
    assert b[1..5] == LittleEndian(h.connId, 4);
    assert b[5..7] == LittleEndian(h.sequence, 2);
    ReadAt(b, 1, h.connId, 4);
    ReadAt(b, 5, h.sequence, 2);
    if h.ack.Some? {
      assert b[7..9] == LittleEndian(h.ack.value, 2);
      assert b[9..10] == LittleEndian(h.ackDelay, 1);
      ReadAt(b, 7, h.ack.value, 2);
      ReadAt(b, 9, h.ackDelay, 1);
      if h.ackBits != 0 {
        assert b[10..14] == LittleEndian(h.ackBits, 4);
        ReadAt(b, 10, h.ackBits, 4);
      }
    }
  }

  /** Decoding undoes encoding exactly for headers that put no delay or history beside a missing
  acknowledgement, which are the ones a connection builds. */
  lemma RoundTripExact(h: Header, rest: Bytes)
    requires Fits(h)
    ensures Decode(Encode(h) + rest) == Decoded(h, |Encode(h)|) <==> (h.ack.None? ==> h.ackDelay == 0 && h.ackBits == 0)
  {
    hide Encode, Decode;
    DecodeEncoded(h, rest);
  }

  /** The shard of a payload, by one byte of it. */
  function OwnerShard(b: Bytes): Option<nat> {
    if |b| >= MIN_PAYLOAD_HEADER && b[0] % 4 == PAYLOAD then Some(b[1]) else None
  }

  /** The owner read from the second byte is the shard in the connection id the header decodes
  to. */
  lemma OwnerIsShard(b: Bytes)
    requires Decode(b).Decoded? && Decode(b).header.kind == PAYLOAD
    ensures Decode(b).header.connId < U32
    ensures OwnerShard(b) == Some(Unpacked(Decode(b).header.connId).shard)
  {
    hide FromLittleEndian, Pow2;
    var field := b[1..5];
    FieldBelow(field);
    FirstByte(field);
  }

  lemma FieldBelow(field: Bytes)
    requires |field| == 4
    ensures FromLittleEndian(field) < U32
  {
    hide ByteBits, ToNat, Pow2;
    Pow2Values();
    ToNatBelow(ByteBits(field));
  }

  lemma {:induction false} ToNatAppend(a: seq<bool>, b: seq<bool>)
    ensures ToNat(a + b) == ToNat(a) + Shl(ToNat(b), |a|)
  {
    if a == [] {
      assert a + b == b;
    } else {
      assert (a + b)[1..] == a[1..] + b;
      ToNatAppend(a[1..], b);
    }
  }

  lemma ShlByte(x: nat)
    ensures Shl(x, 8) == 256 * x
  {
    assert Shl(x, 1) == 2 * x;
    assert Shl(x, 3) == 8 * x;
    assert Shl(x, 5) == 32 * x;
    assert Shl(x, 7) == 128 * x;
  }

  lemma FirstByte(b: Bytes)
    requires b != []
    ensures FromLittleEndian(b) % 256 == b[0]
  {
    hide ToNat, Pow2, BitsOf, Shl;
    var first, rest := [b[0]], b[1..];
    assert b == first + rest;
    ByteBitsAppend(first, rest);
    ToNatAppend(ByteBits(first), ByteBits(rest));
    OneByte(b[0]);
    ShlByte(ToNat(ByteBits(rest)));
    Pow2Values();
    ToNatInverse(b[0], 8);
  }
}
