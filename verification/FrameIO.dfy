/** Writing and reading frames through the bit writer and reader: what the writer holds after
a frame is that frame's bits or, when it does not fit, exactly what it held before; and the
reader meets the frames the bits spell. */
module FrameIO {
  import opened Machine
  import opened Bits
  import opened BitStream
  import opened Frames
  import A = Arena

  lemma RangeWidths()
    ensures BitsRequired(MAX_CHANNELS - 1) == CHANNEL_BITS
    ensures BitsRequired(MAX_MESSAGE) == LENGTH_BITS
    ensures BitsRequired(MAX_BLOB) == BLOB_LENGTH_BITS
  {
    assert BitsRequired(1) == 1;
    assert BitsRequired(3) == 2;
    assert BitsRequired(7) == 3;
    assert BitsRequired(2) == 2;
    assert BitsRequired(4) == 3;
    assert BitsRequired(8) == 4;
    assert BitsRequired(16) == 5;
    assert BitsRequired(32) == 6;
    assert BitsRequired(64) == 7;
    assert BitsRequired(128) == 8;
    assert BitsRequired(256) == 9;
    assert BitsRequired(512) == 10;
  }

  // ----- Writing -----

  /** A byte run after its alignment, or a failure that keeps what was there. */
  method WriteRun(w: BitWriter, bytes: Bytes) returns (ok: bool)
    requires w.Valid()
    modifies w, w.buf
    ensures w.Valid()
    ensures ok <==> old(w.bitsWritten) + Pad(old(w.bitsWritten)) + 8 * |bytes| <= 8 * w.buf.Length
    ensures ok ==> w.Stream() == old(w.Stream()) + (Zeros(Pad(old(w.bitsWritten))) + ByteBits(bytes))
    ensures old(w.Stream()) <= w.Stream()
  {
    hide BitWriter.Stream, Zeros, ByteBits, CeilBytes;
    ghost var s0 := w.Stream();
    var r := w.Align();
    if !r.Written? {
      return false;
    }
    assert w.bitsWritten == old(w.bitsWritten) + Pad(old(w.bitsWritten));
    AlignedAfter(old(w.bitsWritten));
    r := w.WriteBytes(bytes);
    if r.Written? {
      Assoc(s0, Zeros(Pad(old(w.bitsWritten))), ByteBits(bytes));
    }
    return r.Written?;
  }

  lemma AlignedAfter(n: nat)
    ensures Aligned(n + Pad(n))
  {
  }

  /** The fields a control frame carries after its code. */
  method WriteFields(w: BitWriter, f: Frame, ghost kinds: Kinds) returns (ok: bool)
    requires w.Valid() && !f.Message? && Encodable(kinds, f)
    modifies w, w.buf
    ensures w.Valid()
    ensures ok <==> old(w.bitsWritten) + |ControlFields(f)| <= 8 * w.buf.Length
    ensures ok ==> w.Stream() == old(w.Stream()) + ControlFields(f)
    ensures old(w.Stream()) <= w.Stream()
  {
    hide BitWriter.Stream, BitsOf, BitsRequired, CeilBytes;
    RangeWidths();
    match f {
      case Close(reason) =>
        var r := w.WriteBits(reason, REASON_BITS);
        return r.Written?;
      case PathChallenge(token) =>
        var r := w.WriteU64(token);
        return r.Written?;
      case PathResponse(token) =>
        var r := w.WriteU64(token);
        return r.Written?;
      case ResumeTicket(blob) =>
        var r := w.WriteRange(|blob|, 0, MAX_BLOB);
        return r.Written?;
      case Ping =>
        Nothing(w.Stream());
        return true;
      case Accepted =>
        Nothing(w.Stream());
        return true;
    }
  }

  lemma Nothing(s: seq<bool>)
    ensures s + [] == s
  {
  }

  /** A control frame's kind, code and fields. */
  method WriteHead(w: BitWriter, f: Frame, ghost kinds: Kinds) returns (ok: bool)
    requires w.Valid() && !f.Message? && Encodable(kinds, f)
    modifies w, w.buf
    ensures w.Valid()
    ensures ok <==> old(w.bitsWritten) + |Fields(kinds, f)| <= 8 * w.buf.Length
    ensures ok ==> w.Stream() == old(w.Stream()) + Fields(kinds, f)
    ensures old(w.Stream()) <= w.Stream()
  {
    hide BitWriter.Stream, BitsOf, ControlFields, CeilBytes, ControlCode, Encodable;
    ghost var s0 := w.Stream();
    var r := w.WriteBits(1, KIND_BITS);
    if !r.Written? {
      return false;
    }
    r := w.WriteBits(ControlCode(f), KIND_BITS);
    if !r.Written? {
      return false;
    }
    ok := WriteFields(w, f, kinds);
    if ok {
      Joined3(s0, BitsOf(1, KIND_BITS), BitsOf(ControlCode(f), KIND_BITS), ControlFields(f));
    }
  }

  /** One control frame: its fields and its run. */
  method WriteParts(w: BitWriter, f: Frame, ghost kinds: Kinds) returns (ok: bool)
    requires w.Valid() && !f.Message? && Encodable(kinds, f)
    modifies w, w.buf
    ensures w.Valid()
    ensures ok <==> old(w.bitsWritten) + |Encoded(kinds, f, old(w.bitsWritten))| <= 8 * w.buf.Length
    ensures ok ==> w.Stream() == old(w.Stream()) + Encoded(kinds, f, old(w.bitsWritten))
    ensures old(w.Stream()) <= w.Stream()
  {
    hide BitWriter.Stream, BitWriter.Valid, ByteBits, Zeros, Pad, Fields, Encodable, Encoded;
    ghost var s0, at, fields := w.Stream(), w.bitsWritten, Fields(kinds, f);
    EncodedParts(kinds, f, at);
    ok := WriteHead(w, f, kinds);
    if !ok || !f.ResumeTicket? {
      return;
    }
    ghost var s1 := w.Stream();
    ok := WriteRun(w, f.blob);
    PrefixTrans(s0, s1, w.Stream());
    if ok {
      Assoc(s0, fields, Zeros(Pad(at + |fields|)) + ByteBits(f.blob));
    }
  }

  lemma PrefixTrans(a: seq<bool>, b: seq<bool>, c: seq<bool>)
    requires a <= b <= c
    ensures a <= c
  {
  }

  lemma Joined3(s: seq<bool>, a: seq<bool>, b: seq<bool>, c: seq<bool>)
    ensures s + a + b + c == s + (a + (b + c))
  {
  }

  lemma EncodedParts(kinds: Kinds, f: Frame, at: nat)
    requires !f.Message? && Encodable(kinds, f)
    ensures var fields := Fields(kinds, f);
            && Encoded(kinds, f, at) == (if f.ResumeTicket? then fields + (Zeros(Pad(at + |fields|)) + ByteBits(f.blob))
                                         else fields)
            && |Encoded(kinds, f, at)| == |fields| + (if f.ResumeTicket? then Pad(at + |fields|) + 8 * |f.blob| else 0)
  {
    hide Fields, ByteBits, Zeros, CeilBytes;
  }

  /** All of the frame or none of it. */
  method WriteControlFrame(w: BitWriter, f: Frame, ghost kinds: Kinds) returns (ok: bool)
    requires w.Valid() && !f.Message? && Encodable(kinds, f)
    modifies w, w.buf
    ensures w.Valid()
    ensures ok <==> old(w.bitsWritten) + |Encoded(kinds, f, old(w.bitsWritten))| <= 8 * w.buf.Length
    ensures w.Stream() == old(w.Stream()) + if ok then Encoded(kinds, f, old(w.bitsWritten)) else []
  {
    hide BitWriter.Stream, Encoded, Encodable;
    var checkpoint := w.Checkpoint();
    ok := WriteParts(w, f, kinds);
    if !ok {
      w.Rollback(checkpoint);
      assert w.Stream() == old(w.Stream());
    }
  }

  // ----- Messages -----

  /** Blocks of a payload, one after another. */
  method WriteChunks(w: BitWriter, chunks: seq<Bytes>) returns (ok: bool)
    requires w.Valid() && Aligned(w.bitsWritten)
    modifies w, w.buf
    ensures w.Valid()
    ensures ok <==> old(w.bitsWritten) + 8 * |A.Joined(chunks)| <= 8 * w.buf.Length
    ensures ok ==> w.Stream() == old(w.Stream()) + ByteBits(A.Joined(chunks))
    ensures old(w.Stream()) <= w.Stream()
  {
    hide BitWriter.Stream, ByteBits, CeilBytes, A.Joined;
    ghost var s0, at := w.Stream(), w.bitsWritten;
    A.JoinedNone();
    NoBytes(s0);
    assert chunks[..0] == [];
    for i := 0 to |chunks|
      invariant w.Valid() && w.bitsWritten == at + 8 * |A.Joined(chunks[..i])|
      invariant w.Stream() == s0 + ByteBits(A.Joined(chunks[..i]))
    {
      ghost var before := A.Joined(chunks[..i]);
      A.JoinedMore(chunks[..i], chunks[i]);
      assert chunks[..i] + [chunks[i]] == chunks[..i + 1];
      AlignedMore(at, |before|);
      var r := w.WriteBytes(chunks[i]);
      if !r.Written? {
        JoinedLonger(chunks, i + 1);
        return false;
      }
      ByteBitsAppend(before, chunks[i]);
      Assoc(s0, ByteBits(before), ByteBits(chunks[i]));
    }
    assert chunks[..|chunks|] == chunks;
    return true;
  }

  lemma NoBytes(s: seq<bool>)
    ensures s + ByteBits([]) == s
  {
  }

  lemma AlignedMore(at: nat, k: nat)
    requires Aligned(at)
    ensures Aligned(at + 8 * k)
  {
    hide CeilBytes;
    CeilBytesAdd(k, at);
  }

  lemma {:induction false} JoinedLonger(chunks: seq<Bytes>, k: nat)
    requires k <= |chunks|
    ensures |A.Joined(chunks[..k])| <= |A.Joined(chunks)|
    decreases |chunks| - k
  {
    if k < |chunks| {
      assert chunks[..k + 1][..k] == chunks[..k];
      JoinedLonger(chunks, k + 1);
    } else {
      assert chunks[..k] == chunks;
    }
  }

  method WriteId(w: BitWriter, kind: Kind, wire: nat) returns (ok: bool)
    requires w.Valid()
    modifies w, w.buf
    ensures w.Valid() && (ok <==> old(w.bitsWritten) + |IdBits(kind, wire)| <= 8 * w.buf.Length)
    ensures ok ==> w.Stream() == old(w.Stream()) + IdBits(kind, wire)
    ensures !ok ==> w.Stream() == old(w.Stream())
  {
    hide BitWriter.Stream, BitsOf, CeilBytes;
    if !kind.NeedsId() {
      Nothing(w.Stream());
      return true;
    }
    var r := w.WriteBits(wire, MESSAGE_ID_BITS);
    return r.Written?;
  }

  /** A message's kind and fields. */
  method WriteMessageFields(w: BitWriter, kinds: Kinds, channel: nat, wire: nat, len: nat, ghost f: Frame)
      returns (ok: bool)
    requires w.Valid() && f.Message? && Encodable(kinds, f) && f.channel == channel && f.id == wire
             && |f.payload| == len
    modifies w, w.buf
    ensures w.Valid()
    ensures ok <==> old(w.bitsWritten) + |Fields(kinds, f)| <= 8 * w.buf.Length
    ensures ok ==> w.Stream() == old(w.Stream()) + Fields(kinds, f)
    ensures old(w.Stream()) <= w.Stream()
  {
    hide BitWriter.Stream, BitsOf, BitsRequired, CeilBytes, IdBits;
    RangeWidths();
    ghost var s0 := w.Stream();
    var r := w.WriteBits(3, KIND_BITS);
    if !r.Written? {
      return false;
    }
    r := w.WriteRange(channel, 0, MAX_CHANNELS - 1);
    if !r.Written? {
      return false;
    }
    var wroteId := WriteId(w, kinds[channel], wire);
    if !wroteId {
      return false;
    }
    r := w.WriteRange(len, 0, MAX_MESSAGE);
    if !r.Written? {
      return false;
    }
    Joined4(s0, BitsOf(3, KIND_BITS), BitsOf(f.channel, CHANNEL_BITS), IdBits(kinds[f.channel], f.id),
            BitsOf(|f.payload|, LENGTH_BITS));
    return true;
  }

  lemma Joined4(s: seq<bool>, a: seq<bool>, b: seq<bool>, c: seq<bool>, d: seq<bool>)
    ensures s + a + b + c + d == s + (a + (b + (c + d)))
  {
  }

  /** A message frame, its payload taken block by block from where the arena keeps it. */
  method WriteMessageFrame(w: BitWriter, kinds: Kinds, channel: nat, wire: nat, len: nat, chunks: seq<Bytes>,
                           ghost f: Frame) returns (ok: bool)
    requires w.Valid() && f.Message? && Encodable(kinds, f) && f.channel == channel && f.id == wire
             && |f.payload| == len
    requires A.Joined(chunks) == f.payload
    modifies w, w.buf
    ensures w.Valid()
    ensures ok <==> old(w.bitsWritten) + |Encoded(kinds, f, old(w.bitsWritten))| <= 8 * w.buf.Length
    ensures ok ==> w.Stream() == old(w.Stream()) + Encoded(kinds, f, old(w.bitsWritten))
    ensures old(w.Stream()) <= w.Stream()
  {
    hide BitWriter.Stream, ByteBits, Zeros, CeilBytes, Fields, A.Joined, Encodable;
    ghost var s0, at, fields := w.Stream(), w.bitsWritten, Fields(kinds, f);
    MessageLength(kinds, f, at);
    ok := WriteMessageFields(w, kinds, channel, wire, len, f);
    if !ok {
      return;
    }
    var r := w.Align();
    if !r.Written? {
      return false;
    }
    AlignedAfter(at + |fields|);
    ok := WriteChunks(w, chunks);
    if ok {
      Joined3(s0, fields, Zeros(Pad(at + |fields|)), ByteBits(f.payload));
    }
  }

  lemma MessageLength(kinds: Kinds, f: Frame, at: nat)
    requires f.Message? && Encodable(kinds, f)
    ensures var fields := Fields(kinds, f);
            && Encoded(kinds, f, at) == fields + (Zeros(Pad(at + |fields|)) + ByteBits(f.payload))
            && |Encoded(kinds, f, at)| == |fields| + (Pad(at + |fields|) + 8 * |f.payload|)
  {
    hide ByteBits, Zeros, CeilBytes, Fields;
  }

  // ----- Reading -----

  /** Alignment and a run of bytes, borrowed from the buffer. */
  method ReadRun(r: BitReader, len: nat) returns (bytes: Option<Bytes>)
    requires r.Valid()
    modifies r
    ensures bytes == AlignedRun(r.Stream(), old(r.bitsRead), len)
    ensures bytes.Some? ==> r.Valid() && r.bitsRead == AlignUp(old(r.bitsRead)) + 8 * len
  {
    hide ByteBits, FromBits, CeilBytes, BitsOf, Pow2;
    var a := r.Align();
    AlignedAfter(old(r.bitsRead));
    assert r.bitsRead == AlignUp(old(r.bitsRead)) by { UpIsPad(old(r.bitsRead)); }
    bytes := r.PeekBytes(len);
    if bytes.Some? {
      FromByteBits(bytes.value);
      var skipped := r.SkipBytes(len);
    }
  }

  lemma UpIsPad(n: nat)
    ensures AlignUp(n) == n + Pad(n)
  {
  }

  method ReadMessageFrame(r: BitReader, kinds: Kinds) returns (n: Next)
    requires r.Valid()
    modifies r
    ensures n == ParseMessage(kinds, r.Stream(), old(r.bitsRead))
    ensures n.Next? ==> r.Valid() && r.bitsRead == n.at
  {
    hide ByteBits, ToNat, AlignedRun, AlignUp, BitsRequired, BitsOf, Pow2, CeilBytes;
    RangeWidths();
    var channel := r.ReadRange(0, MAX_CHANNELS - 1);
    if channel.Eof? {
      return Bad;
    }
    ChannelAlways(r.Stream(), old(r.bitsRead));
    if channel.value >= |kinds| {
      return Bad;
    }
    var id := 0;
    if kinds[channel.value].NeedsId() {
      var wire := r.ReadBits(MESSAGE_ID_BITS);
      if !wire.Value? {
        return Bad;
      }
      id := wire.value;
    }
    var len := r.ReadRange(0, MAX_MESSAGE);
    if !len.Value? {
      return Bad;
    }
    var payload := ReadRun(r, len.value);
    if payload.None? {
      return Bad;
    }
    return Next(Message(channel.value, id, payload.value), r.bitsRead);
  }

  /** Three bits name a channel index in range. */
  lemma ChannelAlways(bits: seq<bool>, at: nat)
    requires at + CHANNEL_BITS <= |bits|
    ensures ToNat(bits[at..at + CHANNEL_BITS]) <= MAX_CHANNELS - 1
  {
    Pow2Values();
    ToNatBelow(bits[at..at + CHANNEL_BITS]);
  }

  method ReadControlFrame(r: BitReader) returns (n: Next)
    requires r.Valid()
    modifies r
    ensures n == ParseControl(r.Stream(), old(r.bitsRead))
    ensures n.Next? ==> r.Valid() && r.bitsRead == n.at
  {
    hide ByteBits, ToNat, AlignedRun, AlignUp, BitsRequired, BitsOf, Pow2, CeilBytes;
    RangeWidths();
    var code := r.ReadBits(KIND_BITS);
    if !code.Value? {
      return Bad;
    }
    if code.value == 0 {
      return Next(Ping, r.bitsRead);
    } else if code.value == 1 {
      var reason := r.ReadBits(REASON_BITS);
      return if !reason.Value? || reason.value >= REASONS then Bad else Next(Close(reason.value), r.bitsRead);
    } else if code.value == 2 {
      var token := r.ReadU64();
      return if !token.Value? then Bad else Next(PathChallenge(token.value), r.bitsRead);
    } else if code.value == 3 {
      var token := r.ReadU64();
      return if !token.Value? then Bad else Next(PathResponse(token.value), r.bitsRead);
    } else if code.value == 4 {
      var len := r.ReadRange(0, MAX_BLOB);
      if !len.Value? {
        return Bad;
      }
      var blob := ReadRun(r, len.value);
      return if blob.None? then Bad else Next(ResumeTicket(blob.value), r.bitsRead);
    } else if code.value == 5 {
      return Next(Accepted, r.bitsRead);
    } else {
      return Bad;
    }
  }

  /** What follows a frame's kind. */
  function AfterKind(kinds: Kinds, bits: seq<bool>, at: nat, kind: nat): Next {
    if kind == 1 then ParseControl(bits, at + KIND_BITS)
    else if kind == 3 then ParseMessage(kinds, bits, at + KIND_BITS)
    else Bad
  }

  lemma ParseTurn(kinds: Kinds, bits: seq<bool>, at: nat)
    ensures Parse(kinds, bits, at) ==
            var kind := Field(bits, at, KIND_BITS);
            if kind.None? || kind.value == 0 then Parsed([], true)
            else
              var n := AfterKind(kinds, bits, at, kind.value);
              if n.Bad? then Parsed([], false)
              else
                var rest := Parse(kinds, bits, n.at);
                Parsed([n.frame] + rest.frames, rest.ok)
  {
    hide Field, ParseControl, ParseMessage;
  }

  lemma NextAhead(kinds: Kinds, bits: seq<bool>, at: nat, kind: nat)
    ensures AfterKind(kinds, bits, at, kind).Next? ==> at < AfterKind(kinds, bits, at, kind).at <= |bits|
  {
  }

  /** The rest of a frame whose kind has been read. */
  method ReadRest(r: BitReader, kinds: Kinds, kind: nat, ghost at: nat) returns (n: Next)
    requires r.Valid() && r.bitsRead == at + KIND_BITS
    modifies r
    ensures n == AfterKind(kinds, r.Stream(), at, kind)
    ensures n.Next? ==> r.Valid() && r.bitsRead == n.at
  {
    hide ParseControl, ParseMessage, BitReader.Valid, BitReader.Stream;
    if kind == 1 {
      n := ReadControlFrame(r);
    } else if kind == 3 {
      n := ReadMessageFrame(r, kinds);
    } else {
      n := Bad;
    }
  }

  /** The next frame's kind, and what follows it unless it is padding. */
  method ReadNext(r: BitReader, kinds: Kinds) returns (kind: nat, n: Next)
    requires r.Valid() && r.BitsRemaining() >= KIND_BITS
    modifies r
    ensures Field(r.Stream(), old(r.bitsRead), KIND_BITS) == Some(kind)
    ensures kind == 0 ==> r.Valid()
    ensures kind != 0 ==> n == AfterKind(kinds, r.Stream(), old(r.bitsRead), kind)
    ensures kind != 0 && n.Next? ==> r.Valid() && old(r.bitsRead) < r.bitsRead == n.at <= |r.Stream()|
  {
    hide AfterKind, ByteBits, ToNat, Pow2;
    var k := r.ReadBits(KIND_BITS);
    kind, n := k.value, Bad;
    if kind != 0 {
      NextAhead(kinds, r.Stream(), old(r.bitsRead), kind);
      n := ReadRest(r, kinds, kind, old(r.bitsRead));
    }
  }

  /** The read loop as a whole: the frames met, whether reading succeeded, and whether any was met. */
  method ReadFrames(body: Bytes, kinds: Kinds) returns (frames: seq<Frame>, ok: bool, eliciting: bool)
    ensures Parsed(frames, ok) == Parse(kinds, ByteBits(body), 0)
    ensures eliciting <==> frames != []
  {
    hide ByteBits, Parse, AfterKind, BitReader.Valid, ToNat, Pow2;
    var r := new BitReader(body);
    ghost var bits := ByteBits(body);
    frames, ok, eliciting := [], true, false;
    while r.BitsRemaining() >= KIND_BITS
      invariant r.Valid() && fresh(r) && r.buffer == body && r.bitsRead <= |bits|
      invariant ok && (eliciting <==> frames != [])
      invariant var rest := Parse(kinds, bits, r.bitsRead);
                Parse(kinds, bits, 0) == Parsed(frames + rest.frames, rest.ok)
      decreases r.BitsRemaining()
    {
      ParseTurn(kinds, bits, r.bitsRead);
      NoFrames(frames);
      var kind, n := ReadNext(r, kinds);
      if kind == 0 {
        return frames, true, eliciting;
      }
      if n.Bad? {
        return frames, false, eliciting;
      }
      FramesMore(frames, n.frame, Parse(kinds, bits, n.at).frames);
      frames := frames + [n.frame];
      eliciting := true;
    }
    ParseTurn(kinds, bits, r.bitsRead);
    NoFrames(frames);
  }

  lemma NoFrames(frames: seq<Frame>)
    ensures frames + [] == frames
  {
  }

  lemma FramesMore(a: seq<Frame>, f: Frame, b: seq<Frame>)
    ensures a + ([f] + b) == a + [f] + b
  {
  }
}
