/** Packet bodies: frames packed bit by bit, then padding. `Body` prints a list of frames and
`Parse` reads one back; the two are proved inverse. */
module Frames {
  import opened Machine
  import opened Bits
  import opened BitStream

  const MAX_MESSAGE: nat := 1024
  const MAX_CHANNELS: nat := 8
  const MAX_BLOB: nat := 512
  const U64_BITS: nat := 64

  const KIND_BITS: nat := 3
  const CHANNEL_BITS: nat := 3
  const MESSAGE_ID_BITS: nat := 16
  const MESSAGE_IDS: nat := 0x1_0000
  const LENGTH_BITS: nat := 11
  const BLOB_LENGTH_BITS: nat := 10
  const REASON_BITS: nat := 3
  const REASONS: nat := 5

  /** Thirty-three bits of fields and at most seven of alignment, in bytes. */
  const MESSAGE_FRAME_OVERHEAD: nat := 5

  datatype Kind = Unreliable | UnreliableSequenced | ReliableUnordered | ReliableOrdered {
    predicate IsReliable() { ReliableUnordered? || ReliableOrdered? }
    predicate NeedsId() { !Unreliable? }
  }

  /** A channel set; both peers use the same one. */
  type Kinds = k: seq<Kind> | |k| <= MAX_CHANNELS

  datatype Frame =
    | Ping
    | Close(reason: nat)
    | PathChallenge(token: nat)
    | PathResponse(token: nat)
    | ResumeTicket(blob: Bytes)
    | Accepted
    | Message(channel: nat, id: nat, payload: Bytes)

  /** Fields fit their widths, and only a channel that numbers its messages sends an id. */
  predicate Encodable(kinds: Kinds, f: Frame) {
    match f
    case Close(reason) => reason < REASONS
    case PathChallenge(token) => token < U64
    case PathResponse(token) => token < U64
    case ResumeTicket(blob) => |blob| <= MAX_BLOB
    case Message(channel, id, payload) =>
      && channel < |kinds|
      && id < MESSAGE_IDS
      && (!kinds[channel].NeedsId() ==> id == 0)
      && |payload| <= MAX_MESSAGE
    case _ => true
  }

  function ControlCode(f: Frame): nat
    requires !f.Message?
  {
    match f
    case Ping => 0
    case Close(_) => 1
    case PathChallenge(_) => 2
    case PathResponse(_) => 3
    case ResumeTicket(_) => 4
    case Accepted => 5
  }

  /** What a control frame carries after its code, before any alignment. */
  function ControlFields(f: Frame): seq<bool> {
    match f
    case Close(reason) => BitsOf(reason, REASON_BITS)
    case PathChallenge(token) => BitsOf(token, U64_BITS)
    case PathResponse(token) => BitsOf(token, U64_BITS)
    case ResumeTicket(blob) => BitsOf(|blob|, BLOB_LENGTH_BITS)
    case _ => []
  }

  function IdBits(kind: Kind, id: nat): seq<bool> { if kind.NeedsId() then BitsOf(id, MESSAGE_ID_BITS) else [] }

  /** A frame's fixed-width fields, before any alignment. */
  function Fields(kinds: Kinds, f: Frame): seq<bool>
    requires Encodable(kinds, f)
  {
    if f.Message? then
      BitsOf(3, KIND_BITS)
      + (BitsOf(f.channel, CHANNEL_BITS) + (IdBits(kinds[f.channel], f.id) + BitsOf(|f.payload|, LENGTH_BITS)))
    else
      BitsOf(1, KIND_BITS) + (BitsOf(ControlCode(f), KIND_BITS) + ControlFields(f))
  }

  /** The byte-aligned run a frame ends in, if it has one. */
  function Run(f: Frame): Option<Bytes> {
    match f
    case Message(_, _, payload) => Some(payload)
    case ResumeTicket(blob) => Some(blob)
    case _ => None
  }

  /** A frame's bits when it starts at stream position `at`. */
  function Encoded(kinds: Kinds, f: Frame, at: nat): seq<bool>
    requires Encodable(kinds, f)
  {
    var fields := Fields(kinds, f);
    match Run(f)
    case None => fields
    case Some(bytes) => fields + (Zeros(Pad(at + |fields|)) + ByteBits(bytes))
  }

  ghost predicate AllEncodable(kinds: Kinds, frames: seq<Frame>) {
    forall i | 0 <= i < |frames| :: Encodable(kinds, frames[i])
  }

  /** The bits of a list of frames, printed one after another. */
  function Body(kinds: Kinds, frames: seq<Frame>): seq<bool>
    requires AllEncodable(kinds, frames)
  {
    if frames == [] then []
    else
      var init := Body(kinds, frames[..|frames| - 1]);
      init + Encoded(kinds, frames[|frames| - 1], |init|)
  }

  // ----- Parsing -----

  datatype Next = Next(frame: Frame, at: nat) | Bad

  datatype Parsed = Parsed(frames: seq<Frame>, ok: bool)

  function Field(bits: seq<bool>, at: nat, width: nat): (v: Option<nat>) {
    if at + width <= |bits| then Some(ToNat(bits[at..at + width])) else None
  }

  /** Alignment, then `len` bytes. */
  function AlignedRun(bits: seq<bool>, at: nat, len: nat): (r: Option<Bytes>)
    ensures r.Some? ==> |r.value| == len && AlignUp(at) + 8 * len <= |bits|
  {
    var start := AlignUp(at);
    var end := start + 8 * len;
    if end <= |bits| then Some(FromBits(bits[start..end], len)) else None
  }

  function ParseMessage(kinds: Kinds, bits: seq<bool>, at: nat): (n: Next)
    ensures n.Next? ==> at < n.at <= |bits| && n.frame.Message?
  {
    var channel := Field(bits, at, CHANNEL_BITS);
    if channel.None? || channel.value >= |kinds| then Bad
    else
      var at1 := at + CHANNEL_BITS;
      var needsId := kinds[channel.value].NeedsId();
      var id := if needsId then Field(bits, at1, MESSAGE_ID_BITS) else Some(0);
      var at2 := if needsId then at1 + MESSAGE_ID_BITS else at1;
      var len := Field(bits, at2, LENGTH_BITS);
      if id.None? || len.None? || len.value > MAX_MESSAGE then Bad
      else
        var at3 := at2 + LENGTH_BITS;
        var payload := AlignedRun(bits, at3, len.value);
        if payload.None? then Bad
        else Next(Message(channel.value, id.value, payload.value), AlignUp(at3) + 8 * len.value)
  }

  function ParseControl(bits: seq<bool>, at: nat): (n: Next)
    ensures n.Next? ==> at < n.at <= |bits| && !n.frame.Message?
  {
    var code := Field(bits, at, KIND_BITS);
    var at1 := at + KIND_BITS;
    if code.None? then Bad
    else if code.value == 0 then Next(Ping, at1)
    else if code.value == 1 then
      var reason := Field(bits, at1, REASON_BITS);
      if reason.None? || reason.value >= REASONS then Bad else Next(Close(reason.value), at1 + REASON_BITS)
    else if code.value == 2 then
      var token := Field(bits, at1, U64_BITS);
      if token.None? then Bad else Next(PathChallenge(token.value), at1 + U64_BITS)
    else if code.value == 3 then
      var token := Field(bits, at1, U64_BITS);
      if token.None? then Bad else Next(PathResponse(token.value), at1 + U64_BITS)
    else if code.value == 4 then
      var len := Field(bits, at1, BLOB_LENGTH_BITS);
      if len.None? || len.value > MAX_BLOB then Bad
      else
        var at2 := at1 + BLOB_LENGTH_BITS;
        var blob := AlignedRun(bits, at2, len.value);
        if blob.None? then Bad else Next(ResumeTicket(blob.value), AlignUp(at2) + 8 * len.value)
    else if code.value == 5 then Next(Accepted, at1)
    else Bad
  }

  /** The frames a body spells before a padding kind or its last bits, and whether all could be read. */
  function Parse(kinds: Kinds, bits: seq<bool>, at: nat): Parsed
    decreases |bits| - at
  {
    var kind := Field(bits, at, KIND_BITS);
    if kind.None? || kind.value == 0 then Parsed([], true)
    else
      var n :=
        if kind.value == 1 then ParseControl(bits, at + KIND_BITS)
        else if kind.value == 3 then ParseMessage(kinds, bits, at + KIND_BITS)
        else Bad;
      if n.Bad? then Parsed([], false)
      else
        var rest := Parse(kinds, bits, n.at);
        Parsed([n.frame] + rest.frames, rest.ok)
  }

  lemma Widths()
    ensures Pow2(KIND_BITS) == 8 && Pow2(LENGTH_BITS) == 2048 && Pow2(BLOB_LENGTH_BITS) == 1024
    ensures Pow2(MESSAGE_ID_BITS) == MESSAGE_IDS && Pow2(U64_BITS) == U64
  {
    Pow2Values();
  }

  lemma FieldBelow(bits: seq<bool>, at: nat, width: nat)
    ensures Field(bits, at, width).Some? ==> Field(bits, at, width).value < Pow2(width)
  {
    hide ToNat, Pow2;
    if at + width <= |bits| {
      ToNatBelow(bits[at..at + width]);
    }
  }

  /** Whatever bits arrive, a frame that is read fits its fields. */
  lemma ParseControlEncodable(kinds: Kinds, bits: seq<bool>, at: nat)
    ensures ParseControl(bits, at).Next? ==> Encodable(kinds, ParseControl(bits, at).frame)
  {
    hide Field, Pow2, AlignedRun, AlignUp;
    Widths();
    FieldBelow(bits, at + KIND_BITS, U64_BITS);
  }

  lemma ParseMessageEncodable(kinds: Kinds, bits: seq<bool>, at: nat)
    ensures ParseMessage(kinds, bits, at).Next? ==> Encodable(kinds, ParseMessage(kinds, bits, at).frame)
  {
    hide Field, Pow2, AlignedRun, AlignUp;
    Widths();
    FieldBelow(bits, at + CHANNEL_BITS, MESSAGE_ID_BITS);
  }

  lemma {:induction false} ParseEncodable(kinds: Kinds, bits: seq<bool>, at: nat)
    ensures AllEncodable(kinds, Parse(kinds, bits, at).frames)
    decreases |bits| - at
  {
    hide Field, ParseControl, ParseMessage, Encodable;
    var kind := Field(bits, at, KIND_BITS);
    if kind.Some? {
      ParseControlEncodable(kinds, bits, at + KIND_BITS);
      ParseMessageEncodable(kinds, bits, at + KIND_BITS);
      var n :=
        if kind.value == 1 then ParseControl(bits, at + KIND_BITS)
        else if kind.value == 3 then ParseMessage(kinds, bits, at + KIND_BITS)
        else Bad;
      if n.Next? {
        ParseEncodable(kinds, bits, n.at);
      }
    }
  }

  // ----- Round trip -----

  ghost predicate Holds(bits: seq<bool>, at: nat, part: seq<bool>) {
    at + |part| <= |bits| && bits[at..at + |part|] == part
  }

  lemma HoldsSplit(bits: seq<bool>, at: nat, a: seq<bool>, b: seq<bool>, mid: nat)
    requires Holds(bits, at, a + b) && mid == at + |a|
    ensures Holds(bits, at, a) && Holds(bits, mid, b)
  {
    assert bits[at..mid] == (a + b)[..|a|];
    assert bits[mid..mid + |b|] == (a + b)[|a|..];
  }

  lemma FieldRead(bits: seq<bool>, at: nat, v: nat, width: nat)
    requires Holds(bits, at, BitsOf(v, width)) && v < Pow2(width)
    ensures Field(bits, at, width) == Some(v)
  {
    hide Pow2, BitsOf, ToNat;
    ToNatInverse(v, width);
  }

  lemma RunRead(bits: seq<bool>, at: nat, bytes: Bytes)
    requires Holds(bits, at, Zeros(Pad(at)) + ByteBits(bytes))
    ensures AlignedRun(bits, at, |bytes|) == Some(bytes)
  {
    hide FromBits, ByteBits, CeilBytes, AlignUp, Zeros, Holds;
    var start := AlignUp(at);
    RunSpells(bits, at, Zeros(Pad(at)), bytes, start, start + 8 * |bytes|);
  }

  lemma RunSpells(bits: seq<bool>, at: nat, zeros: seq<bool>, bytes: Bytes, start: nat, end: nat)
    requires Holds(bits, at, zeros + ByteBits(bytes)) && start == at + |zeros| && end == start + 8 * |bytes|
    ensures end <= |bits| && FromBits(bits[start..end], |bytes|) == bytes
  {
    hide *;
    HoldsSplit(bits, at, zeros, ByteBits(bytes), start);
    HoldsSlice(bits, start, ByteBits(bytes), end);
    SpellsBytes(bits[start..end], bytes);
  }

  lemma HoldsSlice(bits: seq<bool>, at: nat, part: seq<bool>, end: nat)
    requires Holds(bits, at, part) && end == at + |part|
    ensures end <= |bits| && bits[at..end] == part
  {
  }

  lemma SpellsBytes(b: seq<bool>, bytes: Bytes)
    requires b == ByteBits(bytes)
    ensures FromBits(b, |bytes|) == bytes
  {
    hide *;
    FromByteBits(bytes);
  }

  /** Where a frame that ends in a byte run ends. */
  lemma RunEnds(kinds: Kinds, f: Frame, at: nat, fields: nat)
    requires Encodable(kinds, f) && Run(f).Some? && fields == at + |Fields(kinds, f)|
    ensures at + |Encoded(kinds, f, at)| == AlignUp(fields) + 8 * |Run(f).value|
    ensures Encoded(kinds, f, at) == Fields(kinds, f) + (Zeros(Pad(fields)) + ByteBits(Run(f).value))
  {
    hide Encodable, Fields, AlignUp, ByteBits, Zeros;
  }

  /** Where the run of bytes that ends a message frame begins, before alignment. */
  function FieldsEnd(kinds: Kinds, f: Frame, at: nat): nat
    requires f.Message? && Encodable(kinds, f)
  {
    at + KIND_BITS + CHANNEL_BITS + (if kinds[f.channel].NeedsId() then MESSAGE_ID_BITS else 0) + LENGTH_BITS
  }

  /** The parts of a message frame, each where it is. */
  lemma MessageHeld(kinds: Kinds, bits: seq<bool>, at: nat, f: Frame)
    requires f.Message? && Encodable(kinds, f) && Holds(bits, at, Encoded(kinds, f, at))
    ensures Holds(bits, at, BitsOf(3, KIND_BITS))
    ensures Holds(bits, at + KIND_BITS, BitsOf(f.channel, CHANNEL_BITS))
    ensures Holds(bits, at + KIND_BITS + CHANNEL_BITS, IdBits(kinds[f.channel], f.id))
    ensures Holds(bits, FieldsEnd(kinds, f, at) - LENGTH_BITS, BitsOf(|f.payload|, LENGTH_BITS))
    ensures var end := FieldsEnd(kinds, f, at); Holds(bits, end, Zeros(Pad(end)) + ByteBits(f.payload))
    ensures at + |Encoded(kinds, f, at)| == AlignUp(FieldsEnd(kinds, f, at)) + 8 * |f.payload|
  {
    hide Pow2, BitsOf, ByteBits, ToNat, CeilBytes, AlignUp, Zeros, Holds, Encoded, Pad;
    Widths();
    var fields, kind := Fields(kinds, f), BitsOf(3, KIND_BITS);
    var channel, id, len :=
      BitsOf(f.channel, CHANNEL_BITS), IdBits(kinds[f.channel], f.id), BitsOf(|f.payload|, LENGTH_BITS);
    var at0 := at + KIND_BITS;
    var at1 := at0 + CHANNEL_BITS;
    var at2 := at1 + |id|;
    var at3 := at2 + LENGTH_BITS;
    RunEnds(kinds, f, at, at3);
    HoldsSplit(bits, at, fields, Zeros(Pad(at3)) + ByteBits(f.payload), at3);
    HoldsSplit(bits, at, kind, channel + (id + len), at0);
    HoldsSplit(bits, at0, channel, id + len, at1);
    HoldsSplit(bits, at1, id, len, at2);
  }

  lemma MessageRead(kinds: Kinds, bits: seq<bool>, at: nat, f: Frame)
    requires f.Message? && Encodable(kinds, f) && Holds(bits, at, Encoded(kinds, f, at))
    ensures Field(bits, at, KIND_BITS) == Some(3)
    ensures ParseMessage(kinds, bits, at + KIND_BITS) == Next(f, at + |Encoded(kinds, f, at)|)
  {
    hide Pow2, BitsOf, ByteBits, ToNat, FromBits, CeilBytes, AlignUp, Zeros, Holds, AlignedRun, Field, Encoded, Pad,
         Fields;
    Widths();
    MessageHeld(kinds, bits, at, f);
    var at1 := at + KIND_BITS + CHANNEL_BITS;
    FieldRead(bits, at, 3, KIND_BITS);
    FieldRead(bits, at + KIND_BITS, f.channel, CHANNEL_BITS);
    if kinds[f.channel].NeedsId() {
      FieldRead(bits, at1, f.id, MESSAGE_ID_BITS);
    }
    FieldRead(bits, FieldsEnd(kinds, f, at) - LENGTH_BITS, |f.payload|, LENGTH_BITS);
    RunRead(bits, FieldsEnd(kinds, f, at), f.payload);
  }

  lemma ControlRead(kinds: Kinds, bits: seq<bool>, at: nat, f: Frame)
    requires !f.Message? && Encodable(kinds, f) && Holds(bits, at, Encoded(kinds, f, at))
    ensures Field(bits, at, KIND_BITS) == Some(1)
    ensures ParseControl(bits, at + KIND_BITS) == Next(f, at + |Encoded(kinds, f, at)|)
  {
    hide Pow2, BitsOf, ByteBits, ToNat, FromBits, CeilBytes, AlignUp, Zeros, Holds, AlignedRun, Field;
    Widths();
    var fields, kind := Fields(kinds, f), BitsOf(1, KIND_BITS);
    var code, rest := BitsOf(ControlCode(f), KIND_BITS), ControlFields(f);
    var at0 := at + KIND_BITS;
    var at1 := at0 + KIND_BITS;
    var at2 := at1 + |rest|;
    if Run(f).Some? {
      RunEnds(kinds, f, at, at2);
      HoldsSplit(bits, at, fields, Zeros(Pad(at2)) + ByteBits(Run(f).value), at2);
    }
    HoldsSplit(bits, at, kind, code + rest, at0);
    HoldsSplit(bits, at0, code, rest, at1);
    FieldRead(bits, at, 1, KIND_BITS);
    FieldRead(bits, at0, ControlCode(f), KIND_BITS);
    match f {
      case Close(reason) => FieldRead(bits, at1, reason, REASON_BITS);
      case PathChallenge(token) => FieldRead(bits, at1, token, U64_BITS);
      case PathResponse(token) => FieldRead(bits, at1, token, U64_BITS);
      case ResumeTicket(blob) =>
        FieldRead(bits, at1, |blob|, BLOB_LENGTH_BITS);
        RunRead(bits, at2, blob);
      case _ =>
    }
  }

  /** Where the k-th frame starts in the printed body. */
  function StartOf(kinds: Kinds, frames: seq<Frame>, k: nat): nat
    requires AllEncodable(kinds, frames) && k <= |frames|
  {
    |Body(kinds, frames[..k])|
  }

  lemma StartOfNext(kinds: Kinds, frames: seq<Frame>, k: nat)
    requires AllEncodable(kinds, frames) && k < |frames|
    ensures var at := StartOf(kinds, frames, k);
            StartOf(kinds, frames, k + 1) == at + |Encoded(kinds, frames[k], at)|
  {
    hide Encoded, Encodable, BitsOf;
    assert frames[..k + 1][..k] == frames[..k];
  }

  lemma HoldsLast(a: seq<bool>, b: seq<bool>, tail: seq<bool>)
    ensures Holds(a + b + tail, |a|, b)
  {
  }

  lemma {:induction false} BodyHolds(kinds: Kinds, frames: seq<Frame>, k: nat, tail: seq<bool>)
    requires AllEncodable(kinds, frames) && k < |frames|
    ensures var at := StartOf(kinds, frames, k);
            Holds(Body(kinds, frames) + tail, at, Encoded(kinds, frames[k], at))
    decreases |frames|
  {
    hide Encoded, Encodable, Holds;
    var n := |frames| - 1;
    var init := frames[..n];
    var last := Encoded(kinds, frames[n], |Body(kinds, init)|);
    if k == n {
      HoldsLast(Body(kinds, init), last, tail);
    } else {
      BodyHolds(kinds, init, k, last + tail);
      assert init[..k] == frames[..k];
      Assoc(Body(kinds, init), last, tail);
    }
  }

  lemma NothingLeft(kinds: Kinds, body: seq<bool>, padding: nat)
    ensures Parse(kinds, body + Zeros(padding), |body|) == Parsed([], true)
  {
    var bits := body + Zeros(padding);
    if padding >= KIND_BITS {
      assert bits[|body|..|body| + KIND_BITS] == Zeros(KIND_BITS);
      ZeroBits(KIND_BITS);
      FieldRead(bits, |body|, 0, KIND_BITS);
    }
  }

  /** From the start of the k-th frame on, what is parsed is the frames from the k-th on. */
  lemma {:induction false} ParseFrom(kinds: Kinds, frames: seq<Frame>, k: nat, padding: nat)
    requires AllEncodable(kinds, frames) && k <= |frames|
    ensures Parse(kinds, Body(kinds, frames) + Zeros(padding), StartOf(kinds, frames, k)) == Parsed(frames[k..], true)
    decreases |frames| - k
  {
    hide Encodable, Encoded, Holds, Parse, Body, Zeros;
    if k == |frames| {
      assert frames[..k] == frames && frames[k..] == [];
      NothingLeft(kinds, Body(kinds, frames), padding);
    } else {
      ParseFrom(kinds, frames, k + 1, padding);
      BodyHolds(kinds, frames, k, Zeros(padding));
      StartOfNext(kinds, frames, k);
      ParseOne(kinds, Body(kinds, frames) + Zeros(padding), StartOf(kinds, frames, k), frames[k]);
      assert frames[k..] == [frames[k]] + frames[k + 1..];
    }
  }

  lemma ParseOne(kinds: Kinds, bits: seq<bool>, at: nat, f: Frame)
    requires Encodable(kinds, f) && Holds(bits, at, Encoded(kinds, f, at))
    ensures var rest := Parse(kinds, bits, at + |Encoded(kinds, f, at)|);
            Parse(kinds, bits, at) == Parsed([f] + rest.frames, rest.ok)
  {
    hide Encodable, Holds, Encoded, ParseControl, ParseMessage, Field;
    if f.Message? {
      MessageRead(kinds, bits, at, f);
    } else {
      ControlRead(kinds, bits, at, f);
    }
  }

  /** Whatever zero padding follows, parsing a printed body gives back exactly its frames. */
  lemma RoundTrip(kinds: Kinds, frames: seq<Frame>, padding: nat)
    requires AllEncodable(kinds, frames)
    ensures Parse(kinds, Body(kinds, frames) + Zeros(padding), 0) == Parsed(frames, true)
  {
    hide Encodable, Parse, Zeros;
    ParseFrom(kinds, frames, 0, padding);
    assert frames[..0] == [] && frames[0..] == frames;
  }
}
