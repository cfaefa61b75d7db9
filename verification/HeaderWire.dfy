/** The headers connections build, on the wire. */
module HeaderWire {
  import opened Machine
  import opened Bits
  import opened Sequences
  import opened Connection
  import W = Wire

  function OnWire(h: Header, connId: nat): W.Header {
    W.Header(W.PAYLOAD, connId, h.sequence, h.ack, h.ackDelay, ToNat(h.ackBits))
  }

  function OffWire(w: W.Header): Header { Header(w.sequence, w.ack, w.ackDelay, BitsOf(w.ackBits, ACK_BITS)) }

  lemma {:induction false} NonzeroExact(b: seq<bool>)
    ensures ToNat(b) != 0 <==> exists i :: 0 <= i < |b| && b[i]
  {
    if b != [] {
      NonzeroExact(b[1..]);
      if i :| 0 <= i < |b[1..]| && b[1..][i] {
        assert b[i + 1];
      }
      if i :| 0 <= i < |b| && b[i] {
        assert i > 0 ==> b[1..][i - 1];
      }
    }
  }

  lemma FitsWire(h: Header, connId: nat)
    requires HeaderShaped(h) && h.ackDelay < 256 && connId < U32
    ensures W.Fits(OnWire(h, connId))
  {
    hide ToNat, Pow2;
    Pow2Values();
    ToNatBelow(h.ackBits);
  }

  lemma BuiltFits(c: Conn, now: nat)
    ensures BuildHeader(c, now).ackDelay < 256
    ensures BuildHeader(c, now).ack.None? ==>
              BuildHeader(c, now).ackDelay == 0 && forall i | 0 <= i < ACK_BITS :: !BuildHeader(c, now).ackBits[i]
  {
  }

  /** A header a connection builds is read back whole, and is as long as the packet was budgeted
  for. */
  lemma BuiltRoundTrip(c: Conn, now: nat, connId: nat, rest: Bytes)
    requires connId < U32
    ensures var h := BuildHeader(c, now);
            && W.Fits(OnWire(h, connId))
            && W.Decode(W.Encode(OnWire(h, connId)) + rest) == W.Decoded(OnWire(h, connId), HeaderLen(h))
            && OffWire(OnWire(h, connId)) == h
  {
    hide BuildHeader, ToNat, BitsOf, W.Decode;
    var h := BuildHeader(c, now);
    BuiltFits(c, now);
    FitsWire(h, connId);
    NonzeroExact(h.ackBits);
    W.RoundTripExact(OnWire(h, connId), rest);
    BitsInverse(h.ackBits);
  }
}
