/** Packet numbering: sixteen-bit wire truncation, the 64-wide receive window, and the
send and receive counters of the packet layer. A sequence is at least 1, so 0 stands
for "no packet yet".
*/
module Sequences {
  import opened Machine

  /** Counter values that share one sixteen-bit wire form are this far apart. */
  const WIRE: nat := 0x1_0000
  const HALF_WIRE: int := 0x8000

  const WINDOW: nat := 64
  const ACK_BITS: nat := 32

  /** The counter within half a wrap of `reference` that these sixteen bits abbreviate. */
  function Reconstruct(reference: nat, wire: nat): (full: Option<nat>)
    requires wire < WIRE
  {
    var d := (wire - reference) % WIRE;
    var delta := if d < HALF_WIRE then d else d - WIRE;
    if 0 <= reference + delta <= U64_MAX then Some(reference + delta) else None
  }

  lemma WireDifference(reference: nat, value: nat)
    ensures (value % WIRE - reference) % WIRE == (value - reference) % WIRE
  {
    var q := value / WIRE;
    assert value % WIRE - reference == (value - reference) + (-q) * WIRE;
    ModShift(value - reference, -q);
  }

  lemma ModShift(x: int, k: int)
    ensures (x + k * WIRE) % WIRE == x % WIRE
  {
    var q, r := x / WIRE, x % WIRE;
    assert x + k * WIRE == (q + k) * WIRE + r;
  }

  /** A truncated counter is restored exactly when the true value lies in the half-open
  window of 65,536 values around the reference, and never otherwise. */
  lemma ReconstructExact(reference: nat, value: nat)
    requires value <= U64_MAX
    ensures Reconstruct(reference, value % WIRE) == Some(value)
            <==> -HALF_WIRE <= value - reference < HALF_WIRE
  {
    WireDifference(reference, value);
  }

  /** Whatever is reconstructed agrees with the wire bits and is within half a wrap. */
  lemma ReconstructNear(reference: nat, wire: nat)
    requires wire < WIRE
    ensures var r := Reconstruct(reference, wire);
            r.Some? ==> r.value % WIRE == wire && -HALF_WIRE <= r.value - reference < HALF_WIRE
  {
    var d := (wire - reference) % WIRE;
    var delta := if d < HALF_WIRE then d else d - WIRE;
    var k := (wire - reference) / WIRE;
    assert reference + d == wire + (-k) * WIRE;
    ModShift(wire, -k);
    ModShift(wire, -k - 1);
  }

  // ----- The receive window -----

  type Mask = m: seq<bool> | |m| == WINDOW witness seq(WINDOW, _ => false)

  function NoBits(): Mask { seq(WINDOW, _ => false) }

  /** The mask as it looks once the newest is `n` further on. */
  function Shifted(mask: Mask, n: nat): Mask {
    seq(WINDOW, i requires 0 <= i < WINDOW => i >= n && mask[i - n])
  }

  datatype Verdict = Fresh | Duplicate | TooOld

  /** `mask[i]` records the arrival of `newest - i`. */
  datatype Window = Window(newest: nat, mask: Mask) {
    function Check(s: nat): Verdict {
      if s > newest then Fresh
      else if newest - s >= WINDOW then TooOld
      else if mask[newest - s] then Duplicate
      else Fresh
    }

    function Inserted(s: nat): Window {
      if s > newest then Window(s, Shifted(mask, s - newest)[0 := true])
      else if newest - s < WINDOW then Window(newest, mask[newest - s := true])
      else this
    }

    /** History bit `i` records the arrival of `newest - 1 - i`. */
    function AckBits(): (bits: seq<bool>)
      ensures |bits| == ACK_BITS
    {
      mask[1..ACK_BITS + 1]
    }

    /** The window forgets only by age: it agrees with the set of everything received. */
    ghost predicate Refines(seen: set<nat>) {
      && (newest > 0 ==> newest in seen)
      && (forall s | s in seen :: 1 <= s <= newest)
      && (forall i | 0 <= i < WINDOW :: mask[i] <==> i < newest && newest - i in seen)
    }
  }

  function EmptyWindow(): Window { Window(0, NoBits()) }

  /** The window is an in-place structure: a newest sequence and a mask that `Insert` shifts. */
  class ReceiveWindow {
    var newest: nat
    var mask: Mask

    function View(): Window
      reads this
    {
      Window(newest, mask)
    }

    constructor ()
      ensures View() == EmptyWindow()
      ensures View().Refines({})
    {
      newest, mask := 0, NoBits();
    }

    /** Records a sequence: afterwards the window stands for one more received sequence. */
    method Insert(s: nat, ghost seen: set<nat>)
      requires s >= 1 && View().Refines(seen)
      modifies this
      ensures View() == old(View()).Inserted(s)
      ensures View().Refines(seen + {s})
    {
      InsertRefines(View(), seen, s);
      if newest == 0 {
        mask := NoBits()[0 := true];
        assert mask == Shifted(old(mask), s)[0 := true];
        newest := s;
      } else if s <= newest {
        var offset := newest - s;
        if offset < WINDOW {
          mask := mask[offset := true];
        }
      } else {
        var shift := s - newest;
        var shifted := if shift >= WINDOW then NoBits() else Shifted(mask, shift);
        assert shifted == Shifted(mask, shift);
        mask := shifted[0 := true];
        newest := s;
      }
    }
  }

  lemma InsertRefines(w: Window, seen: set<nat>, s: nat)
    requires s >= 1 && w.Refines(seen)
    ensures w.Inserted(s).Refines(seen + {s})
  {
    var v := w.Inserted(s);
    forall i | 0 <= i < WINDOW
      ensures v.mask[i] <==> i < v.newest && v.newest - i in seen + {s}
    {
      if s > w.newest && i > 0 {
        var shift := s - w.newest;
        assert v.mask[i] == (i >= shift && w.mask[i - shift]);
        assert i < shift ==> s - i !in seen;
        assert i >= shift ==> v.newest - i == w.newest - (i - shift);
      }
    }
  }

  /** `Check` against the unbounded set it stands for: age first, then membership. */
  lemma CheckExact(w: Window, seen: set<nat>, s: nat)
    requires s >= 1 && w.Refines(seen)
    ensures w.Check(s) == TooOld <==> w.newest >= s + WINDOW
    ensures w.Check(s) == Duplicate <==> w.newest < s + WINDOW && s in seen
    ensures w.Check(s) == Fresh <==> w.newest < s + WINDOW && s !in seen
  {
    if s <= w.newest && w.newest - s < WINDOW {
      assert w.mask[w.newest - s] <==> w.newest - (w.newest - s) in seen;
    }
  }

  /** Reported acknowledgement bits name received sequences, and every received one in reach. */
  lemma AckBitsExact(w: Window, seen: set<nat>, i: nat)
    requires w.Refines(seen) && i < ACK_BITS
    ensures w.AckBits()[i] <==> w.newest > i + 1 && w.newest - 1 - i in seen
  {
    assert w.AckBits()[i] == w.mask[i + 1];
  }

  /** What the window lets through when `offers` arrive in this order. */
  function Passed(offers: seq<nat>): Passage {
    if offers == [] then Passage(EmptyWindow(), [])
    else
      var r := Passed(offers[..|offers| - 1]);
      var s := offers[|offers| - 1];
      if s >= 1 && r.window.Check(s) == Fresh then Passage(r.window.Inserted(s), r.passed + [s]) else r
  }

  datatype Passage = Passage(window: Window, passed: seq<nat>)

  ghost function Elements(s: seq<nat>): set<nat> { set x | x in s }

  /** Over any run of arrivals, whatever their order and repetition: nothing passes twice,
  and a genuine sequence that never passed is one that arrived when it was already 64 or
  more behind the newest. */
  lemma {:induction false} PassedOnce(offers: seq<nat>)
    ensures var r := Passed(offers);
            && r.window.Refines(Elements(r.passed))
            && (forall i, j | 0 <= i < j < |r.passed| :: r.passed[i] != r.passed[j])
    ensures forall k | 0 <= k < |offers| && offers[k] >= 1 ::
              offers[k] in Passed(offers).passed || Passed(offers[..k]).window.newest >= offers[k] + WINDOW
  {
    if offers != [] {
      var n := |offers| - 1;
      var init, s := offers[..n], offers[n];
      PassedOnce(init);
      var w, passed := Passed(init).window, Passed(init).passed;
      if s >= 1 {
        CheckExact(w, Elements(passed), s);
        InsertRefines(w, Elements(passed), s);
        assert Elements(passed + [s]) == Elements(passed) + {s};
      }
      forall k | 0 <= k < |offers| && offers[k] >= 1
        ensures offers[k] in Passed(offers).passed || Passed(offers[..k]).window.newest >= offers[k] + WINDOW
      {
        if k < n {
          assert init[..k] == offers[..k] && init[k] == offers[k];
        } else {
          assert offers[..k] == init;
        }
      }
    }
  }

  // ----- The packet layer's counters -----

  /** `resolve_ack`: an acknowledgement is resolved against the newest sequence sent, and
  one that would name a packet never sent is refused. */
  function ResolveAck(newestSent: nat, wire: nat): (ack: Option<nat>)
    requires wire < WIRE
  {
    if newestSent == 0 then None
    else
      var r := Reconstruct(newestSent, wire);
      if r.Some? && 1 <= r.value <= newestSent then r else None
  }

  /** The acknowledgement of a packet this far behind the newest names another one. */
  predicate Misnames(behind: nat) { behind >= WIRE && behind % WIRE <= HALF_WIRE }

  /** What an acknowledgement is taken to name: the newest packet of the same wire form, unless that
  is more than 32,768 behind the newest sent, when it is refused. So a packet is named exactly up to
  32,768 behind, and another in its place exactly when it is a whole wire range behind or more and
  the rest of the distance is not refused. */
  lemma ResolveAckExact(newestSent: nat, ack: nat)
    requires 1 <= ack <= newestSent <= U64_MAX
    ensures var m := (newestSent - ack) % WIRE;
            ResolveAck(newestSent, ack % WIRE) == if m <= HALF_WIRE then Some(newestSent - m) else None
    ensures ResolveAck(newestSent, ack % WIRE) == Some(ack) <==> newestSent - ack <= HALF_WIRE
    ensures ResolveAck(newestSent, ack % WIRE) !in {None, Some(ack)} <==> Misnames(newestSent - ack)
  {
    var behind := newestSent - ack;
    var m, k := behind % WIRE, behind / WIRE;
    assert behind == k * WIRE + m;
    assert ack + k * WIRE == newestSent - m;
    ModShift(ack, k);
    ReconstructExact(newestSent, newestSent - m);
    ReconstructNear(newestSent, ack % WIRE);
    var r := Reconstruct(newestSent, ack % WIRE);
    if m > HALF_WIRE && r.Some? && r.value <= newestSent {
      SameWireFarApart(r.value, newestSent - m);
    }
  }

  lemma SameWireFarApart(a: nat, b: nat)
    requires a % WIRE == b % WIRE && a != b
    ensures a >= b + WIRE || b >= a + WIRE
  {
    assert a == (a / WIRE) * WIRE + a % WIRE;
    assert b == (b / WIRE) * WIRE + b % WIRE;
  }
}
