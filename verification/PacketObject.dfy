/** Sealing and opening packets as an object: which sequence is next, which have been opened, and
which of those deserve an acknowledgement. */
module PacketObject {
  import opened Machine
  import opened Sequences
  import opened Connection

  datatype Opening = Opening(outcome: Outcome, sequence: nat, inOrder: bool)

  class PacketCrypto {
    var nextSequence: nat
    const replay: ReceiveWindow
    const acked: ReceiveWindow
    var newestAckedAt: nat
    /** Every sequence opened so far, and those worth acknowledging. */
    ghost var taken: set<nat>
    ghost var eliciting: set<nat>

    ghost predicate Valid()
      reads this, replay, acked
    {
      && replay != acked && nextSequence >= 1
      && replay.View().Refines(taken) && acked.View().Refines(eliciting) && eliciting <= taken
    }

    function View(): Crypto
      reads this, replay, acked
    {
      Crypto(nextSequence, replay.View(), acked.View(), newestAckedAt)
    }

    constructor ()
      ensures Valid() && View() == Crypto(1, EmptyWindow(), EmptyWindow(), 0) && taken == {}
      ensures fresh(replay) && fresh(acked)
    {
      nextSequence, newestAckedAt := 1, 0;
      replay := new ReceiveWindow();
      acked := new ReceiveWindow();
      taken, eliciting := {}, {};
    }

    /** Opens a datagram: one that is malformed, repeated or forged leaves no trace, and a
    sequence that opens had not been opened before. */
    method Decrypt(d: Datagram) returns (r: Opening)
      requires Valid() && HeaderShaped(d.header)
      modifies this`taken, replay
      ensures Valid()
      ensures var s := SequenceOf(old(View()), d.header);
              r.outcome == if s.None? then Malformed
                           else if old(replay.View()).Check(s.value) != Fresh then Replayed
                           else if !Opens(d, s.value) then Unauthenticated
                           else Processed
      ensures r.outcome.Processed? ==>
                && Some(r.sequence) == SequenceOf(old(View()), d.header) && r.sequence >= 1
                && r.sequence !in old(taken) && taken == old(taken) + {r.sequence}
                && View() == old(View()).(replay := old(replay.View()).Inserted(r.sequence))
                && (r.inOrder <==> old(replay.newest) == 0 || r.sequence == old(replay.newest) + 1)
      ensures !r.outcome.Processed? ==> View() == old(View()) && taken == old(taken)
    {
      hide Window.Refines, Reconstruct;
      var s := SequenceOf(View(), d.header);
      if s.None? {
        return Opening(Malformed, 0, false);
      }
      var sequence := s.value;
      CheckExact(replay.View(), taken, sequence);
      if replay.View().Check(sequence) != Fresh {
        return Opening(Replayed, sequence, false);
      }
      var inOrder := replay.newest == 0 || sequence == replay.newest + 1;
      if !Opens(d, sequence) {
        return Opening(Unauthenticated, sequence, false);
      }
      replay.Insert(sequence, taken);
      taken := taken + {sequence};
      return Opening(Processed, sequence, inOrder);
    }

    method RecordEliciting(sequence: nat, now: nat)
      requires Valid() && sequence in taken && sequence >= 1
      modifies this`newestAckedAt, this`eliciting, acked
      ensures Valid() && View() == Connection.RecordEliciting(old(View()), sequence, now)
      ensures eliciting == old(eliciting) + {sequence}
    {
      hide Window.Refines;
      if sequence > acked.newest {
        newestAckedAt := now;
      }
      acked.Insert(sequence, eliciting);
      eliciting := eliciting + {sequence};
    }

    method Encrypt() returns (sequence: nat)
      requires Valid()
      modifies this`nextSequence
      ensures Valid() && sequence == old(nextSequence)
      ensures View() == old(View()).(nextSequence := sequence + 1)
    {
      hide Window.Refines;
      sequence := nextSequence;
      nextSequence := sequence + 1;
    }

    /** What a header built now reports: only sequences opened and worth acknowledging. */
    method AckState() returns (newest: nat, bits: seq<bool>)
      requires Valid()
      ensures newest == acked.newest && bits == acked.View().AckBits()
      ensures newest > 0 ==> newest in eliciting
      ensures |bits| == ACK_BITS
      ensures forall i: nat | i < ACK_BITS :: bits[i] <==> newest > i + 1 && newest - 1 - i in eliciting
    {
      newest, bits := acked.newest, acked.View().AckBits();
      forall i: nat | i < ACK_BITS
        ensures bits[i] <==> newest > i + 1 && newest - 1 - i in eliciting
      {
        AckBitsExact(acked.View(), eliciting, i);
      }
    }
  }
}
