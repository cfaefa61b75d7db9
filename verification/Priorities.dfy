/** Which messages a packet takes: in what order, and that it takes as many as it can. The order of
the channels is their priority, and no message overtakes another on its channel. */
module Priorities {
  import opened Machine
  import opened BitStream
  import opened Frames
  import opened Channels
  import A = Arena
  import Q = SendQueue

  // ----- Queueing -----

  /** A message is queued, last, exactly when it has at most 1024 bytes, its channel exists, fewer than 64
  are queued, and their blocks of 64 bytes and its own are at most 64; otherwise nothing changes. */
  lemma SendExact(c: Channels, channel: nat, payload: Bytes)
    requires Sized(c)
    ensures var r := Send(c, channel, payload);
            var blocks := A.BlocksFor(|payload|) + PendingBlocks(c.pending);
            var room := channel < |c.kinds| && |c.pending| != 64 && blocks <= 64;
            && (r.result.Queued? <==> |payload| <= 1024 && room)
            && (r.result.TooLarge? <==> |payload| > 1024)
            && (r.result.NoSuchChannel? <==> |payload| <= 1024 && channel >= |c.kinds|)
            && (!r.result.Queued? ==> r.channels == c)
            && (r.result.Queued? ==>
                  && r.channels.pending == c.pending + [Pending(channel, c.nextIds[channel], payload, false)]
                  && r.channels.nextIds == c.nextIds[channel := (c.nextIds[channel] + 1) % 0x1_0000_0000]
                  && r.channels == c.(pending := r.channels.pending, nextIds := r.channels.nextIds))
  {
    hide A.BlocksFor, PendingBlocks;
  }

  // ----- Requeueing -----

  function InFlight(pending: seq<Pending>): nat {
    if pending == [] then 0 else (if pending[0].inFlight then 1 else 0) + InFlight(pending[1..])
  }

  /** Exactly the first `max` messages in flight wait again. */
  lemma {:induction false} RequeuedExact(pending: seq<Pending>, max: nat, i: nat)
    requires i < |pending|
    ensures |Requeued(pending, max)| == |pending|
    ensures Requeued(pending, max)[i]
            == if InFlight(pending[..i]) < max then pending[i].(inFlight := false) else pending[i]
  {
    Q.RequeuedSame(pending, max);
    if i > 0 && max > 0 {
      RequeuedExact(pending[1..], if pending[0].inFlight then max - 1 else max, i - 1);
      assert pending[..i][1..] == pending[1..][..i - 1];
    }
  }

  // ----- Filling a packet -----

  /** The state once the first message waiting on `ch` is put in. */
  function Taken(kinds: Kinds, s: Staging, at: nat): Staging
    requires AllSendable(kinds, s.pending) && at < |s.pending|
  {
    var p := s.pending[at];
    Staging(s.pending[at := p.(inFlight := true)], s.body + Encoded(kinds, FrameOf(kinds, p), |s.body|), s.staged + [p])
  }

  /** Where a packet's body would end with this message in it. */
  function EndWith(kinds: Kinds, body: seq<bool>, p: Pending): nat
    requires Sendable(kinds, p)
  {
    |body| + |Encoded(kinds, FrameOf(kinds, p), |body|)|
  }

  lemma AlignGrows(a: nat, b: nat)
    requires a <= b
    ensures a + Pad(a) <= b + Pad(b)
  {
  }

  /** A message that has no room in a packet has none when there is more in it. */
  lemma EndGrows(kinds: Kinds, body: seq<bool>, more: seq<bool>, p: Pending)
    requires Sendable(kinds, p) && |body| <= |more|
    ensures EndWith(kinds, body, p) <= EndWith(kinds, more, p)
  {
    hide Pad, Zeros, Fields, Encodable;
    var f := FrameOf(kinds, p);
    var n := |Fields(kinds, f)|;
    ZerosLength(Pad(|body| + n));
    ZerosLength(Pad(|more| + n));
    AlignGrows(|body| + n, |more| + n);
  }

  lemma ZerosLength(n: nat)
    ensures |Zeros(n)| == n
  {
  }

  /** The packet has room for no more: it holds eight messages, or has used its allowance up, or the next
  message would overrun the allowance, or no message that is next on its channel fits. */
  ghost predicate Full(kinds: Kinds, s: Staging, start: nat, capacity: nat, limit: nat, ch: nat)
    requires AllSendable(kinds, s.pending) && start <= |s.body|
  {
    || |s.staged| >= 8 || CeilBytes(|s.body| - start) >= limit
    || (exists k :: ch <= k < |kinds| && Overruns(kinds, s, start, limit, k))
    || (forall k | ch <= k < |kinds| :: Outgrows(kinds, s, capacity, k))
  }

  ghost predicate Overruns(kinds: Kinds, s: Staging, start: nat, limit: nat, ch: nat)
    requires AllSendable(kinds, s.pending) && start <= |s.body|
  {
    var at := FirstUnsent(s.pending, ch, 0);
    at.Some? && CeilBytes(EndWith(kinds, s.body, s.pending[at.value]) - start) > limit
  }

  ghost predicate Outgrows(kinds: Kinds, s: Staging, capacity: nat, ch: nat)
    requires AllSendable(kinds, s.pending)
  {
    var at := FirstUnsent(s.pending, ch, 0);
    at.Some? ==> EndWith(kinds, s.body, s.pending[at.value]) > capacity
  }

  /** Filling from a channel on leaves the messages of those before it alone. */
  lemma {:induction false} FillRest(kinds: Kinds, s: Staging, start: nat, capacity: nat, limit: nat, ch: nat)
    requires AllSendable(kinds, s.pending) && start <= |s.body|
    ensures var r := Fill(kinds, s, start, capacity, limit, ch);
            && |r.pending| == |s.pending| && |s.body| <= |r.body| && AllSendable(kinds, r.pending)
            && (forall i | 0 <= i < |s.pending| && s.pending[i].channel < ch :: r.pending[i] == s.pending[i])
            && (forall i | 0 <= i < |s.pending| :: r.pending[i] in {s.pending[i], s.pending[i].(inFlight := true)})
    decreases |kinds| - ch, Unsent(s.pending)
  {
    hide Encoded, Encodable, BitStream.CeilBytes, FrameOf, AllSendable;
    if ch < |kinds| && |s.staged| < MAX_MESSAGES_PER_PACKET && CeilBytes(|s.body| - start) < limit {
      var at := FirstUnsent(s.pending, ch, 0);
      if at.None? {
        FillRest(kinds, s, start, capacity, limit, ch + 1);
      } else {
        Q.AllSendableAt(kinds, s.pending, at.value);
        var next := Taken(kinds, s, at.value);
        if |next.body| > capacity {
          FillRest(kinds, s, start, capacity, limit, ch + 1);
        } else if CeilBytes(|next.body| - start) <= limit {
          UnsentMarked(s.pending, at.value);
          FillRest(kinds, next, start, capacity, limit, ch);
        }
      }
    }
  }

  lemma {:induction false} FirstSame(pending: seq<Pending>, more: seq<Pending>, ch: nat, i: nat)
    requires |more| == |pending|
    requires forall k | 0 <= k < |pending| :: more[k].channel == pending[k].channel
    requires forall k | 0 <= k < |pending| && pending[k].channel == ch :: more[k] == pending[k]
    ensures FirstUnsent(more, ch, i) == FirstUnsent(pending, ch, i)
    decreases |pending| - i
  {
    if i < |pending| {
      FirstSame(pending, more, ch, i + 1);
    }
  }

  /** A channel passed over for want of room stays so. */
  lemma OutgrowsLater(kinds: Kinds, s: Staging, start: nat, capacity: nat, limit: nat, ch: nat)
    requires AllSendable(kinds, s.pending) && start <= |s.body| && Outgrows(kinds, s, capacity, ch)
    ensures var r := Fill(kinds, s, start, capacity, limit, ch + 1);
            AllSendable(kinds, r.pending) && Outgrows(kinds, r, capacity, ch)
  {
    hide Fill, EndWith, FirstUnsent;
    FillRest(kinds, s, start, capacity, limit, ch + 1);
    var r, at := Fill(kinds, s, start, capacity, limit, ch + 1), FirstUnsent(s.pending, ch, 0);
    forall k | 0 <= k < |s.pending|
      ensures r.pending[k].channel == s.pending[k].channel
    {
      assert r.pending[k] in {s.pending[k], s.pending[k].(inFlight := true)};
    }
    FirstSame(s.pending, r.pending, ch, 0);
    if at.Some? {
      Q.AllSendableAt(kinds, s.pending, at.value);
      EndGrows(kinds, s.body, r.body, s.pending[at.value]);
    }
  }

  /** A packet is filled until it is full. */
  lemma {:induction false} FillFull(kinds: Kinds, s: Staging, start: nat, capacity: nat, limit: nat, ch: nat)
    requires AllSendable(kinds, s.pending) && start <= |s.body|
    ensures var r := Fill(kinds, s, start, capacity, limit, ch);
            && AllSendable(kinds, r.pending) && start <= |r.body|
            && Full(kinds, r, start, capacity, limit, ch)
    decreases |kinds| - ch, Unsent(s.pending)
  {
    hide Encoded, Encodable, BitStream.CeilBytes, FrameOf, AllSendable, Overruns, Outgrows;
    FillRest(kinds, s, start, capacity, limit, ch);
    if ch < |kinds| && |s.staged| < MAX_MESSAGES_PER_PACKET && CeilBytes(|s.body| - start) < limit {
      var at := FirstUnsent(s.pending, ch, 0);
      if at.None? {
        assert Outgrows(kinds, s, capacity, ch) by { NoneOutgrows(kinds, s, capacity, ch); }
        OutgrowsLater(kinds, s, start, capacity, limit, ch);
        FillFull(kinds, s, start, capacity, limit, ch + 1);
      } else {
        Q.AllSendableAt(kinds, s.pending, at.value);
        var next := Taken(kinds, s, at.value);
        FirstDecides(kinds, s, start, capacity, limit, ch);
        if |next.body| > capacity {
          OutgrowsLater(kinds, s, start, capacity, limit, ch);
          FillFull(kinds, s, start, capacity, limit, ch + 1);
        } else if CeilBytes(|next.body| - start) <= limit {
          UnsentMarked(s.pending, at.value);
          FillFull(kinds, next, start, capacity, limit, ch);
        } else {
          assert Overruns(kinds, s, start, limit, ch);
        }
      }
    }
  }

  lemma NoneOutgrows(kinds: Kinds, s: Staging, capacity: nat, ch: nat)
    requires AllSendable(kinds, s.pending) && FirstUnsent(s.pending, ch, 0).None?
    ensures Outgrows(kinds, s, capacity, ch)
  {
  }

  lemma FirstDecides(kinds: Kinds, s: Staging, start: nat, capacity: nat, limit: nat, ch: nat)
    requires AllSendable(kinds, s.pending) && start <= |s.body| && FirstUnsent(s.pending, ch, 0).Some?
    ensures var next := Taken(kinds, s, FirstUnsent(s.pending, ch, 0).value);
            && (Outgrows(kinds, s, capacity, ch) <==> |next.body| > capacity)
            && (Overruns(kinds, s, start, limit, ch) <==> CeilBytes(|next.body| - start) > limit)
  {
    hide Encoded, Encodable, BitStream.CeilBytes, FirstUnsent;
  }

  // ----- In what order -----

  /** By channel, and on each by id. */
  ghost predicate InPriority(staged: seq<Pending>) {
    forall i, j | 0 <= i < j < |staged| ::
      staged[i].channel < staged[j].channel || (staged[i].channel == staged[j].channel && staged[i].id < staged[j].id)
  }

  /** No message waiting was overtaken on its channel. */
  ghost predicate NoneOvertaken(staged: seq<Pending>, pending: seq<Pending>) {
    forall i, x | 0 <= i < |staged| && 0 <= x < |pending| && !pending[x].inFlight
                  && pending[x].channel == staged[i].channel :: staged[i].id < pending[x].id
  }

  ghost predicate WereWaiting(staged: seq<Pending>, pending: seq<Pending>, ch: nat) {
    forall i | 0 <= i < |staged| :: staged[i] in pending && !staged[i].inFlight && staged[i].channel >= ch
  }

  /** The first message waiting on a channel comes before any other waiting there. */
  lemma FirstFirst(pending: seq<Pending>, ch: nat, q: Pending)
    requires Q.Ordered(pending) && FirstUnsent(pending, ch, 0).Some?
    requires q in pending && !q.inFlight && q.channel == ch
    ensures var p := pending[FirstUnsent(pending, ch, 0).value]; q == p || p.id < q.id
  {
    Q.FirstIsLeast(pending, ch, 0);
    var x :| 0 <= x < |pending| && pending[x] == q;
  }

  /** What filling adds is in order of priority, was waiting, and overtook nothing. */
  lemma {:induction false} FillOrder(kinds: Kinds, s: Staging, start: nat, capacity: nat, limit: nat, ch: nat)
    requires AllSendable(kinds, s.pending) && start <= |s.body| && Q.Ordered(s.pending)
    ensures var r := Fill(kinds, s, start, capacity, limit, ch);
            && s.staged <= r.staged
            && var added := r.staged[|s.staged|..];
               InPriority(added) && WereWaiting(added, s.pending, ch) && NoneOvertaken(added, r.pending)
    decreases |kinds| - ch, Unsent(s.pending)
  {
    hide Encoded, Encodable, BitStream.CeilBytes, FrameOf, AllSendable, InPriority, NoneOvertaken, WereWaiting;
    Q.FillKeepsStaged(kinds, s, start, capacity, limit, ch);
    NothingAdded(s, ch);
    if ch < |kinds| && |s.staged| < MAX_MESSAGES_PER_PACKET && CeilBytes(|s.body| - start) < limit {
      var at := FirstUnsent(s.pending, ch, 0);
      if at.None? {
        FillOrder(kinds, s, start, capacity, limit, ch + 1);
        WaitedLower(Fill(kinds, s, start, capacity, limit, ch).staged[|s.staged|..], s.pending, ch);
      } else {
        Q.AllSendableAt(kinds, s.pending, at.value);
        var next := Taken(kinds, s, at.value);
        if |next.body| > capacity {
          FillOrder(kinds, s, start, capacity, limit, ch + 1);
          WaitedLower(Fill(kinds, s, start, capacity, limit, ch).staged[|s.staged|..], s.pending, ch);
        } else if CeilBytes(|next.body| - start) <= limit {
          UnsentMarked(s.pending, at.value);
          MarkedOrdered(s.pending, at.value);
          FillOrder(kinds, next, start, capacity, limit, ch);
          FillRest(kinds, next, start, capacity, limit, ch);
          AddOne(kinds, s, next, Fill(kinds, next, start, capacity, limit, ch), at.value, ch);
        }
      }
    }
  }

  lemma NothingAdded(s: Staging, ch: nat)
    ensures s.staged[|s.staged|..] == []
    ensures InPriority([]) && WereWaiting([], s.pending, ch) && NoneOvertaken([], s.pending)
  {
  }

  lemma WaitedLower(added: seq<Pending>, pending: seq<Pending>, ch: nat)
    requires WereWaiting(added, pending, ch + 1)
    ensures WereWaiting(added, pending, ch)
  {
  }

  lemma MarkedOrdered(pending: seq<Pending>, at: nat)
    requires Q.Ordered(pending) && at < |pending|
    ensures Q.Ordered(pending[at := pending[at].(inFlight := true)])
  {
  }

  /** Once the first message on a channel is taken, those waiting are others, and on its channel later. */
  lemma Later(kinds: Kinds, s: Staging, at: nat, ch: nat, q: Pending)
    requires AllSendable(kinds, s.pending) && Q.Ordered(s.pending) && FirstUnsent(s.pending, ch, 0) == Some(at)
    requires q in Taken(kinds, s, at).pending && !q.inFlight
    ensures q in s.pending && (q.channel == ch ==> s.pending[at].id < q.id)
  {
    hide Encoded, Encodable, FrameOf, AllSendable;
    var next := Taken(kinds, s, at).pending;
    var x :| 0 <= x < |next| && next[x] == q;
    assert x != at && s.pending[x] == q;
    if q.channel == ch {
      FirstFirst(s.pending, ch, q);
      assert s.pending[x].id != s.pending[at].id;
    }
  }

  lemma AddOne(kinds: Kinds, s: Staging, next: Staging, r: Staging, at: nat, ch: nat)
    requires AllSendable(kinds, s.pending) && Q.Ordered(s.pending) && FirstUnsent(s.pending, ch, 0) == Some(at)
    requires next == Taken(kinds, s, at) && next.staged <= r.staged
    requires var added := r.staged[|next.staged|..];
             InPriority(added) && WereWaiting(added, next.pending, ch) && NoneOvertaken(added, r.pending)
    requires |r.pending| == |next.pending|
    requires forall i | 0 <= i < |next.pending| :: r.pending[i] in {next.pending[i], next.pending[i].(inFlight := true)}
    ensures var added := r.staged[|s.staged|..];
            InPriority(added) && WereWaiting(added, s.pending, ch) && NoneOvertaken(added, r.pending)
  {
    hide Encoded, Encodable, FrameOf, AllSendable, Q.Ordered;
    var p, rest := s.pending[at], r.staged[|next.staged|..];
    assert r.staged[|s.staged|..] == [p] + rest;
    forall q | q in rest
      ensures q in s.pending && (q.channel == ch ==> p.id < q.id)
    {
      Later(kinds, s, at, ch, q);
    }
    forall x | 0 <= x < |r.pending| && !r.pending[x].inFlight && r.pending[x].channel == ch
      ensures p.id < r.pending[x].id
    {
      assert r.pending[x] == next.pending[x];
      Later(kinds, s, at, ch, r.pending[x]);
    }
    PriorityMore(p, rest, r.pending, ch);
  }

  lemma PriorityMore(p: Pending, rest: seq<Pending>, pending: seq<Pending>, ch: nat)
    requires p.channel == ch && InPriority(rest) && NoneOvertaken(rest, pending)
    requires forall q | q in rest :: q.channel >= ch && (q.channel == ch ==> p.id < q.id)
    requires forall x | 0 <= x < |pending| && !pending[x].inFlight && pending[x].channel == ch :: p.id < pending[x].id
    ensures InPriority([p] + rest) && NoneOvertaken([p] + rest, pending)
  {
    var all := [p] + rest;
    forall i, j | 0 <= i < j < |all|
      ensures all[i].channel < all[j].channel || (all[i].channel == all[j].channel && all[i].id < all[j].id)
    {
      assert all[j] == rest[j - 1] && (i > 0 ==> all[i] == rest[i - 1]);
    }
  }
}
