/** A connection by itself: everything that can be done to it or arrive at it, and what every run
of that keeps. */
module ConnectionRuns {
  import opened Machine
  import opened Frames
  import opened Connection
  import B = Budget
  import C = Channels
  import I = ConnectionInvariant
  import L = Ledger
  import T = Transmit
  import TP = TwoParty

  /** Anything that can happen to a connection. */
  datatype Op =
    | Poll(now: nat)
    | Hear(now: nat, from: nat, d: Datagram, token: nat)
    | Expire(now: nat)
    | Submit(channel: nat, payload: Bytes)
    | Shut(reason: nat)
    | Owe(control: Control)
    | TakeEvents

  datatype Timed = Timed(conn: Conn, clock: nat)

  /** Time does not run backwards, ids have not run out, and arguments fit their fields. */
  ghost predicate Allowed(t: Timed, op: Op) {
    && Shaped(t.conn)
    && match op
       case Poll(now) => TP.Ticks(t.clock, now) && Transmittable(t.conn) && B.Consistent(t.conn.budget)
       case Hear(now, _, d, token) => TP.Ticks(t.clock, now) && HeaderShaped(d.header) && token < U64
       case Expire(now) => TP.Ticks(t.clock, now)
       case Submit(channel, _) =>
         channel < |t.conn.channels.kinds| ==> t.conn.channels.nextIds[channel] < U32_MAX
       case Shut(reason) => reason < REASONS
       case Owe(control) => TP.ControlOk(control)
       case TakeEvents => true
  }

  ghost function Stepped(t: Timed, op: Op): Timed
    requires Allowed(t, op)
  {
    var c := t.conn;
    match op
    case Poll(now) => Timed(PollTransmit(c, now).conn, now)
    case Hear(now, from, d, token) => Timed(HandleDatagram(c, now, from, d, token).conn, now)
    case Expire(now) => Timed(HandleTimeout(c, now), now)
    case Submit(channel, payload) => t.(conn := c.(channels := C.Send(c.channels, channel, payload).channels))
    case Shut(reason) => t.(conn := RequestClose(c, reason))
    case Owe(control) => t.(conn := c.(control := control))
    case TakeEvents => t.(conn := c.(events := []))
  }

  ghost predicate IsRun(ts: seq<Timed>, ops: seq<Op>) {
    && |ts| == |ops| + 1
    && forall k | 0 <= k < |ops| :: Allowed(ts[k], ops[k]) && ts[k + 1] == Stepped(ts[k], ops[k])
  }

  /** Of a valid connection, polling asks only that time does not run backwards. */
  lemma PollAllowed(t: Timed, now: nat)
    requires I.Valid(t.conn, t.clock)
    ensures Allowed(t, Poll(now)) <==> TP.Ticks(t.clock, now)
  {
    hide I.Valid, Transmittable, B.Consistent;
    TP.ValidSized(t.conn, t.clock);
  }

  lemma StepValid(t: Timed, op: Op)
    requires I.Valid(t.conn, t.clock) && Allowed(t, op)
    ensures var u := Stepped(t, op); I.Valid(u.conn, u.clock) && t.clock <= u.clock
  {
    hide I.Valid, PollTransmit, HandleDatagram, HandleTimeout, Parse, Transmittable, C.Send;
    match op
    case Poll(now) => T.PollValid(t.conn, t.clock, now);
    case Hear(now, from, d, token) => I.HandleDatagramValid(t.conn, t.clock, now, from, d, token);
    case Expire(now) => I.TimeoutValid(t.conn, t.clock, now);
    case Submit(channel, payload) => I.SendValid(t.conn, t.clock, channel, payload);
    case Shut(reason) => TP.RequestsKept(t.conn, t.clock, reason, NO_CONTROL);
    case Owe(control) => TP.RequestsKept(t.conn, t.clock, 0, control);
    case TakeEvents => EventsFree(t.conn, t.clock);
  }

  lemma EventsFree(c: Conn, clock: nat)
    requires I.Valid(c, clock)
    ensures I.Valid(c.(events := []), clock)
  {
    hide L.Valid, I.QueueValid, I.NoneStranded, B.Consistent;
  }

  /** Every state of a run from a valid one is valid. */
  lemma {:induction false} RunValid(ts: seq<Timed>, ops: seq<Op>, n: nat)
    requires IsRun(ts, ops) && n <= |ops| && I.Valid(ts[0].conn, ts[0].clock)
    ensures I.Valid(ts[n].conn, ts[n].clock)
    decreases n
  {
    hide I.Valid, Stepped, Allowed;
    if n > 0 {
      RunValid(ts, ops, n - 1);
      StepValid(ts[n - 1], ops[n - 1]);
    }
  }

  // ----- What a fresh connection reaches -----

  /** Some run of the fresh connection `c` ends in `t`. */
  ghost predicate Reaches(c: Conn, now: nat, t: Timed) {
    exists ts, ops :: IsRun(ts, ops) && ts[0] == Timed(c, now) && ts[|ops|] == t
  }

  lemma ReachesStart(c: Conn, now: nat)
    ensures Reaches(c, now, Timed(c, now))
  {
    var ts, ops: seq<Op> := [Timed(c, now)], [];
    assert IsRun(ts, ops) && ts[|ops|] == Timed(c, now);
  }

  lemma Goes(c: Conn, now: nat, t: Timed, op: Op)
    requires Reaches(c, now, t) && Allowed(t, op)
    ensures Reaches(c, now, Stepped(t, op))
  {
    hide Allowed, Stepped;
    var ts, ops :| IsRun(ts, ops) && ts[0] == Timed(c, now) && ts[|ops|] == t;
    var us, more := ts + [Stepped(t, op)], ops + [op];
    forall k | 0 <= k < |more|
      ensures Allowed(us[k], more[k]) && us[k + 1] == Stepped(us[k], more[k])
    {
      if k < |ops| {
        assert us[k] == ts[k] && us[k + 1] == ts[k + 1] && more[k] == ops[k];
      }
    }
    assert IsRun(us, more) && us[|more|] == Stepped(t, op);
  }

  lemma ReachesValid(c: Conn, now: nat, t: Timed)
    requires I.Valid(c, now) && Reaches(c, now, t)
    ensures I.Valid(t.conn, t.clock)
  {
    hide I.Valid, Allowed, Stepped;
    var ts, ops :| IsRun(ts, ops) && ts[0] == Timed(c, now) && ts[|ops|] == t;
    RunValid(ts, ops, |ops|);
  }
}
