/** Options, and the 64-bit saturating arithmetic that timestamps and spans use.

Every quantity is a natural number; wherever the width of the machine integer can
be observed, the saturation or the wrap-around is written out.
*/
module Machine {

  datatype Option<+T> = None | Some(value: T)

  const U64_MAX: nat := 0xFFFF_FFFF_FFFF_FFFF
  const U64: nat := 0x1_0000_0000_0000_0000
  const U32: nat := 0x1_0000_0000
  const U32_MAX: nat := 0xFFFF_FFFF

  type byte = b: int | 0 <= b < 256
  type Bytes = seq<byte>

  function Min(a: nat, b: nat): nat { if a <= b then a else b }

  function Max(a: nat, b: nat): nat { if a >= b then a else b }

  function SatAdd(a: nat, b: nat): nat { if a + b > U64_MAX then U64_MAX else a + b }

  function SatSub(a: nat, b: nat): nat { if a < b then 0 else a - b }

  function SatMul(a: nat, b: nat): nat { if a * b > U64_MAX then U64_MAX else a * b }

  /** `now.since(earlier)`: zero when `earlier` is not earlier. */
  function Since(now: nat, earlier: nat): nat { SatSub(now, earlier) }

  function CeilDiv(a: nat, b: nat): nat
    requires b > 0
  {
    (a + b - 1) / b
  }

  /** The earlier of two optional deadlines. */
  function Earlier(a: Option<nat>, b: Option<nat>): Option<nat> {
    match (a, b)
    case (Some(x), Some(y)) => Some(Min(x, y))
    case (None, _) => b
    case (_, None) => a
  }

  predicate Due(at: Option<nat>, now: nat) {
    at.Some? && at.value <= now
  }
}
