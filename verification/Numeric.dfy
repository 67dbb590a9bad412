/** Machine integers and the failure-compatible types shared by every component. */
module Numeric {

  const U32_MAX: nat := 0xFFFF_FFFF

  const U64_MAX: nat := 0xFFFF_FFFF_FFFF_FFFF

  /** Rust's `u64`: the arithmetic on it is written out (saturating or checked). */
  type u64 = x: nat | x <= U64_MAX

  datatype Option<+T> = None | Some(value: T)

  datatype Result<+T> = Ok(value: T) | Err

  /** The `u64` nearest to an exact nonnegative amount. */
  function Sat(x: nat): u64 {
    if x <= U64_MAX then x else U64_MAX
  }

  function SatAdd(a: u64, b: u64): u64 {
    Sat(a + b)
  }

  function SatSub(a: u64, b: u64): u64 {
    if a >= b then a - b else 0
  }

  function Min(a: int, b: int): int {
    if a <= b then a else b
  }

  function Max(a: int, b: int): int {
    if a >= b then a else b
  }
}
