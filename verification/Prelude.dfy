/** Types every other module uses. */
module Prelude {
  datatype Option<+T> = None | Some(value: T)

  datatype Result<+T, +E> = Ok(value: T) | Err(error: E)

  type Byte = x: int | 0 <= x < 0x100

  type U32 = x: int | 0 <= x < 0x1_0000_0000

  /** `usize` on the 64-bit targets the application ships for. */
  const USIZE_LIMIT: int := 0x1_0000_0000_0000_0000

  type Usize = x: int | 0 <= x < USIZE_LIMIT

  /** How many of the smallest single-precision number make one. */
  const STEPS_IN_ONE: real := 713623846352979940529142984724747568191373312.0

  /** Multiples of 2^-149. Every finite single-precision number is one; range and rounding are not modelled. */
  type Single = x: real | (x * STEPS_IN_ONE).Floor as real == x * STEPS_IN_ONE witness 0.0

  /** `usize::checked_mul`: no result rather than a wrapped one. */
  function CheckedMul(a: nat, b: nat): Option<nat> {
    if a * b < USIZE_LIMIT then Some(a * b) else None
  }

  function Min(a: nat, b: nat): nat {
    if a <= b then a else b
  }
}
