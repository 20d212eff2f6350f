/**
 * Monetary amounts. A decimal amount is modelled by the integer number of its
 * smallest unit; its magnitude is bounded by MAX, the largest 96-bit mantissa,
 * and CheckedAdd fails exactly when a sum leaves that range.
 */
module Decimals {
  import opened Options

  const MAX: int := 0xFFFF_FFFF_FFFF_FFFF_FFFF_FFFF

  /** Any representable decimal value. */
  type Decimal = x: int | -MAX <= x <= MAX

  /** A representable decimal that is not negative: what a deposit or withdrawal carries. */
  type Amount = x: Decimal | 0 <= x

  /** Addition that reports overflow instead of wrapping or panicking. */
  function CheckedAdd(a: int, b: int): Option<Decimal>
  {
    if -MAX <= a + b <= MAX then Some(a + b) else None
  }
}
