/** Fixed-width machine integers of the on-chain program and the `checked_*`
    operations it uses. Dafny integers are unbounded, so every width and every
    overflow the program can hit is written out here. */
module Numeric {

  /** Rust's `Option`, the result of every `checked_*` operation. */
  datatype Option<T> = None | Some(value: T)

  const U64_MAX: int := 0xFFFF_FFFF_FFFF_FFFF
  const I64_MIN: int := -0x8000_0000_0000_0000
  const I64_MAX: int := 0x7FFF_FFFF_FFFF_FFFF

  /** Rust `u64`: token amounts, prices, caps. */
  type U64 = x: int | 0 <= x <= U64_MAX

  /** Rust `i64`: Unix timestamps and durations in seconds. */
  type I64 = x: int | I64_MIN <= x <= I64_MAX

  predicate IsI64(x: int) { I64_MIN <= x <= I64_MAX }

  /** The `as u64` cast of an `i64`: a negative value wraps around
      (two's complement reinterpretation), a non-negative one is kept. */
  function AsU64(x: I64): (r: U64)
    ensures x >= 0 ==> r == x
    ensures x < 0 ==> r == x + U64_MAX + 1 && r > I64_MAX
  {
    if x < 0 then x + U64_MAX + 1 else x
  }

  /** `u64::checked_add`: `None` exactly when the sum leaves the `u64` range. */
  function CheckedAdd(a: U64, b: U64): (r: Option<U64>)
    ensures r.Some? <==> a + b <= U64_MAX
    ensures r.Some? ==> r.value == a + b
  {
    if a + b <= U64_MAX then Some(a + b) else None
  }

  /** `u64::checked_sub`: `None` exactly when the difference would be negative. */
  function CheckedSub(a: U64, b: U64): (r: Option<U64>)
    ensures r.Some? <==> b <= a
    ensures r.Some? ==> r.value + b == a
  {
    if b <= a then Some(a - b) else None
  }

  /** `u64::checked_mul`: `None` exactly when the product leaves the `u64` range. */
  function CheckedMul(a: U64, b: U64): (r: Option<U64>)
    ensures r.Some? <==> a * b <= U64_MAX
    ensures r.Some? ==> r.value == a * b
  {
    if a * b <= U64_MAX then Some(a * b) else None
  }

  /** `u64::checked_div`: `None` only for a zero divisor; otherwise the
      quotient rounded down, which never exceeds the dividend. */
  function CheckedDiv(a: U64, b: U64): (r: Option<U64>)
    ensures r.Some? <==> b != 0
    ensures r.Some? ==> r.value * b <= a < (r.value + 1) * b
  {
    if b == 0 then None else Some(a / b)
  }
}
