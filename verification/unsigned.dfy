/**
 Rust's `u64` and the checked operations its standard library offers on it.
 Integers are unbounded in Dafny, so the 64-bit range is a subset type and
 every overflow boundary is written out.
 */
module Unsigned {
  import opened Wrappers

  /** `u64::MAX`, that is 2^64 - 1. */
  const U64_MAX: int := 0xFFFF_FFFF_FFFF_FFFF

  /** The values a `u64` can hold. */
  type U64 = x: int | 0 <= x <= U64_MAX

  /** `u64::checked_add`. */
  function CheckedAddU64(a: U64, b: U64): (r: Option<U64>)
    ensures r.None? <==> a + b > U64_MAX
    ensures r.Some? ==> r.value - b == a
  {
    if a + b <= U64_MAX then Some(a + b) else None
  }

  /** `u64::checked_sub`. */
  function CheckedSubU64(a: U64, b: U64): (r: Option<U64>)
    ensures r.None? <==> a < b
    ensures r.Some? ==> r.value + b == a
  {
    if b <= a then Some(a - b) else None
  }

  /** `u64::checked_mul`. */
  function CheckedMulU64(a: U64, b: U64): (r: Option<U64>)
    ensures r.None? <==> a * b > U64_MAX
    ensures r.Some? ==> r.value == a * b
  {
    if a * b <= U64_MAX then Some(a * b) else None
  }

  /** `u64::checked_div`: truncating division, absent only for a zero divisor. */
  function CheckedDivU64(a: U64, b: U64): (r: Option<U64>)
    ensures r.None? <==> b == 0
    ensures r.Some? ==> r.value * b <= a < (r.value + 1) * b
  {
    if b == 0 then None else DivBounds(a, b); Some(a / b)
  }

  /** Truncating division brackets the dividend between two multiples of the divisor. */
  lemma DivBounds(a: nat, b: nat)
    requires b > 0
    ensures (a / b) * b <= a < (a / b + 1) * b
  {
    assert a == (a / b) * b + a % b;
  }

  /** The quotient is the one multiple count that brackets the dividend. */
  lemma DivUnique(a: nat, b: nat, q: nat)
    requires q * b <= a < (q + 1) * b
    ensures a / b == q
  {
    DivBounds(a, b);
    if a / b < q {
      MulMonotone(a / b + 1, q, b);
    } else if a / b > q {
      MulMonotone(q + 1, a / b, b);
    }
  }

  /** Multiplying by a natural number keeps the order. */
  lemma MulMonotone(x: nat, y: nat, b: nat)
    requires x <= y
    ensures x * b <= y * b
  {
  }
}
