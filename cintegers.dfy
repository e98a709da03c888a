/**
 * The fixed-width C integer types the scalar projections return, and the
 * two's-complement narrowing that converting a number to them performs.
 * NSInteger is 64 bits wide on the 64-bit platforms the library targets.
 */
module CIntegers {

  const TWO_31: int := 0x8000_0000
  const TWO_32: int := 0x1_0000_0000
  const TWO_63: int := 0x8000_0000_0000_0000
  const TWO_64: int := 0x1_0000_0000_0000_0000

  /** C `int`. */
  newtype int32 = x: int | -0x8000_0000 <= x < 0x8000_0000

  /** C `int64_t`, `long long`, and NSInteger on 64-bit platforms. */
  newtype int64 = x: int | -0x8000_0000_0000_0000 <= x < 0x8000_0000_0000_0000

  /**
   * The int32 congruent to n modulo 2^32: n itself when it fits, otherwise
   * the low 32 bits read as a signed number.
   */
  function ToInt32(n: int): (r: int32)
    ensures (n - r as int) % TWO_32 == 0
    ensures -TWO_31 <= n < TWO_31 ==> r as int == n
  {
    ((n + TWO_31) % TWO_32 - TWO_31) as int32
  }

  /** The int64 congruent to n modulo 2^64. */
  function ToInt64(n: int): (r: int64)
    ensures (n - r as int) % TWO_64 == 0
    ensures -TWO_63 <= n < TWO_63 ==> r as int == n
  {
    ((n + TWO_63) % TWO_64 - TWO_63) as int64
  }
}
