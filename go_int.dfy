/**
 * Go's fixed-width integers, as far as the reporter relies on them.
 * Arithmetic on `int64` in Go wraps around modulo 2^64 (two's complement);
 * Dafny's `int` is unbounded, so the wrap is written out here.
 */
module GoInt {

  const MinInt64: int := -0x8000_0000_0000_0000
  const MaxInt64: int := 0x7fff_ffff_ffff_ffff
  const MaxUint32: int := 0xffff_ffff

  /** The modulus of 64-bit arithmetic. */
  const TwoTo64: int := 0x1_0000_0000_0000_0000

  type Int64 = x: int | MinInt64 <= x <= MaxInt64
  type Uint32 = x: int | 0 <= x <= MaxUint32

  /** True when `x` is representable as a Go `int64`, i.e. no wrap happens. */
  predicate FitsInt64(x: int) {
    MinInt64 <= x <= MaxInt64
  }

  /**
   * The `int64` that Go produces for a mathematical result `x`:
   * the unique value in the int64 range congruent to `x` modulo 2^64.
   */
  function Wrap(x: int): (r: Int64)
    ensures (x - r) % TwoTo64 == 0
    ensures FitsInt64(x) ==> r == x
  {
    var m := x % TwoTo64;
    if m <= MaxInt64 then m else m - TwoTo64
  }
}
