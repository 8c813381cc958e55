/**
 * Small shared vocabulary: an optional value, and the fixed-width unsigned
 * and signed integers of the C code, written out as ranges of `int` with
 * explicit wrap-around.
 */
module Wrappers {
  datatype Option<T> = None | Some(value: T)

  /** A value, or `barf`: the process reports the error and exits. */
  datatype Result<T> = Ok(value: T) | Barf
}

module CInt {
  const U8: nat := 0x100
  const U16: nat := 0x1_0000
  const U32: nat := 0x1_0000_0000
  const U64: nat := 0x1_0000_0000_0000_0000

  /** The largest value of C's `unsigned long` on the 64-bit targets. */
  const ULONG_MAX: nat := U64 - 1
  const LONG_MAX: int := 0x7fff_ffff_ffff_ffff
  const LONG_MIN: int := -0x8000_0000_0000_0000
  const INT_MAX: int := 0x7fff_ffff
  const INT_MIN: int := -0x8000_0000

  predicate IsU8(x: int) { 0 <= x < U8 }
  predicate IsU16(x: int) { 0 <= x < U16 }
  predicate IsU32(x: int) { 0 <= x < U32 }
  predicate IsU64(x: int) { 0 <= x < U64 }
  predicate IsInt32(x: int) { INT_MIN <= x <= INT_MAX }

  /** Conversion to an unsigned type of `m` values: C's reduction modulo 2^n. */
  function Wrap(x: int, m: nat): (r: nat)
    requires m > 0
    ensures r < m
    ensures 0 <= x < m ==> r == x
  {
    x % m
  }

  /** Reinterpretation of a 32-bit pattern as a two's-complement `int`. */
  function ToInt32(x: nat): (r: int)
    requires x < U32
    ensures IsInt32(r)
    ensures Wrap(r, U32) == x
  {
    if x <= INT_MAX then x else x - U32
  }

  /** Reinterpretation of a 64-bit pattern as a two's-complement `long`. */
  function ToInt64(x: nat): (r: int)
    requires x < U64
    ensures LONG_MIN <= r <= LONG_MAX
    ensures Wrap(r, U64) == x
  {
    if x <= LONG_MAX then x else x - U64
  }
}
