/**
 * Machine-level primitives shared by both layers: fixed-width integers,
 * the target family (which decides the width of `c_long`/`c_ulong` and
 * several string conventions) and the wrapping casts Rust's `as` performs.
 */
module Prim {

  type u8 = x: int | 0 <= x < 0x100
  type u16 = x: int | 0 <= x < 0x1_0000
  type u32 = x: int | 0 <= x < 0x1_0000_0000
  type i8 = x: int | -0x80 <= x < 0x80
  type i32 = x: int | -0x8000_0000 <= x < 0x8000_0000
  type i64 = x: int | -0x8000_0000_0000_0000 <= x < 0x8000_0000_0000_0000

  /** `target_family` of the build. */
  datatype Platform = Unix | Windows

  const U32_RANGE: nat := 0x1_0000_0000
  const U64_RANGE: nat := 0x1_0000_0000_0000_0000

  /** Number of values of `c_ulong`: LP64 on unix, LLP64 on windows. */
  function LongRange(p: Platform): (m: nat)
    ensures m == U32_RANGE || m == U64_RANGE
  {
    match p
    case Unix => U64_RANGE
    case Windows => U32_RANGE
  }

  /** `x as u32`: keep the low 32 bits. */
  function AsU32(x: int): (r: u32)
    ensures 0 <= x < U32_RANGE ==> r == x
  {
    x % U32_RANGE
  }

  /** `x as usize` on a 64-bit target: two's-complement wrap (a negative `c_long` becomes huge). */
  function AsUsize(x: int): (r: nat)
    ensures r < U64_RANGE
    ensures 0 <= x < U64_RANGE ==> r == x
    ensures 0 <= x + U64_RANGE && x < 0 ==> r == x + U64_RANGE
  {
    x % U64_RANGE
  }

  /** `x as c_ulong`: keep the low bits that fit the platform's `c_ulong`. */
  function AsCULong(p: Platform, x: int): (r: nat)
    ensures r < LongRange(p)
    ensures 0 <= x < LongRange(p) ==> r == x
  {
    x % LongRange(p)
  }

  /** `x as c_long`: two's-complement wrap into the platform's `c_long`. */
  function AsCLong(p: Platform, x: int): (r: int)
    ensures 0 <= r + LongRange(p) / 2 && r < LongRange(p) / 2
    ensures 0 <= x + LongRange(p) / 2 && x < LongRange(p) / 2 ==> r == x
  {
    var h := LongRange(p) / 2;
    (x + h) % LongRange(p) - h
  }
}
