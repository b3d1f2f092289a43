/** The fixed-width integer types of the Rust code, as bounded subsets of `int`. */
module Ints {

  const U16_LIMIT: int := 0x1_0000
  const U32_LIMIT: int := 0x1_0000_0000
  const U64_LIMIT: int := 0x1_0000_0000_0000_0000

  /** `u8` */
  type byte = x: int | 0 <= x < 0x100

  /** `u16` */
  type u16 = x: int | 0 <= x < U16_LIMIT

  /** `u64`; `usize` is taken to be 64 bits wide. */
  type u64 = x: int | 0 <= x < U64_LIMIT

  type usize = u64
}
