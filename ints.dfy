/** The fixed-width integer types of the source, as ranges of the unbounded `int`. */
module Ints {
  const I32_MIN: int := -0x8000_0000
  const I32_MAX: int := 0x7FFF_FFFF
  const U32_MAX: int := 0xFFFF_FFFF
  const I64_MIN: int := -0x8000_0000_0000_0000
  const I64_MAX: int := 0x7FFF_FFFF_FFFF_FFFF

  type I32 = x: int | I32_MIN <= x <= I32_MAX
  type U32 = x: int | 0 <= x <= U32_MAX
  type Byte = x: int | 0 <= x < 256
}
