/** Machine words of a fixed width, as numbers. */
module Integers {
  type u32 = x: int | 0 <= x < 0x1_0000_0000

  const U32_MAX: u32 := 0xFFFF_FFFF
}
