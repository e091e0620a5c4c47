/** The widths of the machine integers the code computes with. */
module Integers {

  const U128_MAX := 0xFFFF_FFFF_FFFF_FFFF_FFFF_FFFF_FFFF_FFFF
  const I128_MAX := 0x7FFF_FFFF_FFFF_FFFF_FFFF_FFFF_FFFF_FFFF
  const I128_MIN := -0x8000_0000_0000_0000_0000_0000_0000_0000

  type U128 = n: int | 0 <= n <= U128_MAX
  type I128 = n: int | I128_MIN <= n <= I128_MAX
}
