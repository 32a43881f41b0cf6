/** The width of the program's 32-bit numbers. */
module Integers {
  const TWO_TO_THE_32 := 0x1_0000_0000
}
