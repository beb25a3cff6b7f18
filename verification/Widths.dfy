// The widths of the machine's integers.

module Widths {
  const INT_MAX := 0x7fff_ffff

  // unsigned int counts modulo this.
  const WORD := 0x1_0000_0000
}
