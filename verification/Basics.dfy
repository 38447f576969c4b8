/** What every component uses: an optional value and the range of a 32-bit word. */
module Basics {
  datatype Option<+T> = None | Some(value: T)

  const WORD: nat := 0x1_0000_0000
}
