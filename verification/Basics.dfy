/**
 * What several modules share.
 */
module Basics {

  const NUL: char := '\0'
  const TWO_TO_32: nat := 0x1_0000_0000

  type Byte = b: int | 0 <= b < 256

  datatype Option<+T> = None | Some(value: T)
}
