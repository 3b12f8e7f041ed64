/** Byte-level vocabulary shared by the whole model. */
module Bytes {

  /** The Arduino `byte`: an unsigned 8-bit value. */
  type byte = bv8

  /** An unsigned 8-bit count or length (the source's `byte` packet lengths and byte counts). */
  newtype uint8 = x: int | 0 <= x < 256

  datatype Option<+T> = None | Some(value: T)

  /** A mask with exactly one bit set. */
  predicate IsSingleBit(m: byte) {
    m != 0 && m & (m - 1) == 0
  }

  function Min(a: int, b: int): int {
    if a <= b then a else b
  }
}
