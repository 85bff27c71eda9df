/** What several modules share. */
module Basics {

  /** A value that may be absent. */
  datatype Option<T> = None | Some(value: T)

  type Byte = b: nat | b < 256

  /** Unsigned 32-bit arithmetic wraps here. */
  const TWO_32: nat := 0x1_0000_0000
}
