/** Small types the other modules share. */
module Wrappers {
  datatype Option<+T> = None | Some(value: T)

  newtype Byte = b: int | 0 <= b < 256
}
