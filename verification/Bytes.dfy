/** Bytes, and the small vocabulary every other module shares. */
module Bytes {

  type Byte = i: int | 0 <= i < 256

  type Bytestring = seq<Byte>

  datatype Option<+T> = None | Some(value: T)
}
