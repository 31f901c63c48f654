/**
 What the other modules share: bytes, values that may be missing, and pointers to pages.
 */
module Base {
  type byte = x: int | 0 <= x < 256
  type Bytes = seq<byte>

  datatype Option<+T> = None | Some(value: T)

  // The address of a page.
  type Ptr = nat
  const NULL: Ptr := 0
}
