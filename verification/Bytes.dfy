/** Bytes, as files, pipes and buffers carry them. */
module Bytes {
  type Byte = b: int | 0 <= b < 256

  const NEWLINE: Byte := 10

  function Min(a: nat, b: nat): nat {
    if a <= b then a else b
  }
}
