/** Bytes and the fixed-width integers that the file formats use. */
module Bytes {
  type byte = b: int | 0 <= b < 256

  const UINT32_LIMIT := 0x1_0000_0000
  type uint32 = x: int | 0 <= x < UINT32_LIMIT

  function Truncate32(x: int): uint32 { x % UINT32_LIMIT }
  function Truncate8(x: int): byte { x % 256 }
}
