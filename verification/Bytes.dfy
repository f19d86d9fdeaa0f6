/** Bytes, byte frames and the integer widths the program casts to. */
module Bytes {

  type byte = x: int | 0 <= x < 256

  /** One audio frame as the ring stores it. */
  type Frame = seq<byte>

  const TWO_16: nat := 0x1_0000
  const TWO_32: nat := 0x1_0000_0000
  const TWO_42: nat := 0x400_0000_0000
  const TWO_63: nat := 0x8000_0000_0000_0000
  const TWO_64: nat := 0x1_0000_0000_0000_0000

  function Max(a: int, b: int): int {
    if a < b then b else a
  }

  function Min(a: int, b: int): int {
    if a < b then a else b
  }

  /** The frame `memset(dst, 0, bytes)` leaves behind. */
  function Zeros(n: nat): (r: Frame)
    ensures |r| == n && forall i | 0 <= i < n :: r[i] == 0
  {
    seq(n, _ => 0)
  }
}
