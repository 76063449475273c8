/** Bytes and the two-byte big-endian length fields every Noise message starts with. */
module Bytes {

  type byte = x: int | 0 <= x < 256

  datatype Option<+T> = None | Some(value: T)

  function Be16(n: nat): (bs: seq<byte>)
    requires n < 0x1_0000
    ensures |bs| == 2 && FromBe16(bs[0], bs[1]) == n
  {
    [n / 256, n % 256]
  }

  function FromBe16(hi: byte, lo: byte): (n: nat)
    ensures n < 0x1_0000
  {
    hi * 256 + lo
  }

  function Pow2(n: nat): (p: nat)
    ensures p > 0
  {
    if n == 0 then 1 else 2 * Pow2(n - 1)
  }
}
