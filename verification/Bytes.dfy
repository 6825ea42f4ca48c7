/** Bytes as numbers and the 16-bit little-endian fields of the QMI and netlink formats. */
module Bytes {
  type byte = b: nat | b < 256

  /** le16_to_cpu, of a field whose low byte comes first. */
  function U16(field: (byte, byte)): (n: nat)
    ensures n < 0x10000
  {
    field.0 as nat + 256 * field.1 as nat
  }

  /** cpu_to_le16, of the low 16 bits. */
  function Le16(n: nat): (s: seq<byte>)
    ensures |s| == 2
    ensures U16((s[0], s[1])) == n % 0x10000
  {
    var m := n % 0x10000;
    [m % 256, m / 256]
  }

  /** The bytes of a field, whatever the width of the number. */
  lemma Le16Bytes(n: nat)
    ensures Le16(n) == [n % 256, n / 256 % 256]
  {
    var k, m := n / 0x10000, n % 0x10000;
    assert n == 256 * (256 * k) + m;
    assert n % 256 == m % 256 && n / 256 == 256 * k + m / 256;
  }
}
