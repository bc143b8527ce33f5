/** Bytes, and 32-bit numbers as the processor stores them. */
module Bytes {
  import opened Basics

  type Byte = b: nat | b < 256

  /** The four bytes of a 32-bit number, least significant first. */
  function LittleEndian(n: nat): (b: seq<Byte>)
    requires n < TWO_32
    ensures |b| == 4
  {
    [n % 0x100, n / 0x100 % 0x100, n / 0x100 / 0x100 % 0x100, n / 0x100 / 0x100 / 0x100]
  }

  function FromLittleEndian(b: seq<Byte>): (n: nat)
    requires |b| == 4
    ensures n < TWO_32
  {
    var b0: nat, b1: nat, b2: nat, b3: nat := b[0], b[1], b[2], b[3];
    b0 + 0x100 * (b1 + 0x100 * (b2 + 0x100 * b3))
  }

  lemma LittleEndianRoundTrip(n: nat)
    requires n < TWO_32
    ensures FromLittleEndian(LittleEndian(n)) == n
  {}
}
