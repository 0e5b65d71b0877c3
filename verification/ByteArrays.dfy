/**
 * Bytes as numbers, and the mutable buffer a reader shares with its parser.
 *
 * Python's `bytes` hold numbers from 0 to 255, and its integers are unbounded.
 * A byte is a bit-vector here, because the checksum works on bits; lengths and
 * ids are numbers. The masks `n & 255` and `n & 65535` are remainders, also for
 * negative numbers, since Python's integers behave like two's complement of
 * unlimited width.
 *
 * `ByteArray` stands for a `bytearray` that a parser shortens in place.
 */
module ByteArrays {
  import opened Crc

  function ToNat(b: byte): nat {
    b as int
  }

  /** `n & 255` and `n & 65535`, on integers of any size and sign. */
  function Low8(n: int): byte {
    (n % 0x100) as byte
  }

  function Low16(n: int): bv16 {
    (n % 0x10000) as bv16
  }

  function LoByte(w: bv16): byte { (w & 0xFF) as byte }

  function HiByte(w: bv16): byte { (w >> 8) as byte }

  lemma ToNatLow8(n: nat)
    requires n < 256
    ensures ToNat(Low8(n)) == n
  {
  }

  lemma ToNatInjective(b: byte, c: byte)
    requires ToNat(b) == ToNat(c)
    ensures b == c
  {
  }

  lemma Low8ToNat(b: byte)
    ensures Low8(ToNat(b)) == b && ToNat(b) < 256
  {
    hide Low8, ToNat;
    ToNatRange(b);
    ToNatLow8(ToNat(b));
    ToNatInjective(Low8(ToNat(b)), b);
  }

  lemma ToNatRange(b: byte)
    ensures ToNat(b) < 256
  {
  }

  class ByteArray {
    var bytes: seq<byte>

    constructor (bytes: seq<byte>)
      ensures this.bytes == bytes
    {
      this.bytes := bytes;
    }
  }
}
