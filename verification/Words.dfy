/** Machine words as subsets of the integers, and their bytes. */
module Words {
  type byte = x: int | 0 <= x < 256
  type u16 = x: int | 0 <= x < 65536
  type u32 = x: int | 0 <= x < 0x1_0000_0000
  type s32 = x: int | -0x8000_0000 <= x < 0x8000_0000

  /** Arithmetic on unsigned words wraps. */
  function Wrap16(n: nat): u16 {
    n % 65536
  }

  function Wrap32(n: int): u32 {
    n % 0x1_0000_0000
  }

  /** Little-endian. */
  function TwoBytes(n: u16): (bytes: seq<byte>)
    ensures |bytes| == 2 && FromTwo(bytes[0], bytes[1]) == n
    ensures bytes[0] == n % 256 && bytes[1] == n / 256
  {
    [n % 256, n / 256]
  }

  function FromTwo(low: byte, high: byte): u16 {
    low + high * 256
  }

  function FourBytes(n: u32): (b: seq<byte>)
    ensures |b| == 4 && FromFour(b) == n && b[0] == n % 256
  {
    assert n % 65536 % 256 == n % 256 by { assert n == 65536 * (n / 65536) + n % 65536; }
    TwoBytes(n % 65536) + TwoBytes(n / 65536)
  }

  function FromFour(b: seq<byte>): u32
    requires |b| == 4
  {
    FromTwo(b[0], b[1]) + 65536 * FromTwo(b[2], b[3])
  }

  lemma FirstOctet(n: u32)
    ensures FourBytes(n)[0] == n % 256
  {
    assert n == 65536 * (n / 65536) + n % 65536;
  }

  predicate Bit(b: byte, weight: nat)
    requires weight > 0
  {
    b / weight % 2 == 1
  }
}
