/** Bytes, machine words and the network byte order of the PDU header. */
module Bytes {
  type byte = x: int | 0 <= x < 0x100
  type u16 = x: int | 0 <= x < 0x1_0000
  type u32 = x: int | 0 <= x < 0x1_0000_0000

  /** C's unsigned 32-bit increment and decrement, with their wrap-around. */
  function Inc32(n: u32): u32 {
    if n == 0xFFFF_FFFF then 0 else n + 1
  }

  function Dec32(n: u32): u32 {
    if n == 0 then 0xFFFF_FFFF else n - 1
  }

  /** htonl followed by memcpy: the four bytes of n, most significant first. */
  function BE32(n: u32): (b: seq<byte>)
    ensures |b| == 4
  {
    [n / 0x100_0000, n / 0x1_0000 % 0x100, n / 0x100 % 0x100, n % 0x100]
  }

  /** memcpy into a uint32_t followed by ntohl. */
  function FromBE32(b: seq<byte>): u32
    requires |b| == 4
  {
    0x100_0000 * (b[0] as int) + 0x1_0000 * (b[1] as int) + 0x100 * (b[2] as int) + b[3]
  }

  lemma BE32RoundTrip(n: u32)
    ensures FromBE32(BE32(n)) == n
  {
    assert n / 0x1_0000 == n / 0x100_0000 * 0x100 + n / 0x1_0000 % 0x100;
    assert n / 0x100 == n / 0x1_0000 * 0x100 + n / 0x100 % 0x100;
  }

  /** b ^ 0xFF on an unsigned byte. */
  function Complement(b: byte): byte {
    0xFF - b
  }

  lemma ComplementIsXor(b: bv8)
    ensures (b ^ 0xFF) as int == Complement(b as int)
  {
    assert (b ^ 0xFF) + b == 0xFF;
    assert b <= 0xFF;
    assert b ^ 0xFF == 0xFF - b;
  }

  /** C's exclusive or of two unsigned numbers, bit by bit. */
  function Xor(a: nat, b: nat): nat {
    if a == 0 && b == 0 then 0 else (a % 2 + b % 2) % 2 + 2 * Xor(a / 2, b / 2)
  }

  lemma {:induction false} XorWithOnes(a: nat, ones: nat, bits: nat)
    requires a <= ones && ones + 1 == Power2(bits)
    ensures Xor(a, ones) == ones - a
    decreases bits
  {
    if bits > 0 {
      XorWithOnes(a / 2, ones / 2, bits - 1);
    }
  }

  function Power2(n: nat): nat {
    if n == 0 then 1 else 2 * Power2(n - 1)
  }

  lemma XorIsComplement(b: byte)
    ensures Xor(b, 0xFF) == Complement(b)
  {
    assert Power2(8) == 0x100;
    XorWithOnes(b, 0xFF, 8);
  }
}
