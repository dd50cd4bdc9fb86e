/**
 * The Internet checksum of lib/libcpe464/checksum.c: a loop over 16-bit words in
 * a 32-bit accumulator whose carries are folded in at the end, proved equal to
 * the complement of the one's complement sum of RFC 1071 (sections 1 and 4.1).
 */
module InternetChecksum {
  import opened Bytes

  /** A C int, so that the verifier checks every addition for overflow. */
  newtype int32 = x: int | -0x8000_0000 <= x < 0x8000_0000

  /** How the host lays the two bytes of an unsigned short out in memory. */
  datatype Endian = Little | Big

  function Word(e: Endian, first: byte, second: byte): u16 {
    match e
    case Little => first + 0x100 * second
    case Big => 0x100 * first + second
  }

  /** The bytes an unsigned short occupies in memory. */
  function Store(e: Endian, w: u16): (b: seq<byte>)
    ensures |b| == 2
  {
    match e
    case Little => [w % 0x100, w / 0x100]
    case Big => [w / 0x100, w % 0x100]
  }

  /** A buffer read as unsigned shorts; an odd last byte is followed by a zero byte. */
  function Words(e: Endian, b: seq<byte>): seq<u16> {
    if |b| == 0 then []
    else if |b| == 1 then [Word(e, b[0], 0)]
    else [Word(e, b[0], b[1])] + Words(e, b[2..])
  }

  /** One's complement addition of two 16-bit words: the carry is added back at once. */
  function OnesAdd(a: u16, b: u16): u16 {
    if a + b < 0x1_0000 then a + b else a + b - 0xFFFF
  }

  function OnesSum(ws: seq<u16>): u16 {
    if ws == [] then 0 else OnesAdd(ws[0], OnesSum(ws[1..]))
  }

  /** The checksum as RFC 1071 defines it. */
  function Checksum(e: Endian, b: seq<byte>): u16 {
    0xFFFF - OnesSum(Words(e, b))
  }

  // ---------------------------------------------------------------------------
  // The plain integer sum, and how it determines the one's complement sum
  // ---------------------------------------------------------------------------

  ghost function Total(ws: seq<u16>): nat {
    if ws == [] then 0 else ws[0] + Total(ws[1..])
  }

  /** The representative of n mod 65535 in 1..65535, and 0 only for 0 itself. */
  ghost function Canon(n: nat): u16 {
    if n == 0 then 0 else 1 + (n - 1) % 0xFFFF
  }

  lemma CanonUnique(n: nat, c: u16, k: int)
    requires n > 0 && c > 0 && n == c + 0xFFFF * k
    ensures Canon(n) == c
  {
  }

  /** The one's complement sum is congruent to the integer sum mod 65535, and 0 only for all-zero words. */
  lemma {:induction false} OnesSumIsCanon(ws: seq<u16>)
    ensures OnesSum(ws) == Canon(Total(ws))
  {
    if ws != [] {
      OnesSumIsCanon(ws[1..]);
    }
  }

  lemma {:induction false} TotalBound(e: Endian, b: seq<byte>)
    ensures 2 * Total(Words(e, b)) <= 0xFFFF * (|b| + 1)
  {
    if |b| > 1 {
      TotalBound(e, b[2..]);
    }
  }

  lemma WordsStep(e: Endian, b: seq<byte>)
    requires |b| > 1
    ensures Total(Words(e, b)) == Word(e, b[0], b[1]) + Total(Words(e, b[2..]))
  {
    assert Words(e, b)[1..] == Words(e, b[2..]);
  }

  /**
   * in_cksum. No addition overflows the int accumulator on a buffer of up to
   * 65536 bytes, and the two-step fold yields the complement of the one's
   * complement sum.
   */
  method InCksum(addr: array<byte>, len: nat, e: Endian) returns (answer: u16)
    requires len <= addr.Length && len <= 0x1_0000
    ensures answer == Checksum(e, addr[..len])
  {
    ghost var b := addr[..len];
    TotalBound(e, b);
    var sum: int32 := 0;
    var w, nleft := 0, len;
    while nleft > 1
      invariant w + nleft == len
      invariant 0 <= sum
      invariant sum as int + Total(Words(e, b[w..])) == Total(Words(e, b))
    {
      WordsStep(e, b[w..]);
      assert b[w..][2..] == b[w + 2..];
      sum := sum + Word(e, addr[w], addr[w + 1]) as int32;
      w, nleft := w + 2, nleft - 2;
    }
    if nleft == 1 {
      assert b[w..] == [addr[w]];
      sum := sum + Word(e, addr[w], 0) as int32;
    }
    ghost var total := Total(Words(e, b));
    assert sum as int == total;
    sum := sum / 0x1_0000 + sum % 0x1_0000;
    assert sum as int == total - 0xFFFF * (total / 0x1_0000);
    sum := sum + sum / 0x1_0000;
    answer := 0xFFFF - (sum % 0x1_0000) as u16;
    FoldIsCanon(total);
    OnesSumIsCanon(Words(e, b));
  }

  /** Adding the high half to the low half, then the carry, is reduction mod 65535. */
  lemma FoldIsCanon(total: nat)
    requires total < 0x8000_0000
    ensures var x := total / 0x1_0000 + total % 0x1_0000;
            (x + x / 0x1_0000) % 0x1_0000 == Canon(total)
  {
    var x := total / 0x1_0000 + total % 0x1_0000;
    if total > 0 {
      var f: u16 := (x + x / 0x1_0000) % 0x1_0000;
      if x < 0x1_0000 {
        CanonUnique(total, f, total / 0x1_0000);
      } else {
        CanonUnique(total, f, total / 0x1_0000 + 1);
      }
    }
  }

  // ---------------------------------------------------------------------------
  // Byte-order independence, RFC 1071 section 2(B)
  // ---------------------------------------------------------------------------

  function Swap(w: u16): u16 {
    w % 0x100 * 0x100 + w / 0x100
  }

  ghost function SecondBytes(b: seq<byte>): nat {
    if |b| <= 1 then 0 else b[1] + SecondBytes(b[2..])
  }

  lemma {:induction false} SwappedTotal(b: seq<byte>)
    ensures 0x100 * Total(Words(Little, b)) == Total(Words(Big, b)) + 0xFFFF * SecondBytes(b)
  {
    if |b| > 1 {
      WordsStep(Little, b);
      WordsStep(Big, b);
      SwappedTotal(b[2..]);
    }
  }

  lemma {:induction false} TotalZero(e: Endian, b: seq<byte>)
    ensures Total(Words(e, b)) == 0 <==> forall i | 0 <= i < |b| :: b[i] == 0
  {
    if |b| > 1 {
      WordsStep(e, b);
      TotalZero(e, b[2..]);
      assert forall i | 2 <= i < |b| :: b[i] == b[2..][i - 2];
    }
  }

  /** The sum is 0 only for all-zero buffers, and otherwise the representative in 1..65535 of the integer sum. */
  lemma SumRepresentsTotal(e: Endian, b: seq<byte>)
    ensures OnesSum(Words(e, b)) == 0 <==> forall i | 0 <= i < |b| :: b[i] == 0
    ensures OnesSum(Words(e, b)) % 0xFFFF == Total(Words(e, b)) % 0xFFFF
  {
    OnesSumIsCanon(Words(e, b));
    TotalZero(e, b);
  }

  /** Summing in the other byte order yields the same sum with its bytes swapped. */
  lemma SumIsByteOrderIndependent(b: seq<byte>)
    ensures OnesSum(Words(Big, b)) == Swap(OnesSum(Words(Little, b)))
  {
    var tl, tb := Total(Words(Little, b)), Total(Words(Big, b));
    OnesSumIsCanon(Words(Little, b));
    OnesSumIsCanon(Words(Big, b));
    SwappedTotal(b);
    TotalZero(Little, b);
    TotalZero(Big, b);
    if tl > 0 {
      var w := Canon(tl);
      var q := (tl - 1) / 0xFFFF;
      assert tl == w + 0xFFFF * q;
      assert 0x100 * w == Swap(w) + 0xFFFF * (w / 0x100);
      CanonUnique(tb, Swap(w), w / 0x100 + 0x100 * q - SecondBytes(b));
    }
  }

  /** So the checksum bytes stored in a message do not depend on the host. */
  lemma ChecksumBytesAreByteOrderIndependent(b: seq<byte>)
    ensures Store(Little, Checksum(Little, b)) == Store(Big, Checksum(Big, b))
  {
    SumIsByteOrderIndependent(b);
    SwapComplement(OnesSum(Words(Little, b)));
  }

  lemma SwapComplement(w: u16)
    ensures Store(Big, 0xFFFF - Swap(w)) == Store(Little, 0xFFFF - w)
  {
    var hi, lo := w / 0x100, w % 0x100;
    assert 0xFFFF - w == 0x100 * (0xFF - hi) + (0xFF - lo);
    assert 0xFFFF - Swap(w) == 0x100 * (0xFF - lo) + (0xFF - hi);
  }

  // ---------------------------------------------------------------------------
  // Error detection
  // ---------------------------------------------------------------------------

  lemma {:induction false} TotalConcat(e: Endian, a: seq<byte>, b: seq<byte>)
    requires |a| % 2 == 0
    ensures Total(Words(e, a + b)) == Total(Words(e, a)) + Total(Words(e, b))
  {
    if a == [] {
      assert a + b == b;
    } else {
      WordsStep(e, a);
      WordsStep(e, a + b);
      assert (a + b)[2..] == a[2..] + b;
      TotalConcat(e, a[2..], b);
    }
  }

  /** What complementing v adds to it: an odd number between -255 and 255. */
  ghost function Shift(v: byte): int {
    0xFF - 2 * (v as int)
  }

  /** Complementing one byte moves the integer sum by an odd amount, scaled by 1 or 256. */
  lemma {:induction false} ComplementedTotal(e: Endian, b: seq<byte>, i: nat)
    requires i < |b|
    ensures var d := Total(Words(e, b[i := Complement(b[i])])) - Total(Words(e, b));
            d == Shift(b[i]) || d == 0x100 * Shift(b[i])
  {
    var c := b[i := Complement(b[i])];
    if |b| > 1 {
      WordsStep(e, b);
      WordsStep(e, c);
      if i < 2 {
        assert c[2..] == b[2..];
      } else {
        assert c[2..] == b[2..][i - 2 := Complement(b[i])];
        ComplementedTotal(e, b[2..], i - 2);
      }
    }
  }

  /** A buffer verifies exactly if its integer sum is a positive multiple of 65535. */
  lemma VerifiesIff(e: Endian, b: seq<byte>)
    ensures Checksum(e, b) == 0 <==> Total(Words(e, b)) > 0 && Total(Words(e, b)) % 0xFFFF == 0
  {
    OnesSumIsCanon(Words(e, b));
  }

  /** Complementing any one byte of a buffer that verifies yields one that does not. */
  lemma ComplementIsDetected(e: Endian, b: seq<byte>, i: nat)
    requires i < |b| && Checksum(e, b) == 0
    ensures Checksum(e, b[i := Complement(b[i])]) != 0
  {
    VerifiesIff(e, b);
    VerifiesIff(e, b[i := Complement(b[i])]);
    ComplementedTotal(e, b, i);
    ShiftLeavesTheMultiples(Total(Words(e, b)), b[i]);
  }

  lemma ShiftLeavesTheMultiples(total: nat, v: byte)
    requires total % 0xFFFF == 0
    ensures (total + Shift(v)) % 0xFFFF != 0
    ensures (total + 0x100 * Shift(v)) % 0xFFFF != 0
  {
    var k := total / 0xFFFF;
    assert total == 0xFFFF * k;
  }
}
