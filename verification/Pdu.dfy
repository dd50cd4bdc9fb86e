/** Building and reading PDUs (src/pduHelpers.c): 4 bytes of sequence number, 2 of checksum, 1 of flag, payload. */
module Pdu {
  import opened Bytes
  import opened InternetChecksum
  import opened Protocol

  const CRC_GOOD: int := 0
  const CRC_ERROR: int := -1

  /** A datagram as either end can send or receive it in the transfer phase. */
  type Frame = f: seq<byte> | PDU_HEADER_SIZE <= |f| <= MAX_PDU_SIZE
    witness seq(PDU_HEADER_SIZE, _ => 0)

  function Layout(seqNum: u32, check: seq<byte>, flag: byte, payload: seq<byte>): (b: seq<byte>)
    requires |check| == 2
    ensures |b| == PDU_HEADER_SIZE + |payload|
  {
    BE32(seqNum) + check + [flag] + payload
  }

  function Encode(e: Endian, p: Packet): Frame {
    Layout(p.seqNum, Store(e, Checksum(e, Layout(p.seqNum, [0, 0], p.flag, p.payload))), p.flag, p.payload)
  }

  /** What a receiving end makes of a datagram. */
  function Decode(e: Endian, f: Frame): Msg {
    if Checksum(e, f) == 0
    then Good(Packet(FromBE32(f[..4]), f[6], f[PDU_HEADER_SIZE..]))
    else Corrupt
  }

  // ---------------------------------------------------------------------------
  // Round trip, error detection and byte-order independence
  // ---------------------------------------------------------------------------

  lemma TotalOfLayout(e: Endian, seqNum: u32, w: u16, flag: byte, payload: seq<byte>)
    ensures Total(Words(e, Layout(seqNum, Store(e, w), flag, payload)))
         == w + Total(Words(e, Layout(seqNum, [0, 0], flag, payload)))
  {
    var head, tail := BE32(seqNum), [flag] + payload;
    assert Layout(seqNum, Store(e, w), flag, payload) == head + (Store(e, w) + tail);
    assert Layout(seqNum, [0, 0], flag, payload) == head + ([0, 0] + tail);
    TotalConcat(e, head, Store(e, w) + tail);
    TotalConcat(e, head, [0, 0] + tail);
    TotalConcat(e, Store(e, w), tail);
    TotalConcat(e, [0, 0], tail);
    StoredWord(e, w);
    StoredWord(e, 0);
  }

  lemma StoredWord(e: Endian, w: u16)
    ensures Total(Words(e, Store(e, w))) == w
  {
    WordsStep(e, Store(e, w));
    assert Store(e, w)[2..] == [];
  }

  /** createPDU fills in the checksum with which the whole PDU verifies. */
  lemma EncodedVerifies(e: Endian, p: Packet)
    ensures Checksum(e, Encode(e, p)) == 0
  {
    var plain := Layout(p.seqNum, [0, 0], p.flag, p.payload);
    var w := Checksum(e, plain);
    TotalOfLayout(e, p.seqNum, w, p.flag, p.payload);
    OnesSumIsCanon(Words(e, plain));
    VerifiesIff(e, Encode(e, p));
    CanonComplement(Total(Words(e, plain)));
  }

  lemma CanonComplement(n: nat)
    ensures (n + 0xFFFF - Canon(n)) % 0xFFFF == 0 && n + 0xFFFF - Canon(n) > 0
  {
    if n > 0 {
      var q := (n - 1) / 0xFFFF;
      assert n == Canon(n) + 0xFFFF * q;
      assert n + 0xFFFF - Canon(n) == 0xFFFF * (q + 1);
    }
  }

  lemma EncodeIsByteOrderIndependent(e: Endian, e': Endian, p: Packet)
    ensures Encode(e, p) == Encode(e', p)
  {
    ChecksumBytesAreByteOrderIndependent(Layout(p.seqNum, [0, 0], p.flag, p.payload));
  }

  /**
   * Round trip, between hosts of any byte orders: for every 32-bit sequence number,
   * 8-bit flag and payload of up to 1400 bytes the receiver reads what was sent.
   */
  lemma RoundTrip(sender: Endian, receiver: Endian, p: Packet)
    ensures Decode(receiver, Encode(sender, p)) == Good(p)
  {
    EncodeIsByteOrderIndependent(sender, receiver, p);
    EncodedVerifies(receiver, p);
    BE32RoundTrip(p.seqNum);
    var f := Encode(receiver, p);
    assert f[..4] == BE32(p.seqNum);
    assert f[PDU_HEADER_SIZE..] == p.payload;
  }

  /** What is on the wire: network byte order, the flag behind the checksum, the payload behind the header. */
  lemma WireFormat(e: Endian, p: Packet)
    ensures var f := Encode(e, p);
      && |f| == 7 + |p.payload|
      && 0x100_0000 * (f[0] as int) + 0x1_0000 * (f[1] as int) + 0x100 * (f[2] as int) + f[3] == p.seqNum
      && f[6] == p.flag && f[7..] == p.payload
  {
    BE32RoundTrip(p.seqNum);
    var f := Encode(e, p);
    assert f[..4] == BE32(p.seqNum);
    assert forall i | 0 <= i < 4 :: f[i] == f[..4][i];
    hide Checksum;
    assert f[PDU_HEADER_SIZE..] == p.payload;
  }

  /** The flags of include/sharedConstants.h as they appear on the wire. */
  lemma FlagBytes(e: Endian, n: u32, payload: Payload)
    ensures Encode(e, Packet(n, RR, payload))[6] == 5 && Encode(e, Packet(n, SREJ, payload))[6] == 6
    ensures Encode(e, Packet(n, END_OF_FILE, payload))[6] == 10 && Encode(e, Packet(n, EOF_ACK, payload))[6] == 35
    ensures Encode(e, Packet(n, DATA, payload))[6] == 16
    ensures Encode(e, Packet(n, RESENT_DATA_SREJ, payload))[6] == 17
    ensures Encode(e, Packet(n, RESENT_DATA_TIMEOUT, payload))[6] == 18
  {
    hide Encode;
    WireFormat(e, Packet(n, RR, payload));
    WireFormat(e, Packet(n, SREJ, payload));
    WireFormat(e, Packet(n, END_OF_FILE, payload));
    WireFormat(e, Packet(n, EOF_ACK, payload));
    WireFormat(e, Packet(n, DATA, payload));
    WireFormat(e, Packet(n, RESENT_DATA_SREJ, payload));
    WireFormat(e, Packet(n, RESENT_DATA_TIMEOUT, payload));
  }

  /** Wherever one byte of a PDU is complemented, the receiver sees CRC_ERROR. */
  lemma CorruptionIsDetected(sender: Endian, receiver: Endian, p: Packet, i: nat)
    requires i < |Encode(sender, p)|
    ensures var f := Encode(sender, p);
            Decode(receiver, f[i := Complement(f[i])]) == Corrupt
  {
    EncodeIsByteOrderIndependent(sender, receiver, p);
    EncodedVerifies(receiver, p);
    ComplementIsDetected(receiver, Encode(receiver, p), i);
  }

  // ---------------------------------------------------------------------------
  // The code itself, over byte buffers
  // ---------------------------------------------------------------------------

  /** The buffer b after src has been copied over it at an offset. */
  function Overwrite(b: seq<byte>, at: nat, src: seq<byte>): (r: seq<byte>)
    requires at + |src| <= |b|
    ensures |r| == |b|
  {
    b[..at] + src + b[at + |src|..]
  }

  method Memcpy(dst: array<byte>, at: nat, src: seq<byte>)
    requires at + |src| <= dst.Length
    modifies dst
    ensures dst[..] == Overwrite(old(dst[..]), at, src)
  {
    for i := 0 to |src|
      invariant dst[..at] == old(dst[..at])
      invariant dst[at..at + i] == src[..i]
      invariant dst[at + i..] == old(dst[at + i..])
    {
      dst[at + i] := src[i];
      assert dst[at..at + i + 1] == dst[at..at + i] + [src[i]];
    }
    assert dst[..] == dst[..at] + dst[at..at + |src|] + dst[at + |src|..];
  }

  lemma LayoutByParts(b: seq<byte>, seqNum: u32, check: seq<byte>, flag: byte, payload: seq<byte>)
    requires |check| == 2 && |b| >= PDU_HEADER_SIZE + |payload|
    ensures Overwrite(Overwrite(Overwrite(Overwrite(b, 0, BE32(seqNum)), 4, check), 6, [flag]),
                      PDU_HEADER_SIZE, payload)
         == Layout(seqNum, check, flag, payload) + b[PDU_HEADER_SIZE + |payload|..]
  {
    var b1 := Overwrite(b, 0, BE32(seqNum));
    assert b1 == BE32(seqNum) + b[4..];
    var b2 := Overwrite(b1, 4, check);
    assert b2 == BE32(seqNum) + check + b[6..];
    var b3 := Overwrite(b2, 6, [flag]);
    assert b3 == BE32(seqNum) + check + [flag] + b[7..];
  }

  lemma LayoutWithCheck(seqNum: u32, check: seq<byte>, check': seq<byte>, flag: byte, payload: seq<byte>,
                        rest: seq<byte>)
    requires |check| == |check'| == 2
    ensures Overwrite(Layout(seqNum, check, flag, payload) + rest, 4, check')
         == Layout(seqNum, check', flag, payload) + rest
  {
  }

  /** Writes the PDU to the front of the buffer and leaves the rest of it alone. */
  method CreatePDU(pduBuffer: array<byte>, p: Packet, e: Endian) returns (pduLength: nat)
    requires pduBuffer.Length >= PDU_HEADER_SIZE + |p.payload|
    modifies pduBuffer
    ensures pduLength == PDU_HEADER_SIZE + |p.payload|
    ensures pduBuffer[..] == Encode(e, p) + old(pduBuffer[pduLength..])
    ensures 0x100_0000 * (pduBuffer[0] as int) + 0x1_0000 * (pduBuffer[1] as int) + 0x100 * (pduBuffer[2] as int)
            + pduBuffer[3] == p.seqNum
    ensures pduBuffer[6] == p.flag && pduBuffer[7..pduLength] == p.payload
  {
    pduLength := 4 + 2 + 1 + |p.payload|;
    Memcpy(pduBuffer, 0, BE32(p.seqNum));
    Memcpy(pduBuffer, 4, Store(e, 0));
    Memcpy(pduBuffer, 6, [p.flag]);
    Memcpy(pduBuffer, PDU_HEADER_SIZE, p.payload);
    LayoutByParts(old(pduBuffer[..]), p.seqNum, [0, 0], p.flag, p.payload);
    ghost var plain := Layout(p.seqNum, [0, 0], p.flag, p.payload);
    assert pduBuffer[..] == plain + old(pduBuffer[..])[pduLength..];
    assert pduBuffer[..pduLength] == plain;
    var checkSum := InCksum(pduBuffer, pduLength, e);
    Memcpy(pduBuffer, 4, Store(e, checkSum));
    LayoutWithCheck(p.seqNum, [0, 0], Store(e, checkSum), p.flag, p.payload, old(pduBuffer[..])[pduLength..]);
    assert old(pduBuffer[..])[pduLength..] == old(pduBuffer[pduLength..]);
    WireFormat(e, p);
    assert pduBuffer[..pduLength] == Encode(e, p);
    assert forall i | 0 <= i < pduLength :: pduBuffer[i] == pduBuffer[..pduLength][i];
    assert pduBuffer[7..pduLength] == pduBuffer[..pduLength][7..];
  }

  method CheckChecksum(aPDU: array<byte>, pduLength: nat, e: Endian) returns (status: int)
    requires pduLength <= 0x1_0000 && pduLength <= aPDU.Length
    ensures status == if Checksum(e, aPDU[..pduLength]) == 0 then CRC_GOOD else CRC_ERROR
  {
    var checkSum := InCksum(aPDU, pduLength, e);
    status := if checkSum == 0 then CRC_GOOD else CRC_ERROR;
  }

  /**
   * The header fields are read even if the checksum is bad, and the length of a datagram
   * too short for a header is negative.
   */
  method RetrieveHeader(pdu: array<byte>, pduLen: nat, e: Endian)
    returns (payloadLen: int, flag: byte, seqNum: u32, checksumStatus: int)
    requires pduLen <= MAX_PDU_SIZE && pduLen <= pdu.Length && PDU_HEADER_SIZE <= pdu.Length
    ensures PDU_HEADER_SIZE + payloadLen == pduLen
    ensures checksumStatus == if Checksum(e, pdu[..pduLen]) == 0 then CRC_GOOD else CRC_ERROR
    ensures payloadLen >= 0 ==>
              Decode(e, pdu[..pduLen]) ==
              if checksumStatus == CRC_GOOD then Good(Packet(seqNum, flag, pdu[PDU_HEADER_SIZE..pduLen])) else Corrupt
    ensures seqNum == 0x100_0000 * (pdu[0] as int) + 0x1_0000 * (pdu[1] as int) + 0x100 * (pdu[2] as int) + pdu[3]
    ensures flag == pdu[6]
  {
    checksumStatus := CheckChecksum(pdu, pduLen, e);
    seqNum := FromBE32(pdu[..4]);
    flag := pdu[6];
    payloadLen := pduLen - PDU_HEADER_SIZE;
    if payloadLen >= 0 {
      assert pdu[..pduLen][..4] == pdu[..4];
      assert pdu[..pduLen][PDU_HEADER_SIZE..] == pdu[PDU_HEADER_SIZE..pduLen];
    }
  }

  /** sendPDU: the datagram handed to the network. */
  method SendPDU(p: Packet, e: Endian) returns (datagram: Frame)
    ensures datagram == Encode(e, p)
  {
    var pdu := new byte[MAX_PDU_SIZE](_ => 0);
    var pduLen := CreatePDU(pdu, p, e);
    datagram := pdu[..pduLen];
  }

  /** retrievePDU: a received datagram is copied into a buffer and read from there. */
  method RetrievePDU(datagram: Frame, e: Endian) returns (m: Msg)
    ensures m == Decode(e, datagram)
  {
    var pdu := new byte[MAX_PDU_SIZE](_ => 0);
    Memcpy(pdu, 0, datagram);
    assert pdu[..|datagram|] == datagram;
    var payloadLen, flag, seqNum, checksumResult := RetrieveHeader(pdu, |datagram|, e);
    m := if checksumResult == CRC_ERROR then Corrupt
         else Good(Packet(seqNum, flag, pdu[PDU_HEADER_SIZE..|datagram|]));
  }
}
