/** The constants and messages shared by both ends (include/sharedConstants.h). */
module Protocol {
  import opened Bytes

  const MAX_PAYLOAD_SIZE := 1400
  const PDU_HEADER_SIZE := 7
  const MAX_PDU_SIZE := MAX_PAYLOAD_SIZE + PDU_HEADER_SIZE
  const START_SEQ_NUM: u32 := 0
  const MAX_TRIES := 10

  const RR: byte := 5
  const SREJ: byte := 6
  const END_OF_FILE: byte := 10
  const DATA: byte := 16
  const RESENT_DATA_SREJ: byte := 17
  const RESENT_DATA_TIMEOUT: byte := 18
  const FNAME_OK_ACK: byte := 34
  const EOF_ACK: byte := 35

  /** Reads of the input file and the payloads of all PDUs fit MAX_PAYLOAD_SIZE. */
  type Payload = s: seq<byte> | |s| <= MAX_PAYLOAD_SIZE witness []

  datatype Packet = Packet(seqNum: u32, flag: byte, payload: Payload)

  /** What a receiver makes of a datagram: CRC_GOOD with its contents, or CRC_ERROR. */
  datatype Msg = Good(packet: Packet) | Corrupt

  predicate IsData(flag: byte) {
    flag == DATA || flag == RESENT_DATA_SREJ || flag == RESENT_DATA_TIMEOUT
  }

  predicate IsReceipt(flag: byte) {
    flag == RR || flag == SREJ
  }

  /** The sequence number an RR or SREJ carries; the receive buffer is zeroed beforehand. */
  function Target(payload: Payload): u32 {
    FromBE32(if |payload| < 4 then payload + seq(4 - |payload|, _ => 0) else payload[..4])
  }

  /** It is in network byte order, and bytes that are missing count as 0. */
  lemma TargetIsBigEndian(payload: Payload, b0: byte, b1: byte, b2: byte, b3: byte)
    requires b0 == (if |payload| > 0 then payload[0] else 0) && b1 == (if |payload| > 1 then payload[1] else 0)
    requires b2 == (if |payload| > 2 then payload[2] else 0) && b3 == (if |payload| > 3 then payload[3] else 0)
    ensures Target(payload) == 0x100_0000 * (b0 as int) + 0x1_0000 * (b1 as int) + 0x100 * (b2 as int) + b3
  {
  }

  lemma TargetOfBE32(n: u32)
    ensures Target(BE32(n)) == n
  {
    assert BE32(n)[..4] == BE32(n);
    BE32RoundTrip(n);
  }
}
