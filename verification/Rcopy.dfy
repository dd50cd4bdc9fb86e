/** The client's receiving state machine (src/rcopy.c), one received PDU at a time. */
module Rcopy {
  import opened Bytes
  import opened Protocol
  import opened ReorderBuffer
  import Rings
  import opened InternetChecksum
  import opened Pdu

  /** FLUSH is only ever passed from buffer() to flush() within one call of receiveData(). */
  datatype DataState = InOrder | Buffering | Finished

  datatype Client = Client(state: DataState, expected: u32, highest: u32, ring: Ring,
                           output: seq<byte>, clientSeqNum: u32)

  function NewClient(windowSize: nat, clientSeqNum: u32): Client
    requires windowSize > 0
  {
    Client(InOrder, START_SEQ_NUM, START_SEQ_NUM, NewRing(windowSize), [], clientSeqNum)
  }

  /** The client after a call, and the PDUs it sent. */
  datatype Outcome = Outcome(client: Client, sent: seq<Packet>) {
    function Reply(flag: byte, payload: Payload): Outcome {
      Outcome(client.(clientSeqNum := Inc32(client.clientSeqNum)),
              sent + [Packet(client.clientSeqNum, flag, payload)])
    }

    function Prepend(before: seq<Packet>): Outcome {
      Outcome(client, before + sent)
    }

    function SendRR(): Outcome {
      Reply(RR, BE32(client.expected))
    }

    function SendSREJ(): Outcome {
      Reply(SREJ, BE32(client.expected))
    }
  }

  function Write(c: Client, data: Payload): Client {
    c.(output := c.output + data, expected := Inc32(c.expected))
  }

  function InOrderStep(c: Client, p: Packet): Outcome {
    if p.seqNum == c.expected then
      if p.flag == END_OF_FILE then Outcome(c.(state := Finished), [])
      else Outcome(Write(c.(highest := p.seqNum), p.payload), []).SendRR()
    else if p.seqNum > c.expected then
      Outcome(c.(highest := p.seqNum, ring := Add(c.ring, p), state := Buffering), []).SendSREJ()
    else Outcome(c, []).SendRR()
  }

  function BufferStep(c: Client, p: Packet): Outcome {
    if p.seqNum == c.expected then
      if p.flag == END_OF_FILE then Outcome(c.(state := Finished), [])
      else Flush(Write(c, p.payload))
    else if p.seqNum > c.expected then
      Outcome(c.(highest := p.seqNum, ring := Add(c.ring, p)), [])
    else Outcome(c, []).SendRR().SendSREJ()
  }

  /** The test of flush()'s loop; the read invalidates the slot. */
  predicate CanDrain(c: Client) {
    c.expected <= c.highest && SlotOf(c.ring, c.expected).valid
  }

  function DrainOne(c: Client): Client
    requires CanDrain(c)
  {
    var slot := SlotOf(c.ring, c.expected);
    var c' := c.(ring := Remove(c.ring, c.expected));
    if slot.flag == END_OF_FILE then c'.(state := Finished) else Write(c', slot.data)
  }

  function ValidSlots(ring: seq<RingSlot>): nat {
    if ring == [] then 0 else (if ring[0].valid then 1 else 0) + ValidSlots(ring[1..])
  }

  lemma {:induction false} InvalidatingASlot(ring: seq<RingSlot>, i: nat)
    requires i < |ring| && ring[i].valid
    ensures ValidSlots(ring[i := ring[i].(valid := false)]) == ValidSlots(ring) - 1
  {
    var ring' := ring[i := ring[i].(valid := false)];
    if i == 0 {
      assert ring'[1..] == ring[1..];
    } else {
      assert ring'[1..] == ring[1..][i - 1 := ring[i].(valid := false)];
      InvalidatingASlot(ring[1..], i - 1);
    }
  }

  /** flush()'s loop: write out buffered PDUs from expected on for as long as they are there. */
  function Drain(c: Client): (c': Client)
    ensures |c'.ring| == |c.ring|
    decreases ValidSlots(c.ring)
  {
    if c.state != Finished && CanDrain(c) then
      InvalidatingASlot(c.ring, Rings.Index(c.expected, |c.ring|));
      Drain(DrainOne(c))
    else c
  }

  function Flush(c: Client): Outcome {
    var c := Drain(c);
    if c.state == Finished then Outcome(c, [])
    else if c.expected < c.highest then Outcome(c.(state := Buffering), []).SendRR().SendSREJ()
    else Outcome(c.(state := InOrder), []).SendRR()
  }

  /** receiveData() */
  function ReceiveData(c: Client, m: Msg): Outcome {
    if m == Corrupt then Outcome(c, [])
    else if c.state == InOrder then InOrderStep(c, m.packet)
    else BufferStep(c, m.packet)
  }

  /** receiveData(), and sendEOFAck() if that is the state it leads to. */
  function Receive(c: Client, m: Msg): (o: Outcome)
    requires c.state != Finished
    ensures |o.client.ring| == |c.ring| && |o.sent| <= 2
  {
    var o := ReceiveData(c, m);
    if o.client.state == Finished then o.Reply(EOF_ACK, []) else o
  }

  // ---------------------------------------------------------------------------
  // The code itself
  // ---------------------------------------------------------------------------

  /** The static variables of receiveData(), the output file, and everything put on the network. */
  class RcopyClient {
    const ring: RingBuffer
    var dataState: DataState
    var expectedSeqNum: u32
    var highestSeqNum: u32
    var clientSeqNum: u32
    var output: seq<byte>
    var sent: seq<Packet>

    ghost predicate Valid() {
      ring.Valid()
    }

    ghost function View(): Client
      requires Valid()
      reads this, ring.buffer
    {
      Client(dataState, expectedSeqNum, highestSeqNum, ring.View(), output, clientSeqNum)
    }

    /** The client, were its data state the given one, with all it has sent. */
    ghost function Out(next: DataState): Outcome
      requires Valid()
      reads this, ring.buffer
    {
      Outcome(View().(state := next), sent)
    }

    constructor (windowSize: nat, clientSeqNum: u32)
      requires windowSize > 0
      ensures Valid() && fresh(ring) && fresh(ring.buffer)
      ensures View() == NewClient(windowSize, clientSeqNum) && sent == []
    {
      ring := new RingBuffer.SetupBuffer(windowSize);
      dataState, expectedSeqNum, highestSeqNum := InOrder, START_SEQ_NUM, START_SEQ_NUM;
      this.clientSeqNum, output, sent := clientSeqNum, [], [];
    }

    method SendReply(flag: byte, payload: Payload)
      requires Valid()
      modifies this`clientSeqNum, this`sent
      ensures Out(dataState) == old(Out(dataState)).Reply(flag, payload)
    {
      sent := sent + [Packet(clientSeqNum, flag, payload)];
      clientSeqNum := Inc32(clientSeqNum);
    }

    method SendRR()
      requires Valid()
      modifies this`clientSeqNum, this`sent
      ensures Out(dataState) == old(Out(dataState)).SendRR()
    {
      SendReply(RR, BE32(expectedSeqNum));
    }

    method SendSREJ()
      requires Valid()
      modifies this`clientSeqNum, this`sent
      ensures Out(dataState) == old(Out(dataState)).SendSREJ()
    {
      SendReply(SREJ, BE32(expectedSeqNum));
    }

    method HandleInOrder(p: Packet) returns (next: DataState)
      requires Valid() && dataState == InOrder
      modifies this, ring.buffer
      ensures dataState == old(dataState)
      ensures Out(next) == InOrderStep(old(View()), p).Prepend(old(sent))
    {
      next := InOrder;
      if p.seqNum == expectedSeqNum {
        if p.flag == END_OF_FILE {
          return Finished;
        }
        highestSeqNum := p.seqNum;
        expectedSeqNum := Inc32(expectedSeqNum);
        output := output + p.payload;
        SendRR();
      } else if p.seqNum > expectedSeqNum {
        highestSeqNum := p.seqNum;
        ring.AddDatatoBuffer(p);
        SendSREJ();
        next := Buffering;
      } else {
        SendRR();
      }
    }

    /** Returns the next state, or that it is FLUSH. */
    method HandleBuffer(p: Packet) returns (next: DataState, flush: bool)
      requires Valid() && dataState == Buffering
      modifies this, ring.buffer
      ensures dataState == old(dataState)
      ensures !flush ==> Out(next) == BufferStep(old(View()), p).Prepend(old(sent))
      ensures flush ==> BufferStep(old(View()), p) == Flush(View()) && sent == old(sent)
    {
      next, flush := Buffering, false;
      if p.seqNum == expectedSeqNum {
        if p.flag == END_OF_FILE {
          return Finished, false;
        }
        expectedSeqNum := Inc32(expectedSeqNum);
        output := output + p.payload;
        flush := true;
      } else if p.seqNum > expectedSeqNum {
        highestSeqNum := p.seqNum;
        ring.AddDatatoBuffer(p);
      } else {
        SendRR();
        SendSREJ();
      }
    }

    method HandleFlush() returns (next: DataState)
      requires Valid() && dataState == Buffering
      modifies this, ring.buffer
      ensures dataState == old(dataState)
      ensures Out(next) == Flush(old(View())).Prepend(old(sent))
    {
      while expectedSeqNum <= highestSeqNum
        invariant dataState == Buffering && sent == old(sent)
        invariant Drain(View()) == Drain(old(View()))
        decreases ValidSlots(ring.View())
      {
        ghost var before := View();
        var dataValid, flag, data := ring.GetDataFromBuffer(expectedSeqNum);
        if !dataValid {
          break;
        }
        InvalidatingASlot(before.ring, Rings.Index(before.expected, |before.ring|));
        if flag == END_OF_FILE {
          return Finished;
        }
        expectedSeqNum := Inc32(expectedSeqNum);
        output := output + data;
        assert View() == DrainOne(before);
      }
      assert Drain(View()) == View();
      if expectedSeqNum < highestSeqNum {
        SendRR();
        SendSREJ();
        next := Buffering;
      } else {
        SendRR();
        next := InOrder;
      }
    }

    /** One call of receiveData() with the datagram received in the buffer; done asks for SEND_EOF_ACK. */
    method HandleData(pdu: array<byte>, pduLen: nat, e: Endian) returns (done: bool)
      requires Valid() && dataState != Finished
      requires PDU_HEADER_SIZE <= pduLen <= MAX_PDU_SIZE && pduLen <= pdu.Length
      modifies this, ring.buffer
      ensures Out(dataState) == ReceiveData(old(View()), Decode(e, pdu[..pduLen])).Prepend(old(sent))
      ensures done <==> dataState == Finished
    {
      hide InOrderStep, BufferStep, Flush, Decode;
      var payloadLen, flag, seqNum, checksumResult := RetrieveHeader(pdu, pduLen, e);
      if checksumResult == CRC_ERROR {
        return false;
      }
      var p := Packet(seqNum, flag, pdu[PDU_HEADER_SIZE..pduLen]);
      var flush := false;
      var next;
      if dataState == InOrder {
        next := HandleInOrder(p);
      } else {
        next, flush := HandleBuffer(p);
      }
      if flush {
        next := HandleFlush();
      }
      dataState := next;
      done := dataState == Finished;
    }

    /** RECV_DATA, followed by SEND_EOF_ACK where that comes next. */
    method Process(pdu: array<byte>, pduLen: nat, e: Endian) returns (done: bool)
      requires Valid() && dataState != Finished
      requires PDU_HEADER_SIZE <= pduLen <= MAX_PDU_SIZE && pduLen <= pdu.Length
      modifies this, ring.buffer
      ensures Out(dataState) == Receive(old(View()), Decode(e, pdu[..pduLen])).Prepend(old(sent))
      ensures done <==> dataState == Finished
    {
      done := HandleData(pdu, pduLen, e);
      if done {
        SendReply(EOF_ACK, []);
      }
    }
  }
}
