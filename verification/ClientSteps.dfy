/** The client's half of the invariant, kept by every PDU it may receive. */
module ClientSteps {
  import opened Bytes
  import opened Protocol
  import opened Rings
  import opened ReorderBuffer
  import opened Rcopy
  import opened Chunks
  import opened Invariant

  /** What a reply of the client carries: its expected sequence number, or the news that it is done. */
  ghost predicate ReplyOk(c: Client, p: Packet) {
    || (p.flag == RR && Target(p.payload) == c.expected)
    || (p.flag == SREJ && Target(p.payload) == c.expected && c.state == Buffering)
    || (p.flag == EOF_ACK && c.state == Finished)
  }

  ghost predicate ClientAdvances(c: Client, c': Client) {
    && |c'.ring| == |c.ring|
    && c.expected <= c'.expected
    && High(c) <= High(c')
    && c.highest <= c'.highest
    && c.output <= c'.output
  }

  // ---------------------------------------------------------------------------
  // Flushing
  // ---------------------------------------------------------------------------

  /** The client inside flush(): like BUFFER, but expected may itself be buffered already. */
  ghost predicate Draining(chunks: seq<Payload>, c: Client) {
    && c.state == Buffering
    && c.expected <= c.highest + 1 <= |chunks| < 0x8000_0000
    && c.highest < c.expected + |c.ring|
    && c.output == Flatten(chunks[..c.expected])
    && Placed(c.ring)
    && (forall i | 0 <= i < |c.ring| && c.ring[i].valid ::
          c.expected <= c.ring[i].seqNum <= c.highest && SlotOk(chunks, c.ring[i]))
    && (c.expected <= c.highest ==>
          SlotOf(c.ring, c.highest).valid && SlotOf(c.ring, c.highest).seqNum == c.highest)
  }

  /** The slot read is the chunk expected, although its sequence number is not looked at. */
  lemma DrainReadsExpected(chunks: seq<Payload>, c: Client)
    requires Draining(chunks, c) && CanDrain(c)
    ensures var slot := SlotOf(c.ring, c.expected);
      slot.seqNum == c.expected && slot.data == chunks[c.expected] && IsData(slot.flag)
  {
    var slot := SlotOf(c.ring, c.expected);
    if slot.seqNum != c.expected {
      IndexInjective(c.expected, slot.seqNum, |c.ring|);
    }
  }

  lemma DrainOneOk(chunks: seq<Payload>, c: Client)
    requires Draining(chunks, c) && CanDrain(c)
    ensures Draining(chunks, DrainOne(c))
    ensures DrainOne(c).expected == c.expected + 1
  {
    DrainReadsExpected(chunks, c);
    FlattenSnoc(chunks, c.expected);
    var c' := DrainOne(c);
    var i0 := Index(c.expected, |c.ring|);
    forall i | 0 <= i < |c'.ring| && c'.ring[i].valid
      ensures c'.expected <= c'.ring[i].seqNum <= c'.highest && SlotOk(chunks, c'.ring[i])
    {
      assert i != i0 && c'.ring[i] == c.ring[i];
    }
    if c.expected < c.highest {
      IndexInjective(c.expected, c.highest, |c.ring|);
    }
  }

  lemma {:induction false} DrainOk(chunks: seq<Payload>, c: Client)
    requires Draining(chunks, c)
    ensures var c' := Drain(c);
      && Draining(chunks, c')
      && !CanDrain(c')
      && c.expected <= c'.expected && c'.highest == c.highest
    decreases c.highest + 1 - c.expected
  {
    if CanDrain(c) {
      DrainOneOk(chunks, c);
      DrainOk(chunks, DrainOne(c));
    }
  }

  /** After the loop either everything buffered has been written, or a gap is left below highest. */
  lemma FlushOk(chunks: seq<Payload>, c: Client)
    requires Draining(chunks, c)
    ensures var o := Flush(c);
      && ClientOk(chunks, o.client) && o.client.state != Finished
      && c.expected <= o.client.expected && o.client.highest == c.highest == High(o.client)
      && (o.client.state == InOrder <==> o.client.expected == c.highest + 1)
      && (forall p | p in o.sent :: ReplyOk(o.client, p))
      && o.sent != [] && o.sent[0].flag == RR
  {
    DrainOk(chunks, c);
    TargetOfBE32(Drain(c).expected);
    var d := Drain(c);
    forall i | 0 <= i < |d.ring| && d.ring[i].valid
      ensures d.expected < d.ring[i].seqNum
    {
      assert Index(d.ring[i].seqNum, |d.ring|) == i;
    }
  }

  // ---------------------------------------------------------------------------
  // Receiving
  // ---------------------------------------------------------------------------

  /** What the client may be handed, and that it fits the reorder ring. */
  ghost predicate Arrives(chunks: seq<Payload>, c: Client, m: Msg, current: nat, eof: bool) {
    && FwdMsgOk(chunks, m, current, c.expected, High(c), eof)
    && c.expected <= current <= c.expected + |c.ring|
    && current <= |chunks|
    && High(c) < current
    && (eof ==> c.expected == |chunks|)
  }

  lemma AddOk(chunks: seq<Payload>, c: Client, p: Packet, current: nat)
    requires ClientOk(chunks, c) && Arrives(chunks, c, Good(p), current, false)
    requires p.flag != END_OF_FILE && p.seqNum > c.expected
    ensures ClientOk(chunks, c.(highest := p.seqNum, ring := Add(c.ring, p), state := Buffering))
    ensures p.seqNum > High(c)
  {
    var c' := c.(highest := p.seqNum, ring := Add(c.ring, p), state := Buffering);
    var i0 := Index(p.seqNum, |c.ring|);
    forall i | 0 <= i < |c'.ring| && c'.ring[i].valid
      ensures Index(c'.ring[i].seqNum, |c'.ring|) == i
      ensures c'.expected < c'.ring[i].seqNum <= High(c') && SlotOk(chunks, c'.ring[i])
    {
      if i != i0 {
        assert c'.ring[i] == c.ring[i];
      }
    }
  }

  lemma InOrderOk(chunks: seq<Payload>, c: Client, p: Packet, current: nat, eof: bool)
    requires ClientOk(chunks, c) && c.state == InOrder && Arrives(chunks, c, Good(p), current, eof)
    ensures var o := InOrderStep(c, p);
      && ClientOk(chunks, o.client)
      && ClientAdvances(c, o.client)
      && High(o.client) < current && o.client.expected <= current
      && High(o.client) == (if p.flag == END_OF_FILE || p.seqNum < c.expected then High(c) else p.seqNum)
      && (o.client.state == Finished <==> p.flag == END_OF_FILE)
      && (forall r | r in o.sent :: ReplyOk(o.client, r))
      && (p.seqNum == c.expected && p.flag != END_OF_FILE ==> c.expected < o.client.expected)
      && (p.seqNum <= c.expected && p.flag != END_OF_FILE ==> o.sent != [] && o.sent[0].flag == RR)
  {
    TargetOfBE32(InOrderStep(c, p).client.expected);
    if p.seqNum == c.expected && p.flag != END_OF_FILE {
      FlattenSnoc(chunks, c.expected);
      NothingBuffered(chunks, c);
    } else if p.seqNum > c.expected {
      AddOk(chunks, c, p, current);
    }
  }

  lemma NothingBuffered(chunks: seq<Payload>, c: Client)
    requires ClientOk(chunks, c) && c.state != Buffering
    ensures forall i | 0 <= i < |c.ring| :: !c.ring[i].valid
  {
  }

  /** The PDU that was missing has been written; what follows it in the ring is flushed next. */
  lemma WriteIsDraining(chunks: seq<Payload>, c: Client, p: Packet, current: nat, eof: bool)
    requires ClientOk(chunks, c) && c.state == Buffering && Arrives(chunks, c, Good(p), current, eof)
    requires p.seqNum == c.expected
    ensures Draining(chunks, Write(c, p.payload)) && Write(c, p.payload).expected == c.expected + 1
  {
    FlattenSnoc(chunks, c.expected);
  }

  lemma BufferOk(chunks: seq<Payload>, c: Client, p: Packet, current: nat, eof: bool)
    requires ClientOk(chunks, c) && c.state == Buffering && Arrives(chunks, c, Good(p), current, eof)
    ensures p.flag != END_OF_FILE
    ensures var o := BufferStep(c, p);
      && ClientOk(chunks, o.client)
      && ClientAdvances(c, o.client)
      && High(o.client) < current && o.client.expected <= current
      && High(o.client) == (if p.seqNum <= c.expected then High(c) else p.seqNum)
      && o.client.state != Finished
      && (forall r | r in o.sent :: ReplyOk(o.client, r))
      && (p.seqNum == c.expected && p.flag != END_OF_FILE ==> c.expected < o.client.expected)
      && (p.seqNum <= c.expected && p.flag != END_OF_FILE ==> o.sent != [] && o.sent[0].flag == RR)
  {
    TargetOfBE32(c.expected);
    if p.seqNum == c.expected {
      var w := Write(c, p.payload);
      WriteIsDraining(chunks, c, p, current, eof);
      FlushOk(chunks, w);
      DrainExtends(w);
    } else if p.seqNum > c.expected {
      AddOk(chunks, c, p, current);
    }
  }

  lemma {:induction false} DrainExtends(c: Client)
    ensures c.output <= Drain(c).output
    decreases ValidSlots(c.ring)
  {
    if c.state != Finished && CanDrain(c) {
      InvalidatingASlot(c.ring, Index(c.expected, |c.ring|));
      DrainExtends(DrainOne(c));
    }
  }
}
