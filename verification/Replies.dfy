/** How the client numbers what it sends, and how it answers END_OF_FILE. */
module Replies {
  import opened Bytes
  import opened Protocol
  import opened ReorderBuffer
  import Rings
  import opened Rcopy
  import opened System
  import opened Invariant
  import opened ClientSteps
  import opened Preservation
  import opened Safety
  import opened Flushing

  /** The number k places after n, with the wrap-around of 32 bits. */
  function Plus32(n: u32, k: nat): u32 {
    (n + k) % 0x1_0000_0000
  }

  lemma Plus32Twice(n: u32, j: nat, k: nat)
    ensures Plus32(Plus32(n, j), k) == Plus32(n, j + k)
  {
  }

  /** PDUs numbered one after the other. */
  predicate Numbered(sent: seq<Packet>, n: u32) {
    forall i | 0 <= i < |sent| :: sent[i].seqNum == Plus32(n, i)
  }

  lemma NumberedConcat(a: seq<Packet>, b: seq<Packet>, n: u32)
    requires Numbered(a, n) && Numbered(b, Plus32(n, |a|))
    ensures Numbered(a + b, n)
  {
    forall i | 0 <= i < |a + b| ensures (a + b)[i].seqNum == Plus32(n, i) {
      if i >= |a| {
        Plus32Twice(n, |a|, i - |a|);
      }
    }
  }

  /** A reply that is not the last: RR or SREJ, with the number expected in four bytes. */
  predicate IsAnswer(c: Client, p: Packet) {
    IsReceipt(p.flag) && |p.payload| == 4 && Target(p.payload) == c.expected
  }

  /** The replies to one receipt: EOF_ACK without payload if the client is done, otherwise no EOF_ACK. */
  predicate RepliesTo(n: u32, o: Outcome) {
    && Numbered(o.sent, n) && o.client.clientSeqNum == Plus32(n, |o.sent|)
    && if o.client.state == Finished then o.sent == [Packet(n, EOF_ACK, [])]
       else forall p | p in o.sent :: IsAnswer(o.client, p)
  }

  lemma TwoAnswers(c: Client, first: bool, second: bool)
    requires c.state != Finished
    ensures var o1 := if first then Outcome(c, []).SendRR() else Outcome(c, []);
      RepliesTo(c.clientSeqNum, if second then o1.SendSREJ() else o1)
  {
    TargetOfBE32(c.expected);
  }

  lemma LastAnswer(c: Client)
    requires c.state == Finished
    ensures RepliesTo(c.clientSeqNum, Outcome(c, []).Reply(EOF_ACK, []))
  {
  }

  lemma FlushIsAnswered(w: Client)
    ensures var o := Flush(w);
      RepliesTo(w.clientSeqNum, if o.client.state == Finished then o.Reply(EOF_ACK, []) else o)
  {
    var d := Drain(w);
    DrainKeepsNumbering(w);
    hide Drain, RepliesTo;
    if d.state == Finished {
      LastAnswer(d);
    } else if d.expected < d.highest {
      TwoAnswers(d.(state := Buffering), true, true);
    } else {
      TwoAnswers(d.(state := InOrder), true, false);
    }
  }

  /** One receipt, whatever the client and whatever arrives. */
  lemma OneReceipt(c: Client, m: Msg)
    requires c.state != Finished
    ensures RepliesTo(c.clientSeqNum, Receive(c, m))
  {
    hide RepliesTo, Flush;
    if m == Corrupt {
      TwoAnswers(c, false, false);
    } else if m.packet.seqNum == c.expected && m.packet.flag == END_OF_FILE {
      LastAnswer(c.(state := Finished));
    } else if m.packet.seqNum == c.expected && c.state == InOrder {
      TwoAnswers(Write(c.(highest := m.packet.seqNum), m.packet.payload), true, false);
    } else if m.packet.seqNum == c.expected {
      FlushIsAnswered(Write(c, m.packet.payload));
    } else if m.packet.seqNum > c.expected {
      var buffered := c.(highest := m.packet.seqNum, ring := Add(c.ring, m.packet), state := Buffering);
      TwoAnswers(buffered, false, c.state == InOrder);
    } else {
      TwoAnswers(c, true, c.state == Buffering);
    }
  }

  /** END_OF_FILE for the number expected ends the transfer, and nothing else is touched. */
  lemma EofEnds(c: Client, p: Packet)
    requires c.state != Finished && p.flag == END_OF_FILE && p.seqNum == c.expected
    ensures Receive(c, Good(p)).client == c.(state := Finished, clientSeqNum := Plus32(c.clientSeqNum, 1))
  {
  }

  /** The same if it is found in the ring when that is flushed: what comes behind it is not written. */
  lemma BufferedEofEnds(c: Client)
    requires c.state == Buffering && c.expected <= c.highest
    requires var slot := c.ring[c.expected % |c.ring|]; slot.valid && slot.flag == END_OF_FILE
    ensures var i := c.expected % |c.ring|;
      Flush(c) == Outcome(c.(state := Finished, ring := c.ring[i := c.ring[i].(valid := false)]), [])
  {
    assert Drain(c) == DrainOne(c);
  }

  /** Nothing above highest is written, whatever the ring holds. */
  lemma FlushStopsAtHighest(c: Client)
    requires c.state == Buffering && c.expected > c.highest
    ensures var d := Flush(c).client; d == c.(state := InOrder, clientSeqNum := d.clientSeqNum)
  {
  }

  /** A PDU above the number expected takes its slot, and a gap that was not known is reported. */
  lemma EarlyArrival(c: Client, p: Packet)
    requires c.state != Finished && p.seqNum > c.expected
    ensures var o := Receive(c, Good(p));
      && o.client == c.(state := Buffering, highest := p.seqNum, clientSeqNum := o.client.clientSeqNum,
                        ring := c.ring[p.seqNum % |c.ring| := RingSlot(p.seqNum, p.flag, p.payload, true)])
      && |o.sent| == (if c.state == InOrder then 1 else 0) && forall q | q in o.sent :: q.flag == SREJ
  {
  }

  /** Data with the number expected is written; in BUFFER a flush follows. */
  lemma DueArrival(c: Client, p: Packet)
    requires c.state != Finished && p.seqNum == c.expected && p.flag != END_OF_FILE
    ensures var o, w := Receive(c, Good(p)), c.(output := c.output + p.payload, expected := Plus32(c.expected, 1));
      if c.state == Buffering then o == Flush(w) || o == Flush(w).Reply(EOF_ACK, [])
      else
        && o.client == w.(highest := p.seqNum, clientSeqNum := o.client.clientSeqNum)
        && |o.sent| == 1 && o.sent[0].flag == RR
  {
  }

  /** The flush writes what is in the slot of the number expected, whatever number is stored there. */
  lemma FlushGoesOn(c: Client)
    requires c.state == Buffering && c.expected <= c.highest
    requires var slot := c.ring[c.expected % |c.ring|]; slot.valid && slot.flag != END_OF_FILE
    ensures var i := c.expected % |c.ring|;
      Flush(c) == Flush(c.(output := c.output + c.ring[i].data, expected := Plus32(c.expected, 1),
                           ring := c.ring[i := c.ring[i].(valid := false)]))
  {
    DrainGoesOn(c);
    hide Drain;
  }

  lemma DrainGoesOn(c: Client)
    requires c.state == Buffering && CanDrain(c)
    requires SlotOf(c.ring, c.expected).flag != END_OF_FILE
    ensures var i := c.expected % |c.ring|;
      Drain(c) == Drain(c.(output := c.output + c.ring[i].data, expected := Plus32(c.expected, 1),
                           ring := c.ring[i := c.ring[i].(valid := false)]))
  {
    var d := DrainOne(c);
    assert Drain(c) == Drain(d);
    hide Drain;
  }

  /** It ends at a gap, and asks for it if anything is buffered behind. */
  lemma FlushEndsAtGap(c: Client)
    requires c.state == Buffering && !c.ring[c.expected % |c.ring|].valid
    ensures var o := Flush(c);
      && o.client == c.(state := if c.expected < c.highest then Buffering else InOrder,
                        clientSeqNum := o.client.clientSeqNum)
      && |o.sent| == (if c.expected < c.highest then 2 else 1)
      && o.sent[0].flag == RR && (c.expected < c.highest ==> o.sent[1].flag == SREJ)
  {
    assert Drain(c) == c;
  }

  /** All the client sends in a run. */
  function ClientSent(cfg: Config, s: State, actions: seq<Action>, t: State): seq<Packet>
    requires Run(cfg, s, actions, t)
    decreases |actions|
  {
    if actions == [] then []
    else
      (if actions[0].ClientReceive? then Receive(s.rcv, s.fwd[0]).sent else [])
      + ClientSent(cfg, Next(cfg, s, actions[0]), actions[1..], t)
  }

  lemma ClientOfNext(cfg: Config, s: State, a: Action)
    requires Enabled(cfg, s, a)
    ensures Next(cfg, s, a).rcv == if a.ClientReceive? then Receive(s.rcv, s.fwd[0]).client else s.rcv
    ensures a.ClientReceive? ==> s.fwd != [] && s.rcv.state != Finished
  {
  }

  predicate AllAnswers(sent: seq<Packet>) {
    forall p | p in sent :: IsReceipt(p.flag) && |p.payload| == 4
  }

  /** Nothing but RRs and SREJs, and once the client is done one EOF_ACK without payload behind them. */
  predicate Closed(sent: seq<Packet>, done: bool) {
    if !done then AllAnswers(sent)
    else
      && sent != [] && AllAnswers(sent[..|sent| - 1])
      && sent[|sent| - 1].flag == EOF_ACK && sent[|sent| - 1].payload == []
  }

  lemma ClosedConcat(a: seq<Packet>, b: seq<Packet>, done: bool)
    requires AllAnswers(a) && Closed(b, done)
    ensures Closed(a + b, done)
  {
    if done {
      assert (a + b)[..|a + b| - 1] == a + b[..|b| - 1];
    }
  }

  /** A stretch of the client's PDUs. */
  predicate Stretch(sent: seq<Packet>, c: Client, c': Client) {
    && Numbered(sent, c.clientSeqNum)
    && c'.clientSeqNum == Plus32(c.clientSeqNum, |sent|)
    && if c.state == Finished then sent == [] && c'.state == Finished else Closed(sent, c'.state == Finished)
  }

  lemma StretchConcat(a: seq<Packet>, b: seq<Packet>, c: Client, c': Client, c'': Client)
    requires Stretch(a, c, c') && Stretch(b, c', c'')
    ensures Stretch(a + b, c, c'')
  {
    Plus32Twice(c.clientSeqNum, |a|, |b|);
    NumberedConcat(a, b, c.clientSeqNum);
    hide Numbered, Plus32;
    if c'.state == Finished {
      assert a + b == a;
    } else {
      ClosedConcat(a, b, c''.state == Finished);
    }
  }

  lemma ReceiptIsStretch(c: Client, m: Msg)
    requires c.state != Finished
    ensures Stretch(Receive(c, m).sent, c, Receive(c, m).client)
  {
    OneReceipt(c, m);
    hide Receive;
  }

  /** In any run the client's PDUs carry consecutive numbers from its first one on, and EOF_ACK is the last of them. */
  lemma {:induction false} RepliesAreNumbered(cfg: Config, s: State, actions: seq<Action>, t: State)
    requires Run(cfg, s, actions, t)
    ensures Stretch(ClientSent(cfg, s, actions, t), s.rcv, t.rcv)
    decreases |actions|
  {
    hide Next, Enabled, Receive, Stretch;
    if actions == [] {
      NothingIsStretch(s.rcv);
    } else {
      var a, s' := actions[0], Next(cfg, s, actions[0]);
      ClientOfNext(cfg, s, a);
      RepliesAreNumbered(cfg, s', actions[1..], t);
      NothingIsStretch(s.rcv);
      if a.ClientReceive? {
        ReceiptIsStretch(s.rcv, s.fwd[0]);
      }
      var now := if a.ClientReceive? then Receive(s.rcv, s.fwd[0]).sent else [];
      StretchConcat(now, ClientSent(cfg, s', actions[1..], t), s.rcv, s'.rcv, t.rcv);
    }
  }

  lemma NothingIsStretch(c: Client)
    ensures Stretch([], c, c)
  {
  }
}
