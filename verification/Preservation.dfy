/** Every step of the composed system keeps the invariant. */
module Preservation {
  import opened Bytes
  import opened Protocol
  import opened SlidingWindow
  import opened Rcopy
  import opened Server
  import opened System
  import opened Chunks
  import opened Invariant
  import opened ClientSteps

  // ---------------------------------------------------------------------------
  // The channels
  // ---------------------------------------------------------------------------

  /** Nothing under way becomes wrong when both ends advance and no first transmission is overtaken. */
  lemma FwdStaysOk(chunks: seq<Payload>, q: seq<Msg>, current: nat, expected: nat, high: int, eof: bool,
                   current': nat, expected': nat, high': int, eof': bool)
    requires FwdOk(chunks, q, current, expected, high, eof)
    requires current <= current' <= |chunks| && expected <= expected' && (eof ==> eof')
    requires forall i | 0 <= i < |q| && q[i].Good? && q[i].packet.flag == DATA :: q[i].packet.seqNum > high'
    ensures FwdOk(chunks, q, current', expected', high', eof')
  {
  }

  lemma FwdEmitOk(chunks: seq<Payload>, q: seq<Msg>, current: nat, expected: nat, high: int, eof: bool,
                  p: Packet, f: Fault)
    requires FwdOk(chunks, q, current, expected, high, eof)
    requires FwdMsgOk(chunks, Good(p), current, expected, high, eof)
    requires p.flag == DATA ==>
      forall i | 0 <= i < |q| && q[i].Good? && q[i].packet.flag != END_OF_FILE :: q[i].packet.seqNum < p.seqNum
    ensures FwdOk(chunks, Emit(q, p, f), current, expected, high, eof)
  {
  }

  lemma RevStaysOk(q: seq<Msg>, lower: nat, expected: nat, current: nat, finished: bool,
                   lower': nat, expected': nat, current': nat, finished': bool)
    requires RevOk(q, lower, expected, current, finished)
    requires expected <= expected' && current <= current' && (finished ==> finished')
    requires forall i | 0 <= i < |q| && q[i].Good? && IsReceipt(q[i].packet.flag) ::
      lower' <= Target(q[i].packet.payload)
    ensures RevOk(q, lower', expected', current', finished')
  {
  }

  lemma RevEmitOk(q: seq<Msg>, lower: nat, c: Client, current: nat, p: Packet, f: Fault)
    requires RevOk(q, lower, c.expected, current, c.state == Finished)
    requires lower <= c.expected <= current && High(c) < current
    requires ReplyOk(c, p) && (c.state == Buffering ==> c.expected < c.highest)
    ensures RevOk(Emit(q, p, f), lower, c.expected, current, c.state == Finished)
  {
  }

  lemma {:induction false} RevEmitAllOk(q: seq<Msg>, lower: nat, c: Client, current: nat, sent: seq<Packet>,
                                        faults: seq<Fault>)
    requires |sent| <= |faults|
    requires RevOk(q, lower, c.expected, current, c.state == Finished)
    requires lower <= c.expected <= current && High(c) < current
    requires forall p | p in sent :: ReplyOk(c, p)
    requires c.state == Buffering ==> c.expected < c.highest
    ensures RevOk(EmitAll(q, sent, faults), lower, c.expected, current, c.state == Finished)
    decreases |sent|
  {
    if sent != [] {
      RevEmitOk(q, lower, c, current, sent[0], faults[0]);
      RevEmitAllOk(Emit(q, sent[0], faults[0]), lower, c, current, sent[1..], faults[1..]);
    }
  }

  // ---------------------------------------------------------------------------
  // The four kinds of step
  // ---------------------------------------------------------------------------

  /** Whatever the server does, what it puts on the forward channel fits what is there. */
  lemma FwdAfterServer(cfg: Config, s: State, snd': Sender, sent: seq<Packet>, f: Fault)
    requires Inv(cfg, s) && |sent| <= 1
    requires ServerOk(cfg.FileChunks(), cfg.bufferSize, snd') && ServerAdvances(s.snd, snd')
    requires forall p | p in sent :: SentOk(cfg.FileChunks(), s.snd, snd', s.rcv, p)
    ensures FwdInv(cfg, s.(snd := snd', fwd := EmitAll(s.fwd, sent, [f])))
  {
    var chunks := cfg.FileChunks();
    FwdStaysOk(chunks, s.fwd, s.snd.window.current, s.rcv.expected, High(s.rcv), EofStarted(s.snd),
               snd'.window.current, s.rcv.expected, High(s.rcv), EofStarted(snd'));
    EmitAtMostOne(s.fwd, sent, f);
    if sent != [] {
      assert sent[0] in sent;
      FwdEmitOk(chunks, s.fwd, snd'.window.current, s.rcv.expected, High(s.rcv), EofStarted(snd'), sent[0], f);
    }
  }

  lemma ServerTickKeepsInv(cfg: Config, s: State, a: Action)
    requires Inv(cfg, s) && Enabled(cfg, s, a) && (a.ServerTick? || a.ServerTimeout?)
    ensures Inv(cfg, Next(cfg, s, a))
    ensures ServerAdvances(s.snd, Next(cfg, s, a).snd)
    ensures s.snd.window.lower == Next(cfg, s, a).snd.window.lower
  {
    hide Chunks.Chunks, Config.FileChunks;
    var ev := EventOf(s, a);
    if s.snd.phase == Fill {
      if s.snd.window.IsOpen() && !s.snd.atEOF {
        FillReadOk(cfg, s.snd, s.rcv);
      } else {
        FillExitOk(cfg, s.snd, s.rcv);
      }
    } else {
      OtherStepOk(cfg, s.snd, s.rcv, ev);
    }
    var o := Step(s.snd, cfg.bufferSize, ev);
    FwdAfterServer(cfg, s, o.sender, o.sent, a.fault);
    RevStaysOk(s.rev, s.snd.window.lower, s.rcv.expected, s.snd.window.current, s.rcv.state == Finished,
               o.sender.window.lower, s.rcv.expected, o.sender.window.current, s.rcv.state == Finished);
  }

  lemma ServerReceiveKeepsInv(cfg: Config, s: State, a: Action)
    requires Inv(cfg, s) && Enabled(cfg, s, a) && a.ServerReceive?
    ensures Inv(cfg, Next(cfg, s, a))
    ensures ServerAdvances(s.snd, Next(cfg, s, a).snd)
  {
    ReceiveOk(cfg, s.snd, s.rcv, s.rev[0]);
    var o := Step(s.snd, cfg.bufferSize, Arrive(s.rev[0]));
    FwdAfterServer(cfg, s, o.sender, o.sent, a.fault);
    TailOk(s.rev, s.snd.window.lower, s.rcv.expected, s.snd.window.current, s.rcv.state == Finished);
    RevStaysOk(s.rev[1..], s.snd.window.lower, s.rcv.expected, s.snd.window.current, s.rcv.state == Finished,
               o.sender.window.lower, s.rcv.expected, o.sender.window.current, s.rcv.state == Finished);
  }

  lemma TailOk(q: seq<Msg>, lower: nat, expected: nat, current: nat, finished: bool)
    requires q != [] && RevOk(q, lower, expected, current, finished)
    ensures RevOk(q[1..], lower, expected, current, finished)
    ensures q[0].Good? && IsReceipt(q[0].packet.flag) ==>
      forall i | 0 <= i < |q[1..]| && q[1..][i].Good? && IsReceipt(q[1..][i].packet.flag) ::
        Target(q[0].packet.payload) <= Target(q[1..][i].packet.payload)
  {
    forall i | 0 <= i < |q[1..]| ensures q[1..][i] == q[i + 1] {}
  }

  lemma FwdTailOk(chunks: seq<Payload>, q: seq<Msg>, current: nat, expected: nat, high: int, eof: bool)
    requires q != [] && FwdOk(chunks, q, current, expected, high, eof)
    ensures FwdOk(chunks, q[1..], current, expected, high, eof)
    ensures q[0].Good? && q[0].packet.flag != END_OF_FILE ==>
      forall i | 0 <= i < |q[1..]| && q[1..][i].Good? && q[1..][i].packet.flag == DATA ::
        q[0].packet.seqNum < q[1..][i].packet.seqNum
  {
    forall i | 0 <= i < |q[1..]| ensures q[1..][i] == q[i + 1] {}
  }

  /** What one receipt does to the client, whichever of the two states it is in. */
  lemma ClientStepOk(cfg: Config, s: State)
    requires Inv(cfg, s) && s.rcv.state != Finished && s.fwd != []
    ensures var o := Receive(s.rcv, s.fwd[0]);
      && ClientOk(cfg.FileChunks(), o.client)
      && ClientAdvances(s.rcv, o.client)
      && Linked(s.snd, o.client)
      && (High(o.client) == High(s.rcv)
          || (s.fwd[0].Good? && s.fwd[0].packet.flag != END_OF_FILE && High(o.client) == s.fwd[0].packet.seqNum))
      && (o.client.state == Finished <==> s.fwd[0].Good? && s.fwd[0].packet.flag == END_OF_FILE)
      && (forall p | p in o.sent :: ReplyOk(o.client, p))
      && (s.fwd[0].Good? && s.fwd[0].packet.flag != END_OF_FILE && s.fwd[0].packet.seqNum == s.rcv.expected ==>
            s.rcv.expected < o.client.expected)
      && (s.fwd[0].Good? && s.fwd[0].packet.flag != END_OF_FILE && s.fwd[0].packet.seqNum <= s.rcv.expected ==>
            o.sent != [] && o.sent[0].flag == RR)
  {
    var chunks := cfg.FileChunks();
    if s.fwd[0].Good? {
      var p := s.fwd[0].packet;
      assert Arrives(chunks, s.rcv, Good(p), s.snd.window.current, EofStarted(s.snd));
      if s.rcv.state == InOrder {
        InOrderOk(chunks, s.rcv, p, s.snd.window.current, EofStarted(s.snd));
      } else {
        BufferOk(chunks, s.rcv, p, s.snd.window.current, EofStarted(s.snd));
      }
    }
  }

  lemma ClientReceiveKeepsInv(cfg: Config, s: State, a: Action)
    requires Inv(cfg, s) && Enabled(cfg, s, a) && a.ClientReceive?
    ensures Inv(cfg, Next(cfg, s, a))
    ensures ClientAdvances(s.rcv, Next(cfg, s, a).rcv)
  {
    ClientStepOk(cfg, s);
    var c := Receive(s.rcv, s.fwd[0]).client;
    var sent := Receive(s.rcv, s.fwd[0]).sent;
    var faults := [a.faults.0, a.faults.1];
    var w := s.snd.window;
    FwdTailOk(cfg.FileChunks(), s.fwd, w.current, s.rcv.expected, High(s.rcv), EofStarted(s.snd));
    FwdStaysOk(cfg.FileChunks(), s.fwd[1..], w.current, s.rcv.expected, High(s.rcv), EofStarted(s.snd),
               w.current, c.expected, High(c), EofStarted(s.snd));
    RevStaysOk(s.rev, w.lower, s.rcv.expected, w.current, s.rcv.state == Finished,
               w.lower, c.expected, w.current, c.state == Finished);
    RevEmitAllOk(s.rev, w.lower, c, w.current, sent, faults);
  }

  /** The invariant is inductive, and nothing ever moves back. */
  lemma NextKeepsInv(cfg: Config, s: State, a: Action)
    requires Inv(cfg, s) && Enabled(cfg, s, a)
    ensures Inv(cfg, Next(cfg, s, a))
    ensures ServerAdvances(s.snd, Next(cfg, s, a).snd)
    ensures ClientAdvances(s.rcv, Next(cfg, s, a).rcv)
  {
    if a.ClientReceive? {
      ClientReceiveKeepsInv(cfg, s, a);
    } else if a.ServerReceive? {
      ServerReceiveKeepsInv(cfg, s, a);
    } else {
      ServerTickKeepsInv(cfg, s, a);
    }
  }
}
