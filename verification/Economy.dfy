/**
 * What a run without loss costs: every chunk is sent once, no chunk is asked for again,
 * and at most one datagram is resent, the stale one of the last wait.
 */
module Economy {
  import opened Bytes
  import opened Protocol
  import opened SlidingWindow
  import opened Rcopy
  import opened Server
  import opened System
  import opened Invariant
  import opened ClientSteps
  import opened Preservation
  import opened Safety
  import opened Liveness
  import opened Completion

  /** All the chunks the client lacks are on their way to it, in order. */
  ghost predicate FwdClean(s: State) {
    && (forall i | 0 <= i < |s.fwd| :: s.fwd[i].Good?)
    && (s.rcv.expected < s.snd.window.current ==>
          && |s.fwd| == s.snd.window.current - s.rcv.expected
          && forall i | 0 <= i < |s.fwd| ::
               s.fwd[i].packet.flag == DATA && s.fwd[i].packet.seqNum == s.rcv.expected + i)
    && (s.rcv.expected == s.snd.window.current && !s.snd.atEOF ==> s.fwd == [])
  }

  /** What the server does not know yet is on its way to it. */
  ghost predicate RevClean(s: State) {
    && (forall m | m in s.rev && m.Good? :: m.packet.flag != SREJ)
    && (s.snd.window.lower == s.rcv.expected || exists m | m in s.rev :: Tells(m, s.rcv.expected))
  }

  ghost predicate Clean(s: State) {
    s.rcv.state != Buffering && FwdClean(s) && RevClean(s)
  }

  lemma StartIsClean(cfg: Config, s: State)
    requires cfg.Valid() && Initial(cfg, s)
    ensures Clean(s)
  {
  }

  /** The packets one step puts on the network. */
  function SentBy(cfg: Config, s: State, a: Action): seq<Packet>
    requires Enabled(cfg, s, a)
  {
    if a.ClientReceive? then Receive(s.rcv, s.fwd[0]).sent else Step(s.snd, cfg.bufferSize, EventOf(s, a)).sent
  }

  predicate AsksAgain(p: Packet) {
    p.flag == SREJ || p.flag == RESENT_DATA_SREJ
  }

  /** The client is given what it expects, or something it has already: it answers with an RR, or with EOF_ACK. */
  lemma CleanAnswer(cfg: Config, s: State)
    requires Inv(cfg, s) && Clean(s) && s.rcv.state != Finished && s.fwd != []
    ensures var o := Receive(s.rcv, s.fwd[0]);
      && o.client.state != Buffering && |o.sent| == 1
      && ((o.sent[0].flag == RR && Tells(Good(o.sent[0]), o.client.expected))
          || (o.sent[0].flag == EOF_ACK && o.client.expected == s.rcv.expected))
      && o.client.expected == s.rcv.expected + if s.rcv.expected < s.snd.window.current then 1 else 0
  {
    var o := Receive(s.rcv, s.fwd[0]);
    assert FwdMsgOk(cfg.FileChunks(), s.fwd[0], s.snd.window.current, s.rcv.expected, High(s.rcv), EofStarted(s.snd));
    TargetOfBE32(o.client.expected);
  }

  lemma CleanClient(cfg: Config, s: State)
    requires Inv(cfg, s) && Clean(s) && s.rcv.state != Finished && s.fwd != []
    ensures Enabled(cfg, s, ClientReceive((Deliver, Deliver)))
    ensures Clean(Next(cfg, s, ClientReceive((Deliver, Deliver))))
    ensures forall p | p in SentBy(cfg, s, ClientReceive((Deliver, Deliver))) :: !AsksAgain(p) && !IsData(p.flag)
  {
    CleanAnswer(cfg, s);
    InFile(cfg, s);
    hide Inv, Receive, Tells;
    var o := Receive(s.rcv, s.fwd[0]);
    EmitAtMostTwo(s.rev, o.sent, Deliver, Deliver);
    var s' := Next(cfg, s, ClientReceive((Deliver, Deliver)));
    assert s'.rev == s.rev + [Good(o.sent[0])];
    assert Good(o.sent[0]) in s'.rev;
    assert forall m | m in s.rev :: m in s'.rev;
  }

  /** What a timeout resends when nothing is unacknowledged. */
  function Stale(chunks: seq<Payload>, windowSize: nat): Packet
    requires |chunks| < 0x8000_0000
  {
    if windowSize <= |chunks| then
      Packet(|chunks| - windowSize, RESENT_DATA_TIMEOUT, if windowSize > 0 then chunks[|chunks| - windowSize] else [])
    else Packet(0, RESENT_DATA_TIMEOUT, [])
  }

  /** An RR sets lower to what it carries; nothing else does anything to the window. */
  lemma CleanReceipt(cfg: Config, s: State)
    requires Inv(cfg, s) && Clean(s) && Polling(s.snd) && s.rev != []
    ensures Enabled(cfg, s, ServerReceive(Deliver)) && Clean(Next(cfg, s, ServerReceive(Deliver)))
    ensures SentBy(cfg, s, ServerReceive(Deliver)) == []
  {
    ReceiptTaken(cfg, s);
    assert s.rev[0] in s.rev && s.rev == [s.rev[0]] + s.rev[1..];
    assert RevMsgOk(s.rev[0], s.snd.window.lower, s.rcv.expected, s.snd.window.current, s.rcv.state == Finished);
    hide Inv, Next, Enabled, SentBy, RevMsgOk;
  }

  lemma ReceiptTaken(cfg: Config, s: State)
    requires Inv(cfg, s) && Polling(s.snd) && s.rev != [] && (s.rev[0].Good? ==> s.rev[0].packet.flag != SREJ)
    ensures Enabled(cfg, s, ServerReceive(Deliver)) && SentBy(cfg, s, ServerReceive(Deliver)) == []
    ensures var s', m := Next(cfg, s, ServerReceive(Deliver)), s.rev[0];
      && s'.fwd == s.fwd && s'.rev == s.rev[1..] && s'.rcv == s.rcv
      && s'.snd.window.current == s.snd.window.current && s'.snd.atEOF == s.snd.atEOF
      && s'.snd.window.lower == if m.Good? && m.packet.flag == RR then Target(m.packet.payload) else s.snd.window.lower
    ensures s.rev[0].Good? && s.rev[0].packet.flag == RR ==>
      s.snd.window.lower <= Target(s.rev[0].packet.payload) <= s.rcv.expected
  {
    assert Sized(cfg, s);
    assert RevMsgOk(s.rev[0], s.snd.window.lower, s.rcv.expected, s.snd.window.current, s.rcv.state == Finished);
    hide Inv, Target;
  }

  /** What the server sends of its own accord: the next chunk, or END_OF_FILE after the last. */
  lemma TickTaken(cfg: Config, s: State, a: Action)
    requires Inv(cfg, s) && Enabled(cfg, s, a) && Lossless(a)
    requires a.ServerTick? || (a.ServerTimeout? && s.snd.phase != Wait)
    ensures var s', sent := Next(cfg, s, a), SentBy(cfg, s, a);
      && s'.rcv == s.rcv && s'.rev == s.rev && s'.snd.window.lower == s.snd.window.lower
      && (s.snd.atEOF ==> s'.snd.atEOF)
      && (if sent == [] then s'.fwd == s.fwd && s'.snd.window.current == s.snd.window.current
          else
            && |sent| == 1 && s'.fwd == s.fwd + [Good(sent[0])]
            && if sent[0].flag == DATA
               then !s.snd.atEOF && sent[0].seqNum == s.snd.window.current
                    && s'.snd.window.current == s.snd.window.current + 1
               else sent[0].flag == END_OF_FILE && s.snd.atEOF && s'.snd.window.current == s.snd.window.current
                    && s.rcv.expected == s.snd.window.current)
  {
    var o := Step(s.snd, cfg.bufferSize, EventOf(s, a));
    EmitAtMostOne(s.fwd, o.sent, Deliver);
    hide FwdInv, RevInv, ClientOk;
  }

  lemma CleanTick(cfg: Config, s: State, a: Action)
    requires Inv(cfg, s) && Clean(s) && Enabled(cfg, s, a) && Lossless(a)
    requires a.ServerTick? || (a.ServerTimeout? && s.snd.phase != Wait)
    ensures Clean(Next(cfg, s, a))
    ensures forall p | p in SentBy(cfg, s, a) :: !AsksAgain(p) && p.flag != RESENT_DATA_TIMEOUT
  {
    TickTaken(cfg, s, a);
    InFile(cfg, s);
    assert s.rcv.expected <= s.snd.window.current;
    hide Inv, Next, Enabled, SentBy, Tells;
  }

  /** A wait with nothing under way is the last one. */
  lemma OnlyTheLastWait(cfg: Config, s: State)
    requires Inv(cfg, s) && Clean(s) && Quiescent(s)
    ensures s.snd.waiting && s.snd.atEOF
    ensures s.snd.window.lower == s.rcv.expected == s.snd.window.current == |cfg.FileChunks()|
  {
    assert s.snd.window.lower == s.rcv.expected;
    assert s.rcv.expected == s.snd.window.current by { InFile(cfg, s); }
    LastWait(cfg, s);
    NothingUnacknowledged(cfg, s);
  }

  lemma QuietTimeout(cfg: Config, s: State)
    requires Sized(cfg, s) && Quiescent(s)
    ensures Enabled(cfg, s, ServerTimeout(Deliver))
    ensures var s', sent := Next(cfg, s, ServerTimeout(Deliver)), SentBy(cfg, s, ServerTimeout(Deliver));
      && s'.snd == s.snd.(tries := s'.snd.tries, phase := s'.snd.phase) && s'.rcv == s.rcv && s'.rev == []
      && (sent == [] || sent == [Packet(s.snd.window.Lowest().seqNum, RESENT_DATA_TIMEOUT, s.snd.window.Lowest().data)])
      && s'.fwd == if sent == [] then [] else [Good(sent[0])]
  {
    EmitAtMostOne([], Step(s.snd, cfg.bufferSize, Timeout).sent, Deliver);
  }

  lemma LowestIsStaleChunk(cfg: Config, s: State)
    requires Inv(cfg, s) && s.snd.window.lower == s.snd.window.current == |cfg.FileChunks()|
    ensures Packet(s.snd.window.Lowest().seqNum, RESENT_DATA_TIMEOUT, s.snd.window.Lowest().data)
         == Stale(cfg.FileChunks(), s.snd.window.Size())
  {
    LowestSlot(cfg.FileChunks(), s.snd.window);
    hide Window.Lowest;
  }

  lemma CleanTimeout(cfg: Config, s: State)
    requires Inv(cfg, s) && Clean(s) && Quiescent(s)
    ensures Enabled(cfg, s, ServerTimeout(Deliver)) && Clean(Next(cfg, s, ServerTimeout(Deliver)))
    ensures var sent := SentBy(cfg, s, ServerTimeout(Deliver));
      sent == [] || sent == [Stale(cfg.FileChunks(), s.snd.window.Size())]
  {
    OnlyTheLastWait(cfg, s);
    InFile(cfg, s);
    LowestIsStaleChunk(cfg, s);
    QuietTimeout(cfg, s);
    hide *;
    StaysClean(s, Next(cfg, s, ServerTimeout(Deliver)));
  }

  lemma StaysClean(s: State, s': State)
    requires Clean(s) && s.snd.atEOF && s.snd.window.lower == s.rcv.expected == s.snd.window.current
    requires s'.rcv == s.rcv && s'.rev == [] && s'.snd.window == s.snd.window && s'.snd.atEOF
    requires forall i | 0 <= i < |s'.fwd| :: s'.fwd[i].Good?
    ensures Clean(s')
  {
  }

  lemma CleanStep(cfg: Config, s: State, a: Action)
    requires Inv(cfg, s) && Clean(s) && Enabled(cfg, s, a) && Patient(s, a)
    ensures Inv(cfg, Next(cfg, s, a)) && Clean(Next(cfg, s, a))
    ensures Next(cfg, s, a).snd.window.Size() == s.snd.window.Size()
    ensures forall p | p in SentBy(cfg, s, a) :: !AsksAgain(p)
    ensures if a.ServerTimeout? && s.snd.phase == Wait
      then
        && Quiescent(s)
        && (SentBy(cfg, s, a) == [] || SentBy(cfg, s, a) == [Stale(cfg.FileChunks(), s.snd.window.Size())])
      else forall p | p in SentBy(cfg, s, a) :: p.flag != RESENT_DATA_TIMEOUT
  {
    SameSize(cfg, s, a);
    hide Inv, Clean, Next;
    NextKeepsInv(cfg, s, a);
    if a.ClientReceive? {
      CleanClient(cfg, s);
    } else if a.ServerReceive? {
      CleanReceipt(cfg, s);
    } else if a.ServerTimeout? && s.snd.phase == Wait {
      StillReading(cfg, s);
      CleanTimeout(cfg, s);
    } else {
      CleanTick(cfg, s, a);
    }
  }

  lemma SameSize(cfg: Config, s: State, a: Action)
    requires Enabled(cfg, s, a)
    ensures Next(cfg, s, a).snd.window.Size() == s.snd.window.Size()
  {
    hide Receive;
  }

  // ---------------------------------------------------------------------------
  // Over whole runs
  // ---------------------------------------------------------------------------

  /** Everything the two ends send in a run. */
  function Sent(cfg: Config, s: State, actions: seq<Action>, t: State): seq<Packet>
    requires Run(cfg, s, actions, t)
    decreases |actions|
  {
    if actions == [] then []
    else SentBy(cfg, s, actions[0]) + Sent(cfg, Next(cfg, s, actions[0]), actions[1..], t)
  }

  function TimeoutResends(sent: seq<Packet>): seq<Packet> {
    if sent == [] then []
    else (if sent[0].flag == RESENT_DATA_TIMEOUT then [sent[0]] else []) + TimeoutResends(sent[1..])
  }

  lemma {:induction false} TimeoutResendsConcat(a: seq<Packet>, b: seq<Packet>)
    ensures TimeoutResends(a + b) == TimeoutResends(a) + TimeoutResends(b)
  {
    if a == [] {
      assert a + b == b;
    } else {
      assert (a + b)[1..] == a[1..] + b;
      TimeoutResendsConcat(a[1..], b);
    }
  }

  lemma {:induction false} NoTimeoutResends(sent: seq<Packet>)
    requires forall p | p in sent :: p.flag != RESENT_DATA_TIMEOUT
    ensures TimeoutResends(sent) == []
  {
    if sent != [] {
      NoTimeoutResends(sent[1..]);
    }
  }

  lemma {:induction false} PatientIsRun(cfg: Config, s: State, actions: seq<Action>, t: State)
    requires PatientRun(cfg, s, actions, t)
    ensures Run(cfg, s, actions, t)
    decreases |actions|
  {
    hide Next, Enabled, Patient;
    if actions != [] {
      PatientIsRun(cfg, Next(cfg, s, actions[0]), actions[1..], t);
    }
  }

  /** The last wait has had its resend. */
  ghost predicate Spent(cfg: Config, s: State) {
    cfg.Valid() && Waited(s.snd, |cfg.FileChunks()|)
    && (Owed(s, |cfg.FileChunks()|) || Settled(s.snd, |cfg.FileChunks()|, true))
  }

  lemma SpentStep(cfg: Config, s: State, a: Action)
    requires Inv(cfg, s) && Clean(s) && Spent(cfg, s) && Enabled(cfg, s, a) && Patient(s, a)
    ensures Spent(cfg, Next(cfg, s, a)) && !(a.ServerTimeout? && s.snd.phase == Wait)
  {
    hide Inv, Clean, Next, Enabled;
    OwedOrSettled(cfg, s, a, |cfg.FileChunks()|, true);
    if a.ServerTimeout? && s.snd.phase == Wait {
      CleanStep(cfg, s, a);
      OnlyTheLastWait(cfg, s);
    }
  }

  /** It needs no second one. */
  lemma {:induction false} SpentRun(cfg: Config, s: State, actions: seq<Action>, t: State)
    requires Inv(cfg, s) && Clean(s) && Spent(cfg, s) && PatientRun(cfg, s, actions, t)
    ensures Run(cfg, s, actions, t) && TimeoutResends(Sent(cfg, s, actions, t)) == []
    ensures forall p | p in Sent(cfg, s, actions, t) :: !AsksAgain(p)
    decreases |actions|
  {
    hide Inv, Clean, Spent, Next, Enabled, Patient, SentBy, TimeoutResends, AsksAgain;
    PatientIsRun(cfg, s, actions, t);
    if actions == [] {
      NoTimeoutResends([]);
    } else {
      var a, s' := actions[0], Next(cfg, s, actions[0]);
      CleanStep(cfg, s, a);
      SpentStep(cfg, s, a);
      SpentRun(cfg, s', actions[1..], t);
      NoTimeoutResends(SentBy(cfg, s, a));
      TimeoutResendsConcat(SentBy(cfg, s, a), Sent(cfg, s', actions[1..], t));
    }
  }

  lemma ResendSpends(cfg: Config, s: State)
    requires Inv(cfg, s) && Clean(s) && Quiescent(s) && Enabled(cfg, s, ServerTimeout(Deliver))
    requires SentBy(cfg, s, ServerTimeout(Deliver)) != []
    ensures Spent(cfg, Next(cfg, s, ServerTimeout(Deliver)))
  {
    OnlyTheLastWait(cfg, s);
    if s.snd.tries + 1 < MAX_TRIES {
      ResendPrompts(cfg, s, s.snd.window.current, true);
    }
    InFile(cfg, s);
  }

  lemma {:induction false} CleanRun(cfg: Config, s: State, actions: seq<Action>, t: State)
    requires Inv(cfg, s) && Clean(s) && PatientRun(cfg, s, actions, t)
    ensures Run(cfg, s, actions, t)
    ensures forall p | p in Sent(cfg, s, actions, t) :: !AsksAgain(p)
    ensures cfg.Valid()
    ensures var resent := TimeoutResends(Sent(cfg, s, actions, t));
      resent == [] || resent == [Stale(cfg.FileChunks(), s.snd.window.Size())]
    decreases |actions|
  {
    PatientIsRun(cfg, s, actions, t);
    InFile(cfg, s);
    hide Inv, Clean, Spent, Next, Enabled, SentBy, AsksAgain, Config.Valid, Stale, Patient;
    if actions != [] {
      var a, s' := actions[0], Next(cfg, s, actions[0]);
      var sent := SentBy(cfg, s, a);
      CleanStep(cfg, s, a);
      TimeoutResendsConcat(sent, Sent(cfg, s', actions[1..], t));
      if a.ServerTimeout? && s.snd.phase == Wait && sent != [] {
        FaultOfPatient(s, a);
        ResendSpends(cfg, s);
        SpentRun(cfg, s', actions[1..], t);
        assert sent[1..] == [];
      } else {
        NoTimeoutResends(sent);
        CleanRun(cfg, s', actions[1..], t);
      }
    }
  }

  lemma FaultOfPatient(s: State, a: Action)
    requires Patient(s, a) && a.ServerTimeout?
    ensures a == ServerTimeout(Deliver)
  {
  }

  /**
   * From the start, whatever the order of steps: no SREJ and no answer to one is ever sent,
   * each chunk goes out once as DATA, and nothing is resent but the stale PDU of the last
   * wait, and that at most once.
   */
  lemma NothingIsSentTwice(cfg: Config, s: State, actions: seq<Action>, t: State)
    requires cfg.Valid() && Initial(cfg, s) && PatientRun(cfg, s, actions, t)
    ensures Run(cfg, s, actions, t)
    ensures forall p | p in Sent(cfg, s, actions, t) :: p.flag != SREJ && p.flag != RESENT_DATA_SREJ
    ensures t.snd.atEOF ==> DataSent(cfg, s, actions, t) == DataPackets(cfg.FileChunks(), 0, |cfg.FileChunks()|)
    ensures var resent := TimeoutResends(Sent(cfg, s, actions, t));
      resent == [] || resent == [Stale(cfg.FileChunks(), cfg.windowSize)]
  {
    InitialInv(cfg, s);
    StartIsClean(cfg, s);
    hide Inv, Clean;
    CleanRun(cfg, s, actions, t);
    assert forall p | p in Sent(cfg, s, actions, t) :: !AsksAgain(p);
    if t.snd.atEOF {
      WholeFileIsSent(cfg, s, actions, t);
    }
  }
}
