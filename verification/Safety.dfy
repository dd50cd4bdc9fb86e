/** What holds over whole runs, whatever the channels drop or corrupt. */
module Safety {
  import opened Bytes
  import opened Protocol
  import opened Rings
  import opened SlidingWindow
  import opened ReorderBuffer
  import opened Rcopy
  import opened Server
  import opened System
  import opened Chunks
  import opened Invariant
  import opened ClientSteps
  import opened Preservation

  lemma {:induction false} RunKeepsInv(cfg: Config, s: State, actions: seq<Action>, t: State)
    requires Inv(cfg, s) && Run(cfg, s, actions, t)
    ensures Inv(cfg, t)
    ensures ServerAdvances(s.snd, t.snd) && ClientAdvances(s.rcv, t.rcv)
    decreases |actions|
  {
    hide Next, Enabled, Inv;
    if actions != [] {
      NextKeepsInv(cfg, s, actions[0]);
      RunKeepsInv(cfg, Next(cfg, s, actions[0]), actions[1..], t);
    }
  }

  lemma ReachableInv(cfg: Config, t: State)
    requires cfg.Valid() && Reachable(cfg, t)
    ensures Inv(cfg, t)
  {
    var s, actions :| Initial(cfg, s) && Run(cfg, s, actions, t);
    InitialInv(cfg, s);
    RunKeepsInv(cfg, s, actions, t);
  }

  /** Whatever has been written is the file's chunks up to the expected one, in order and without gaps. */
  lemma OutputIsPrefixOfFile(cfg: Config, t: State)
    requires cfg.Valid() && Reachable(cfg, t)
    ensures t.rcv.expected <= |cfg.FileChunks()|
    ensures t.rcv.output == Flatten(cfg.FileChunks()[..t.rcv.expected]) <= cfg.file
  {
    ReachableInv(cfg, t);
    FlattenPrefix(cfg.FileChunks(), t.rcv.expected);
    FlattenChunks(cfg.file, cfg.bufferSize);
  }

  /** Once either side believes the transfer is over, the whole file has been written. */
  lemma ClosingAgreement(cfg: Config, t: State)
    requires cfg.Valid() && Reachable(cfg, t)
    ensures t.snd.phase == Eof || t.snd.phase == EofPoll || t.snd.phase == Exited || t.rcv.state == Finished ==>
      t.rcv.output == cfg.file
    ensures t.snd.phase == Exited ==> t.rcv.state == Finished
  {
    ReachableInv(cfg, t);
    var chunks := cfg.FileChunks();
    if t.snd.atEOF {
      ReadIsNextChunk(chunks, cfg.bufferSize, t.snd.rest, t.snd.window.current);
    }
    if t.snd.phase == Eof || t.snd.phase == EofPoll || t.rcv.state == Finished {
      assert chunks[..t.rcv.expected] == chunks;
      FlattenChunks(cfg.file, cfg.bufferSize);
    }
  }

  /** END_OF_FILE reaches the client only in state IN_ORDER and at the expected number; it is never buffered. */
  lemma EofIsNeverBuffered(cfg: Config, t: State, i: nat)
    requires cfg.Valid() && Reachable(cfg, t)
    ensures i < |t.fwd| && t.fwd[i].Good? && t.fwd[i].packet.flag == END_OF_FILE && t.rcv.state != Finished ==>
      t.rcv.state == InOrder && t.fwd[i].packet.seqNum == t.rcv.expected
    ensures i < |t.rcv.ring| && t.rcv.ring[i].valid ==> t.rcv.ring[i].flag != END_OF_FILE
  {
    ReachableInv(cfg, t);
    if t.snd.atEOF {
      ReadIsNextChunk(cfg.FileChunks(), cfg.bufferSize, t.snd.rest, t.snd.window.current);
    }
  }

  // ---------------------------------------------------------------------------
  // The two rings
  // ---------------------------------------------------------------------------

  /**
   * The reorder ring is a map: it holds PDUs of distinct sequence numbers above expected
   * and up to highest, all within one window, each with its chunk of the file.
   */
  lemma ReorderRingIsMap(cfg: Config, t: State)
    requires cfg.Valid() && Reachable(cfg, t)
    ensures Placed(t.rcv.ring) && Within(t.rcv.ring, t.rcv.expected)
    ensures t.rcv.state == Buffering ==> t.rcv.highest in Contents(t.rcv.ring)
    ensures t.rcv.state == Buffering ==> t.rcv.expected < t.rcv.highest < t.rcv.expected + cfg.windowSize
    ensures forall k | k in Contents(t.rcv.ring) ::
      && t.rcv.state == Buffering && t.rcv.expected < k <= t.rcv.highest
      && k < |cfg.FileChunks()| && Contents(t.rcv.ring)[k].data == cfg.FileChunks()[k]
  {
    ReachableInv(cfg, t);
    WindowSizeIsKept(cfg, t);
    forall k | k in Contents(t.rcv.ring) {
      StoredIff(t.rcv.ring, k);
    }
    StoredIff(t.rcv.ring, t.rcv.highest);
  }

  lemma WindowSizeIsKept(cfg: Config, t: State)
    requires cfg.Valid() && Reachable(cfg, t)
    ensures |t.rcv.ring| == t.snd.window.Size() == cfg.windowSize
  {
    var s, actions :| Initial(cfg, s) && Run(cfg, s, actions, t);
    InitialInv(cfg, s);
    RunKeepsInv(cfg, s, actions, t);
  }

  /** So reading the slot of any number from expected up to highest never yields a stale chunk. */
  lemma ReorderReadIsNeverStale(cfg: Config, t: State, k: u32)
    requires cfg.Valid() && Reachable(cfg, t) && t.rcv.expected <= k <= t.rcv.highest
    ensures SlotOf(t.rcv.ring, k).valid ==>
      SlotOf(t.rcv.ring, k).seqNum == k < |cfg.FileChunks()| && SlotOf(t.rcv.ring, k).data == cfg.FileChunks()[k]
  {
    ReachableInv(cfg, t);
    ReorderRingIsMap(cfg, t);
    if t.rcv.state == Buffering {
      ReadIsMapLookup(t.rcv.ring, t.rcv.expected, k);
    }
  }

  /** Buffering a PDU that arrives early puts it in the map and displaces nothing. */
  lemma EarlyArrivalIsBuffered(cfg: Config, t: State)
    requires cfg.Valid() && Reachable(cfg, t) && t.rcv.state != Finished
    requires t.fwd != [] && t.fwd[0].Good? && t.fwd[0].packet.seqNum > t.rcv.expected
    ensures var p := t.fwd[0].packet;
      && p.flag == DATA
      && p.seqNum > High(t.rcv)
      && Contents(Receive(t.rcv, t.fwd[0]).client.ring) == Contents(t.rcv.ring)[p.seqNum := Entry(p.flag, p.payload)]
  {
    ReachableInv(cfg, t);
    ReorderRingIsMap(cfg, t);
    EofIsNeverBuffered(cfg, t, 0);
    AddIsMapUpdate(t.rcv.ring, t.rcv.expected, t.fwd[0].packet);
  }

  /** Every SREJ is answered with exactly the chunk it asks for, which is still in the window. */
  lemma SrejIsAnswered(cfg: Config, t: State)
    requires cfg.Valid() && Reachable(cfg, t) && Polling(t.snd)
    requires t.rev != [] && t.rev[0].Good? && t.rev[0].packet.flag == SREJ
    ensures t.snd.window.Size() > 0
    ensures var k := Target(t.rev[0].packet.payload);
      && t.snd.window.lower <= k < t.snd.window.current <= |cfg.FileChunks()|
      && Step(t.snd, cfg.bufferSize, Arrive(t.rev[0])).sent == [Packet(k, RESENT_DATA_SREJ, cfg.FileChunks()[k])]
  {
    ReachableInv(cfg, t);
    SlotIsChunk(t.snd.window, cfg.FileChunks(), Target(t.rev[0].packet.payload));
  }

  /** And what an SREJ asks for is the first chunk the client lacks while it holds a later one. */
  lemma SrejAsksForTheGap(cfg: Config, t: State, p: Packet)
    requires cfg.Valid() && Reachable(cfg, t) && t.rcv.state != Finished && t.fwd != []
    requires p in Receive(t.rcv, t.fwd[0]).sent && p.flag == SREJ
    ensures var c := Receive(t.rcv, t.fwd[0]).client;
      && Target(p.payload) == c.expected && !SlotOf(c.ring, c.expected).valid
      && c.expected < c.highest && SlotOf(c.ring, c.highest).valid
  {
    ReachableInv(cfg, t);
    ClientStepOk(cfg, t);
    var c := Receive(t.rcv, t.fwd[0]).client;
    if SlotOf(c.ring, c.expected).valid {
      IndexInjective(c.expected, SlotOf(c.ring, c.expected).seqNum, |c.ring|);
    }
  }

  lemma ReachesOn(cfg: Config, t: State, actions: seq<Action>, u: State)
    requires cfg.Valid() && Reachable(cfg, t) && Run(cfg, t, actions, u)
    ensures Reachable(cfg, u)
  {
    var s, before :| Initial(cfg, s) && Run(cfg, s, before, t);
    RunConcat(cfg, s, before, t, actions, u);
    hide Initial;
    assert Run(cfg, s, before + actions, u);
  }

  lemma NextOfClient(cfg: Config, t: State, faults: (Fault, Fault))
    requires Enabled(cfg, t, ClientReceive(faults))
    ensures Next(cfg, t, ClientReceive(faults)).rcv == Receive(t.rcv, t.fwd[0]).client
  {
  }

  /**
   * So an SREJ sent for a gap is answered, whenever the server comes to read it, with the
   * chunk that was missing, and by then the client has not fallen back behind that gap.
   */
  lemma GapIsServed(cfg: Config, t: State, faults: (Fault, Fault), p: Packet, actions: seq<Action>, u: State)
    requires cfg.Valid() && Reachable(cfg, t) && Enabled(cfg, t, ClientReceive(faults))
    requires p in Receive(t.rcv, t.fwd[0]).sent && p.flag == SREJ
    requires Run(cfg, Next(cfg, t, ClientReceive(faults)), actions, u)
    requires Polling(u.snd) && u.rev != [] && u.rev[0] == Good(p)
    ensures u.snd.window.Size() > 0
    ensures var k := Receive(t.rcv, t.fwd[0]).client.expected;
      && u.snd.window.lower <= k < u.snd.window.current <= |cfg.FileChunks()|
      && k <= u.rcv.expected && !SlotOf(Receive(t.rcv, t.fwd[0]).client.ring, k).valid
      && Step(u.snd, cfg.bufferSize, Arrive(u.rev[0])).sent == [Packet(k, RESENT_DATA_SREJ, cfg.FileChunks()[k])]
  {
    SrejAsksForTheGap(cfg, t, p);
    hide Receive, Step, Reachable, Enabled, Next;
    var t' := Next(cfg, t, ClientReceive(faults));
    assert Run(cfg, t, [ClientReceive(faults)] + actions, u) by {
      assert ([ClientReceive(faults)] + actions)[1..] == actions;
    }
    ReachesOn(cfg, t, [ClientReceive(faults)] + actions, u);
    SrejIsAnswered(cfg, u);
    ReachableInv(cfg, t);
    hide Inv;
    NextKeepsInv(cfg, t, ClientReceive(faults));
    RunKeepsInv(cfg, t', actions, u);
    NextOfClient(cfg, t, faults);
  }

  /** The send window never holds more than its size, and never less than what is unacknowledged. */
  lemma SendWindowInvariant(cfg: Config, t: State)
    requires cfg.Valid() && Reachable(cfg, t)
    ensures t.snd.window.lower <= t.rcv.expected <= t.snd.window.current
    ensures t.snd.window.current <= t.snd.window.upper == t.snd.window.lower + cfg.windowSize < 0x8000_0000
    ensures t.snd.window.IsOpen() <==> t.snd.window.current < t.snd.window.lower + cfg.windowSize
    ensures t.snd.seqNum == t.snd.window.current
  {
    ReachableInv(cfg, t);
    WindowSizeIsKept(cfg, t);
  }

  /** A timeout resends the lowest unacknowledged chunk; if there is none, a stale one that writes nothing. */
  lemma TimeoutResend(cfg: Config, t: State)
    requires cfg.Valid() && Reachable(cfg, t)
    requires t.snd.phase == Wait && Polling(t.snd) && t.snd.tries + 1 < MAX_TRIES
    ensures t.snd.window.Size() > 0
    ensures var w, chunks := t.snd.window, cfg.FileChunks();
      && Step(t.snd, cfg.bufferSize, Timeout).sent ==
         [if w.lower < w.current <= |chunks| then Packet(w.lower, RESENT_DATA_TIMEOUT, chunks[w.lower])
          else if cfg.windowSize <= w.current <= |chunks|
          then Packet(w.current - cfg.windowSize, RESENT_DATA_TIMEOUT, chunks[w.current - cfg.windowSize])
          else Packet(0, RESENT_DATA_TIMEOUT, [])]
      && (w.lower == w.current ==> w.current == |chunks| == t.rcv.expected > 0)
  {
    hide Inv, HoldsChunks;
    ReachableInv(cfg, t);
    WindowSizeIsKept(cfg, t);
    NothingUnacknowledged(cfg, t);
    if t.snd.window.lower < t.snd.window.current {
      SlotIsChunk(t.snd.window, cfg.FileChunks(), t.snd.window.lower);
    } else {
      LowestIsStale(t.snd.window, cfg.FileChunks());
    }
  }

  lemma NothingUnacknowledged(cfg: Config, t: State)
    requires Inv(cfg, t) && t.snd.phase == Wait && Blocked(t.snd)
    ensures HoldsChunks(t.snd.window, cfg.FileChunks())
    ensures t.snd.window.lower <= t.snd.window.current <= |cfg.FileChunks()|
    ensures t.snd.window.lower == t.snd.window.current ==>
      t.snd.window.current == |cfg.FileChunks()| == t.rcv.expected > 0
  {
    ReadIsNextChunk(cfg.FileChunks(), cfg.bufferSize, t.snd.rest, t.snd.window.current);
  }

  /** A PDU below expected writes nothing, changes nothing, and is answered with an RR for expected. */
  lemma StaleIsHarmless(c: Client, p: Packet)
    requires c.state != Finished && p.seqNum < c.expected
    ensures var o := Receive(c, Good(p));
      && o.client == c.(clientSeqNum := o.client.clientSeqNum)
      && o.sent != [] && o.sent[0] == Packet(c.clientSeqNum, RR, BE32(c.expected))
      && o.sent[1..] == if c.state == Buffering then [Packet(Inc32(c.clientSeqNum), SREJ, BE32(c.expected))] else []
  {
  }

  /**
   * However late a stale resend reaches the client: it is still below expected, which is the
   * end of the file, so it changes nothing and is answered with the RR the server waits for.
   */
  lemma StaleResendIsHarmless(cfg: Config, t: State, p: Packet, actions: seq<Action>, u: State)
    requires cfg.Valid() && Reachable(cfg, t) && Enabled(cfg, t, ServerTimeout(Deliver))
    requires t.snd.phase == Wait && t.snd.tries + 1 < MAX_TRIES && t.snd.window.lower == t.snd.window.current
    requires Step(t.snd, cfg.bufferSize, Timeout).sent == [p]
    requires Run(cfg, t, actions, u) && u.rcv.state != Finished && u.fwd != [] && u.fwd[0] == Good(p)
    ensures p.seqNum < u.rcv.expected == |cfg.FileChunks()| && u.rcv.output == t.rcv.output == cfg.file
    ensures u.rcv.state == InOrder
    ensures var o := Receive(u.rcv, u.fwd[0]);
      && o.client == u.rcv.(clientSeqNum := Inc32(u.rcv.clientSeqNum))
      && o.sent == [Packet(u.rcv.clientSeqNum, RR, BE32(u.rcv.expected))]
  {
    ReachableInv(cfg, t);
    RunKeepsInv(cfg, t, actions, u);
    TimeoutResend(cfg, t);
    AllWritten(cfg, t);
    AllWritten(cfg, u);
    StaleIsHarmless(u.rcv, p);
  }

  lemma AllWritten(cfg: Config, t: State)
    requires Inv(cfg, t) && t.rcv.expected >= |cfg.FileChunks()|
    ensures t.rcv.output == cfg.file && t.rcv.state != Buffering && t.rcv.expected == |cfg.FileChunks()|
  {
    var chunks := cfg.FileChunks();
    assert chunks[..t.rcv.expected] == chunks;
    FlattenChunks(cfg.file, cfg.bufferSize);
  }

  /**
   * Of all that may arrive, an RR for the end of the file, and nothing else, ends the last
   * wait and leads to SEND_EOF.
   */
  lemma LastRrEndsTheWait(cfg: Config, t: State, garbage: u32)
    requires cfg.Valid() && Reachable(cfg, t) && t.snd.phase == Wait && t.snd.waiting && t.rev != []
    ensures t.snd.window.Size() > 0
    ensures var m, o := t.rev[0], Step(t.snd, cfg.bufferSize, Arrive(t.rev[0]));
      && (!Blocked(o.sender) <==>
            m.Good? && m.packet.flag == RR && Target(m.packet.payload) == |cfg.FileChunks()|)
      && (!Blocked(o.sender) ==> Step(o.sender, cfg.bufferSize, Tick(garbage)).sender == o.sender.(phase := Eof))
  {
    ReachableInv(cfg, t);
    ReadIsNextChunk(cfg.FileChunks(), cfg.bufferSize, t.snd.rest, t.snd.window.current);
    assert RevMsgOk(t.rev[0], t.snd.window.lower, t.rcv.expected, t.snd.window.current, t.rcv.state == Finished);
  }

  /** With an empty file the server goes straight to SEND_EOF, otherwise it always waits for an RR first. */
  lemma LeavingTheFillLoop(cfg: Config, t: State)
    requires cfg.Valid() && Reachable(cfg, t) && t.snd.phase == Fill && t.snd.atEOF
    ensures t.snd.window.Size() > 0
    ensures FillStep(t.snd, cfg.bufferSize).sender.waiting <==> cfg.file != []
  {
    ReachableInv(cfg, t);
    var chunks := cfg.FileChunks();
    LowestSlot(chunks, t.snd.window);
    ReadIsNextChunk(chunks, cfg.bufferSize, t.snd.rest, t.snd.window.current);
    if cfg.file == [] {
      assert t.snd.window.current == 0;
    } else {
      assert t.snd.window.current > 0;
    }
  }

  // ---------------------------------------------------------------------------
  // Everything is transmitted once, in order
  // ---------------------------------------------------------------------------

  function FirstTransmissions(sent: seq<Packet>): seq<Packet> {
    if sent == [] then []
    else (if sent[0].flag == DATA then [sent[0]] else []) + FirstTransmissions(sent[1..])
  }

  function DataSentBy(cfg: Config, s: State, a: Action): seq<Packet>
    requires Enabled(cfg, s, a)
  {
    if a.ClientReceive? then [] else FirstTransmissions(Step(s.snd, cfg.bufferSize, EventOf(s, a)).sent)
  }

  /** All first transmissions of a run. */
  function DataSent(cfg: Config, s: State, actions: seq<Action>, t: State): seq<Packet>
    requires Run(cfg, s, actions, t)
    decreases |actions|
  {
    if actions == [] then []
    else DataSentBy(cfg, s, actions[0]) + DataSent(cfg, Next(cfg, s, actions[0]), actions[1..], t)
  }

  function DataPackets(chunks: seq<Payload>, from: nat, to: nat): seq<Packet>
    requires from <= to <= |chunks| < 0x8000_0000
  {
    seq(to - from, i requires 0 <= i < to - from => Packet(from + i, DATA, chunks[from + i]))
  }

  lemma DataPacketsConcat(chunks: seq<Payload>, a: nat, b: nat, c: nat)
    requires a <= b <= c <= |chunks| < 0x8000_0000
    ensures DataPackets(chunks, a, b) + DataPackets(chunks, b, c) == DataPackets(chunks, a, c)
  {
  }

  lemma ServerStepData(cfg: Config, snd: Sender, ev: Event)
    requires cfg.Valid() && ServerOk(cfg.FileChunks(), cfg.bufferSize, snd) && Accepts(snd, ev)
    ensures var o := Step(snd, cfg.bufferSize, ev);
      && snd.window.current <= o.sender.window.current <= |cfg.FileChunks()|
      && FirstTransmissions(o.sent) == DataPackets(cfg.FileChunks(), snd.window.current, o.sender.window.current)
  {
    hide Chunks.Chunks, Config.FileChunks;
    ReadIsNextChunk(cfg.FileChunks(), cfg.bufferSize, snd.rest, snd.window.current);
    var o := Step(snd, cfg.bufferSize, ev);
    assert |o.sent| == 1 ==> o.sent == [o.sent[0]] && o.sent[1..] == [];
    if snd.phase == Fill && snd.window.IsOpen() && !snd.atEOF && snd.rest != [] {
      assert o.sent == [Packet(snd.window.current, DATA, cfg.FileChunks()[snd.window.current])];
    } else {
      assert o.sender.window.current == snd.window.current;
      assert FirstTransmissions(o.sent) == [];
    }
  }

  lemma OneStepData(cfg: Config, s: State, a: Action)
    requires Inv(cfg, s) && Enabled(cfg, s, a)
    ensures var s' := Next(cfg, s, a);
      && s.snd.window.current <= s'.snd.window.current <= |cfg.FileChunks()|
      && DataSentBy(cfg, s, a) == DataPackets(cfg.FileChunks(), s.snd.window.current, s'.snd.window.current)
  {
    hide Step, Receive, EmitAll;
    if !a.ClientReceive? {
      ServerStepData(cfg, s.snd, EventOf(s, a));
    }
  }

  /** Over any run DATA carries exactly the chunks from where the run starts to where it ends, in order. */
  lemma {:induction false} DataSentInOrder(cfg: Config, s: State, actions: seq<Action>, t: State)
    requires Inv(cfg, s) && Run(cfg, s, actions, t)
    ensures s.snd.window.current <= t.snd.window.current <= |cfg.FileChunks()|
    ensures DataSent(cfg, s, actions, t) == DataPackets(cfg.FileChunks(), s.snd.window.current, t.snd.window.current)
    decreases |actions|
  {
    hide Next, Enabled, DataSentBy;
    if actions != [] {
      var s' := Next(cfg, s, actions[0]);
      NextKeepsInv(cfg, s, actions[0]);
      DataSentInOrder(cfg, s', actions[1..], t);
      OneStepData(cfg, s, actions[0]);
      DataPacketsConcat(cfg.FileChunks(), s.snd.window.current, s'.snd.window.current, t.snd.window.current);
    }
  }

  /** By the time the end of the file has been read, that is the whole file. */
  lemma WholeFileIsSent(cfg: Config, s: State, actions: seq<Action>, t: State)
    requires cfg.Valid() && Initial(cfg, s) && Run(cfg, s, actions, t) && t.snd.atEOF
    ensures DataSent(cfg, s, actions, t) == DataPackets(cfg.FileChunks(), 0, |cfg.FileChunks()|)
    ensures Inc32(t.snd.last) == |cfg.FileChunks()|
  {
    InitialInv(cfg, s);
    DataSentInOrder(cfg, s, actions, t);
    RunKeepsInv(cfg, s, actions, t);
    ReadIsNextChunk(cfg.FileChunks(), cfg.bufferSize, t.snd.rest, t.snd.window.current);
  }
}
