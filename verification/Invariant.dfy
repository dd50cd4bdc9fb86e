/** The inductive invariant that ties the server, the client and every PDU under way together. */
module Invariant {
  import opened Bytes
  import opened Protocol
  import opened Rings
  import opened SlidingWindow
  import opened ReorderBuffer
  import opened Rcopy
  import opened Server
  import opened System
  import opened Chunks

  /** Everything sent and acknowledged after the end of the file was read. */
  ghost predicate Acknowledged(s: Sender) {
    s.atEOF && s.window.lower == s.window.current
  }

  predicate Stopped(s: Sender) {
    s.phase == Quit || s.phase == Exited
  }

  ghost predicate EofStarted(s: Sender) {
    (s.phase == Eof || s.phase == EofPoll || Stopped(s)) && Acknowledged(s)
  }

  ghost predicate ServerOk(chunks: seq<Payload>, bufferSize: nat, s: Sender)
    requires 1 <= bufferSize <= MAX_PAYLOAD_SIZE
  {
    && HoldsChunks(s.window, chunks)
    && s.seqNum == s.window.current
    && Chunks.Chunks(s.rest, bufferSize) == chunks[s.window.current..]
    && (s.atEOF ==> s.rest == [] && s.last == Dec32(s.seqNum))
    && (s.waiting ==> s.atEOF && s.window.current > 0 && (s.phase == Wait || Stopped(s)))
    && (s.phase == Wait && s.atEOF && !s.waiting ==> Acknowledged(s))
    && (s.phase == Eof || s.phase == EofPoll ==> Acknowledged(s))
    && (s.phase == Wait ==> s.tries < MAX_TRIES)
    && s.eofTries <= MAX_TRIES
    && (s.phase != Quit ==> s.eofTries < MAX_TRIES)
  }

  /** The highest sequence number that has arrived. */
  function High(c: Client): int {
    if c.state == Buffering then c.highest else c.expected - 1
  }

  ghost predicate SlotOk(chunks: seq<Payload>, slot: RingSlot) {
    slot.seqNum < |chunks| && slot.data == chunks[slot.seqNum] && IsData(slot.flag)
  }

  ghost predicate ClientOk(chunks: seq<Payload>, c: Client) {
    && c.expected <= |chunks| < 0x8000_0000
    && c.output == Flatten(chunks[..c.expected])
    && Placed(c.ring)
    && (forall i | 0 <= i < |c.ring| && c.ring[i].valid ::
          c.expected < c.ring[i].seqNum <= High(c) && SlotOk(chunks, c.ring[i]))
    && (if c.state == Buffering
        then c.expected < c.highest && SlotOf(c.ring, c.highest).valid && SlotOf(c.ring, c.highest).seqNum == c.highest
        else c.highest == if c.expected == 0 then 0 else c.expected - 1)
    && (c.state == Finished ==> c.expected == |chunks|)
  }

  /** A data PDU is either a first transmission above everything that has arrived,
      or a resend not above what is expected; its chunk is right unless it is below that. */
  ghost predicate FwdMsgOk(chunks: seq<Payload>, m: Msg, current: nat, expected: nat, high: int, eof: bool) {
    m.Good? ==>
      var p := m.packet;
      if p.flag == END_OF_FILE then eof && p.seqNum == |chunks|
      else
        && IsData(p.flag)
        && p.seqNum < current <= |chunks|
        && (p.payload == chunks[p.seqNum] || p.seqNum < expected)
        && (if p.flag == DATA then p.seqNum > high else p.seqNum <= expected)
  }

  ghost predicate FwdOrdered(q: seq<Msg>) {
    forall i, j | && 0 <= i < j < |q| && q[i].Good? && q[j].Good?
                  && q[j].packet.flag == DATA && q[i].packet.flag != END_OF_FILE ::
      q[i].packet.seqNum < q[j].packet.seqNum
  }

  ghost predicate FwdOk(chunks: seq<Payload>, q: seq<Msg>, current: nat, expected: nat, high: int, eof: bool) {
    (forall i | 0 <= i < |q| :: FwdMsgOk(chunks, q[i], current, expected, high, eof)) && FwdOrdered(q)
  }

  ghost predicate RevMsgOk(m: Msg, lower: nat, expected: nat, current: nat, finished: bool) {
    m.Good? ==>
      var p := m.packet;
      && (IsReceipt(p.flag) || p.flag == EOF_ACK || p.flag == FNAME_OK_ACK)
      && (IsReceipt(p.flag) ==> lower <= Target(p.payload) <= expected)
      && (p.flag == SREJ ==> Target(p.payload) < current)
      && (p.flag == EOF_ACK ==> finished)
  }

  ghost predicate RevOrdered(q: seq<Msg>) {
    forall i, j | && 0 <= i < j < |q| && q[i].Good? && q[j].Good?
                  && IsReceipt(q[i].packet.flag) && IsReceipt(q[j].packet.flag) ::
      Target(q[i].packet.payload) <= Target(q[j].packet.payload)
  }

  ghost predicate RevOk(q: seq<Msg>, lower: nat, expected: nat, current: nat, finished: bool) {
    (forall i | 0 <= i < |q| :: RevMsgOk(q[i], lower, expected, current, finished)) && RevOrdered(q)
  }

  ghost predicate Linked(snd: Sender, rcv: Client) {
    && |rcv.ring| == snd.window.Size()
    && snd.window.lower <= rcv.expected <= snd.window.current
    && High(rcv) < snd.window.current
    && (rcv.state == Finished ==> EofStarted(snd))
    && (snd.phase == Exited ==> rcv.state == Finished)
  }

  ghost predicate FwdInv(cfg: Config, s: State)
    requires cfg.Valid()
  {
    FwdOk(cfg.FileChunks(), s.fwd, s.snd.window.current, s.rcv.expected, High(s.rcv), EofStarted(s.snd))
  }

  ghost predicate RevInv(s: State) {
    RevOk(s.rev, s.snd.window.lower, s.rcv.expected, s.snd.window.current, s.rcv.state == Finished)
  }

  ghost predicate Inv(cfg: Config, s: State) {
    && cfg.Valid()
    && ServerOk(cfg.FileChunks(), cfg.bufferSize, s.snd)
    && ClientOk(cfg.FileChunks(), s.rcv)
    && Linked(s.snd, s.rcv)
    && FwdInv(cfg, s)
    && RevInv(s)
  }

  // ---------------------------------------------------------------------------
  // Initially
  // ---------------------------------------------------------------------------

  lemma InitialInv(cfg: Config, s: State)
    requires cfg.Valid() && Initial(cfg, s)
    ensures Inv(cfg, s)
  {
    assert cfg.FileChunks()[..0] == [] && cfg.FileChunks()[0..] == cfg.FileChunks();
  }

  // ---------------------------------------------------------------------------
  // Steps of the server
  // ---------------------------------------------------------------------------

  /** The next read returns the next chunk. */
  lemma ReadIsNextChunk(chunks: seq<Payload>, bufferSize: nat, rest: seq<byte>, k: nat)
    requires 1 <= bufferSize <= MAX_PAYLOAD_SIZE && k <= |chunks|
    requires Chunks.Chunks(rest, bufferSize) == chunks[k..]
    ensures Read(rest, bufferSize) == [] <==> rest == []
    ensures rest == [] <==> k == |chunks|
    ensures rest != [] ==>
      var payload := Read(rest, bufferSize);
      payload == chunks[k] && Chunks.Chunks(rest[|payload|..], bufferSize) == chunks[k + 1..]
  {
    if rest != [] {
      var payload := Read(rest, bufferSize);
      assert chunks[k..] == [payload] + Chunks.Chunks(rest[|payload|..], bufferSize);
      assert chunks[k] == chunks[k..][0];
      assert chunks[k + 1..] == chunks[k..][1..];
    }
  }

  /** What a sent PDU has to be for the forward channel to stay well-formed. */
  ghost predicate SentOk(chunks: seq<Payload>, s: Sender, s': Sender, rcv: Client, p: Packet) {
    && FwdMsgOk(chunks, Good(p), s'.window.current, rcv.expected, High(rcv), EofStarted(s'))
    && (p.flag == DATA ==> p.seqNum == s.window.current)
  }

  ghost predicate ServerAdvances(s: Sender, s': Sender) {
    && s.window.lower <= s'.window.lower
    && s.window.current <= s'.window.current
    && (EofStarted(s) ==> EofStarted(s') && s'.window.current == s.window.current)
    && (s.atEOF ==> s'.atEOF)
  }

  lemma FillReadOk(cfg: Config, s: Sender, rcv: Client)
    requires cfg.Valid() && s.phase == Fill && s.window.IsOpen() && !s.atEOF
    requires ServerOk(cfg.FileChunks(), cfg.bufferSize, s) && Linked(s, rcv)
    ensures var o := FillStep(s, cfg.bufferSize);
      && ServerOk(cfg.FileChunks(), cfg.bufferSize, o.sender)
      && Linked(o.sender, rcv)
      && ServerAdvances(s, o.sender)
      && o.sender.window.lower == s.window.lower
      && (forall p | p in o.sent :: SentOk(cfg.FileChunks(), s, o.sender, rcv, p))
  {
    hide Chunks.Chunks, Config.FileChunks;
    var chunks := cfg.FileChunks();
    ReadIsNextChunk(chunks, cfg.bufferSize, s.rest, s.window.current);
    if s.rest != [] {
      var payload := Read(s.rest, cfg.bufferSize);
      assert payload == chunks[s.window.current];
      AddHolds(s.window, chunks);
    }
  }

  lemma FillExitOk(cfg: Config, s: Sender, rcv: Client)
    requires cfg.Valid() && s.phase == Fill && !(s.window.IsOpen() && !s.atEOF)
    requires ServerOk(cfg.FileChunks(), cfg.bufferSize, s) && Linked(s, rcv)
    ensures var o := FillStep(s, cfg.bufferSize);
      && ServerOk(cfg.FileChunks(), cfg.bufferSize, o.sender)
      && Linked(o.sender, rcv)
      && ServerAdvances(s, o.sender)
      && o.sender.window == s.window && o.sent == []
  {
    hide Chunks.Chunks, Config.FileChunks;
    if s.atEOF {
      LowestSlot(cfg.FileChunks(), s.window);
    }
  }

  /** The lowest slot: the lowest unacknowledged chunk, or else the one it has not yet been overwritten with. */
  lemma LowestSlot(chunks: seq<Payload>, w: Window)
    requires HoldsChunks(w, chunks)
    ensures w.lower < w.current ==> w.Lowest() == SendSlot(w.lower, chunks[w.lower])
    ensures w.lower == w.current ==>
      w.Lowest() == if w.current < w.Size() then ZERO_SLOT
                    else SendSlot(w.current - w.Size(), chunks[w.current - w.Size()])
  {
    if w.lower == w.current {
      LowestIsStale(w, chunks);
    } else {
      SlotIsChunk(w, chunks, w.lower);
    }
  }

  lemma RespondOk(cfg: Config, s: Sender, rcv: Client, waiting: bool, last: u32, m: Msg)
    requires cfg.Valid()
    requires HoldsChunks(s.window, cfg.FileChunks()) && Linked(s, rcv)
    requires RevMsgOk(m, s.window.lower, rcv.expected, s.window.current, rcv.state == Finished)
    ensures var r := ProcessResponse(s.window, waiting, last, m);
      && HoldsChunks(r.window, cfg.FileChunks())
      && r.window.Size() == s.window.Size() && r.window.current == s.window.current
      && s.window.lower <= r.window.lower <= rcv.expected
      && (m.Good? && IsReceipt(m.packet.flag) ==> r.window.lower <= Target(m.packet.payload))
      && (r.waiting != waiting ==> waiting && r.window.lower < 0x8000_0000 && Dec32(r.window.lower) == last)
      && (r.exit ==> rcv.state == Finished)
      && (forall p | p in r.sent :: p.flag == RESENT_DATA_SREJ && p.seqNum < s.window.current
            && p.payload == cfg.FileChunks()[p.seqNum] && s.window.lower <= p.seqNum <= rcv.expected
            && p.seqNum == Target(m.packet.payload))
  {
    if m.Good? && m.packet.flag == SREJ {
      SlotIsChunk(s.window, cfg.FileChunks(), Target(m.packet.payload));
    }
  }

  lemma ReceiveOk(cfg: Config, s: Sender, rcv: Client, m: Msg)
    requires cfg.Valid() && Polling(s)
    requires ServerOk(cfg.FileChunks(), cfg.bufferSize, s) && Linked(s, rcv)
    requires RevMsgOk(m, s.window.lower, rcv.expected, s.window.current, rcv.state == Finished)
    ensures var o := Step(s, cfg.bufferSize, Arrive(m));
      && ServerOk(cfg.FileChunks(), cfg.bufferSize, o.sender)
      && Linked(o.sender, rcv)
      && ServerAdvances(s, o.sender)
      && (m.Good? && IsReceipt(m.packet.flag) ==> o.sender.window.lower <= Target(m.packet.payload))
      && (!(m.Good? && IsReceipt(m.packet.flag)) ==> o.sender.window.lower == s.window.lower)
      && (forall p | p in o.sent :: SentOk(cfg.FileChunks(), s, o.sender, rcv, p))
  {
    if s.phase == EofPoll {
      RespondOk(cfg, s, rcv, false, s.seqNum, m);
    } else {
      RespondOk(cfg, s, rcv, s.waiting, s.last, m);
    }
  }

  lemma OtherStepOk(cfg: Config, s: Sender, rcv: Client, ev: Event)
    requires cfg.Valid() && Accepts(s, ev) && !ev.Arrive? && s.phase != Fill
    requires ServerOk(cfg.FileChunks(), cfg.bufferSize, s) && Linked(s, rcv)
    ensures var o := Step(s, cfg.bufferSize, ev);
      && ServerOk(cfg.FileChunks(), cfg.bufferSize, o.sender)
      && Linked(o.sender, rcv)
      && ServerAdvances(s, o.sender)
      && o.sender.window == s.window
      && (forall p | p in o.sent :: SentOk(cfg.FileChunks(), s, o.sender, rcv, p))
  {
    hide Chunks.Chunks, Config.FileChunks;
    ReadIsNextChunk(cfg.FileChunks(), cfg.bufferSize, s.rest, s.window.current);
    LowestSlot(cfg.FileChunks(), s.window);
  }
}
