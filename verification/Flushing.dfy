/** flush() (src/rcopy.c) against the reorder ring seen as a map: it writes the maximal contiguous run. */
module Flushing {
  import opened Bytes
  import opened Protocol
  import opened Rings
  import opened ReorderBuffer
  import opened Rcopy
  import opened Chunks
  import opened Invariant
  import opened ClientSteps
  import opened System
  import opened Server
  import opened Safety

  /** The ring holds data PDUs of one window that starts at expected, none above highest. */
  predicate Flushable(c: Client) {
    && c.state == Buffering
    && Placed(c.ring) && Within(c.ring, c.expected)
    && c.expected <= c.highest + 1 <= 0xFFFF_FFFF && c.highest < c.expected + |c.ring|
    && forall k | k in Contents(c.ring) :: k <= c.highest && Contents(c.ring)[k].flag != END_OF_FILE
  }

  /** The data of consecutive entries of the map. */
  function Joined(m: map<u32, Entry>, from: nat, end: nat): seq<byte>
    requires from <= end < 0x1_0000_0000
    requires forall k: u32 | from <= k < end :: k in m
    decreases end - from
  {
    if from == end then [] else m[from].data + Joined(m, from + 1, end)
  }

  lemma DrainOneIsMapStep(c: Client)
    requires Flushable(c) && CanDrain(c)
    ensures c.expected in Contents(c.ring)
    ensures var d := DrainOne(c);
      && Flushable(d) && d.highest == c.highest
      && d.expected == c.expected + 1
      && d.output == c.output + Contents(c.ring)[c.expected].data
      && Contents(d.ring) == Contents(c.ring) - {c.expected}
  {
    ReadIsMapLookup(c.ring, c.expected, c.expected);
    var d := DrainOne(c);
    assert forall i | 0 <= i < |d.ring| && d.ring[i].valid :: d.ring[i] == c.ring[i];
    forall i | 0 <= i < |d.ring| && d.ring[i].valid
      ensures d.ring[i].seqNum != c.expected
    {
      assert Index(d.ring[i].seqNum, |d.ring|) == i;
    }
    assert forall k | k in Contents(d.ring) :: k in Contents(c.ring) && Contents(d.ring)[k] == Contents(c.ring)[k];
  }

  lemma {:induction false} JoinedIgnores(m: map<u32, Entry>, k: u32, from: nat, end: nat)
    requires k < from <= end < 0x1_0000_0000
    requires forall j: u32 | from <= j < end :: j in m
    ensures Joined(m - {k}, from, end) == Joined(m, from, end)
    decreases end - from
  {
    if from < end {
      JoinedIgnores(m, k, from + 1, end);
    }
  }

  /** From c to d everything buffered from expected up to the first number that is not has been
      written, and exactly that has been taken out of the ring. */
  ghost predicate MaximalRun(c: Client, d: Client) {
    var m := Contents(c.ring);
    && d.state == Buffering && d.highest == c.highest && Flushable(d)
    && c.expected <= d.expected
    && (forall k: u32 | c.expected <= k < d.expected :: k in m)
    && d.expected !in m
    && d.output == c.output + Joined(m, c.expected, d.expected)
    && Contents(d.ring) == Rest(m, d.expected)
  }

  ghost function Rest(m: map<u32, Entry>, from: u32): map<u32, Entry> {
    map k | k in m && k >= from :: m[k]
  }

  lemma MaximalRunStep(c: Client, c1: Client, d: Client)
    requires Flushable(c) && CanDrain(c) && c1 == DrainOne(c) && MaximalRun(c1, d)
    ensures MaximalRun(c, d)
  {
    DrainOneIsMapStep(c);
    hide Flushable, DrainOne, Contents, CanDrain, Joined, Rest;
    FirstOfRun(Contents(c.ring), c.expected, d.expected);
    var m := Contents(c.ring);
    assert d.output == c.output + (m[c.expected].data + Joined(m - {c.expected}, c1.expected, d.expected));
  }

  lemma FirstOfRun(m: map<u32, Entry>, k: u32, end: u32)
    requires k < end && k in m
    requires forall j: u32 | k + 1 <= j < end :: j in m - {k}
    ensures forall j: u32 | k <= j < end :: j in m
    ensures Joined(m, k, end) == m[k].data + Joined(m - {k}, k + 1, end)
    ensures Rest(m - {k}, end) == Rest(m, end)
  {
    assert forall j: u32 | k <= j < end :: j == k || j in m - {k};
    forall j: u32 | k + 1 <= j < end ensures j in m {
      assert j in m - {k};
    }
    JoinedIgnores(m, k, k + 1, end);
  }

  lemma EmptyRun(c: Client)
    requires Flushable(c) && !CanDrain(c)
    ensures MaximalRun(c, c)
  {
    if c.expected <= c.highest {
      ReadIsMapLookup(c.ring, c.expected, c.expected);
    }
    forall k | k in Contents(c.ring) ensures k >= c.expected {
      StoredIff(c.ring, k);
    }
    assert Contents(c.ring) == Rest(Contents(c.ring), c.expected);
  }

  /** The loop of flush() writes the maximal contiguous run. */
  lemma {:induction false} DrainWritesMaximalRun(c: Client)
    requires Flushable(c)
    ensures MaximalRun(c, Drain(c))
    decreases c.highest + 1 - c.expected
  {
    hide MaximalRun;
    if CanDrain(c) {
      DrainOneIsMapStep(c);
      DrainWritesMaximalRun(DrainOne(c));
      MaximalRunStep(c, DrainOne(c), Drain(DrainOne(c)));
    } else {
      EmptyRun(c);
    }
  }

  lemma DrainingIsFlushable(chunks: seq<Payload>, c: Client)
    requires Draining(chunks, c)
    ensures Flushable(c)
    ensures c.expected <= c.highest ==> c.highest in Contents(c.ring)
  {
    forall k | k in Contents(c.ring) ensures k <= c.highest && Contents(c.ring)[k].flag != END_OF_FILE {
      StoredIff(c.ring, k);
    }
  }

  lemma GapIsFlushable(cfg: Config, t: State)
    requires cfg.Valid() && Reachable(cfg, t) && t.rcv.state == Buffering
    requires t.fwd != [] && t.fwd[0].Good? && t.fwd[0].packet.seqNum == t.rcv.expected
    ensures t.fwd[0].packet.flag != END_OF_FILE
    ensures var w := Write(t.rcv, t.fwd[0].packet.payload);
      && Flushable(w) && Draining(cfg.FileChunks(), w) && w.expected == t.rcv.expected + 1
      && t.rcv.highest in Contents(w.ring) && w.highest == t.rcv.highest
  {
    ReachableInv(cfg, t);
    EofIsNeverBuffered(cfg, t, 0);
    WriteIsDraining(cfg.FileChunks(), t.rcv, t.fwd[0].packet, t.snd.window.current, EofStarted(t.snd));
    DrainingIsFlushable(cfg.FileChunks(), Write(t.rcv, t.fwd[0].packet.payload));
  }

  /** After the loop: IN_ORDER if nothing is left in the ring, otherwise BUFFER with highest still in it. */
  lemma FlushOutcome(chunks: seq<Payload>, w: Client)
    requires Flushable(w) && Draining(chunks, w) && w.highest in Contents(w.ring)
    ensures var c := Flush(w).client;
      && c.output == Drain(w).output && c.expected == Drain(w).expected && c.ring == Drain(w).ring
      && (c.state == InOrder <==> Contents(c.ring) == map[])
      && (c.state == InOrder <==> c.expected == w.highest + 1)
      && (c.state != InOrder ==> c.state == Buffering && c.expected < w.highest && w.highest in Contents(c.ring))
  {
    hide ClientOk, Draining, Flushable, Drain, Contents;
    FlushOk(chunks, w);
    DrainWritesMaximalRun(w);
    if Drain(w).expected > w.highest {
      NothingAboveHighest(w, Drain(w).expected);
    }
    RestOf(Contents(w.ring), Drain(w).expected, w.highest);
  }

  lemma NothingAboveHighest(c: Client, k: u32)
    requires Flushable(c) && k > c.highest
    ensures Rest(Contents(c.ring), k) == map[]
  {
  }

  lemma RestOf(m: map<u32, Entry>, from: u32, k: u32)
    ensures k in Rest(m, from) <==> k in m && k >= from
  {
  }

  /** In every run, the PDU that closes the gap sets off exactly such a flush. */
  lemma GapClosed(cfg: Config, t: State)
    requires cfg.Valid() && Reachable(cfg, t) && t.rcv.state == Buffering
    requires t.fwd != [] && t.fwd[0].Good? && t.fwd[0].packet.seqNum == t.rcv.expected
    ensures var w := Write(t.rcv, t.fwd[0].packet.payload);
      && Receive(t.rcv, t.fwd[0]) == Flush(w)
      && MaximalRun(w, Drain(w))
      && (Flush(w).client.state == InOrder <==> Contents(Flush(w).client.ring) == map[])
      && (Flush(w).client.state == Buffering ==> Flush(w).client.expected < t.rcv.highest)
  {
    GapIsFlushable(cfg, t);
    var w := Write(t.rcv, t.fwd[0].packet.payload);
    DrainWritesMaximalRun(w);
    FlushOutcome(cfg.FileChunks(), w);
    hide Flush, MaximalRun, Flushable;
  }

  // ---------------------------------------------------------------------------
  // What the client answers
  // ---------------------------------------------------------------------------

  /** An RR, then an SREJ, as far as they are asked for, both for the same number and numbered one after the other. */
  function Answers(n: u32, expected: u32, rr: bool, srej: bool): seq<Packet> {
    (if rr then [Packet(n, RR, BE32(expected))] else [])
    + (if srej then [Packet(if rr then Inc32(n) else n, SREJ, BE32(expected))] else [])
  }

  /**
   * An RR answers everything but an early arrival; an SREJ is sent whenever the client is
   * left with a gap, unless the arrival only adds to what is buffered behind a known one.
   * Both name what the client expects afterwards.
   */
  lemma RepliesExactly(cfg: Config, t: State)
    requires cfg.Valid() && Reachable(cfg, t) && t.rcv.state != Finished
    requires t.fwd != [] && t.fwd[0].Good? && t.fwd[0].packet.flag != END_OF_FILE
    ensures var c, o, k := t.rcv, Receive(t.rcv, t.fwd[0]), t.fwd[0].packet.seqNum;
      o.sent == Answers(c.clientSeqNum, o.client.expected,
                        k <= c.expected,
                        o.client.state == Buffering && !(c.state == Buffering && k > c.expected))
  {
    hide Answers, Receive;
    if t.rcv.state == Buffering && t.fwd[0].packet.seqNum == t.rcv.expected {
      GapIsFlushable(cfg, t);
      GapClosed(cfg, t);
      FlushReplies(cfg.FileChunks(), Write(t.rcv, t.fwd[0].packet.payload));
    } else {
      OtherReplies(t.rcv, t.fwd[0].packet);
    }
  }

  lemma FlushReplies(chunks: seq<Payload>, w: Client)
    requires Draining(chunks, w)
    ensures var o := Flush(w);
      o.sent == Answers(w.clientSeqNum, o.client.expected, true, o.client.state == Buffering)
  {
    DrainOk(chunks, w);
    DrainKeepsNumbering(w);
    hide Drain;
  }

  lemma OtherReplies(c: Client, p: Packet)
    requires c.state != Finished && p.flag != END_OF_FILE && !(c.state == Buffering && p.seqNum == c.expected)
    ensures var o := Receive(c, Good(p));
      o.sent == Answers(c.clientSeqNum, o.client.expected, p.seqNum <= c.expected,
                        o.client.state == Buffering && !(c.state == Buffering && p.seqNum > c.expected))
  {
  }

  lemma {:induction false} DrainKeepsNumbering(c: Client)
    ensures Drain(c).clientSeqNum == c.clientSeqNum
    decreases ValidSlots(c.ring)
  {
    if c.state != Finished && CanDrain(c) {
      InvalidatingASlot(c.ring, Index(c.expected, |c.ring|));
      DrainKeepsNumbering(DrainOne(c));
    }
  }
}
