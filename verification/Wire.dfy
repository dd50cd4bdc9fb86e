/**
 * The system as it runs: datagrams are byte sequences, the two hosts may differ in byte
 * order, and the channel may complement any byte. Checksums reduce it, step by step, to
 * the system over lossy channels.
 */
module Wire {
  import opened Bytes
  import opened InternetChecksum
  import opened Protocol
  import opened Pdu
  import Rings
  import opened Channel
  import opened Rcopy
  import opened Server
  import System
  import Safety
  import Liveness
  import Completion
  import Chunks
  import Invariant

  datatype Hosts = Hosts(server: Endian, client: Endian)

  datatype WireState = WireState(snd: Sender, rcv: Client, fwd: seq<Frame>, rev: seq<Frame>)

  datatype WireAction =
    | ServerTick(garbage: u32, fault: WireFault)
    | ServerTimeout(fault: WireFault)
    | ServerReceive(fault: WireFault)
    | ClientReceive(faults: (WireFault, WireFault))

  function Transmit(q: seq<Frame>, e: Endian, p: Packet, fault: WireFault): seq<Frame> {
    q + Inject(fault, Encode(e, p))
  }

  function TransmitAll(q: seq<Frame>, e: Endian, sent: seq<Packet>, faults: seq<WireFault>): seq<Frame>
    requires |sent| <= |faults|
    decreases |sent|
  {
    if sent == [] then q else TransmitAll(Transmit(q, e, sent[0], faults[0]), e, sent[1..], faults[1..])
  }

  predicate Enabled(cfg: System.Config, w: WireState, a: WireAction) {
    && 1 <= cfg.bufferSize <= MAX_PAYLOAD_SIZE && w.snd.window.Size() > 0
    && match a
       case ClientReceive(_) => w.rcv.state != Finished && w.fwd != []
       case ServerTick(_, _) => Ticking(w.snd)
       case ServerTimeout(_) => Polling(w.snd)
       case ServerReceive(_) => Polling(w.snd) && w.rev != []
  }

  function EventOf(h: Hosts, w: WireState, a: WireAction): Event
    requires !a.ClientReceive? && (a.ServerReceive? ==> w.rev != [])
  {
    match a
    case ServerTick(garbage, _) => Tick(garbage)
    case ServerTimeout(_) => Timeout
    case ServerReceive(_) => Arrive(Decode(h.server, w.rev[0]))
  }

  function Next(cfg: System.Config, h: Hosts, w: WireState, a: WireAction): WireState
    requires Enabled(cfg, w, a)
  {
    if a.ClientReceive? then
      var o := Receive(w.rcv, Decode(h.client, w.fwd[0]));
      w.(rcv := o.client, fwd := w.fwd[1..],
         rev := TransmitAll(w.rev, h.client, o.sent, [a.faults.0, a.faults.1]))
    else
      var o := Step(w.snd, cfg.bufferSize, EventOf(h, w, a));
      w.(snd := o.sender, fwd := TransmitAll(w.fwd, h.server, o.sent, [a.fault]),
         rev := if a.ServerReceive? then w.rev[1..] else w.rev)
  }

  predicate Run(cfg: System.Config, h: Hosts, w: WireState, actions: seq<WireAction>, v: WireState)
    decreases |actions|
  {
    if actions == [] then w == v
    else Enabled(cfg, w, actions[0]) && Run(cfg, h, Next(cfg, h, w, actions[0]), actions[1..], v)
  }

  // ---------------------------------------------------------------------------
  // What the endpoints can tell of it
  // ---------------------------------------------------------------------------

  function DecodeAll(e: Endian, q: seq<Frame>): (r: seq<Msg>)
    ensures |r| == |q| && forall i | 0 <= i < |q| :: r[i] == Decode(e, q[i])
  {
    if q == [] then [] else [Decode(e, q[0])] + DecodeAll(e, q[1..])
  }

  function Seen(h: Hosts, w: WireState): System.State {
    System.State(w.snd, w.rcv, DecodeAll(h.client, w.fwd), DecodeAll(h.server, w.rev))
  }

  function SeenFault(f: WireFault): System.Fault {
    match f
    case Intact => System.Deliver
    case Lost => System.Drop
    case Complemented(_) => System.Flip
  }

  function SeenAction(a: WireAction): System.Action {
    match a
    case ServerTick(garbage, f) => System.ServerTick(garbage, SeenFault(f))
    case ServerTimeout(f) => System.ServerTimeout(SeenFault(f))
    case ServerReceive(f) => System.ServerReceive(SeenFault(f))
    case ClientReceive(fs) => System.ClientReceive((SeenFault(fs.0), SeenFault(fs.1)))
  }

  lemma DecodeAllTail(e: Endian, q: seq<Frame>)
    requires q != []
    ensures DecodeAll(e, q[1..]) == DecodeAll(e, q)[1..]
  {
  }

  /** A flipped byte arrives as a checksum error, an untouched PDU as what was sent. */
  lemma TransmitIsEmit(q: seq<Frame>, e: Endian, e': Endian, p: Packet, fault: WireFault)
    ensures DecodeAll(e', Transmit(q, e, p, fault)) == System.Emit(DecodeAll(e', q), p, SeenFault(fault))
  {
    hide Encode, Decode;
    var f := Encode(e, p);
    match fault
    case Intact => RoundTrip(e, e', p);
    case Lost =>
    case Complemented(at) => CorruptionIsDetected(e, e', p, Rings.Index(at, |f|));
  }

  lemma {:induction false} TransmitAllIsEmitAll(q: seq<Frame>, e: Endian, e': Endian, sent: seq<Packet>,
                                                faults: seq<WireFault>, seen: seq<System.Fault>)
    requires |sent| <= |faults| == |seen| && forall i | 0 <= i < |faults| :: seen[i] == SeenFault(faults[i])
    ensures DecodeAll(e', TransmitAll(q, e, sent, faults)) == System.EmitAll(DecodeAll(e', q), sent, seen)
    decreases |sent|
  {
    if sent != [] {
      TransmitIsEmit(q, e, e', sent[0], faults[0]);
      TransmitAllIsEmitAll(Transmit(q, e, sent[0], faults[0]), e, e', sent[1..], faults[1..], seen[1..]);
    }
  }

  /** Every step over corrupting channels is the corresponding step over lossy ones, and conversely. */
  lemma StepIsRefined(cfg: System.Config, h: Hosts, w: WireState, a: WireAction)
    ensures Enabled(cfg, w, a) <==> System.Enabled(cfg, Seen(h, w), SeenAction(a))
    ensures Enabled(cfg, w, a) ==> Seen(h, Next(cfg, h, w, a)) == System.Next(cfg, Seen(h, w), SeenAction(a))
  {
    hide Receive, Step, Decode, Encode, TransmitAll, System.EmitAll;
    if Enabled(cfg, w, a) {
      if a.ClientReceive? {
        DecodeAllTail(h.client, w.fwd);
        TransmitAllIsEmitAll(w.rev, h.client, h.server, Receive(w.rcv, Decode(h.client, w.fwd[0])).sent,
          [a.faults.0, a.faults.1], [SeenFault(a.faults.0), SeenFault(a.faults.1)]);
      } else {
        if a.ServerReceive? {
          DecodeAllTail(h.server, w.rev);
        }
        TransmitAllIsEmitAll(w.fwd, h.server, h.client, Step(w.snd, cfg.bufferSize, EventOf(h, w, a)).sent,
          [a.fault], [SeenFault(a.fault)]);
      }
    }
  }

  function SeenActions(actions: seq<WireAction>): seq<System.Action> {
    seq(|actions|, i requires 0 <= i < |actions| => SeenAction(actions[i]))
  }

  lemma {:induction false} RunIsRefined(cfg: System.Config, h: Hosts, w: WireState, actions: seq<WireAction>,
                                        v: WireState)
    requires Run(cfg, h, w, actions, v)
    ensures System.Run(cfg, Seen(h, w), SeenActions(actions), Seen(h, v))
    decreases |actions|
  {
    hide Next, System.Next, Enabled, System.Enabled;
    if actions != [] {
      StepIsRefined(cfg, h, w, actions[0]);
      RunIsRefined(cfg, h, Next(cfg, h, w, actions[0]), actions[1..], v);
      assert SeenActions(actions)[1..] == SeenActions(actions[1..]);
    }
  }

  /** A fault of the wire that looks like a given one. */
  function OnWire(a: System.Action): WireAction {
    match a
    case ServerTick(garbage, f) => ServerTick(garbage, FaultOnWire(f))
    case ServerTimeout(f) => ServerTimeout(FaultOnWire(f))
    case ServerReceive(f) => ServerReceive(FaultOnWire(f))
    case ClientReceive(fs) => ClientReceive((FaultOnWire(fs.0), FaultOnWire(fs.1)))
  }

  function FaultOnWire(f: System.Fault): WireFault {
    match f
    case Deliver => Intact
    case Drop => Lost
    case Flip => Complemented(0)
  }

  lemma {:induction false} RunIsRealised(cfg: System.Config, h: Hosts, w: WireState, actions: seq<System.Action>,
                                         t: System.State)
    returns (wired: seq<WireAction>, v: WireState)
    requires System.Run(cfg, Seen(h, w), actions, t)
    ensures Run(cfg, h, w, wired, v) && Seen(h, v) == t
    ensures |wired| == |actions| && forall i | 0 <= i < |actions| :: wired[i] == OnWire(actions[i])
    decreases |actions|
  {
    hide Next, System.Next, Enabled, System.Enabled;
    if actions == [] {
      wired, v := [], w;
    } else {
      var a := OnWire(actions[0]);
      assert SeenAction(a) == actions[0];
      StepIsRefined(cfg, h, w, a);
      var rest;
      rest, v := RunIsRealised(cfg, h, Next(cfg, h, w, a), actions[1..], t);
      wired := [a] + rest;
      assert wired[1..] == rest;
    }
  }

  // ---------------------------------------------------------------------------
  // The protocol's promises, end to end
  // ---------------------------------------------------------------------------

  /** Run under a name that does not unfold: quantifiers over runs are triggered by it. */
  predicate AnyRun(cfg: System.Config, h: Hosts, w: WireState, actions: seq<WireAction>, v: WireState) {
    Run(cfg, h, w, actions, v)
  }

  ghost predicate Initial(cfg: System.Config, h: Hosts, w: WireState)
    requires cfg.Valid()
  {
    System.Initial(cfg, Seen(h, w))
  }

  ghost predicate Reachable(cfg: System.Config, h: Hosts, v: WireState)
    requires cfg.Valid()
  {
    exists w, actions :: Initial(cfg, h, w) && AnyRun(cfg, h, w, actions, v)
  }

  lemma SeenIsReachable(cfg: System.Config, h: Hosts, v: WireState)
    requires cfg.Valid() && Reachable(cfg, h, v)
    ensures System.Reachable(cfg, Seen(h, v))
  {
    var w, actions :| Initial(cfg, h, w) && AnyRun(cfg, h, w, actions, v);
    RunIsRefined(cfg, h, w, actions, v);
  }

  /**
   * Whatever bytes the channels complement and whatever they lose: the client has written
   * a prefix of the file, and all of it once either side believes the transfer is over.
   */
  lemma EndToEnd(cfg: System.Config, h: Hosts, v: WireState)
    requires cfg.Valid() && Reachable(cfg, h, v)
    ensures v.rcv.output <= cfg.file && v.rcv.expected <= |cfg.FileChunks()|
    ensures v.rcv.output == Chunks.Flatten(cfg.FileChunks()[..v.rcv.expected])
    ensures v.snd.phase == Eof || v.snd.phase == EofPoll || v.snd.phase == Exited || v.rcv.state == Finished ==>
      v.rcv.output == cfg.file
    ensures v.snd.phase == Exited ==> v.rcv.state == Finished
  {
    SeenIsReachable(cfg, h, v);
    Safety.OutputIsPrefixOfFile(cfg, Seen(h, v));
    Safety.ClosingAgreement(cfg, Seen(h, v));
  }

  predicate Completed(v: WireState) {
    v.rcv.state == Finished && Invariant.Stopped(v.snd)
  }

  ghost predicate Completable(cfg: System.Config, h: Hosts, v: WireState) {
    exists actions, u :: AnyRun(cfg, h, v, actions, u) && Completed(u)
  }

  lemma CompletesOnWire(cfg: System.Config, h: Hosts, v: WireState) returns (actions: seq<WireAction>, u: WireState)
    requires cfg.Valid() && System.Reachable(cfg, Seen(h, v)) && !Liveness.Doomed(Seen(h, v))
    ensures Run(cfg, h, v, actions, u) && Completed(u)
  {
    Safety.ReachableInv(cfg, Seen(h, v));
    var seen, t := Completion.Completes(cfg, Seen(h, v));
    actions, u := RunIsRealised(cfg, h, v, seen, t);
  }

  lemma NeverCompletesOnWire(cfg: System.Config, h: Hosts, v: WireState, actions: seq<WireAction>, u: WireState)
    requires cfg.Valid() && System.Reachable(cfg, Seen(h, v)) && Liveness.Doomed(Seen(h, v))
    requires Run(cfg, h, v, actions, u)
    ensures !Completed(u)
  {
    Safety.ReachableInv(cfg, Seen(h, v));
    RunIsRefined(cfg, h, v, actions, u);
    Liveness.DoomedForever(cfg, Seen(h, v), SeenActions(actions), Seen(h, u));
  }

  /** A transfer over the wire can still be completed exactly if it does not look doomed. */
  lemma CompletableOnWire(cfg: System.Config, h: Hosts, v: WireState)
    requires cfg.Valid() && Reachable(cfg, h, v)
    ensures Completable(cfg, h, v) <==> !Liveness.Doomed(Seen(h, v))
  {
    SeenIsReachable(cfg, h, v);
    hide Run, Liveness.Doomed;
    if Liveness.Doomed(Seen(h, v)) {
      if actions, u :| AnyRun(cfg, h, v, actions, u) && Completed(u) {
        NeverCompletesOnWire(cfg, h, v, actions, u);
      }
    } else {
      var actions, u := CompletesOnWire(cfg, h, v);
      assert AnyRun(cfg, h, v, actions, u);
    }
  }

  /** A datagram with a flipped byte leaves both ends as they were, but for the server's count of silent polls. */
  lemma CorruptionIsIgnored(cfg: System.Config, h: Hosts, w: WireState, p: Packet, i: nat)
    requires 1 <= cfg.bufferSize <= MAX_PAYLOAD_SIZE && w.snd.window.Size() > 0
    requires w.rcv.state != Finished && Polling(w.snd)
    ensures var f := FlipByte(Encode(h.server, p), Rings.Index(i, |Encode(h.server, p)|));
      Receive(w.rcv, Decode(h.client, f)) == Rcopy.Outcome(w.rcv, [])
    ensures var f := FlipByte(Encode(h.client, p), Rings.Index(i, |Encode(h.client, p)|));
      var o := Step(w.snd, cfg.bufferSize, Arrive(Decode(h.server, f)));
      && o.sent == []
      && o.sender == w.snd.(phase := o.sender.phase, tries := o.sender.tries, eofTries := o.sender.eofTries)
  {
    CorruptionIsDetected(h.server, h.client, p, Rings.Index(i, |Encode(h.server, p)|));
    CorruptionIsDetected(h.client, h.server, p, Rings.Index(i, |Encode(h.client, p)|));
  }
}
