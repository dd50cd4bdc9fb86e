/** Server, client and the two channels between them, composed into one step system. */
module System {
  import opened Bytes
  import opened Protocol
  import opened SlidingWindow
  import opened Rcopy
  import opened Server
  import Chunks

  datatype Config = Config(file: seq<byte>, bufferSize: nat, windowSize: nat) {
    /** What the command line and the C ints admit. */
    ghost predicate Valid() {
      && 1 <= bufferSize <= MAX_PAYLOAD_SIZE
      && 1 <= windowSize
      && |FileChunks()| + windowSize < 0x8000_0000
    }

    function FileChunks(): seq<Payload>
      requires 1 <= bufferSize <= MAX_PAYLOAD_SIZE
    {
      Chunks.Chunks(file, bufferSize)
    }
  }

  /** What the channel does to one datagram. */
  datatype Fault = Deliver | Drop | Flip

  datatype State = State(snd: Sender, rcv: Client, fwd: seq<Msg>, rev: seq<Msg>)

  function Emit(q: seq<Msg>, p: Packet, f: Fault): seq<Msg> {
    match f
    case Deliver => q + [Good(p)]
    case Drop => q
    case Flip => q + [Corrupt]
  }

  function EmitAll(q: seq<Msg>, sent: seq<Packet>, faults: seq<Fault>): seq<Msg>
    requires |sent| <= |faults|
    decreases |sent|
  {
    if sent == [] then q else EmitAll(Emit(q, sent[0], faults[0]), sent[1..], faults[1..])
  }

  lemma EmitAtMostOne(q: seq<Msg>, sent: seq<Packet>, f: Fault)
    requires |sent| <= 1
    ensures EmitAll(q, sent, [f]) == if sent == [] then q else Emit(q, sent[0], f)
  {
    if sent != [] {
      assert sent[1..] == [];
    }
  }

  lemma EmitAtMostTwo(q: seq<Msg>, sent: seq<Packet>, f: Fault, g: Fault)
    requires |sent| <= 2
    ensures EmitAll(q, sent, [f, g]) ==
      if |sent| == 0 then q else if |sent| == 1 then Emit(q, sent[0], f)
      else Emit(Emit(q, sent[0], f), sent[1], g)
  {
    if |sent| == 1 {
      assert sent[1..] == [];
    } else if |sent| == 2 {
      assert sent[1..] == [sent[1]] && sent[1..][1..] == [] && [f, g][1..] == [g];
      var q1 := Emit(q, sent[0], f);
      assert EmitAll(q, sent, [f, g]) == EmitAll(q1, sent[1..], [g]);
      assert EmitAll(q1, sent[1..], [g]) == Emit(q1, sent[1], g);
    }
  }

  /**
   * A poll may elapse although a datagram is under way, and a tick or poll of the server
   * may fall anywhere between the client's receipts.
   */
  datatype Action =
    | ServerTick(garbage: u32, fault: Fault)
    | ServerTimeout(fault: Fault)
    | ServerReceive(fault: Fault)
    | ClientReceive(faults: (Fault, Fault))

  ghost predicate Initial(cfg: Config, s: State)
    requires cfg.Valid()
  {
    && (exists garbage: u32 :: s.snd == NewSender(cfg.windowSize, cfg.file, garbage))
    && (exists clientSeqNum: u32 :: s.rcv == NewClient(cfg.windowSize, clientSeqNum))
    && s.fwd == []
    // the client repeats FNAME_OK_ACK until the first data arrives
    && (forall i | 0 <= i < |s.rev| :: s.rev[i] == Corrupt || s.rev[i].packet.flag == FNAME_OK_ACK)
  }

  function EventOf(s: State, a: Action): Event
    requires a.ServerReceive? ==> s.rev != []
    requires !a.ClientReceive?
  {
    match a
    case ServerTick(garbage, _) => Tick(garbage)
    case ServerTimeout(_) => Timeout
    case ServerReceive(_) => Arrive(s.rev[0])
  }

  predicate Sized(cfg: Config, s: State) {
    1 <= cfg.bufferSize <= MAX_PAYLOAD_SIZE && s.snd.window.Size() > 0
  }

  predicate Enabled(cfg: Config, s: State, a: Action) {
    && Sized(cfg, s)
    && match a
       case ClientReceive(_) => s.rcv.state != Finished && s.fwd != []
       case ServerTick(_, _) => Ticking(s.snd)
       case ServerTimeout(_) => Polling(s.snd)
       case ServerReceive(_) => Polling(s.snd) && s.rev != []
  }

  function Next(cfg: Config, s: State, a: Action): State
    requires Enabled(cfg, s, a)
  {
    if a.ClientReceive? then
      var o := Receive(s.rcv, s.fwd[0]);
      s.(rcv := o.client, fwd := s.fwd[1..], rev := EmitAll(s.rev, o.sent, [a.faults.0, a.faults.1]))
    else
      var o := Step(s.snd, cfg.bufferSize, EventOf(s, a));
      s.(snd := o.sender, fwd := EmitAll(s.fwd, o.sent, [a.fault]),
         rev := if a.ServerReceive? then s.rev[1..] else s.rev)
  }

  predicate Run(cfg: Config, s: State, actions: seq<Action>, t: State)
    decreases |actions|
  {
    if actions == [] then s == t
    else Enabled(cfg, s, actions[0]) && Run(cfg, Next(cfg, s, actions[0]), actions[1..], t)
  }

  ghost predicate Reachable(cfg: Config, t: State)
    requires cfg.Valid()
  {
    exists s, actions :: Initial(cfg, s) && Run(cfg, s, actions, t)
  }

  lemma {:induction false} RunConcat(cfg: Config, s: State, a: seq<Action>, t: State, b: seq<Action>, u: State)
    requires Run(cfg, s, a, t) && Run(cfg, t, b, u)
    ensures Run(cfg, s, a + b, u)
    decreases |a|
  {
    hide Next, Enabled;
    if a == [] {
      assert a + b == b;
    } else {
      assert (a + b)[1..] == a[1..] + b;
      RunConcat(cfg, Next(cfg, s, a[0]), a[1..], t, b, u);
    }
  }
}
