/** The server's sending state machine (src/server.c), cut where the code waits for the network. */
module Server {
  import opened Bytes
  import opened Protocol
  import opened SlidingWindow

  /**
   * Where the server is: at the head of sendData()'s fill loop, at the poll inside it,
   * in its wait loop, about to send END_OF_FILE, at the poll after that, given up, or
   * exited on EOF_ACK.
   */
  datatype Phase = Fill | FillPoll | Wait | Eof | EofPoll | Quit | Exited

  /** rest is the part of the input file not read yet; last is lastDataSeqNum. */
  datatype Sender = Sender(phase: Phase, window: Window, seqNum: u32, rest: seq<byte>, atEOF: bool,
                           waiting: bool, last: u32, tries: nat, eofTries: nat)

  function NewSender(windowSize: nat, file: seq<byte>, garbage: u32): Sender {
    Sender(Fill, NewWindow(windowSize), START_SEQ_NUM, file, false, false, garbage, 0, 0)
  }

  /** What the code observes next: no wait, an elapsed poll, or a datagram. garbage is the
      value an uninitialised lastDataSeqNum has if sendData() is entered anew. */
  datatype Event = Tick(garbage: u32) | Timeout | Arrive(msg: Msg)

  datatype Outcome = Outcome(sender: Sender, sent: seq<Packet>)

  function Read(rest: seq<byte>, bufferSize: nat): seq<byte> {
    if |rest| <= bufferSize then rest else rest[..bufferSize]
  }

  /** The condition of sendData()'s wait loop. */
  predicate Blocked(s: Sender) {
    !s.window.IsOpen() || s.waiting
  }

  predicate Polling(s: Sender) {
    s.phase == FillPoll || s.phase == EofPoll || (s.phase == Wait && Blocked(s))
  }

  predicate Ticking(s: Sender) {
    s.phase == Fill || s.phase == Eof || (s.phase == Wait && !Blocked(s))
  }

  predicate Accepts(s: Sender, ev: Event) {
    if ev.Tick? then Ticking(s) else Polling(s)
  }

  /** What processResponse() does to the window and the flag passed to it. */
  datatype Response = Response(window: Window, waiting: bool, exit: bool, sent: seq<Packet>)

  /** The test of the pointer waitingForLastRR always succeeds, so only the number is compared. */
  function ProcessResponse(w: Window, waiting: bool, last: u32, m: Msg): Response
    requires w.Size() > 0
  {
    if m == Corrupt then Response(w, waiting, false, [])
    else
      var target := Target(m.packet.payload);
      if m.packet.flag == SREJ then
        Response(w, waiting, false, [Packet(target, RESENT_DATA_SREJ, w.Slot(target).data)])
      else if m.packet.flag == RR then
        Response(w.UpdateLower(target), if Dec32(target) == last then false else waiting, false, [])
      else Response(w, waiting, m.packet.flag == EOF_ACK, [])
  }

  /** One round of the fill loop up to its poll, or the way from its end to the wait loop. */
  function FillStep(s: Sender, bufferSize: nat): Outcome
    requires s.window.Size() > 0 && bufferSize <= MAX_PAYLOAD_SIZE
  {
    if s.window.IsOpen() && !s.atEOF then
      var payload := Read(s.rest, bufferSize);
      if payload == [] then
        Outcome(s.(phase := FillPoll, atEOF := true, last := Dec32(s.seqNum)), [])
      else
        Outcome(s.(phase := FillPoll, window := s.window.Add(s.seqNum, payload), rest := s.rest[|payload|..],
                   seqNum := Inc32(s.seqNum)),
                [Packet(s.seqNum, DATA, payload)])
    else
      Outcome(s.(phase := Wait, tries := 0,
                 waiting := s.waiting || (s.atEOF && Inc32(s.last) != s.window.Lowest().seqNum)), [])
  }

  function Absorb(s: Sender, m: Msg, next: Phase): Outcome
    requires s.window.Size() > 0
  {
    var r := ProcessResponse(s.window, s.waiting, s.last, m);
    Outcome(s.(window := r.window, waiting := r.waiting, phase := if r.exit then Exited else next), r.sent)
  }

  function WaitStep(s: Sender, ev: Event): Outcome
    requires s.window.Size() > 0 && s.phase == Wait && Accepts(s, ev)
  {
    match ev
    case Tick(garbage) =>
      if s.atEOF && !s.waiting then Outcome(s.(phase := Eof), [])
      else Outcome(s.(phase := Fill, last := garbage, tries := 0), [])
    case Timeout =>
      if s.tries + 1 >= MAX_TRIES then Outcome(s.(phase := Quit, tries := s.tries + 1), [])
      else
        var lowest := s.window.Lowest();
        Outcome(s.(tries := s.tries + 1), [Packet(lowest.seqNum, RESENT_DATA_TIMEOUT, lowest.data)])
    case Arrive(m) => Absorb(s.(tries := 0), m, Wait)
  }

  function EofPollStep(s: Sender, ev: Event): Outcome
    requires s.window.Size() > 0 && s.phase == EofPoll && Accepts(s, ev)
  {
    match ev
    case Timeout =>
      Outcome(s.(eofTries := s.eofTries + 1, phase := if s.eofTries + 1 >= MAX_TRIES then Quit else Eof), [])
    case Arrive(m) =>
      var r := ProcessResponse(s.window, false, s.seqNum, m);
      Outcome(s.(eofTries := 0, window := r.window, phase := if r.exit then Exited else Eof), r.sent)
  }

  function Step(s: Sender, bufferSize: nat, ev: Event): (o: Outcome)
    requires s.window.Size() > 0 && bufferSize <= MAX_PAYLOAD_SIZE && Accepts(s, ev)
    ensures o.sender.window.Size() == s.window.Size() && |o.sent| <= 1
  {
    match s.phase
    case Fill => FillStep(s, bufferSize)
    case FillPoll => if ev == Timeout then Outcome(s.(phase := Fill), []) else Absorb(s, ev.msg, Fill)
    case Wait => WaitStep(s, ev)
    case Eof => Outcome(s.(phase := EofPoll), [Packet(s.seqNum, END_OF_FILE, [])])
    case EofPoll => EofPollStep(s, ev)
  }

  /**
   * What a datagram does, at whichever of the three polls it arrives, and in whatever state:
   * an RR moves the window to what it carries, unconditionally, an SREJ has the slot it
   * points to resent, EOF_ACK ends the process, and nothing else has any effect.
   */
  lemma AnyArrival(s: Sender, bufferSize: nat, m: Msg)
    requires s.window.Size() > 0 && bufferSize <= MAX_PAYLOAD_SIZE && Polling(s)
    ensures var o, w := Step(s, bufferSize, Arrive(m)), s.window;
      var flag, k := if m.Good? then m.packet.flag else FNAME_OK_ACK, if m.Good? then Target(m.packet.payload) else 0;
      && o.sender.window == (if flag == RR then w.(lower := k, upper := k + |w.slots|) else w)
      && o.sent == (if flag == SREJ then [Packet(k, RESENT_DATA_SREJ, w.slots[k % |w.slots|].data)] else [])
      && o.sender.phase == (if flag == EOF_ACK then Exited
                            else match s.phase case Wait => Wait case FillPoll => Fill case _ => Eof)
      && o.sender.waiting == (s.waiting && !(flag == RR && Dec32(k) == s.last && s.phase != EofPoll))
      && o.sender.tries == (if s.phase == Wait then 0 else s.tries)
      && o.sender.eofTries == (if s.phase == EofPoll then 0 else s.eofTries)
      && o.sender.seqNum == s.seqNum && o.sender.rest == s.rest && o.sender.atEOF == s.atEOF && o.sender.last == s.last
  {
  }

  /** What the server does when a poll elapses, in whatever state. */
  lemma AnyTimeout(s: Sender, bufferSize: nat)
    requires s.window.Size() > 0 && bufferSize <= MAX_PAYLOAD_SIZE && Polling(s)
    ensures var o, slot := Step(s, bufferSize, Timeout), s.window.slots[s.window.lower % |s.window.slots|];
      match s.phase
      case FillPoll => o == Outcome(s.(phase := Fill), [])
      case Wait =>
        if s.tries >= 9 then o == Outcome(s.(phase := Quit, tries := s.tries + 1), [])
        else o == Outcome(s.(tries := s.tries + 1), [Packet(slot.seqNum, RESENT_DATA_TIMEOUT, slot.data)])
      case _ => o == Outcome(s.(phase := if s.eofTries >= 9 then Quit else Eof, eofTries := s.eofTries + 1), [])
  {
  }

  /** What it does between polls, in whatever state. */
  lemma AnyTick(s: Sender, bufferSize: nat, garbage: u32)
    requires s.window.Size() > 0 && bufferSize <= MAX_PAYLOAD_SIZE && Ticking(s)
    ensures var o, w := Step(s, bufferSize, Tick(garbage)), s.window;
      var piece := if |s.rest| < bufferSize then s.rest else s.rest[..bufferSize];
      if s.phase == Eof then o == Outcome(s.(phase := EofPoll), [Packet(s.seqNum, END_OF_FILE, [])])
      else if s.phase == Wait then
        o == Outcome(if s.atEOF then s.(phase := Eof) else s.(phase := Fill, last := garbage, tries := 0), [])
      else if w.current == w.upper || s.atEOF then
        var awaited := s.atEOF && w.slots[w.lower % |w.slots|].seqNum != (s.last + 1) % 0x1_0000_0000;
        o == Outcome(s.(phase := Wait, tries := 0, waiting := s.waiting || awaited), [])
      else if |piece| == 0 then
        o == Outcome(s.(phase := FillPoll, atEOF := true, last := (s.seqNum - 1) % 0x1_0000_0000), [])
      else
        && o.sent == [Packet(s.seqNum, DATA, piece)]
        && o.sender.window.slots == w.slots[s.seqNum % |w.slots| := SendSlot(s.seqNum, piece)]
        && o.sender == s.(phase := FillPoll, rest := s.rest[|piece|..], seqNum := (s.seqNum + 1) % 0x1_0000_0000,
                          window := w.(slots := o.sender.window.slots, current := w.current + 1))
  {
    assert s.rest[..|s.rest|] == s.rest;
  }

  // ---------------------------------------------------------------------------
  // Several steps in a row
  // ---------------------------------------------------------------------------

  predicate AcceptsAll(s: Sender, bufferSize: nat, events: seq<Event>)
    decreases |events|
  {
    events == [] ||
    (s.window.Size() > 0 && bufferSize <= MAX_PAYLOAD_SIZE && Accepts(s, events[0]) &&
     AcceptsAll(Step(s, bufferSize, events[0]).sender, bufferSize, events[1..]))
  }

  /** The poll results among the events. */
  function Polls(events: seq<Event>): seq<Event> {
    if events == [] then []
    else (if events[0].Tick? then [] else [events[0]]) + Polls(events[1..])
  }

  lemma {:induction false} PollsConcat(a: seq<Event>, b: seq<Event>)
    ensures Polls(a + b) == Polls(a) + Polls(b)
  {
    if a == [] {
      assert a + b == b;
    } else {
      assert (a + b)[1..] == a[1..] + b;
      PollsConcat(a[1..], b);
    }
  }

  function RunServer(s: Sender, bufferSize: nat, events: seq<Event>): Outcome
    requires AcceptsAll(s, bufferSize, events)
    decreases |events|
  {
    if events == [] then Outcome(s, [])
    else
      var o := Step(s, bufferSize, events[0]);
      var rest := RunServer(o.sender, bufferSize, events[1..]);
      Outcome(rest.sender, o.sent + rest.sent)
  }

  lemma {:induction false} AcceptsConcat(s: Sender, bufferSize: nat, a: seq<Event>, b: seq<Event>)
    requires AcceptsAll(s, bufferSize, a) && AcceptsAll(RunServer(s, bufferSize, a).sender, bufferSize, b)
    ensures AcceptsAll(s, bufferSize, a + b)
    decreases |a|
  {
    hide Step, Accepts;
    if a == [] {
      assert a + b == b;
    } else {
      var all := a + b;
      assert all[0] == a[0] && all[1..] == a[1..] + b;
      AcceptsConcat(Step(s, bufferSize, a[0]).sender, bufferSize, a[1..], b);
    }
  }

  /** Running on; what came before is not affected. */
  lemma {:induction false} RunServerConcat(s: Sender, bufferSize: nat, a: seq<Event>, b: seq<Event>)
    requires AcceptsAll(s, bufferSize, a) && AcceptsAll(RunServer(s, bufferSize, a).sender, bufferSize, b)
    ensures AcceptsAll(s, bufferSize, a + b)
    ensures RunServer(s, bufferSize, a + b) ==
      var o := RunServer(s, bufferSize, a);
      var o' := RunServer(o.sender, bufferSize, b);
      Outcome(o'.sender, o.sent + o'.sent)
    decreases |a|
  {
    hide Step, Accepts, AcceptsAll;
    AcceptsConcat(s, bufferSize, a, b);
    if a == [] {
      assert a + b == b;
      assert [] + RunServer(s, bufferSize, b).sent == RunServer(s, bufferSize, b).sent;
    } else {
      AcceptsTail(s, bufferSize, a);
      var o := Step(s, bufferSize, a[0]);
      RunServerConcat(o.sender, bufferSize, a[1..], b);
      assert (a + b)[0] == a[0] && (a + b)[1..] == a[1..] + b;
    }
  }

  lemma AcceptsTail(s: Sender, bufferSize: nat, events: seq<Event>)
    requires AcceptsAll(s, bufferSize, events) && events != []
    ensures s.window.Size() > 0 && bufferSize <= MAX_PAYLOAD_SIZE && Accepts(s, events[0])
    ensures AcceptsAll(Step(s, bufferSize, events[0]).sender, bufferSize, events[1..])
  {
  }

  lemma RunServerSnoc(s: Sender, bufferSize: nat, events: seq<Event>, ev: Event)
    requires AcceptsAll(s, bufferSize, events)
    requires var t := RunServer(s, bufferSize, events).sender;
      t.window.Size() > 0 && bufferSize <= MAX_PAYLOAD_SIZE && Accepts(t, ev)
    ensures AcceptsAll(s, bufferSize, events + [ev])
    ensures RunServer(s, bufferSize, events + [ev]) ==
      var o := RunServer(s, bufferSize, events);
      var o' := Step(o.sender, bufferSize, ev);
      Outcome(o'.sender, o.sent + o'.sent)
  {
    hide Step, Accepts;
    assert [ev][1..] == [];
    RunServerConcat(s, bufferSize, events, [ev]);
  }
}
