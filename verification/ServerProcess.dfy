/**
 * The code of the server's transfer phase (src/server.c), with its loops, over the send
 * window object. What the network answers to each poll is a script the methods consume;
 * each method is proved to do exactly what the step machine of module Server does.
 */
module ServerProcess {
  import opened Bytes
  import opened Protocol
  import opened SlidingWindow
  import opened Server
  import opened PollLib

  /** What a method returns: the next state of processClient(), or that the script has run out at a poll. */
  datatype NextState = SendingData | SendingEof | Done | HasExited | Suspended

  predicate IsScript(polls: seq<Event>) {
    forall i | 0 <= i < |polls| :: !polls[i].Tick?
  }

  /** The events take the machine from one state to another, with these PDUs sent and these polls used. */
  ghost predicate Runs(s: Sender, bufferSize: nat, events: seq<Event>, t: Sender, sent: seq<Packet>,
                       polls: seq<Event>)
  {
    && AcceptsAll(s, bufferSize, events)
    && RunServer(s, bufferSize, events) == Outcome(t, sent)
    && Polls(events) == polls
  }

  lemma RunsOn(s: Sender, bufferSize: nat, events: seq<Event>, t: Sender, sent: seq<Packet>, polls: seq<Event>,
               ev: Event)
    requires Runs(s, bufferSize, events, t, sent, polls)
    requires t.window.Size() > 0 && bufferSize <= MAX_PAYLOAD_SIZE && Accepts(t, ev)
    ensures var o := Step(t, bufferSize, ev);
      Runs(s, bufferSize, events + [ev], o.sender, sent + o.sent, if ev.Tick? then polls else polls + [ev])
  {
    RunServerSnoc(s, bufferSize, events, ev);
    PollsConcat(events, [ev]);
    assert [ev][1..] == [];
  }

  class ServerProcess {
    const window: SendWindow
    const bufferSize: nat
    var serverSeqNum: u32
    var dataFile: seq<byte>
    var atEOF: bool
    var waitingForLastRR: bool
    var eofTryCount: nat
    var sent: seq<Packet>

    ghost predicate Valid() {
      window.Valid() && 1 <= bufferSize <= MAX_PAYLOAD_SIZE
    }

    /** The server's variables as a state of the step machine; last and tries are locals of sendData(). */
    ghost function View(phase: Phase, last: u32, tries: nat): Sender
      reads this, window, window.window
    {
      Sender(phase, window.View(), serverSeqNum, dataFile, atEOF, waitingForLastRR, last, tries, eofTryCount)
    }

    constructor (windowSize: nat, bufferSize: nat, file: seq<byte>)
      requires windowSize > 0 && 1 <= bufferSize <= MAX_PAYLOAD_SIZE
      ensures Valid() && fresh(window) && fresh(window.window)
      ensures this.bufferSize == bufferSize && sent == []
      ensures serverSeqNum == 0 && dataFile == file && !atEOF && !waitingForLastRR && eofTryCount == 0
      ensures forall garbage :: View(Fill, garbage, 0) == NewSender(windowSize, file, garbage)
    {
      window := new SendWindow.SetupWindow(windowSize);
      this.bufferSize := bufferSize;
      serverSeqNum, dataFile := START_SEQ_NUM, file;
      atEOF, waitingForLastRR, eofTryCount, sent := false, false, 0, [];
    }

    method SendPDU(p: Packet)
      modifies this`sent
      ensures sent == old(sent) + [p]
    {
      sent := sent + [p];
    }

    method HandleResponse(m: Msg, waiting: bool, lastDataSeqNum: u32)
      returns (exited: bool, stillWaiting: bool, ghost out: seq<Packet>)
      requires Valid()
      modifies this`sent, window`lower, window`upper
      ensures sent == old(sent) + out
      ensures ProcessResponse(old(window.View()), waiting, lastDataSeqNum, m)
           == Response(window.View(), stillWaiting, exited, out)
    {
      exited, stillWaiting, out := false, waiting, [];
      if m == Corrupt {
        return;
      }
      var flag := m.packet.flag;
      if flag == SREJ {
        var targetSeqNum := Target(m.packet.payload);
        var data := window.GetDataFromWindow(targetSeqNum);
        SendPDU(Packet(targetSeqNum, RESENT_DATA_SREJ, data));
        out := [Packet(targetSeqNum, RESENT_DATA_SREJ, data)];
      } else if flag == RR {
        var targetSeqNum := Target(m.packet.payload);
        window.UpdateLower(targetSeqNum);
        if Dec32(targetSeqNum) == lastDataSeqNum {
          stillWaiting := false;
        }
      } else if flag == EOF_ACK {
        exited := true;
      }
    }

    /** The body of the fill loop up to its poll. */
    method FillOnce(last: u32, ghost tries: nat) returns (last': u32, ghost out: seq<Packet>)
      requires Valid() && window.View().IsOpen() && !atEOF
      modifies this, window`current, window.window
      ensures sent == old(sent) + out
      ensures FillStep(old(View(Fill, last, tries)), bufferSize) == Outcome(View(FillPoll, last', tries), out)
    {
      last', out := last, [];
      var payload := Read(dataFile, bufferSize);
      if |payload| == 0 {
        atEOF := true;
        last' := Dec32(serverSeqNum);
      }
      if !atEOF {
        dataFile := dataFile[|payload|..];
        var exited := window.AddDataToWindow(serverSeqNum, payload);
        assert !exited;
        SendPDU(Packet(serverSeqNum, DATA, payload));
        out := [Packet(serverSeqNum, DATA, payload)];
        serverSeqNum := Inc32(serverSeqNum);
      }
    }

    /** What the fill loop does with the result of its poll. */
    method FillPolled(ev: Event, last: u32, ghost tries: nat) returns (exited: bool, ghost out: seq<Packet>)
      requires Valid() && !ev.Tick?
      modifies this`sent, this`waitingForLastRR, window`lower, window`upper
      ensures sent == old(sent) + out
      ensures Step(old(View(FillPoll, last, tries)), bufferSize, ev)
           == Outcome(View(if exited then Exited else Fill, last, tries), out)
    {
      exited, out := false, [];
      if ev.Arrive? {
        exited, waitingForLastRR, out := HandleResponse(ev.msg, waitingForLastRR, last);
      }
    }

    /** Between the two loops. */
    method LeaveFillLoop(last: u32, ghost start: Sender, ghost events: seq<Event>, ghost out: seq<Packet>,
                         ghost polls: seq<Event>)
      requires Valid() && !(window.View().IsOpen() && !atEOF)
      requires Runs(start, bufferSize, events, View(Fill, last, 0), out, polls)
      modifies this`waitingForLastRR
      ensures waitingForLastRR == (old(waitingForLastRR)
              || (atEOF && Inc32(last) != window.window[window.lower % window.window.Length].seqNum))
      ensures FillStep(old(View(Fill, last, 0)), bufferSize) == Outcome(View(Wait, last, 0), [])
      ensures Runs(start, bufferSize, events + [Tick(0)], View(Wait, last, 0), out, polls)
    {
      hide Runs;
      var lowest := window.GetLowestSeqNum();
      if atEOF && Inc32(last) != lowest {
        waitingForLastRR := true;
      }
      TickRuns(start, bufferSize, events, old(View(Fill, last, 0)), out, polls, View(Wait, last, 0), []);
      assert out + [] == out;
    }

    /** One round of the wait loop. */
    method WaitOnce(ev: Event, last: u32, tries: nat)
      returns (tries': nat, gaveUp: bool, exited: bool, ghost out: seq<Packet>)
      requires Valid() && !ev.Tick? && Blocked(View(Wait, last, tries))
      modifies this`sent, this`waitingForLastRR, window`lower, window`upper
      ensures sent == old(sent) + out && !(gaveUp && exited)
      ensures Step(old(View(Wait, last, tries)), bufferSize, ev)
           == Outcome(View(if gaveUp then Quit else if exited then Exited else Wait, last, tries'), out)
    {
      gaveUp, exited, out := false, false, [];
      var status;
      status, tries' := ProcessPoll(tries, ev.Arrive?, MAX_TRIES);
      match status
      case TimedOut =>
        var data, seqNum := window.GetLowestSeqNumData();
        SendPDU(Packet(seqNum, RESENT_DATA_TIMEOUT, data));
        out := [Packet(seqNum, RESENT_DATA_TIMEOUT, data)];
      case Received =>
        exited, waitingForLastRR, out := HandleResponse(ev.msg, waitingForLastRR, last);
      case GaveUp =>
        gaveUp := true;
    }

    /** sendData()'s first loop; stop says that the method ends here. */
    method FillLoop(last0: u32, polls: seq<Event>, ghost start: Sender)
      returns (stop: bool, next: NextState, used: nat, last: u32,
               ghost phase: Phase, ghost events: seq<Event>, ghost out: seq<Packet>)
      requires Valid() && IsScript(polls) && start == View(Fill, last0, 0)
      modifies this, window, window.window
      ensures used <= |polls| && sent == old(sent) + out
      ensures Runs(start, bufferSize, events, View(phase, last, 0), out, polls[..used])
      ensures stop ==> ReturnOk(next, View(phase, last, 0), used == |polls|)
      ensures stop ==> next != SendingData && next != SendingEof
      ensures !stop ==> phase == Fill && !(window.View().IsOpen() && !atEOF)
      ensures !stop ==> window.current == window.upper || atEOF
    {
      hide Step, FillStep, Runs, ProcessResponse;
      stop, next, used, last := true, HasExited, 0, last0;
      events, phase, out := [], Fill, [];
      EmptyRun(start, bufferSize);
      assert polls[..0] == [];
      ghost var o: seq<Packet>;
      var closed := window.IsWindowClosed();
      while !closed && !atEOF
        invariant used <= |polls| && sent == old(sent) + out
        invariant phase == Fill && closed == !window.View().IsOpen()
        invariant Runs(start, bufferSize, events, View(phase, last, 0), out, polls[..used])
        decreases |polls| - used
      {
        ghost var before := View(Fill, last, 0);
        last, o := FillOnce(last, 0);
        TickRuns(start, bufferSize, events, before, out, polls[..used], View(FillPoll, last, 0), o);
        events, out, phase := events + [Tick(0)], out + o, FillPoll;
        if used == |polls| {
          return true, Suspended, used, last, phase, events, out;
        }
        before := View(FillPoll, last, 0);
        var exited;
        exited, o := FillPolled(polls[used], last, 0);
        phase := if exited then Exited else Fill;
        PollRuns(start, bufferSize, events, before, out, polls, used, View(phase, last, 0), o);
        events, out, used := events + [polls[used]], out + o, used + 1;
        if exited {
          return true, HasExited, used, last, phase, events, out;
        }
        closed := window.IsWindowClosed();
      }
      stop := false;
    }

    /** sendData()'s second loop, after the polls and events of the first. */
    method WaitLoop(used0: nat, last: u32, polls: seq<Event>, ghost start: Sender,
                    ghost events0: seq<Event>, ghost out0: seq<Packet>)
      returns (stop: bool, next: NextState, used: nat, tries: nat,
               ghost phase: Phase, ghost events: seq<Event>, ghost out: seq<Packet>)
      requires Valid() && IsScript(polls) && used0 <= |polls|
      requires Runs(start, bufferSize, events0, View(Wait, last, 0), out0, polls[..used0])
      modifies this`sent, this`waitingForLastRR, window`lower, window`upper
      ensures used <= |polls| && out0 <= out && sent == old(sent) + out[|out0|..]
      ensures Runs(start, bufferSize, events, View(phase, last, tries), out, polls[..used])
      ensures stop ==> ReturnOk(next, View(phase, last, tries), used == |polls|)
      ensures stop ==> next != SendingData && next != SendingEof
      ensures !stop ==> phase == Wait && !Blocked(View(phase, last, tries))
      ensures !stop ==> window.current != window.upper && !waitingForLastRR
      ensures atEOF == old(atEOF) && used0 <= used
      ensures !stop && used == used0 ==> window.View() == old(window.View())
    {
      hide Step, Runs, ProcessResponse;
      stop, next, used, tries := true, HasExited, used0, 0;
      events, phase, out := events0, Wait, out0;
      ghost var o: seq<Packet>;
      var closed := window.IsWindowClosed();
      while closed || waitingForLastRR
        invariant used <= |polls| && out0 <= out && sent == old(sent) + out[|out0|..]
        invariant phase == Wait && closed == !window.View().IsOpen() && used0 <= used
        invariant used == used0 ==> window.View() == old(window.View())
        invariant Runs(start, bufferSize, events, View(phase, last, tries), out, polls[..used])
        decreases |polls| - used
      {
        if used == |polls| {
          return true, Suspended, used, tries, phase, events, out;
        }
        ghost var before := View(Wait, last, tries);
        var gaveUp, exited;
        tries, gaveUp, exited, o := WaitOnce(polls[used], last, tries);
        phase := if gaveUp then Quit else if exited then Exited else Wait;
        PollRuns(start, bufferSize, events, before, out, polls, used, View(phase, last, tries), o);
        assert (out + o)[|out0|..] == out[|out0|..] + o;
        events, out, used := events + [polls[used]], out + o, used + 1;
        if gaveUp {
          return true, Done, used, tries, phase, events, out;
        }
        if exited {
          return true, HasExited, used, tries, phase, events, out;
        }
        closed := window.IsWindowClosed();
      }
      stop := false;
    }

    /**
     * sendData(). lastDataSeqNum starts with whatever its storage holds. SendingData and
     * SendingEof are returned with the machine at the end of the wait loop.
     */
    method SendData(garbage: u32, polls: seq<Event>)
      returns (next: NextState, used: nat, last: u32, tries: nat,
               ghost phase: Phase, ghost events: seq<Event>, ghost out: seq<Packet>)
      requires Valid() && IsScript(polls)
      modifies this, window, window.window
      ensures used <= |polls| && sent == old(sent) + out
      ensures Runs(old(View(Fill, garbage, 0)), bufferSize, events, View(phase, last, tries), out, polls[..used])
      ensures ReturnOk(next, View(phase, last, tries), used == |polls|)
      ensures next == SendingData ==> used > 0
    {
      ghost var start := View(Fill, garbage, 0);
      hide Step, FillStep, Runs, ProcessResponse;
      var stop;
      tries := 0;
      stop, next, used, last, phase, events, out := FillLoop(garbage, polls, start);
      if stop {
        return;
      }
      LeaveFillLoop(last, start, events, out, polls[..used]);
      stop, next, used, tries, phase, events, out := WaitLoop(used, last, polls, start, events + [Tick(0)], out);
      if stop {
        return;
      }
      next := if !waitingForLastRR && atEOF then SendingEof else SendingData;
    }

    /** sendEofAndWaitForAck(): END_OF_FILE goes out before the poll, for which the script may have no result left. */
    method SendEofAndWaitForAck(polls: seq<Event>, last: u32, tries: nat)
      returns (next: NextState, used: nat, ghost phase: Phase, ghost events: seq<Event>, ghost out: seq<Packet>)
      requires Valid() && IsScript(polls)
      modifies this`sent, this`eofTryCount, window`lower, window`upper
      ensures used == (if polls == [] then 0 else 1) && sent == old(sent) + out
      ensures Runs(old(View(Eof, last, tries)), bufferSize, events, View(phase, last, tries), out, polls[..used])
      ensures match next
              case SendingEof => phase == Eof && used == 1
              case Done => phase == Quit
              case HasExited => phase == Exited
              case Suspended => phase == EofPoll && polls == []
              case SendingData => false
    {
      ghost var start := View(Eof, last, tries);
      SendPDU(Packet(serverSeqNum, END_OF_FILE, []));
      ghost var polling := View(EofPoll, last, tries);
      out := [Packet(serverSeqNum, END_OF_FILE, [])];
      EofSent(start, bufferSize, polling);
      if polls == [] {
        return Suspended, 0, EofPoll, [Tick(0)], out;
      }
      ghost var o: seq<Packet> := [];
      var ev, pollResult := polls[0], TimedOut;
      pollResult, eofTryCount := ProcessPoll(eofTryCount, ev.Arrive?, MAX_TRIES);
      match pollResult {
        case TimedOut =>
          next, phase := SendingEof, Eof;
        case Received =>
          var exited, ignored;
          exited, ignored, o := HandleResponse(ev.msg, false, serverSeqNum);
          next := if exited then HasExited else SendingEof;
          phase := if exited then Exited else Eof;
        case GaveUp =>
          next, phase := Done, Quit;
      }
      used, events := 1, [Tick(0), ev];
      EofRound(start, bufferSize, ev, polling, View(phase, last, tries), o);
      out := out + o;
      assert polls[..1] == [ev];
    }

    /** processClient() from SEND_DATA on: the server is the step machine, for every script of poll results. */
    method ProcessClient(polls: seq<Event>)
      returns (state: NextState, used: nat,
               ghost garbage: u32, ghost events: seq<Event>, ghost end: Sender, ghost out: seq<Packet>)
      requires Valid() && IsScript(polls)
      modifies this, window, window.window
      ensures state == Done || state == HasExited || (state == Suspended && used == |polls|)
      ensures used <= |polls| && sent == old(sent) + out
      ensures Runs(old(View(Fill, garbage, 0)), bufferSize, events, end, out, polls[..used])
      ensures end == View(end.phase, end.last, end.tries)
      ensures (state == Done <==> end.phase == Quit) && (state == HasExited <==> end.phase == Exited)
      ensures state == Suspended ==> Polling(end)
    {
      hide Step, Runs, ProcessResponse;
      var g: u32 :| true;
      garbage := g;
      ghost var start := View(Fill, g, 0);
      state, used, events, end, out := SendingData, 0, [], start, [];
      EmptyRun(start, bufferSize);
      assert polls[..0] == [];
      var last: u32, tries: nat := g, 0;
      while state == SendingData || state == SendingEof
        invariant used <= |polls| && sent == old(sent) + out
        invariant Runs(start, bufferSize, events, end, out, polls[..used])
        invariant end == View(end.phase, last, tries)
        invariant match state
                  case SendingData => end.phase == Fill && tries == 0
                  case SendingEof => end.phase == Eof
                  case Done => end.phase == Quit
                  case HasExited => end.phase == Exited
                  case Suspended => Polling(end) && used == |polls|
        decreases |polls| - used, if state == SendingData then 2 else if state == SendingEof then 1 else 0
      {
        ghost var before := end;
        ghost var o: seq<Packet>, evs: seq<Event>, phase: Phase := [], [], Eof;
        var n, sendingData := 0, state == SendingData;
        if sendingData {
          state, n, last, tries, phase, evs, o := SendData(last, polls[used..]);
        } else {
          state, n, phase, evs, o := SendEofAndWaitForAck(polls[used..], last, tries);
        }
        assert polls[used..][..n] == polls[used..used + n];
        end := View(phase, last, tries);
        RunsConcat(start, bufferSize, events, before, out, polls[..used], evs, end, o, polls[used..used + n]);
        assert polls[..used] + polls[used..used + n] == polls[..used + n];
        events, out, used := events + evs, out + o, used + n;
        if sendingData && (state == SendingData || state == SendingEof) {
          var g': u32 :| true;
          before := end;
          last := if state == SendingData then g' else last;
          tries := if state == SendingData then 0 else tries;
          end := View(if state == SendingData then Fill else Eof, last, tries);
          LeaveRuns(start, bufferSize, events, before, out, polls[..used], g', end);
          events := events + [Tick(g')];
        }
      }
    }
  }

  lemma RunsConcat(s: Sender, bufferSize: nat, a: seq<Event>, t: Sender, sent: seq<Packet>, polls: seq<Event>,
                   b: seq<Event>, u: Sender, sent': seq<Packet>, polls': seq<Event>)
    requires Runs(s, bufferSize, a, t, sent, polls) && Runs(t, bufferSize, b, u, sent', polls')
    ensures Runs(s, bufferSize, a + b, u, sent + sent', polls + polls')
  {
    RunServerConcat(s, bufferSize, a, b);
    PollsConcat(a, b);
  }

  /** Out of the wait loop into the next call of sendData(), with whatever its variable holds, or to SEND_EOF. */
  lemma LeaveRuns(s: Sender, bufferSize: nat, events: seq<Event>, t: Sender, sent: seq<Packet>, polls: seq<Event>,
                  garbage: u32, t': Sender)
    requires Runs(s, bufferSize, events, t, sent, polls)
    requires t.phase == Wait && !Blocked(t) && t.window.Size() > 0 && bufferSize <= MAX_PAYLOAD_SIZE
    requires t' == if t.atEOF && !t.waiting then t.(phase := Eof) else t.(phase := Fill, last := garbage, tries := 0)
    ensures Runs(s, bufferSize, events + [Tick(garbage)], t', sent, polls)
  {
    RunsOn(s, bufferSize, events, t, sent, polls, Tick(garbage));
    assert sent + [] == sent;
  }

  /** What is true of the machine when sendData() returns. */
  ghost predicate ReturnOk(next: NextState, t: Sender, allUsed: bool) {
    match next
    case SendingData => t.phase == Wait && !Blocked(t) && !(t.atEOF && !t.waiting)
    case SendingEof => t.phase == Wait && !Blocked(t) && t.atEOF && !t.waiting
    case Done => t.phase == Quit
    case HasExited => t.phase == Exited
    case Suspended => Polling(t) && allUsed
  }

  lemma EmptyRun(s: Sender, bufferSize: nat)
    ensures Runs(s, bufferSize, [], s, [], [])
  {
  }

  lemma TickRuns(s: Sender, bufferSize: nat, events: seq<Event>, t: Sender, sent: seq<Packet>, polls: seq<Event>,
                 t': Sender, o: seq<Packet>)
    requires Runs(s, bufferSize, events, t, sent, polls)
    requires t.phase == Fill && t.window.Size() > 0 && bufferSize <= MAX_PAYLOAD_SIZE
    requires FillStep(t, bufferSize) == Outcome(t', o)
    ensures Runs(s, bufferSize, events + [Tick(0)], t', sent + o, polls)
  {
    hide Runs, FillStep;
    RunsOn(s, bufferSize, events, t, sent, polls, Tick(0));
  }

  lemma PollRuns(s: Sender, bufferSize: nat, events: seq<Event>, t: Sender, sent: seq<Packet>, polls: seq<Event>,
                 used: nat, t': Sender, o: seq<Packet>)
    requires used < |polls| && Runs(s, bufferSize, events, t, sent, polls[..used])
    requires t.window.Size() > 0 && bufferSize <= MAX_PAYLOAD_SIZE && !polls[used].Tick? && Polling(t)
    requires Step(t, bufferSize, polls[used]) == Outcome(t', o)
    ensures Runs(s, bufferSize, events + [polls[used]], t', sent + o, polls[..used + 1])
  {
    hide Runs, Step;
    RunsOn(s, bufferSize, events, t, sent, polls[..used], polls[used]);
    assert polls[..used] + [polls[used]] == polls[..used + 1];
  }

  lemma EofSent(s: Sender, bufferSize: nat, s1: Sender)
    requires s.phase == Eof && s.window.Size() > 0 && bufferSize <= MAX_PAYLOAD_SIZE && s1 == s.(phase := EofPoll)
    ensures Runs(s, bufferSize, [Tick(0)], s1, [Packet(s.seqNum, END_OF_FILE, [])], [])
  {
    EmptyRun(s, bufferSize);
    RunsOn(s, bufferSize, [], s, [], [], Tick(0));
    assert [] + [Tick(0)] == [Tick(0)];
    assert [] + [Packet(s.seqNum, END_OF_FILE, [])] == [Packet(s.seqNum, END_OF_FILE, [])];
  }

  lemma EofRound(s: Sender, bufferSize: nat, ev: Event, s1: Sender, s2: Sender, o: seq<Packet>)
    requires s.phase == Eof && s.window.Size() > 0 && bufferSize <= MAX_PAYLOAD_SIZE && !ev.Tick?
    requires s1 == s.(phase := EofPoll) && Step(s1, bufferSize, ev) == Outcome(s2, o)
    ensures Runs(s, bufferSize, [Tick(0), ev], s2, [Packet(s.seqNum, END_OF_FILE, [])] + o, [ev])
  {
    EofSent(s, bufferSize, s1);
    RunsOn(s, bufferSize, [Tick(0)], s1, [Packet(s.seqNum, END_OF_FILE, [])], [], ev);
    assert [Tick(0)] + [ev] == [Tick(0), ev];
    assert [] + [ev] == [ev];
  }
}
