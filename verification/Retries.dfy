/** How often the server repeats itself before it gives up, and why its uninitialised variable does no harm. */
module Retries {
  import opened Bytes
  import opened Protocol
  import opened Rcopy
  import opened Server
  import opened System
  import opened Invariant
  import opened Preservation
  import opened Chunks

  predicate Silent(events: seq<Event>) {
    forall ev | ev in events :: !ev.Arrive?
  }

  /**
   * In the wait loop, as long as nothing arrives: at most nine resends of the lowest
   * slot, and the tenth elapsed poll ends the connection.
   */
  lemma {:induction false} SilentWait(s: Sender, bufferSize: nat, events: seq<Event>)
    requires s.phase == Wait && Blocked(s) && s.tries < MAX_TRIES
    requires AcceptsAll(s, bufferSize, events) && Silent(events)
    ensures s.tries + |events| <= MAX_TRIES
    ensures var o := RunServer(s, bufferSize, events);
      && (o.sender.phase == Quit <==> s.tries + |events| == MAX_TRIES)
      && (s.tries + |events| < MAX_TRIES ==> o.sender == s.(tries := s.tries + |events|))
      && |o.sent| == (if s.tries + |events| == MAX_TRIES then |events| - 1 else |events|)
      && (forall p | p in o.sent ::
            p == Packet(s.window.Lowest().seqNum, RESENT_DATA_TIMEOUT, s.window.Lowest().data))
    decreases |events|
  {
    if events != [] {
      var s' := Step(s, bufferSize, events[0]).sender;
      assert events[0] in events;
      if s'.phase == Quit {
        assert events[1..] == [];
      } else {
        SilentWait(s', bufferSize, events[1..]);
      }
    }
  }

  /** END_OF_FILE is sent at most ten times if nothing arrives, exactly ten before the server gives up. */
  lemma {:induction false} SilentEof(s: Sender, bufferSize: nat, events: seq<Event>)
    requires s.phase == Eof && s.eofTries < MAX_TRIES
    requires AcceptsAll(s, bufferSize, events) && Silent(events)
    ensures 2 * s.eofTries + |events| <= 2 * MAX_TRIES
    ensures var o := RunServer(s, bufferSize, events);
      && (o.sender.phase == Quit <==> 2 * s.eofTries + |events| == 2 * MAX_TRIES)
      && |o.sent| == (|events| + 1) / 2
      && (forall p | p in o.sent :: p == Packet(s.seqNum, END_OF_FILE, []))
    decreases |events|
  {
    if |events| == 1 {
      assert events[1..] == [];
    } else if |events| > 1 {
      assert events[1] in events && events[1..][0] == events[1] && events[1..][1..] == events[2..];
      var o1 := Step(s, bufferSize, events[0]);
      var o2 := Step(o1.sender, bufferSize, events[1]);
      var r2 := RunServer(o2.sender, bufferSize, events[2..]);
      assert RunServer(o1.sender, bufferSize, events[1..]).sent == o2.sent + r2.sent;
      if o2.sender.phase == Quit {
        assert events[2..] == [];
      } else {
        SilentEof(o2.sender, bufferSize, events[2..]);
      }
    }
  }

  // ---------------------------------------------------------------------------
  // Whatever arrives, the count starts afresh
  // ---------------------------------------------------------------------------

  /** How many polls have elapsed since the last datagram, if so many had before. */
  function Silence(before: nat, events: seq<Event>): nat
    decreases |events|
  {
    if events == [] then before
    else Silence(match events[0] case Tick(_) => before case Timeout => before + 1 case Arrive(_) => 0, events[1..])
  }

  /** The last n poll results are Timeout, and there are no more such before those. */
  predicate Quiet(polls: seq<Event>, before: nat, n: nat) {
    && n <= before + |polls|
    && (forall i | 0 <= i < |polls| && |polls| - n <= i :: polls[i] == Timeout)
    && (n == before + |polls| || (n < |polls| && polls[|polls| - 1 - n].Arrive?))
  }

  lemma QuietCons(ev: Event, polls: seq<Event>, before: nat, n: nat)
    requires !ev.Tick? && Quiet(polls, if ev == Timeout then before + 1 else 0, n)
    ensures Quiet([ev] + polls, before, n)
  {
    var all := [ev] + polls;
    assert forall i | 0 < i < |all| :: all[i] == polls[i - 1];
  }

  lemma {:induction false} SilenceIsTimeouts(before: nat, events: seq<Event>)
    ensures Quiet(Polls(events), before, Silence(before, events))
    decreases |events|
  {
    if events != [] {
      hide Quiet;
      if events[0].Tick? {
        SilenceIsTimeouts(before, events[1..]);
        assert [] + Polls(events[1..]) == Polls(events[1..]);
      } else {
        var before' := if events[0] == Timeout then before + 1 else 0;
        SilenceIsTimeouts(before', events[1..]);
        QuietCons(events[0], Polls(events[1..]), before, Silence(before', events[1..]));
      }
    }
  }

  /** The server's counts never run ahead of the polls that have elapsed in a row. */
  predicate CountsWithin(s: Sender, n: nat) {
    match s.phase
    case Wait => s.tries <= n && s.eofTries == 0
    case Eof => s.eofTries <= n
    case EofPoll => s.eofTries <= n
    case Quit => n >= MAX_TRIES
    case Exited => true
    case _ => s.eofTries == 0
  }

  lemma {:induction false} CountsStayWithin(s: Sender, bufferSize: nat, events: seq<Event>, n: nat)
    requires AcceptsAll(s, bufferSize, events) && CountsWithin(s, n)
    ensures CountsWithin(RunServer(s, bufferSize, events).sender, Silence(n, events))
    decreases |events|
  {
    if events != [] {
      var n' := match events[0] case Tick(_) => n case Timeout => n + 1 case Arrive(_) => 0;
      CountsStayWithin(Step(s, bufferSize, events[0]).sender, bufferSize, events[1..], n');
    }
  }

  /** From the start of a transfer, whatever arrives: the server only gives up when ten polls in a row have elapsed. */
  lemma GivesUpAfterTenInARow(windowSize: nat, bufferSize: nat, file: seq<byte>, garbage: u32, events: seq<Event>)
    requires AcceptsAll(NewSender(windowSize, file, garbage), bufferSize, events)
    requires RunServer(NewSender(windowSize, file, garbage), bufferSize, events).sender.phase == Quit
    ensures |Polls(events)| >= 10
    ensures forall i | |Polls(events)| - 10 <= i < |Polls(events)| :: Polls(events)[i] == Timeout
  {
    CountsStayWithin(NewSender(windowSize, file, garbage), bufferSize, events, 0);
    SilenceIsTimeouts(0, events);
  }

  /** In its wait loop it gives up exactly then. */
  lemma {:induction false} WaitCountIsSilence(s: Sender, bufferSize: nat, events: seq<Event>)
    requires s.phase == Wait && s.tries < MAX_TRIES && AcceptsAll(s, bufferSize, events)
    requires forall ev | ev in events :: !ev.Tick?
    ensures var t, n := RunServer(s, bufferSize, events).sender, Silence(s.tries, events);
      && (t.phase == Wait || t.phase == Quit || t.phase == Exited)
      && n <= MAX_TRIES
      && (t.phase == Quit <==> n == MAX_TRIES)
      && (t.phase == Wait ==> t.tries == n)
    decreases |events|
  {
    if events != [] {
      assert events[0] in events;
      var t := Step(s, bufferSize, events[0]).sender;
      if t.phase == Quit || t.phase == Exited {
        assert events[1..] == [];
      } else {
        WaitCountIsSilence(t, bufferSize, events[1..]);
      }
    }
  }

  function EofsIn(sent: seq<Packet>): nat {
    if sent == [] then 0 else (if sent[0].flag == END_OF_FILE then 1 else 0) + EofsIn(sent[1..])
  }

  lemma {:induction false} EofsInConcat(a: seq<Packet>, b: seq<Packet>)
    ensures EofsIn(a + b) == EofsIn(a) + EofsIn(b)
  {
    if a == [] {
      assert a + b == b;
    } else {
      assert (a + b)[1..] == a[1..] + b;
      EofsInConcat(a[1..], b);
    }
  }

  lemma EofStep(s: Sender, bufferSize: nat, ev: Event)
    requires (s.phase == Eof || s.phase == EofPoll) && s.window.Size() > 0 && bufferSize <= MAX_PAYLOAD_SIZE
    requires Accepts(s, ev)
    ensures var o := Step(s, bufferSize, ev);
      && EofsIn(o.sent) == (if ev.Tick? then 1 else 0)
      && ev.Tick? == (s.phase == Eof)
      && if ev.Tick? then o.sender.phase == EofPoll
         else o.sender.phase == Eof || o.sender.phase == Quit || o.sender.phase == Exited
  {
    var o := Step(s, bufferSize, ev);
    assert |o.sent| == 1 ==> o.sent == [o.sent[0]] && o.sent[1..] == [];
  }

  /** In SEND_EOF there is one END_OF_FILE to each poll. */
  lemma {:induction false} EofBeforeEachPoll(s: Sender, bufferSize: nat, events: seq<Event>)
    requires (s.phase == Eof || s.phase == EofPoll) && AcceptsAll(s, bufferSize, events)
    ensures var o := RunServer(s, bufferSize, events);
      EofsIn(o.sent) + (if s.phase == EofPoll then 1 else 0)
      == |Polls(events)| + (if o.sender.phase == EofPoll then 1 else 0)
    decreases |events|
  {
    if events != [] {
      hide Step;
      EofStep(s, bufferSize, events[0]);
      var o := Step(s, bufferSize, events[0]);
      EofsInConcat(o.sent, RunServer(o.sender, bufferSize, events[1..]).sent);
      if o.sender.phase == Quit || o.sender.phase == Exited {
        assert events[1..] == [];
      } else {
        EofBeforeEachPoll(o.sender, bufferSize, events[1..]);
      }
    }
  }

  /** There it gives up exactly after ten of those polls in a row. */
  lemma {:induction false} EofCountIsSilence(s: Sender, bufferSize: nat, events: seq<Event>)
    requires s.phase == Eof || s.phase == EofPoll
    requires s.eofTries < MAX_TRIES && AcceptsAll(s, bufferSize, events)
    ensures var t, n := RunServer(s, bufferSize, events).sender, Silence(s.eofTries, events);
      && n <= MAX_TRIES
      && (t.phase == Quit <==> n == MAX_TRIES)
      && (t.phase == Eof || t.phase == EofPoll || t.phase == Quit ==> t.eofTries == n)
    decreases |events|
  {
    if events != [] {
      var t := Step(s, bufferSize, events[0]).sender;
      if t.phase == Quit || t.phase == Exited {
        assert events[1..] == [];
      } else {
        EofCountIsSilence(t, bufferSize, events[1..]);
      }
    }
  }

  // ---------------------------------------------------------------------------
  // lastDataSeqNum is read before it is set, but never to any effect
  // ---------------------------------------------------------------------------

  ghost predicate SameSender(s: Sender, t: Sender) {
    s == t || (!s.atEOF && s == t.(last := s.last))
  }

  ghost predicate SameState(s: State, t: State) {
    SameSender(s.snd, t.snd) && s.rcv == t.rcv && s.fwd == t.fwd && s.rev == t.rev
  }

  /** Equal but for the value the uninitialised variable happens to have. */
  predicate SameAction(a: Action, b: Action) {
    a == b || (a.ServerTick? && b.ServerTick? && a.fault == b.fault)
  }

  lemma StepIgnoresGarbage(cfg: Config, s: Sender, t: Sender, ev: Event, ev': Event)
    requires cfg.Valid() && ServerOk(cfg.FileChunks(), cfg.bufferSize, s) && SameSender(s, t) && Accepts(s, ev)
    requires ev == ev' || (ev.Tick? && ev'.Tick?)
    ensures Accepts(t, ev')
    ensures SameSender(Step(s, cfg.bufferSize, ev).sender, Step(t, cfg.bufferSize, ev').sender)
    ensures Step(s, cfg.bufferSize, ev).sent == Step(t, cfg.bufferSize, ev').sent
  {
  }

  lemma NextIgnoresGarbage(cfg: Config, s: State, t: State, a: Action, b: Action)
    requires Inv(cfg, s) && SameState(s, t) && SameAction(a, b) && Enabled(cfg, s, a)
    ensures Enabled(cfg, t, b) && SameState(Next(cfg, s, a), Next(cfg, t, b))
  {
    if !a.ClientReceive? {
      StepIgnoresGarbage(cfg, s.snd, t.snd, EventOf(s, a), EventOf(t, b));
    }
  }

  /** Two runs that differ only in that value do the same things and end in the same state. */
  lemma {:induction false} GarbageIsUnobservable(cfg: Config, s: State, t: State, a: seq<Action>, b: seq<Action>,
                                                 s': State) returns (t': State)
    requires Inv(cfg, s) && SameState(s, t) && Run(cfg, s, a, s')
    requires |a| == |b| && forall i | 0 <= i < |a| :: SameAction(a[i], b[i])
    ensures Run(cfg, t, b, t') && SameState(s', t')
    decreases |a|
  {
    hide Next, Enabled, SameState;
    if a == [] {
      t' := t;
    } else {
      NextIgnoresGarbage(cfg, s, t, a[0], b[0]);
      NextKeepsInv(cfg, s, a[0]);
      t' := GarbageIsUnobservable(cfg, Next(cfg, s, a[0]), Next(cfg, t, b[0]), a[1..], b[1..], s');
    }
  }
}
