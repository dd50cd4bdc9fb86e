/** Once the server has entered SEND_EOF, the whole system comes to rest whatever the channels do. */
module EofTermination {
  import opened Bytes
  import opened Protocol
  import opened SlidingWindow
  import opened Rcopy
  import opened Server
  import opened System
  import opened Chunks
  import opened Invariant
  import opened ClientSteps
  import opened Preservation
  import opened Safety

  /** The PDUs under way that the client would still answer. */
  function Answerable(q: seq<Msg>): nat {
    if q == [] then 0
    else (if q[0].Good? && q[0].packet.flag != END_OF_FILE then 1 else 0) + Answerable(q[1..])
  }

  lemma {:induction false} AnswerableSnoc(q: seq<Msg>, m: Msg)
    ensures Answerable(q + [m]) == Answerable(q) + Answerable([m])
  {
    if q == [] {
      assert q + [m] == [m];
    } else {
      assert (q + [m])[1..] == q[1..] + [m];
      AnswerableSnoc(q[1..], m);
    }
  }

  /** An upper bound on the number of steps left. */
  function Budget(s: State): int {
    33 * (2 * Answerable(s.fwd) + |s.rev| + (if s.rcv.state == Finished then 0 else 2))
    + 3 * (MAX_TRIES - s.snd.eofTries)
    + (if s.snd.phase == Eof then 2 else 0)
    + |s.fwd|
  }

  /** All receipts of SREJ have been dealt with: none is under way any more. */
  lemma NoSrejInEof(cfg: Config, s: State, i: nat)
    requires Inv(cfg, s) && EofStarted(s.snd) && i < |s.rev|
    ensures !(s.rev[i].Good? && s.rev[i].packet.flag == SREJ)
  {
    assert RevMsgOk(s.rev[i], s.snd.window.lower, s.rcv.expected, s.snd.window.current, s.rcv.state == Finished);
  }

  lemma ServerSpends(cfg: Config, s: State, a: Action)
    requires Inv(cfg, s) && EofStarted(s.snd) && Enabled(cfg, s, a) && !a.ClientReceive?
    ensures Budget(Next(cfg, s, a)) < Budget(s)
  {
    if a.ServerReceive? {
      NoSrejInEof(cfg, s, 0);
    } else if a.ServerTick? {
      var p := Packet(s.snd.seqNum, END_OF_FILE, []);
      var o := Step(s.snd, cfg.bufferSize, EventOf(s, a));
      assert o.sent == [p];
      EmitAtMostOne(s.fwd, [p], a.fault);
      AnswerableSnoc(s.fwd, Good(p));
      AnswerableSnoc(s.fwd, Corrupt);
    }
  }

  lemma {:induction false} EmitAllLength(q: seq<Msg>, sent: seq<Packet>, faults: seq<Fault>)
    requires |sent| <= |faults|
    ensures |q| <= |EmitAll(q, sent, faults)| <= |q| + |sent|
    decreases |sent|
  {
    if sent != [] {
      EmitAllLength(Emit(q, sent[0], faults[0]), sent[1..], faults[1..]);
    }
  }

  lemma ClientSpends(cfg: Config, s: State, a: Action)
    requires Inv(cfg, s) && EofStarted(s.snd) && Enabled(cfg, s, a) && a.ClientReceive?
    ensures Budget(Next(cfg, s, a)) < Budget(s)
  {
    ReadIsNextChunk(cfg.FileChunks(), cfg.bufferSize, s.snd.rest, s.snd.window.current);
    assert s.rcv.state == InOrder;
    var o := Receive(s.rcv, s.fwd[0]);
    assert |o.sent| <= 1;
    EmitAllLength(s.rev, o.sent, [a.faults.0, a.faults.1]);
  }

  /** No run from there is longer than the budget. */
  lemma {:induction false} EofRunsAreBounded(cfg: Config, s: State, actions: seq<Action>, t: State)
    requires Inv(cfg, s) && EofStarted(s.snd) && Run(cfg, s, actions, t)
    ensures |actions| <= Budget(s)
    decreases |actions|
  {
    hide Next, Enabled, Budget;
    if actions == [] {
      BudgetIsNat(cfg, s);
    } else {
      NextKeepsInv(cfg, s, actions[0]);
      if actions[0].ClientReceive? {
        ClientSpends(cfg, s, actions[0]);
      } else {
        ServerSpends(cfg, s, actions[0]);
      }
      EofRunsAreBounded(cfg, Next(cfg, s, actions[0]), actions[1..], t);
    }
  }

  lemma BudgetIsNat(cfg: Config, s: State)
    requires Inv(cfg, s)
    ensures Budget(s) >= 0
  {
  }

  /** And a run can always be continued until the server has stopped. */
  lemma ServerIsNeverBlocked(cfg: Config, s: State)
    requires Inv(cfg, s) && !Stopped(s.snd)
    ensures Enabled(cfg, s, ServerTick(0, Deliver)) || Enabled(cfg, s, ServerTimeout(Deliver))
  {
  }

  /** So from SEND_EOF on every run is finite, and a run that cannot be continued has ended the server. */
  lemma SendEofTerminates(cfg: Config, s: State, actions: seq<Action>, t: State)
    requires cfg.Valid() && Reachable(cfg, s) && EofStarted(s.snd) && Run(cfg, s, actions, t)
    ensures |actions| <= Budget(s)
    ensures (forall a :: !Enabled(cfg, t, a)) ==> Stopped(t.snd)
  {
    ReachableInv(cfg, s);
    RunKeepsInv(cfg, s, actions, t);
    EofRunsAreBounded(cfg, s, actions, t);
    if !Stopped(t.snd) {
      ServerIsNeverBlocked(cfg, t);
    }
  }
}
