/**
 * The one family of states from which a transfer cannot be completed: the server is on
 * its last try, or has given up, and nothing that is under way would make it hear from
 * the client again. And what a step, or an elapsed poll, achieves if nothing is lost.
 */
module Liveness {
  import opened Bytes
  import opened Protocol
  import opened SlidingWindow
  import opened ReorderBuffer
  import opened Rcopy
  import opened Server
  import opened System
  import opened Chunks
  import opened Invariant
  import opened ClientSteps
  import opened Preservation
  import opened Safety

  predicate IsEof(m: Msg) {
    m.Good? && m.packet.flag == END_OF_FILE
  }

  predicate IsEofAck(m: Msg) {
    m.Good? && m.packet.flag == EOF_ACK
  }

  /** One more elapsed poll makes the server give up. */
  predicate LastTry(s: Sender) {
    || (s.phase == Wait && Blocked(s) && s.tries == MAX_TRIES - 1)
    || (s.phase == EofPoll && s.eofTries == MAX_TRIES - 1)
  }

  /** The client will drop or buffer everything under way to it, but answer none of it. */
  predicate Unanswered(rcv: Client, fwd: seq<Msg>) {
    forall m | m in fwd && m.Good? :: rcv.state == Buffering && m.packet.seqNum > rcv.expected
  }

  predicate Doomed(s: State) {
    && s.rcv.state != Finished
    && if Stopped(s.snd) then !exists m | m in s.fwd :: IsEof(m)
       else LastTry(s.snd) && s.rev == [] && Unanswered(s.rcv, s.fwd)
  }

  predicate Completed(s: State) {
    s.rcv.state == Finished && Stopped(s.snd)
  }

  predicate Lossless(a: Action) {
    match a
    case ServerTick(_, f) => f == Deliver
    case ServerTimeout(f) => f == Deliver
    case ServerReceive(f) => f == Deliver
    case ClientReceive(fs) => fs == (Deliver, Deliver)
  }

  predicate LosslessRun(cfg: Config, s: State, actions: seq<Action>, t: State) {
    (forall a | a in actions :: Lossless(a)) && Run(cfg, s, actions, t)
  }

  lemma LosslessCons(cfg: Config, s: State, a: Action, actions: seq<Action>, t: State)
    requires Lossless(a) && Enabled(cfg, s, a) && LosslessRun(cfg, Next(cfg, s, a), actions, t)
    ensures LosslessRun(cfg, s, [a] + actions, t)
  {
    hide Next, Enabled;
    assert ([a] + actions)[1..] == actions;
  }

  // ---------------------------------------------------------------------------
  // A doomed transfer stays doomed
  // ---------------------------------------------------------------------------

  lemma NoEofBeforeSendEof(cfg: Config, s: State)
    requires Inv(cfg, s) && !EofStarted(s.snd)
    ensures forall m | m in s.fwd :: !IsEof(m)
  {
    forall m | m in s.fwd ensures !IsEof(m) {
      var i :| 0 <= i < |s.fwd| && s.fwd[i] == m;
      assert FwdMsgOk(cfg.FileChunks(), s.fwd[i], s.snd.window.current, s.rcv.expected, High(s.rcv), EofStarted(s.snd));
    }
  }

  lemma UnansweredHead(rcv: Client, fwd: seq<Msg>)
    requires rcv.state != Finished && fwd != [] && Unanswered(rcv, fwd)
    ensures var o := Receive(rcv, fwd[0]);
      o.sent == [] && o.client.state == rcv.state && o.client.expected == rcv.expected
    ensures Unanswered(Receive(rcv, fwd[0]).client, fwd[1..])
  {
    assert fwd[0] in fwd;
  }

  lemma DoomedStays(cfg: Config, s: State, a: Action)
    requires Inv(cfg, s) && Doomed(s) && Enabled(cfg, s, a)
    ensures Doomed(Next(cfg, s, a))
  {
    if a.ClientReceive? {
      ClientStepOk(cfg, s);
      assert s.fwd[0] in s.fwd;
      if !Stopped(s.snd) {
        UnansweredHead(s.rcv, s.fwd);
      }
    } else if s.snd.phase == Wait {
      NoEofBeforeSendEof(cfg, s);
    } else {
      assert s.rcv.state == InOrder by {
        ReadIsNextChunk(cfg.FileChunks(), cfg.bufferSize, s.snd.rest, s.snd.window.current);
      }
      assert forall m | m in s.fwd :: !IsEof(m);
    }
  }

  lemma {:induction false} DoomedForever(cfg: Config, s: State, actions: seq<Action>, t: State)
    requires Inv(cfg, s) && Doomed(s) && Run(cfg, s, actions, t)
    ensures t.rcv.state != Finished
    decreases |actions|
  {
    if actions != [] {
      hide Next, Enabled;
      DoomedStays(cfg, s, actions[0]);
      NextKeepsInv(cfg, s, actions[0]);
      DoomedForever(cfg, Next(cfg, s, actions[0]), actions[1..], t);
    }
  }

  // ---------------------------------------------------------------------------
  // The work a state still has under way
  // ---------------------------------------------------------------------------

  function FwdWeight(m: Msg, expected: u32): nat {
    if m.Good? && m.packet.seqNum == expected then 1 else 4
  }

  function RevWeight(m: Msg, expected: u32): nat {
    if m.Good? && m.packet.flag == SREJ then (if Target(m.packet.payload) == expected then 2 else 5) else 1
  }

  function FwdWork(q: seq<Msg>, expected: u32): nat {
    if q == [] then 0 else FwdWeight(q[0], expected) + FwdWork(q[1..], expected)
  }

  function RevWork(q: seq<Msg>, expected: u32): nat {
    if q == [] then 0 else RevWeight(q[0], expected) + RevWork(q[1..], expected)
  }

  lemma {:induction false} RevWorkSnoc(q: seq<Msg>, m: Msg, expected: u32)
    ensures RevWork(q + [m], expected) == RevWork(q, expected) + RevWeight(m, expected)
  {
    if q == [] {
      assert (q + [m])[1..] == [];
    } else {
      assert (q + [m])[1..] == q[1..] + [m];
      RevWorkSnoc(q[1..], m, expected);
    }
  }

  lemma {:induction false} FwdWorkSnoc(q: seq<Msg>, m: Msg, expected: u32)
    ensures FwdWork(q + [m], expected) == FwdWork(q, expected) + FwdWeight(m, expected)
  {
    if q == [] {
      assert (q + [m])[1..] == [];
    } else {
      assert (q + [m])[1..] == q[1..] + [m];
      FwdWorkSnoc(q[1..], m, expected);
    }
  }

  function Work(s: State): nat {
    FwdWork(s.fwd, s.rcv.expected) + RevWork(s.rev, s.rcv.expected)
  }

  /** How far the server's control flow is from reading the file or from waiting for an answer. */
  function Distance(s: Sender): nat {
    match s.phase
    case FillPoll => 5
    case Fill => if s.window.IsOpen() && !s.atEOF then 1 else 4
    case Wait => if Blocked(s) then 3 else 2
    case _ => 0
  }

  predicate Sending(s: Sender) {
    s.phase == Fill || s.phase == FillPoll || s.phase == Wait
  }

  /** Nothing is under way and the server waits: only an elapsed poll can go on. */
  predicate Quiescent(s: State) {
    s.snd.phase == Wait && Blocked(s.snd) && s.fwd == [] && s.rev == []
  }

  ghost predicate LessWork(s: State, s': State) {
    var w, w' := s.snd.window, s'.snd.window;
    && w.lower <= w'.lower && s.rcv.expected <= s'.rcv.expected && w.current <= w'.current
    && (s.snd.atEOF ==> s'.snd.atEOF)
    && (|| w.lower < w'.lower
       || s.rcv.expected < s'.rcv.expected
       || w.current < w'.current
       || (!s.snd.atEOF && s'.snd.atEOF)
       || Work(s') < Work(s)
       || (Work(s') == Work(s) && Distance(s'.snd) < Distance(s.snd)))
  }

  /** The client answers what is under way to it with less work than it was. */
  lemma ClientWorks(cfg: Config, s: State)
    requires Inv(cfg, s) && s.rcv.state != Finished && s.fwd != [] && !IsEof(s.fwd[0])
    ensures Enabled(cfg, s, ClientReceive((Deliver, Deliver)))
    ensures LessWork(s, Next(cfg, s, ClientReceive((Deliver, Deliver))))
  {
    ClientStepOk(cfg, s);
    var o := Receive(s.rcv, s.fwd[0]);
    var s' := Next(cfg, s, ClientReceive((Deliver, Deliver)));
    if !(s.fwd[0].Good? && s.fwd[0].packet.seqNum == s.rcv.expected) {
      assert o.client.expected == s.rcv.expected;
      TargetOfBE32(s.rcv.expected);
      EmitAtMostTwo(s.rev, o.sent, Deliver, Deliver);
      if |o.sent| >= 1 {
        RevWorkSnoc(s.rev, Good(o.sent[0]), s.rcv.expected);
      }
      if |o.sent| == 2 {
        RevWorkSnoc(s.rev + [Good(o.sent[0])], Good(o.sent[1]), s.rcv.expected);
      }
    }
  }

  /** What taking in an answer does while the server is still sending. */
  lemma AnswerTaken(cfg: Config, s: State)
    requires Inv(cfg, s) && s.rcv.state != Finished && Sending(s.snd) && Polling(s.snd) && s.rev != []
    ensures Enabled(cfg, s, ServerReceive(Deliver))
    ensures var o, m := Step(s.snd, cfg.bufferSize, Arrive(s.rev[0])), s.rev[0];
      && o.sender.phase == (if s.snd.phase == Wait then Wait else Fill)
      && (o.sender.phase == Wait ==> o.sender.tries == 0)
      && o.sender.atEOF == s.snd.atEOF && o.sender.window.current == s.snd.window.current
      && s.snd.window.lower <= o.sender.window.lower
      && (if m.Good? && m.packet.flag == SREJ
          then |o.sent| == 1 && o.sent[0].seqNum == Target(m.packet.payload)
          else o.sent == [])
  {
    assert RevMsgOk(s.rev[0], s.snd.window.lower, s.rcv.expected, s.snd.window.current, false);
  }

  /** The server takes in an answer with less work than it was, and starts counting its tries afresh. */
  lemma ServerWorks(cfg: Config, s: State)
    requires Inv(cfg, s) && s.rcv.state != Finished && Sending(s.snd) && Polling(s.snd) && s.rev != []
    ensures Enabled(cfg, s, ServerReceive(Deliver))
    ensures var s' := Next(cfg, s, ServerReceive(Deliver));
      LessWork(s, s') && Sending(s'.snd) && !Doomed(s') && s'.rcv == s.rcv
  {
    hide Inv, Step;
    AnswerTaken(cfg, s);
    var o := Step(s.snd, cfg.bufferSize, Arrive(s.rev[0]));
    EmitAtMostOne(s.fwd, o.sent, Deliver);
    if o.sent != [] {
      FwdWorkSnoc(s.fwd, Good(o.sent[0]), s.rcv.expected);
    }
  }

  /** The server on its own reads on, or moves on to its wait loop or to SEND_EOF. */
  lemma ServerMovesOn(cfg: Config, s: Sender, ev: Event)
    requires cfg.Valid() && ServerOk(cfg.FileChunks(), cfg.bufferSize, s) && Sending(s) && Accepts(s, ev)
    requires ev.Tick? || (ev.Timeout? && s.phase == FillPoll)
    ensures var o := Step(s, cfg.bufferSize, ev);
      && o.sender.window.lower == s.window.lower && (s.atEOF ==> o.sender.atEOF)
      && !LastTry(o.sender) && (Sending(o.sender) || o.sender.phase == Eof)
      && (|| s.window.current < o.sender.window.current
          || (s.window.current == o.sender.window.current && o.sent == []
              && ((!s.atEOF && o.sender.atEOF) || Distance(o.sender) < Distance(s))))
  {
  }

  lemma TickWorks(cfg: Config, s: State, a: Action)
    requires Inv(cfg, s) && s.rcv.state != Finished && Sending(s.snd) && Lossless(a) && Enabled(cfg, s, a)
    requires a.ServerTick? || (a.ServerTimeout? && s.snd.phase == FillPoll)
    ensures LessWork(s, Next(cfg, s, a)) && !Doomed(Next(cfg, s, a))
    ensures Next(cfg, s, a).rcv == s.rcv && (Sending(Next(cfg, s, a).snd) || Next(cfg, s, a).snd.phase == Eof)
  {
    hide Step;
    ServerMovesOn(cfg, s.snd, EventOf(s, a));
    EmitAtMostOne(s.fwd, Step(s.snd, cfg.bufferSize, EventOf(s, a)).sent, Deliver);
  }

  /** Delivering what is under way never spoils a transfer that can still be completed. */
  lemma DeliveryKeepsHope(cfg: Config, s: State)
    requires Inv(cfg, s) && s.rcv.state != Finished && s.fwd != [] && !Doomed(s)
    ensures Enabled(cfg, s, ClientReceive((Deliver, Deliver)))
    ensures !Doomed(Next(cfg, s, ClientReceive((Deliver, Deliver))))
  {
    hide Inv;
    CanReceive(cfg, s);
    var s' := Next(cfg, s, ClientReceive((Deliver, Deliver)));
    var o := Receive(s.rcv, s.fwd[0]);
    ClientStepOk(cfg, s);
    EmitAtMostTwo(s.rev, o.sent, Deliver, Deliver);
    if s'.rcv.state != Finished {
      assert s.fwd == [s.fwd[0]] + s'.fwd;
      if Stopped(s.snd) {
        var m :| m in s.fwd && IsEof(m);
        assert m in s'.fwd;
      } else if LastTry(s.snd) && s.rev == [] && o.sent == [] {
        var m :| m in s.fwd && m.Good? && !(s.rcv.state == Buffering && m.packet.seqNum > s.rcv.expected);
        SilentReceipt(s.rcv, s.fwd[0]);
        assert m in s'.fwd;
      }
    }
  }

  /** Only a PDU that the client drops or buffers goes without an answer. */
  lemma SilentReceipt(rcv: Client, m: Msg)
    requires rcv.state != Finished && Receive(rcv, m).sent == []
    ensures m.Good? ==> rcv.state == Buffering && m.packet.seqNum > rcv.expected
    ensures Receive(rcv, m).client.state == rcv.state && Receive(rcv, m).client.expected == rcv.expected
  {
  }

  // ---------------------------------------------------------------------------
  // A round that starts with an elapsed poll
  // ---------------------------------------------------------------------------

  /** The client's answer to a resend of the lowest slot begins with an RR. */
  lemma AfterResend(cfg: Config, s: State) returns (t: State)
    requires Inv(cfg, s) && s.rcv.state != Finished && |s.fwd| == 1 && s.rev == [] && s.fwd[0].Good?
    requires s.fwd[0].packet.flag == RESENT_DATA_TIMEOUT
    requires s.snd.window.lower < s.snd.window.current ==> s.fwd[0].packet.seqNum == s.snd.window.lower
    ensures Enabled(cfg, s, ClientReceive((Deliver, Deliver))) && t == Next(cfg, s, ClientReceive((Deliver, Deliver)))
    ensures Inv(cfg, t) && t.rcv.state != Finished && s.rcv.expected <= t.rcv.expected
    ensures t.snd == s.snd && t.fwd == [] && t.rev != [] && t.rev[0].Good? && t.rev[0].packet.flag == RR
    ensures Target(t.rev[0].packet.payload) == t.rcv.expected
    ensures s.snd.window.lower < s.snd.window.current ==> s.snd.window.lower < t.rcv.expected
    ensures s.rcv.state == InOrder ==> |t.rev| == 1
  {
    hide Inv;
    CanReceive(cfg, s);
    ResendIsExpected(cfg, s);
    ClientStepOk(cfg, s);
    t := Next(cfg, s, ClientReceive((Deliver, Deliver)));
    NextKeepsInv(cfg, s, ClientReceive((Deliver, Deliver)));
    var o := Receive(s.rcv, s.fwd[0]);
    EmitAtMostTwo(s.rev, o.sent, Deliver, Deliver);
    TargetOfBE32(t.rcv.expected);
    assert ReplyOk(o.client, o.sent[0]);
    InOrderRepliesOnce(s.rcv, s.fwd[0]);
    hide Receive;
  }

  lemma InOrderRepliesOnce(c: Client, m: Msg)
    requires c.state != Finished
    ensures c.state == InOrder ==> |Receive(c, m).sent| <= 1
  {
  }

  lemma ResendIsExpected(cfg: Config, s: State)
    requires Inv(cfg, s) && s.fwd != [] && s.fwd[0].Good? && s.fwd[0].packet.flag == RESENT_DATA_TIMEOUT
    ensures s.fwd[0].packet.seqNum <= s.rcv.expected && s.snd.window.lower <= s.rcv.expected
  {
    assert FwdMsgOk(cfg.FileChunks(), s.fwd[0], s.snd.window.current, s.rcv.expected, High(s.rcv), EofStarted(s.snd));
  }

  function Round(): seq<Action> {
    [ServerTimeout(Deliver), ClientReceive((Deliver, Deliver)), ServerReceive(Deliver)]
  }

  lemma AfterTimeout(cfg: Config, s: State) returns (s1: State)
    requires Inv(cfg, s) && Quiescent(s) && s.snd.tries + 1 < MAX_TRIES && s.rcv.state != Finished
    ensures Enabled(cfg, s, ServerTimeout(Deliver)) && s1 == Next(cfg, s, ServerTimeout(Deliver)) && Inv(cfg, s1)
    ensures s1.snd == s.snd.(tries := s.snd.tries + 1) && s1.rcv == s.rcv && s1.rev == []
    ensures |s1.fwd| == 1 && s1.fwd[0].Good? && s1.fwd[0].packet.flag == RESENT_DATA_TIMEOUT
    ensures s.snd.window.lower < s.snd.window.current ==> s1.fwd[0].packet.seqNum == s.snd.window.lower
  {
    hide Inv, Step;
    PollElapses(cfg, s);
    s1 := Next(cfg, s, ServerTimeout(Deliver));
    NextKeepsInv(cfg, s, ServerTimeout(Deliver));
    EmitAtMostOne([], Step(s.snd, cfg.bufferSize, Timeout).sent, Deliver);
  }

  lemma PollElapses(cfg: Config, s: State)
    requires Inv(cfg, s) && s.snd.phase == Wait && Blocked(s.snd) && s.snd.tries + 1 < MAX_TRIES
    ensures Enabled(cfg, s, ServerTimeout(Deliver))
    ensures var o := Step(s.snd, cfg.bufferSize, Timeout);
      && o.sender == s.snd.(tries := s.snd.tries + 1)
      && |o.sent| == 1 && o.sent[0].flag == RESENT_DATA_TIMEOUT
      && (s.snd.window.lower < s.snd.window.current ==> o.sent[0].seqNum == s.snd.window.lower)
  {
    LowestSlot(cfg.FileChunks(), s.snd.window);
  }

  /** The RR that begins the client's answer is what the server acts on. */
  lemma AfterAnswer(cfg: Config, s: State) returns (t: State)
    requires Inv(cfg, s) && s.snd.phase == Wait && Blocked(s.snd) && s.rcv.state != Finished
    requires s.rev != [] && s.rev[0].Good? && s.rev[0].packet.flag == RR
    requires Target(s.rev[0].packet.payload) == s.rcv.expected
    ensures Enabled(cfg, s, ServerReceive(Deliver)) && t == Next(cfg, s, ServerReceive(Deliver)) && Inv(cfg, t)
    ensures t.rcv == s.rcv && t.fwd == s.fwd && t.rev == s.rev[1..]
    ensures t.snd.phase == Wait && t.snd.tries == 0 && t.snd.atEOF == s.snd.atEOF
    ensures t.snd.window == s.snd.window.UpdateLower(s.rcv.expected)
    ensures s.snd.atEOF && s.rcv.expected == s.snd.seqNum ==> !t.snd.waiting
  {
    NextKeepsInv(cfg, s, ServerReceive(Deliver));
    t := Next(cfg, s, ServerReceive(Deliver));
  }

  lemma RoundRuns(cfg: Config, s: State, s1: State, s2: State, t: State)
    requires Enabled(cfg, s, Round()[0]) && s1 == Next(cfg, s, Round()[0])
    requires Enabled(cfg, s1, Round()[1]) && s2 == Next(cfg, s1, Round()[1])
    requires Enabled(cfg, s2, Round()[2]) && t == Next(cfg, s2, Round()[2])
    ensures LosslessRun(cfg, s, Round(), t)
  {
    hide Next, Enabled;
    assert [Round()[2]] + [] == [Round()[2]] && [Round()[1]] + [Round()[2]] == [Round()[1], Round()[2]];
    LosslessCons(cfg, s2, Round()[2], [], t);
    LosslessCons(cfg, s1, Round()[1], [Round()[2]], t);
    LosslessCons(cfg, s, Round()[0], [Round()[1], Round()[2]], t);
    assert Round() == [Round()[0]] + [Round()[1], Round()[2]];
  }

  /**
   * One round without loss from an elapsed poll to the client's answer moves the window
   * on; if everything was acknowledged before, it ends the wait for the last RR.
   */
  lemma TimeoutRound(cfg: Config, s: State) returns (t: State)
    requires Inv(cfg, s) && Quiescent(s) && !Doomed(s) && s.rcv.state != Finished
    ensures LosslessRun(cfg, s, Round(), t) && Inv(cfg, t) && !Doomed(t) && t.rcv.state != Finished
    ensures t.snd.phase == Wait && LessWork(s, t)
    ensures s.snd.window.lower < t.snd.window.lower ||
            (s.snd.window.lower == |cfg.FileChunks()| && s.snd.waiting && !t.snd.waiting && t.rev == [])
  {
    hide Next, Enabled;
    var s1 := AfterTimeout(cfg, s);
    var s2 := AfterResend(cfg, s1);
    t := AfterAnswer(cfg, s2);
    RoundRuns(cfg, s, s1, s2, t);
    if s.snd.window.lower == s.snd.window.current {
      ReadIsNextChunk(cfg.FileChunks(), cfg.bufferSize, s.snd.rest, s.snd.window.current);
    }
  }

  // ---------------------------------------------------------------------------
  // The same with anything under way
  // ---------------------------------------------------------------------------

  /** A PDU that the client will answer with an RR for n or more. */
  predicate Prompts(m: Msg, expected: u32, n: nat) {
    m.Good? && !IsEof(m) && m.packet.seqNum <= expected && (n <= expected || n <= m.packet.seqNum + 1)
  }

  predicate Tells(m: Msg, n: nat) {
    m.Good? && m.packet.flag == RR && n <= Target(m.packet.payload)
  }

  predicate Owed(s: State, n: nat) {
    (exists m | m in s.fwd :: Prompts(m, s.rcv.expected, n)) || (exists m | m in s.rev :: Tells(m, n))
  }

  /** The server has learnt that all below n has arrived, and if that is the last it waits for, waits no longer. */
  predicate Settled(s: Sender, n: nat, last: bool) {
    s.window.lower >= n && (last ==> !s.waiting)
  }

  /** In the last wait, or after it. */
  predicate Waited(s: Sender, n: nat) {
    s.atEOF && s.phase != Fill && s.phase != FillPoll && n == s.window.current
  }

  lemma PromptIsAnswered(cfg: Config, s: State, n: nat)
    requires Inv(cfg, s) && s.rcv.state != Finished && s.fwd != []
    ensures s.rcv.expected <= Receive(s.rcv, s.fwd[0]).client.expected
    ensures Prompts(s.fwd[0], s.rcv.expected, n) ==>
      Receive(s.rcv, s.fwd[0]).sent != [] && Tells(Good(Receive(s.rcv, s.fwd[0]).sent[0]), n)
  {
    ClientStepOk(cfg, s);
    hide Inv, Receive;
    var o := Receive(s.rcv, s.fwd[0]);
    if o.sent != [] {
      assert ReplyOk(o.client, o.sent[0]);
    }
  }

  lemma ClientPaysUp(cfg: Config, s: State, n: nat)
    requires Inv(cfg, s) && s.rcv.state != Finished && s.fwd != [] && Owed(s, n)
    ensures Enabled(cfg, s, ClientReceive((Deliver, Deliver)))
    ensures Owed(Next(cfg, s, ClientReceive((Deliver, Deliver))), n)
  {
    hide Inv;
    CanReceive(cfg, s);
    PromptIsAnswered(cfg, s, n);
    hide Receive, Tells;
    var s', o := Next(cfg, s, ClientReceive((Deliver, Deliver))), Receive(s.rcv, s.fwd[0]);
    EmitAtMostTwo(s.rev, o.sent, Deliver, Deliver);
    if m :| m in s.rev && Tells(m, n) {
      assert m in s'.rev;
    } else {
      var m :| m in s.fwd && Prompts(m, s.rcv.expected, n);
      assert s.fwd == [s.fwd[0]] + s'.fwd;
      if m in s'.fwd {
        assert Prompts(m, s'.rcv.expected, n);
      } else {
        assert Good(o.sent[0]) in s'.rev;
      }
    }
  }

  lemma RrTaken(cfg: Config, s: State, n: nat, last: bool)
    requires Inv(cfg, s) && Polling(s.snd) && s.rev != [] && Tells(s.rev[0], n) && (last ==> Waited(s.snd, n))
    ensures s.snd.window.Size() > 0
    ensures Settled(Step(s.snd, cfg.bufferSize, Arrive(s.rev[0])).sender, n, last)
  {
    assert RevMsgOk(s.rev[0], s.snd.window.lower, s.rcv.expected, s.snd.window.current, s.rcv.state == Finished);
  }

  /** The server settles when it takes in what it was owed; nothing else it does gets in the way. */
  lemma ServerSettles(cfg: Config, s: State, a: Action, n: nat, last: bool)
    requires Inv(cfg, s) && Enabled(cfg, s, a) && !a.ClientReceive? && Owed(s, n) && (last ==> Waited(s.snd, n))
    ensures Owed(Next(cfg, s, a), n) || Settled(Next(cfg, s, a).snd, n, last)
  {
    hide Inv, Step, Settled, Waited, Tells, Prompts;
    var s', o := Next(cfg, s, a), Step(s.snd, cfg.bufferSize, EventOf(s, a));
    EmitAtMostOne(s.fwd, o.sent, a.fault);
    assert s.fwd <= s'.fwd;
    if m :| m in s.fwd && Prompts(m, s.rcv.expected, n) {
      assert m in s'.fwd;
    } else {
      var m :| m in s.rev && Tells(m, n);
      if a.ServerReceive? {
        assert s.rev == [s.rev[0]] + s'.rev;
        if m !in s'.rev {
          RrTaken(cfg, s, n, last);
        }
      }
    }
  }

  lemma SettledStays(cfg: Config, s: Sender, ev: Event, n: nat, last: bool)
    requires cfg.Valid() && ServerOk(cfg.FileChunks(), cfg.bufferSize, s) && Accepts(s, ev) && (last ==> Waited(s, n))
    ensures last ==> Waited(Step(s, cfg.bufferSize, ev).sender, n)
    ensures last && !s.waiting ==> !Step(s, cfg.bufferSize, ev).sender.waiting
  {
  }

  lemma OwedOrSettled(cfg: Config, s: State, a: Action, n: nat, last: bool)
    requires Inv(cfg, s) && Enabled(cfg, s, a) && Lossless(a)
    requires (Owed(s, n) || Settled(s.snd, n, last)) && (last ==> Waited(s.snd, n))
    ensures var s' := Next(cfg, s, a);
      Inv(cfg, s') && (Owed(s', n) || Settled(s'.snd, n, last)) && (last ==> Waited(s'.snd, n))
  {
    hide Step, Waited, Owed, Receive;
    NextKeepsInv(cfg, s, a);
    if a.ClientReceive? {
      if Owed(s, n) {
        ClientPaysUp(cfg, s, n);
      }
    } else {
      SettledStays(cfg, s.snd, EventOf(s, a), n, last);
      if Owed(s, n) {
        ServerSettles(cfg, s, a, n, last);
      }
    }
  }

  lemma {:induction false} DebtIsPaid(cfg: Config, s: State, actions: seq<Action>, t: State, n: nat, last: bool)
    requires Inv(cfg, s) && LosslessRun(cfg, s, actions, t) && t.fwd == [] && t.rev == []
    requires (Owed(s, n) || Settled(s.snd, n, last)) && (last ==> Waited(s.snd, n))
    ensures Settled(t.snd, n, last)
    decreases |actions|
  {
    hide Next, Enabled, Inv, Waited, Settled;
    if actions != [] {
      assert actions[0] in actions;
      OwedOrSettled(cfg, s, actions[0], n, last);
      DebtIsPaid(cfg, Next(cfg, s, actions[0]), actions[1..], t, n, last);
    }
  }

  /**
   * Whatever else is under way when the poll elapses: unless something is lost, by the time
   * the channels are empty the window has moved on, or the last wait is over.
   */
  lemma TimeoutPaysOff(cfg: Config, s: State, actions: seq<Action>, t: State)
    requires cfg.Valid() && Reachable(cfg, s) && Enabled(cfg, s, ServerTimeout(Deliver))
    requires s.snd.phase == Wait && s.snd.tries + 1 < MAX_TRIES
    requires LosslessRun(cfg, Next(cfg, s, ServerTimeout(Deliver)), actions, t) && t.fwd == [] && t.rev == []
    ensures if s.snd.window.lower < s.snd.window.current then s.snd.window.lower < t.snd.window.lower
            else s.snd.waiting && !t.snd.waiting
  {
    ReachableInv(cfg, s);
    var s1 := Next(cfg, s, ServerTimeout(Deliver));
    NextKeepsInv(cfg, s, ServerTimeout(Deliver));
    var last := s.snd.window.lower >= s.snd.window.current;
    var n := if last then s.snd.window.current else s.snd.window.lower + 1;
    ResendPrompts(cfg, s, n, last);
    hide Inv, Next, Enabled, Owed;
    DebtIsPaid(cfg, s1, actions, t, n, last);
  }

  lemma ResendPrompts(cfg: Config, s: State, n: nat, last: bool)
    requires Inv(cfg, s) && Enabled(cfg, s, ServerTimeout(Deliver))
    requires s.snd.phase == Wait && s.snd.tries + 1 < MAX_TRIES
    requires last == (s.snd.window.lower >= s.snd.window.current)
    requires n == if last then s.snd.window.current else s.snd.window.lower + 1
    ensures Owed(Next(cfg, s, ServerTimeout(Deliver)), n)
    ensures last ==> s.snd.waiting && Waited(Next(cfg, s, ServerTimeout(Deliver)).snd, n)
  {
    var s1, o := Next(cfg, s, ServerTimeout(Deliver)), Step(s.snd, cfg.bufferSize, Timeout);
    PollElapses(cfg, s);
    LowestSlot(cfg.FileChunks(), s.snd.window);
    EmitAtMostOne(s.fwd, o.sent, Deliver);
    var m := Good(o.sent[0]);
    assert m in s1.fwd && Prompts(m, s1.rcv.expected, n);
  }

  lemma CanReceive(cfg: Config, s: State)
    requires Inv(cfg, s) && s.rcv.state != Finished && s.fwd != []
    ensures Enabled(cfg, s, ClientReceive((Deliver, Deliver)))
    ensures var o := Receive(s.rcv, s.fwd[0]);
      o.client.state == Finished ==> |o.sent| >= 1 && o.sent[|o.sent| - 1].flag == EOF_ACK
  {
  }

  lemma InFile(cfg: Config, s: State)
    requires Inv(cfg, s)
    ensures cfg.Valid() && Sized(cfg, s)
    ensures s.snd.window.current <= |cfg.FileChunks()| && s.snd.window.lower <= s.rcv.expected <= |cfg.FileChunks()|
  {
  }
}
