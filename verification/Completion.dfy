/**
 * Every run without loss completes the transfer, whatever the order of its steps, as long
 * as the server waits for what is under way before it counts a poll as elapsed.
 */
module Completion {
  import opened Bytes
  import opened Protocol
  import opened SlidingWindow
  import opened Rcopy
  import opened Server
  import opened System
  import opened Chunks
  import opened Invariant
  import opened ClientSteps
  import opened Preservation
  import opened Safety
  import opened EofTermination
  import opened Liveness

  /**
   * Nothing is lost, and neither in the wait loop nor after END_OF_FILE does a poll elapse
   * with anything still on its way to the server or to a client that reads.
   */
  predicate Patient(s: State, a: Action) {
    && Lossless(a)
    && (a.ServerTimeout? && s.snd.phase != FillPoll ==> s.rev == [] && (s.fwd == [] || s.rcv.state == Finished))
  }

  predicate PatientRun(cfg: Config, s: State, actions: seq<Action>, t: State)
    decreases |actions|
  {
    if actions == [] then s == t
    else
      && Enabled(cfg, s, actions[0]) && Patient(s, actions[0])
      && PatientRun(cfg, Next(cfg, s, actions[0]), actions[1..], t)
  }

  lemma {:induction false} PatientIsLossless(cfg: Config, s: State, actions: seq<Action>, t: State)
    requires PatientRun(cfg, s, actions, t)
    ensures LosslessRun(cfg, s, actions, t)
    decreases |actions|
  {
    hide Next, Enabled;
    if actions != [] {
      PatientIsLossless(cfg, Next(cfg, s, actions[0]), actions[1..], t);
      LosslessCons(cfg, s, actions[0], actions[1..], t);
      assert actions == [actions[0]] + actions[1..];
    }
  }

  // ---------------------------------------------------------------------------
  // How much is left to do
  // ---------------------------------------------------------------------------

  /** Chunks of the file not yet reached. */
  ghost function Left(cfg: Config, k: nat): nat {
    if cfg.Valid() && k <= |cfg.FileChunks()| then |cfg.FileChunks()| - k else 0
  }

  /** The last RR has arrived. */
  predicate WaitIsOver(s: Sender) {
    s.phase == Wait && s.atEOF && !s.waiting
  }

  /** The lowest chunk has been resent with nothing else under way, or has been answered with an RR. */
  predicate AnswerIsDue(s: State) {
    && s.snd.phase == Wait && Blocked(s.snd)
    && var w := s.snd.window;
       || (&& |s.fwd| == 1 && s.rev == [] && s.fwd[0].Good? && s.fwd[0].packet.flag == RESENT_DATA_TIMEOUT
           && (w.lower < w.current ==> s.fwd[0].packet.seqNum == w.lower))
       || (&& s.fwd == [] && s.rev != [] && s.rev[0].Good? && s.rev[0].packet.flag == RR
           && Target(s.rev[0].packet.payload) == s.rcv.expected
           && (w.lower < w.current ==> w.lower < s.rcv.expected))
  }

  /** What goes down for good: chunks to send, to receive and to acknowledge, and what there is to wait for. */
  ghost function Milestones(cfg: Config, s: State): nat {
    Left(cfg, s.snd.window.lower) + Left(cfg, s.rcv.expected) + Left(cfg, s.snd.window.current)
    + (if s.snd.atEOF then 0 else 1) + (if WaitIsOver(s.snd) then 0 else 1)
  }

  ghost function Rank(cfg: Config, s: State): nat {
    2 * Milestones(cfg, s) + if AnswerIsDue(s) then 0 else 1
  }

  /** What there is to do before the next milestone. */
  function Chores(s: State): nat {
    6 * Work(s) + Distance(s.snd)
  }

  /**
   * The steps there can be if each step makes the load less, except where the rank falls,
   * which can multiply it, but by no more than a factor; what follows is as much again.
   */
  function Bound(rank: nat, load: nat, factor: nat): nat
    decreases rank
  {
    load + 1 + if rank == 0 then factor * (load + 1) else Bound(rank - 1, factor * (load + 1), factor)
  }

  lemma MulMonotone(k: nat, x: nat, y: nat)
    requires x <= y
    ensures k * x <= k * y
  {
  }

  lemma {:induction false} BoundIsMonotone(r: nat, x: nat, r': nat, y: nat, k: nat)
    requires r <= r' && x <= y && k > 0
    ensures Bound(r, x, k) <= Bound(r', y, k)
    decreases r'
  {
    MulMonotone(k, x + 1, y + 1);
    if r > 0 {
      BoundIsMonotone(r - 1, k * (x + 1), r' - 1, k * (y + 1), k);
    } else if r' > 0 {
      MulMonotone(y + 1, 1, k);
      BoundIsMonotone(0, y, r' - 1, k * (y + 1), k);
      BoundIsMonotone(0, x, 0, y, k);
    }
  }

  /** One step leaves less to come: the load is less, or the rank has fallen. */
  lemma BoundFalls(r: nat, x: nat, r': nat, y: nat, k: nat)
    requires k > 0
    requires (r' < r && y <= k * (x + 1)) || (r' <= r && y < x)
    ensures Bound(r', y, k) < Bound(r, x, k)
  {
    if r' < r && y <= k * (x + 1) {
      BoundIsMonotone(r', y, r - 1, k * (x + 1), k);
    } else {
      BoundIsMonotone(r', y, r, x - 1, k);
      MulMonotone(k, x, x + 1);
      if r > 0 {
        BoundIsMonotone(r - 1, k * x, r - 1, k * (x + 1), k);
      }
    }
  }

  /** And what follows the last such step is within what is left. */
  lemma BoundCovers(r: nat, x: nat, k: nat)
    requires k > 0
    ensures k * (x + 1) < Bound(r, x, k)
  {
    BoundIsMonotone(0, x, r, x, k);
  }

  const GROWTH: nat := 98

  /** At most so many steps without loss are left. */
  ghost function StepsLeft(cfg: Config, s: State): int {
    if Sending(s.snd) then Bound(Rank(cfg, s), Chores(s), GROWTH) else Budget(s)
  }

  // ---------------------------------------------------------------------------
  // A milestone can only add so many chores
  // ---------------------------------------------------------------------------

  lemma {:induction false} FwdWorkBounds(q: seq<Msg>, expected: u32)
    ensures |q| <= FwdWork(q, expected) <= 4 * |q|
  {
    if q != [] {
      FwdWorkBounds(q[1..], expected);
    }
  }

  lemma {:induction false} RevWorkBounds(q: seq<Msg>, expected: u32)
    ensures |q| <= RevWork(q, expected) <= 5 * |q|
  {
    if q != [] {
      RevWorkBounds(q[1..], expected);
    }
  }

  lemma {:induction false} AnswerableBound(q: seq<Msg>)
    ensures Answerable(q) <= |q|
  {
    if q != [] {
      AnswerableBound(q[1..]);
    }
  }

  lemma FewMoreMessages(cfg: Config, s: State, a: Action)
    requires Enabled(cfg, s, a)
    ensures var s' := Next(cfg, s, a); |s'.fwd| + |s'.rev| <= |s.fwd| + |s.rev| + 1
  {
    hide Receive, Step;
    if a.ClientReceive? {
      EmitAllLength(s.rev, Receive(s.rcv, s.fwd[0]).sent, [a.faults.0, a.faults.1]);
    } else {
      EmitAllLength(s.fwd, Step(s.snd, cfg.bufferSize, EventOf(s, a)).sent, [a.fault]);
    }
  }

  lemma FewMoreChores(cfg: Config, s: State, a: Action)
    requires Enabled(cfg, s, a)
    ensures Chores(Next(cfg, s, a)) <= 5 * Chores(s) + 35
  {
    hide Next, Enabled;
    FewMoreMessages(cfg, s, a);
    var s' := Next(cfg, s, a);
    FwdWorkBounds(s.fwd, s.rcv.expected);
    RevWorkBounds(s.rev, s.rcv.expected);
    FwdWorkBounds(s'.fwd, s'.rcv.expected);
    RevWorkBounds(s'.rev, s'.rcv.expected);
  }

  lemma BudgetIsSmall(cfg: Config, s: State)
    requires s.snd.eofTries <= MAX_TRIES
    ensures Budget(s) <= 67 * Work(s) + 98
  {
    AnswerableBound(s.fwd);
    FwdWorkBounds(s.fwd, s.rcv.expected);
    RevWorkBounds(s.rev, s.rcv.expected);
  }

  // ---------------------------------------------------------------------------
  // Every step gets on, while the server is sending
  // ---------------------------------------------------------------------------

  lemma NotYetEof(cfg: Config, s: State)
    requires Inv(cfg, s) && Sending(s.snd)
    ensures forall m | m in s.fwd :: !IsEof(m)
  {
    NoEofBeforeSendEof(cfg, s);
  }

  /** Any step but an elapsed poll of the wait loop. */
  lemma BusyWork(cfg: Config, s: State, a: Action)
    requires Inv(cfg, s) && s.rcv.state != Finished && Sending(s.snd)
    requires Enabled(cfg, s, a) && Lossless(a) && !(a.ServerTimeout? && s.snd.phase == Wait)
    ensures var s' := Next(cfg, s, a);
      LessWork(s, s') && s'.rcv.state != Finished && (Sending(s'.snd) || s'.snd.phase == Eof)
  {
    hide Inv, Next, LessWork;
    if a.ClientReceive? {
      NotYetEof(cfg, s);
      assert s.fwd[0] in s.fwd;
      ClientWorks(cfg, s);
      ClientGoesOn(cfg, s);
    } else if a.ServerReceive? {
      ServerWorks(cfg, s);
    } else {
      TickWorks(cfg, s, a);
    }
  }

  lemma BusyStep(cfg: Config, s: State, a: Action)
    requires Inv(cfg, s) && !Doomed(s) && s.rcv.state != Finished && Sending(s.snd)
    requires Enabled(cfg, s, a) && Lossless(a) && !(a.ServerTimeout? && s.snd.phase == Wait)
    ensures var s' := Next(cfg, s, a);
      LessWork(s, s') && !Doomed(s') && s'.rcv.state != Finished && (Sending(s'.snd) || s'.snd.phase == Eof)
  {
    hide Inv, Next, Doomed, LessWork;
    BusyWork(cfg, s, a);
    if a.ClientReceive? {
      DeliveryKeepsHope(cfg, s);
    } else if a.ServerReceive? {
      ServerWorks(cfg, s);
    } else {
      TickWorks(cfg, s, a);
    }
  }

  lemma ClientGoesOn(cfg: Config, s: State)
    requires Inv(cfg, s) && s.rcv.state != Finished && s.fwd != []
    ensures Enabled(cfg, s, ClientReceive((Deliver, Deliver)))
    ensures var s' := Next(cfg, s, ClientReceive((Deliver, Deliver)));
      s'.snd == s.snd && s'.fwd == s.fwd[1..] && (s'.rcv.state == Finished <==> IsEof(s.fwd[0]))
  {
    ClientStepOk(cfg, s);
  }

  /** A poll that elapses with nothing under way makes an answer due. */
  lemma QuietStep(cfg: Config, s: State)
    requires Inv(cfg, s) && Quiescent(s) && !Doomed(s) && s.rcv.state != Finished
    ensures Enabled(cfg, s, ServerTimeout(Deliver))
    ensures var s' := Next(cfg, s, ServerTimeout(Deliver));
      && AnswerIsDue(s') && !AnswerIsDue(s) && Milestones(cfg, s') == Milestones(cfg, s)
      && !Doomed(s') && s'.rcv.state != Finished && Sending(s'.snd)
  {
    hide Inv, Next, Milestones;
    var s' := AfterTimeout(cfg, s) by { NotTheLastTry(s); TriesOk(cfg, s); }
    ResendIsExpected(cfg, s');
    SameMilestones(cfg, s, s');
  }

  lemma NotTheLastTry(s: State)
    requires Quiescent(s) && !Doomed(s) && s.rcv.state != Finished
    ensures s.snd.tries != MAX_TRIES - 1
  {
  }

  lemma SameMilestones(cfg: Config, s: State, s': State)
    requires s'.snd == s.snd.(tries := s'.snd.tries) && s'.rcv == s.rcv
    ensures Milestones(cfg, s') == Milestones(cfg, s)
  {
  }

  /** Once an answer is due, it stays so until it is there, and then a milestone is passed. */
  lemma DueStep(cfg: Config, s: State, a: Action)
    requires Inv(cfg, s) && AnswerIsDue(s) && s.rcv.state != Finished && Enabled(cfg, s, a) && Patient(s, a)
    ensures var s' := Next(cfg, s, a);
      AnswerIsDue(s') || s.snd.window.lower < s'.snd.window.lower || (!WaitIsOver(s.snd) && WaitIsOver(s'.snd))
  {
    hide Inv;
    if s.fwd != [] {
      var s' := AfterResend(cfg, s);
    } else {
      assert a == ServerReceive(Deliver);
      var s' := AfterAnswer(cfg, s);
      hide Next, Enabled;
      if s.snd.window.lower >= s.snd.window.current {
        LastWait(cfg, s);
      }
    }
  }

  lemma LastWait(cfg: Config, s: State)
    requires Inv(cfg, s) && s.snd.phase == Wait && Blocked(s.snd) && s.snd.window.lower >= s.snd.window.current
    ensures s.snd.atEOF && s.snd.waiting && s.rcv.expected == s.snd.seqNum
  {
  }

  /** The end of the wait is final. */
  lemma OverStaysOver(cfg: Config, s: State, a: Action)
    requires Inv(cfg, s) && WaitIsOver(s.snd) && Enabled(cfg, s, a)
    ensures WaitIsOver(Next(cfg, s, a).snd) || Next(cfg, s, a).snd.phase == Eof
  {
    hide Receive;
  }

  /** So each step leaves fewer to come, and never makes the transfer one that cannot be completed. */
  lemma SendingStep(cfg: Config, s: State, a: Action)
    requires Inv(cfg, s) && !Doomed(s) && s.rcv.state != Finished && Sending(s.snd)
    requires Enabled(cfg, s, a) && Patient(s, a)
    ensures var s' := Next(cfg, s, a);
      && Inv(cfg, s') && !Doomed(s') && s'.rcv.state != Finished && (Sending(s'.snd) || s'.snd.phase == Eof)
      && (Sending(s'.snd) ==> Rank(cfg, s') < Rank(cfg, s) || (Rank(cfg, s') == Rank(cfg, s) && Chores(s') < Chores(s)))
      && (!Sending(s'.snd) ==> Work(s') == Work(s))
  {
    hide Inv, Next, Doomed, Enabled;
    NextKeepsInv(cfg, s, a);
    var s' := Next(cfg, s, a);
    InFile(cfg, s);
    InFile(cfg, s');
    if a.ServerTimeout? && s.snd.phase == Wait {
      assert Quiescent(s) by { TimeoutNeedsPoll(cfg, s, a); }
      QuietStep(cfg, s);
    } else {
      BusyStep(cfg, s, a);
      if WaitIsOver(s.snd) {
        OverStaysOver(cfg, s, a);
      }
      if AnswerIsDue(s) {
        DueStep(cfg, s, a);
      }
      if !Sending(s'.snd) {
        IntoSendEof(cfg, s, a);
      }
    }
  }

  lemma TimeoutNeedsPoll(cfg: Config, s: State, a: Action)
    requires Enabled(cfg, s, a) && a.ServerTimeout?
    ensures Polling(s.snd)
  {
  }

  lemma IntoSendEof(cfg: Config, s: State, a: Action)
    requires Enabled(cfg, s, a) && Sending(s.snd) && Next(cfg, s, a).snd.phase == Eof
    ensures Work(Next(cfg, s, a)) == Work(s)
  {
    hide Receive;
  }

  // ---------------------------------------------------------------------------
  // Every step gets on, in SEND_EOF
  // ---------------------------------------------------------------------------

  /** What is not sending and not doomed has come through SEND_EOF. */
  lemma ClosingHasStarted(cfg: Config, s: State)
    requires Inv(cfg, s) && !Doomed(s) && !Sending(s.snd)
    ensures EofStarted(s.snd)
  {
    if Stopped(s.snd) && s.rcv.state != Finished {
      if !EofStarted(s.snd) {
        NoEofBeforeSendEof(cfg, s);
      }
    }
  }

  lemma ClosingStep(cfg: Config, s: State, a: Action)
    requires Inv(cfg, s) && !Doomed(s) && !Sending(s.snd) && Enabled(cfg, s, a) && Patient(s, a)
    ensures var s' := Next(cfg, s, a);
      Inv(cfg, s') && !Doomed(s') && !Sending(s'.snd) && Budget(s') < Budget(s)
  {
    hide Inv, Next, Budget;
    ClosingHasStarted(cfg, s);
    NextKeepsInv(cfg, s, a);
    if a.ClientReceive? {
      ClientSpends(cfg, s, a);
      DeliveryKeepsHope(cfg, s);
      ClientGoesOn(cfg, s);
    } else {
      ServerSpends(cfg, s, a);
      ServerCloses(cfg, s, a);
    }
  }

  lemma ServerCloses(cfg: Config, s: State, a: Action)
    requires Inv(cfg, s) && !Doomed(s) && !Sending(s.snd) && !a.ClientReceive? && Enabled(cfg, s, a) && Patient(s, a)
    ensures var s' := Next(cfg, s, a); !Doomed(s') && !Sending(s'.snd)
  {
    var s' := Next(cfg, s, a);
    if s.snd.phase == Eof {
      var p := Packet(s.snd.seqNum, END_OF_FILE, []);
      EmitAtMostOne(s.fwd, [p], Deliver);
      assert Good(p) in s'.fwd;
      hide Next;
      assert s.rcv.state != Finished ==> s.rcv.state == InOrder by {
        ReadIsNextChunk(cfg.FileChunks(), cfg.bufferSize, s.snd.rest, s.snd.window.current);
      }
    } else if a.ServerReceive? {
      assert RevMsgOk(s.rev[0], s.snd.window.lower, s.rcv.expected, s.snd.window.current, s.rcv.state == Finished);
    }
  }

  // ---------------------------------------------------------------------------
  // The theorems
  // ---------------------------------------------------------------------------

  lemma StillReading(cfg: Config, s: State)
    requires Inv(cfg, s) && Sending(s.snd)
    ensures s.rcv.state != Finished
  {
  }

  lemma BudgetOk(cfg: Config, s: State)
    requires Inv(cfg, s)
    ensures 0 <= Budget(s) <= 67 * Work(s) + 98
  {
    BudgetIsSmall(cfg, s);
  }

  lemma WorkIsChore(s: State)
    ensures Work(s) <= Chores(s)
  {
  }

  /** Each step leaves fewer, and never makes the transfer one that cannot be completed. */
  lemma PatientStep(cfg: Config, s: State, a: Action)
    requires Inv(cfg, s) && !Doomed(s) && Enabled(cfg, s, a) && Patient(s, a)
    ensures var s' := Next(cfg, s, a);
      Inv(cfg, s') && !Doomed(s') && 0 <= StepsLeft(cfg, s') < StepsLeft(cfg, s)
  {
    hide Inv, Next, Doomed, Rank, Chores, Enabled, Patient, Budget;
    var s' := Next(cfg, s, a);
    if Sending(s.snd) {
      StillReading(cfg, s);
      SendingStep(cfg, s, a);
      if Sending(s'.snd) {
        FewMoreChores(cfg, s, a);
        BoundFalls(Rank(cfg, s), Chores(s), Rank(cfg, s'), Chores(s'), GROWTH);
      } else {
        BudgetOk(cfg, s');
        BoundCovers(Rank(cfg, s), Chores(s), GROWTH);
        WorkIsChore(s);
      }
    } else {
      ClosingStep(cfg, s, a);
      BudgetOk(cfg, s');
    }
  }

  /** A run without loss is never longer than the bound, in whatever order its steps are taken. */
  lemma {:induction false} PatientRunsAreBounded(cfg: Config, s: State, actions: seq<Action>, t: State)
    requires Inv(cfg, s) && !Doomed(s) && PatientRun(cfg, s, actions, t)
    ensures Inv(cfg, t) && !Doomed(t) && |actions| <= StepsLeft(cfg, s)
    decreases |actions|
  {
    hide Inv, Next, Doomed, Enabled, Patient, StepsLeft;
    if actions == [] {
      StepsLeftIsNat(cfg, s);
    } else {
      PatientStep(cfg, s, actions[0]);
      PatientRunsAreBounded(cfg, Next(cfg, s, actions[0]), actions[1..], t);
    }
  }

  lemma StepsLeftIsNat(cfg: Config, s: State)
    requires Inv(cfg, s)
    ensures StepsLeft(cfg, s) >= 0
  {
    if !Sending(s.snd) {
      BudgetOk(cfg, s);
    }
  }

  /** A step such a run can always go on with. */
  function PatientMove(s: State): Action {
    if s.fwd != [] && s.rcv.state != Finished then ClientReceive((Deliver, Deliver))
    else if Ticking(s.snd) then ServerTick(0, Deliver)
    else if s.rev != [] then ServerReceive(Deliver)
    else ServerTimeout(Deliver)
  }

  lemma CanGoOn(cfg: Config, s: State)
    requires Inv(cfg, s) && !Doomed(s) && !Completed(s)
    ensures Enabled(cfg, s, PatientMove(s)) && Patient(s, PatientMove(s))
  {
    if Stopped(s.snd) {
      assert s.fwd != [];
    }
  }

  /** The server has not given up, and once the client is done, it will hear so. */
  ghost predicate OnCourse(s: State) {
    && s.snd.phase != Quit
    && (s.rcv.state == Finished && !Stopped(s.snd) ==> exists m | m in s.rev :: IsEofAck(m))
  }

  lemma StaysOnCourse(cfg: Config, s: State, a: Action)
    requires Inv(cfg, s) && !Doomed(s) && OnCourse(s) && Enabled(cfg, s, a) && Patient(s, a)
    ensures OnCourse(Next(cfg, s, a))
  {
    var s' := Next(cfg, s, a);
    if a.ClientReceive? {
      ClientAcknowledges(cfg, s);
    } else {
      ServerStaysOnCourse(cfg, s, a);
    }
  }

  lemma ClientAcknowledges(cfg: Config, s: State)
    requires Inv(cfg, s) && s.rcv.state != Finished && s.fwd != []
    ensures Enabled(cfg, s, ClientReceive((Deliver, Deliver)))
    ensures var s' := Next(cfg, s, ClientReceive((Deliver, Deliver)));
      s'.rcv.state == Finished ==> exists m | m in s'.rev :: IsEofAck(m)
  {
    hide Inv;
    CanReceive(cfg, s);
    hide Receive;
    var s' := Next(cfg, s, ClientReceive((Deliver, Deliver)));
    var o := Receive(s.rcv, s.fwd[0]);
    EmitAtMostTwo(s.rev, o.sent, Deliver, Deliver);
    if s'.rcv.state == Finished {
      assert Good(o.sent[|o.sent| - 1]) in s'.rev;
    }
  }

  /** What an action does to the server's phase and to the channel to it. */
  lemma ServerPhase(cfg: Config, s: State, a: Action)
    requires Inv(cfg, s) && !a.ClientReceive? && Enabled(cfg, s, a)
    ensures var s' := Next(cfg, s, a);
      && s'.rcv == s.rcv && s'.rev == (if a.ServerReceive? then s.rev[1..] else s.rev)
      && (s'.snd.phase == Quit ==> a.ServerTimeout? && LastTry(s.snd))
      && (a.ServerReceive? && IsEofAck(s.rev[0]) ==> s'.snd.phase == Exited)
      && !Stopped(s.snd)
  {
    TriesOk(cfg, s);
    hide Inv;
  }

  lemma TriesOk(cfg: Config, s: State)
    requires Inv(cfg, s)
    ensures s.snd.phase == Wait ==> s.snd.tries < MAX_TRIES
    ensures s.snd.phase != Quit ==> s.snd.eofTries < MAX_TRIES
  {
  }

  lemma ServerStaysOnCourse(cfg: Config, s: State, a: Action)
    requires Inv(cfg, s) && !Doomed(s) && OnCourse(s) && !a.ClientReceive? && Enabled(cfg, s, a) && Patient(s, a)
    ensures OnCourse(Next(cfg, s, a))
  {
    ServerPhase(cfg, s, a);
    hide Inv, Next, Enabled;
    var s' := Next(cfg, s, a);
    if s.rcv.state == Finished && a.ServerReceive? && !IsEofAck(s.rev[0]) {
      var m :| m in s.rev && IsEofAck(m);
      assert s.rev == [s.rev[0]] + s.rev[1..];
      assert m in s'.rev;
    }
  }

  lemma {:induction false} RunStaysOnCourse(cfg: Config, s: State, actions: seq<Action>, t: State)
    requires Inv(cfg, s) && !Doomed(s) && OnCourse(s) && PatientRun(cfg, s, actions, t)
    ensures OnCourse(t)
    decreases |actions|
  {
    hide Inv, Next, Doomed, Enabled, Patient, OnCourse;
    if actions != [] {
      PatientStep(cfg, s, actions[0]);
      StaysOnCourse(cfg, s, actions[0]);
      RunStaysOnCourse(cfg, Next(cfg, s, actions[0]), actions[1..], t);
    }
  }

  /**
   * From every reachable state that is not doomed: all runs without loss are bounded, and
   * one that cannot be continued has completed the transfer; the server then leaves on
   * EOF_ACK unless it had stopped, or the client was done, from the start.
   */
  lemma EveryPatientRunCompletes(cfg: Config, s: State, actions: seq<Action>, t: State)
    requires cfg.Valid() && Reachable(cfg, s) && !Doomed(s) && PatientRun(cfg, s, actions, t)
    ensures |actions| <= StepsLeft(cfg, s)
    ensures (forall a :: !(Enabled(cfg, t, a) && Patient(t, a))) ==> Completed(t)
    ensures Completed(t) && s.rcv.state != Finished && !Stopped(s.snd) ==> t.snd.phase == Exited
    ensures Completed(t) ==> t.rcv.output == cfg.file
  {
    hide StepsLeft, Enabled, Patient;
    ReachableInv(cfg, s);
    PatientRunsAreBounded(cfg, s, actions, t);
    if !Completed(t) {
      CanGoOn(cfg, t);
    } else {
      AllWrittenWhenDone(cfg, t);
      if s.rcv.state != Finished && !Stopped(s.snd) {
        RunStaysOnCourse(cfg, s, actions, t);
      }
    }
  }

  lemma AllWrittenWhenDone(cfg: Config, t: State)
    requires Inv(cfg, t) && t.rcv.state == Finished
    ensures t.rcv.output == cfg.file
  {
    AllWritten(cfg, t);
  }

  lemma {:induction false} PatientContinuation(cfg: Config, s: State) returns (actions: seq<Action>, t: State)
    requires Inv(cfg, s) && !Doomed(s)
    ensures PatientRun(cfg, s, actions, t) && Completed(t)
    decreases StepsLeft(cfg, s)
  {
    hide Inv, Next, Doomed, Enabled, Patient, StepsLeft;
    if Completed(s) {
      actions, t := [], s;
    } else {
      var a := PatientMove(s);
      CanGoOn(cfg, s);
      PatientStep(cfg, s, a);
      var rest;
      rest, t := PatientContinuation(cfg, Next(cfg, s, a));
      actions := [a] + rest;
      assert actions[1..] == rest;
    }
  }

  /** From every state that is not doomed there is a continuation without loss that completes the transfer. */
  lemma Completes(cfg: Config, s: State) returns (actions: seq<Action>, t: State)
    requires Inv(cfg, s) && !Doomed(s)
    ensures LosslessRun(cfg, s, actions, t) && Completed(t)
    ensures s.rcv.state != Finished && !Stopped(s.snd) ==> t.snd.phase == Exited
  {
    hide Inv, Doomed;
    actions, t := PatientContinuation(cfg, s);
    PatientIsLossless(cfg, s, actions, t);
    if s.rcv.state != Finished && !Stopped(s.snd) {
      RunStaysOnCourse(cfg, s, actions, t);
    }
  }

  /** A reachable transfer can still be completed, with or without further loss, exactly if it is not doomed. */
  lemma CompletableIffNotDoomed(cfg: Config, s: State)
    requires cfg.Valid() && Reachable(cfg, s)
    ensures (exists actions, t :: Run(cfg, s, actions, t) && Completed(t)) <==> !Doomed(s)
    ensures (exists actions, t :: LosslessRun(cfg, s, actions, t) && Completed(t)) <==> !Doomed(s)
  {
    hide Inv, Run, Doomed;
    ReachableInv(cfg, s);
    if Doomed(s) {
      forall actions, t | Run(cfg, s, actions, t) ensures !Completed(t) {
        DoomedForever(cfg, s, actions, t);
      }
    } else {
      var actions, t := Completes(cfg, s);
      assert Run(cfg, s, actions, t);
    }
  }
}
