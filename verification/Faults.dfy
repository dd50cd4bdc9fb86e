/**
 * Only a channel that fails for ever keeps a transfer going for ever: the length of a run
 * is bounded by the number of datagrams that are lost or damaged in it, whenever the polls
 * of the server elapse.
 */
module Faults {
  import opened Bytes
  import opened Protocol
  import opened SlidingWindow
  import opened Rcopy
  import opened Server
  import opened System
  import opened Invariant
  import opened ClientSteps
  import opened Preservation
  import opened Safety
  import opened EofTermination
  import opened Liveness
  import opened Completion
  import opened Endless

  /** The same step with everything delivered. */
  function Repaired(a: Action): (r: Action)
    ensures Lossless(r)
    ensures Lossless(a) ==> r == a
  {
    match a
    case ServerTick(garbage, _) => ServerTick(garbage, Deliver)
    case ServerTimeout(_) => ServerTimeout(Deliver)
    case ServerReceive(_) => ServerReceive(Deliver)
    case ClientReceive(_) => ClientReceive((Deliver, Deliver))
  }

  lemma RepairedIsEnabled(cfg: Config, s: State, a: Action)
    requires Enabled(cfg, s, a)
    ensures Enabled(cfg, s, Repaired(a))
  {
  }

  /** A datagram is lost or damaged in this step. */
  predicate Fails(cfg: Config, s: State, a: Action)
    requires Enabled(cfg, s, a)
  {
    RepairedIsEnabled(cfg, s, a);
    Next(cfg, s, a) != Next(cfg, s, Repaired(a))
  }

  /** The steps of a run in which the channel fails. */
  function Failures(cfg: Config, s: State, actions: seq<Action>): nat
    decreases |actions|
  {
    if actions == [] || !Enabled(cfg, s, actions[0]) then 0
    else (if Fails(cfg, s, actions[0]) then 1 else 0) + Failures(cfg, Next(cfg, s, actions[0]), actions[1..])
  }

  // ---------------------------------------------------------------------------
  // How far the next answer is
  // ---------------------------------------------------------------------------

  /** What the server has to be told to get on. */
  function Goal(s: Sender): nat {
    if s.window.lower >= s.window.current then s.window.current else s.window.lower + 1
  }

  /** The server is blocked, and what unblocks it, or moves its window on, is under way. */
  predicate Expecting(s: State) {
    s.snd.phase == Wait && Blocked(s.snd) && Owed(s, Goal(s.snd))
  }

  predicate Wanted(m: Msg, forward: bool, expected: u32, n: nat) {
    if forward then Prompts(m, expected, n) else Tells(m, n)
  }

  /** What is under way ahead of the first PDU that is wanted. */
  function Ahead(q: seq<Msg>, forward: bool, expected: u32, n: nat): nat {
    if q == [] || Wanted(q[0], forward, expected, n) then 0 else 1 + Ahead(q[1..], forward, expected, n)
  }

  lemma {:induction false} AheadFinds(q: seq<Msg>, forward: bool, expected: u32, n: nat)
    ensures Ahead(q, forward, expected, n) <= |q|
    ensures Ahead(q, forward, expected, n) < |q| <==> exists m | m in q :: Wanted(m, forward, expected, n)
  {
    if q != [] && !Wanted(q[0], forward, expected, n) {
      AheadFinds(q[1..], forward, expected, n);
      assert q == [q[0]] + q[1..];
    } else if q != [] {
      assert q[0] in q;
    }
  }

  lemma {:induction false} AheadConcat(q: seq<Msg>, r: seq<Msg>, forward: bool, expected: u32, n: nat)
    ensures Ahead(q + r, forward, expected, n) ==
      if Ahead(q, forward, expected, n) < |q| then Ahead(q, forward, expected, n)
      else |q| + Ahead(r, forward, expected, n)
  {
    if q == [] {
      assert q + r == r;
    } else if !Wanted(q[0], forward, expected, n) {
      assert (q + r)[1..] == q[1..] + r;
      AheadConcat(q[1..], r, forward, expected, n);
      AheadFinds(q[1..], forward, expected, n);
    }
  }

  /** The most the server can receive before it is told. */
  function Dues(s: State): nat {
    var n := Goal(s.snd);
    var told := Ahead(s.rev, false, s.rcv.expected, n);
    if told < |s.rev| then told else |s.rev| + 2 * Ahead(s.fwd, true, s.rcv.expected, n) + 2
  }

  // ---------------------------------------------------------------------------
  // How much is left to do without a fault
  // ---------------------------------------------------------------------------

  ghost function Stage(cfg: Config, s: State): nat {
    2 * Milestones(cfg, s) + if Expecting(s) then 0 else 1
  }

  function Effort(s: State): nat
    requires CountsOk(s.snd)
  {
    if Expecting(s) then Stamina(s) + 4 * MAX_TRIES * Dues(s) else Chores(s)
  }

  function Size(s: State): nat
    requires CountsOk(s.snd)
  {
    |s.fwd| + |s.rev| + Patience(s.snd)
  }

  /** Each step adds at most 21 to the size. */
  function Load(s: State): nat
    requires CountsOk(s.snd)
  {
    Size(s) + 22 * Effort(s)
  }

  const STRAIN: nat := 40000

  lemma EffortIsSmall(s: State)
    requires CountsOk(s.snd)
    ensures Effort(s) <= 82 * Size(s) + 80
  {
    FwdWorkBounds(s.fwd, s.rcv.expected);
    RevWorkBounds(s.rev, s.rcv.expected);
    AheadFinds(s.fwd, true, s.rcv.expected, Goal(s.snd));
    AheadFinds(s.rev, false, s.rcv.expected, Goal(s.snd));
    hide Patience, Ahead, FwdWork, RevWork;
  }

  lemma SizeGrowsLittle(cfg: Config, s: State, a: Action)
    requires cfg.Valid() && CountsOk(s.snd) && Enabled(cfg, s, a)
    ensures CountsOk(Next(cfg, s, a).snd) && Size(Next(cfg, s, a)) <= Size(s) + 21
  {
    FewMoreMessages(cfg, s, a);
    hide Patience, Step, Receive, CountsOk;
    if !a.ClientReceive? {
      StepSpends(s.snd, cfg.bufferSize, EventOf(s, a));
    }
  }

  lemma LoadGrowsLittle(cfg: Config, s: State, a: Action)
    requires cfg.Valid() && CountsOk(s.snd) && Enabled(cfg, s, a)
    ensures CountsOk(Next(cfg, s, a).snd) && Load(Next(cfg, s, a)) <= STRAIN * (Load(s) + 1)
  {
    SizeGrowsLittle(cfg, s, a);
    EffortIsSmall(Next(cfg, s, a));
    hide Effort, Size, Next, Enabled, CountsOk;
  }

  // ---------------------------------------------------------------------------
  // Every step without a fault gets on
  // ---------------------------------------------------------------------------

  lemma MilestonesFall(cfg: Config, s: State, a: Action)
    requires Inv(cfg, s) && Enabled(cfg, s, a)
    requires Sending(s.snd) && Sending(Next(cfg, s, a).snd)
    ensures var s' := Next(cfg, s, a);
      && Milestones(cfg, s') <= Milestones(cfg, s)
      && (Milestones(cfg, s') == Milestones(cfg, s) ==>
            && s'.snd.window.lower == s.snd.window.lower && s'.snd.window.current == s.snd.window.current
            && s'.rcv.expected == s.rcv.expected && s'.snd.atEOF == s.snd.atEOF
            && (WaitIsOver(s'.snd) ==> WaitIsOver(s.snd)))
  {
    hide Inv, Next, Enabled;
    var s' := Next(cfg, s, a);
    NextKeepsInv(cfg, s, a);
    InFile(cfg, s);
    InFile(cfg, s');
    if WaitIsOver(s.snd) {
      OverStaysOver(cfg, s, a);
    }
  }

  /** An elapsed poll of the wait loop puts an answer under way, and takes none away. */
  lemma TimeoutGetsOn(cfg: Config, s: State, a: Action)
    requires Inv(cfg, s) && CountsOk(s.snd) && Enabled(cfg, s, a) && Lossless(a)
    requires a.ServerTimeout? && s.snd.phase == Wait && Sending(Next(cfg, s, a).snd)
    ensures var s' := Next(cfg, s, a);
      CountsOk(s'.snd) && Expecting(s') && (Expecting(s) ==> Effort(s') < Effort(s))
  {
    var s' := Next(cfg, s, a);
    ResendPrompts(cfg, s, Goal(s.snd), s.snd.window.lower >= s.snd.window.current);
    NextSpends(cfg, s, a);
    PollElapses(cfg, s);
    var p := Step(s.snd, cfg.bufferSize, Timeout).sent;
    EmitAtMostOne(s.fwd, p, Deliver);
    hide Inv, Next, Step, Stamina, CountsOk, Owed, Enabled;
    if Expecting(s) {
      DuesKeep(s, s', [Good(p[0])]);
    }
  }

  /** What is put behind the first PDU that is wanted makes no difference. */
  lemma DuesKeep(s: State, s': State, r: seq<Msg>)
    requires Owed(s, Goal(s.snd)) && Goal(s'.snd) == Goal(s.snd) && s'.rcv.expected == s.rcv.expected
    requires s'.fwd == s.fwd + r && s'.rev == s.rev
    ensures Dues(s') == Dues(s)
  {
    var n := Goal(s.snd);
    AheadConcat(s.fwd, r, true, s.rcv.expected, n);
    OwedIsAhead(s);
  }

  lemma OwedIsAhead(s: State)
    ensures var n, e := Goal(s.snd), s.rcv.expected;
      Owed(s, n) <==> Ahead(s.fwd, true, e, n) < |s.fwd| || Ahead(s.rev, false, e, n) < |s.rev|
  {
    var n, e := Goal(s.snd), s.rcv.expected;
    AheadFinds(s.fwd, true, e, n);
    AheadFinds(s.rev, false, e, n);
    assert forall m :: Wanted(m, true, e, n) <==> Prompts(m, e, n);
    assert forall m :: Wanted(m, false, e, n) <==> Tells(m, n);
  }

  /** What the client's receipt of one PDU leaves under way. */
  lemma ClientAnswers(cfg: Config, s: State, n: nat) returns (r: seq<Msg>)
    requires Inv(cfg, s) && s.rcv.state != Finished && s.fwd != []
    ensures Enabled(cfg, s, ClientReceive((Deliver, Deliver)))
    ensures var s' := Next(cfg, s, ClientReceive((Deliver, Deliver)));
      s'.snd == s.snd && s'.fwd == s.fwd[1..] && s'.rev == s.rev + r && |r| <= 2
    ensures Prompts(s.fwd[0], s.rcv.expected, n) ==> r != [] && Tells(r[0], n)
  {
    CanReceive(cfg, s);
    PromptIsAnswered(cfg, s, n);
    hide Inv, Tells, Prompts, Receive;
    var sent := Receive(s.rcv, s.fwd[0]).sent;
    EmitAtMostTwo(s.rev, sent, Deliver, Deliver);
    r := if sent == [] then [] else if |sent| == 1 then [Good(sent[0])] else [Good(sent[0]), Good(sent[1])];
  }

  lemma ClientGetsOn(cfg: Config, s: State)
    requires Inv(cfg, s) && CountsOk(s.snd) && Expecting(s) && s.rcv.state != Finished && s.fwd != []
    ensures Enabled(cfg, s, ClientReceive((Deliver, Deliver)))
    ensures var s' := Next(cfg, s, ClientReceive((Deliver, Deliver)));
      s'.rcv.expected == s.rcv.expected ==> CountsOk(s'.snd) && Expecting(s') && Effort(s') < Effort(s)
  {
    hide Inv, Stamina, CountsOk, Next, Enabled, Tells, Prompts, Owed, Dues;
    var a := ClientReceive((Deliver, Deliver));
    var r := ClientAnswers(cfg, s, Goal(s.snd));
    ClientPaysUp(cfg, s, Goal(s.snd));
    assert cfg.Valid() by { InFile(cfg, s); }
    NextSpends(cfg, s, a);
    var s' := Next(cfg, s, a);
    if s'.rcv.expected == s.rcv.expected {
      DuesOfClient(s, s', r);
    }
  }

  lemma DuesOfClient(s: State, s': State, r: seq<Msg>)
    requires s.fwd != [] && Goal(s'.snd) == Goal(s.snd) && s'.rcv.expected == s.rcv.expected
    requires s'.fwd == s.fwd[1..] && s'.rev == s.rev + r && |r| <= 2
    requires Prompts(s.fwd[0], s.rcv.expected, Goal(s.snd)) ==> r != [] && Tells(r[0], Goal(s.snd))
    ensures Dues(s') <= Dues(s)
  {
    var n, e := Goal(s.snd), s.rcv.expected;
    AheadConcat(s.rev, r, false, e, n);
    AheadFinds(s.rev, false, e, n);
    AheadFinds(r, false, e, n);
    hide Tells, Prompts;
  }

  ghost predicate Stalls(cfg: Config, s: State) {
    && Enabled(cfg, s, ServerReceive(Deliver))
    && Sending(Next(cfg, s, ServerReceive(Deliver)).snd)
    && Milestones(cfg, Next(cfg, s, ServerReceive(Deliver))) == Milestones(cfg, s)
  }

  /** If it gets the server no further, the PDU received was not what it waits for. */
  lemma NotSettled(cfg: Config, s: State)
    requires Inv(cfg, s) && Expecting(s) && s.rev != [] && Stalls(cfg, s)
    ensures var s', n := Next(cfg, s, ServerReceive(Deliver)), Goal(s.snd);
      var last := s.snd.window.lower >= s.snd.window.current;
      && (last ==> Waited(s.snd, n)) && !Settled(s'.snd, n, last)
      && s'.snd.phase == Wait && s'.rcv == s.rcv
      && s'.snd.window.lower == s.snd.window.lower && s'.snd.window.current == s.snd.window.current
      && s'.snd.waiting == s.snd.waiting
  {
    MilestonesFall(cfg, s, ServerReceive(Deliver));
    if s.snd.window.lower >= s.snd.window.current {
      LastWait(cfg, s);
    }
    hide Milestones, Owed, HoldsChunks, FwdInv, RevInv, Linked, ClientOk;
  }

  lemma StillBlocked(cfg: Config, s: State)
    requires Inv(cfg, s) && Expecting(s) && s.rev != [] && Stalls(cfg, s)
    ensures Blocked(Next(cfg, s, ServerReceive(Deliver)).snd)
  {
    NotSettled(cfg, s);
    hide Milestones, Owed, FwdInv, RevInv, Linked, ClientOk;
  }

  lemma NotToldYet(cfg: Config, s: State)
    requires Inv(cfg, s) && Expecting(s) && s.rev != [] && Stalls(cfg, s)
    ensures !Tells(s.rev[0], Goal(s.snd)) && Owed(Next(cfg, s, ServerReceive(Deliver)), Goal(s.snd))
  {
    hide Inv, Stalls, Settled, Waited, Tells, Owed;
    NotSettled(cfg, s);
    var n, last := Goal(s.snd), s.snd.window.lower >= s.snd.window.current;
    assert Enabled(cfg, s, ServerReceive(Deliver)) by { InFile(cfg, s); }
    ServerSettles(cfg, s, ServerReceive(Deliver), n, last);
    if Tells(s.rev[0], n) {
      RrTaken(cfg, s, n, last);
    }
  }

  lemma DuesOfServer(s: State, s': State, r: seq<Msg>)
    requires s.rev != [] && !Tells(s.rev[0], Goal(s.snd)) && Owed(s, Goal(s.snd))
    requires Goal(s'.snd) == Goal(s.snd) && s'.rcv.expected == s.rcv.expected
    requires s'.rev == s.rev[1..] && s'.fwd == s.fwd + r
    ensures Dues(s') < Dues(s)
  {
    var n, e := Goal(s.snd), s.rcv.expected;
    AheadConcat(s.fwd, r, true, e, n);
    AheadFinds(s.rev[1..], false, e, n);
    OwedIsAhead(s);
    hide Tells, Prompts, Owed;
  }

  /** Until the server is told, each PDU it receives brings it closer to that. */
  lemma ServerGetsOn(cfg: Config, s: State)
    requires Inv(cfg, s) && CountsOk(s.snd) && Expecting(s) && s.rev != [] && Stalls(cfg, s)
    ensures var s' := Next(cfg, s, ServerReceive(Deliver));
      CountsOk(s'.snd) && Expecting(s') && Effort(s') < Effort(s)
  {
    hide Inv, Stamina, CountsOk, Owed, Tells;
    assert cfg.Valid() && Enabled(cfg, s, ServerReceive(Deliver)) by { InFile(cfg, s); }
    var s' := Next(cfg, s, ServerReceive(Deliver));
    NotSettled(cfg, s);
    StillBlocked(cfg, s);
    NotToldYet(cfg, s);
    NextSpends(cfg, s, ServerReceive(Deliver));
    var sent := Step(s.snd, cfg.bufferSize, Arrive(s.rev[0])).sent;
    EmitAtMostOne(s.fwd, sent, Deliver);
    var r := if sent == [] then [] else [Good(sent[0])];
    assert s'.fwd == s.fwd + r && s'.rev == s.rev[1..];
    hide Next, Step, Enabled, Stalls;
    DuesOfServer(s, s', r);
  }

  // ---------------------------------------------------------------------------
  // The bound
  // ---------------------------------------------------------------------------

  /** While the server is sending: without a fault, the stage is passed or there is less to do. */
  lemma FaultlessStep(cfg: Config, s: State, a: Action)
    requires Inv(cfg, s) && CountsOk(s.snd) && Sending(s.snd) && Enabled(cfg, s, a) && Lossless(a)
    requires Sending(Next(cfg, s, a).snd)
    ensures var s' := Next(cfg, s, a);
      && CountsOk(s'.snd) && s'.rcv.state != Finished
      && (Stage(cfg, s') < Stage(cfg, s) || (Stage(cfg, s') == Stage(cfg, s) && Effort(s') < Effort(s)))
  {
    var s' := Next(cfg, s, a);
    hide Inv, Next, Enabled, CountsOk, Stamina, Dues, Expecting, Milestones;
    StillReading(cfg, s);
    assert cfg.Valid() by { InFile(cfg, s); }
    NextSpends(cfg, s, a);
    NextKeepsInv(cfg, s, a);
    StillReading(cfg, s');
    MilestonesFall(cfg, s, a);
    if Milestones(cfg, s') == Milestones(cfg, s) {
      if a.ServerTimeout? && s.snd.phase == Wait {
        TimeoutGetsOn(cfg, s, a);
      } else if Expecting(s) {
        ExpectingStep(cfg, s, a);
      } else {
        BusyWork(cfg, s, a);
        FewerChores(s, s');
      }
    }
  }

  lemma FewerChores(s: State, s': State)
    requires LessWork(s, s') && s'.snd.atEOF == s.snd.atEOF && s'.rcv.expected == s.rcv.expected
    requires s'.snd.window.lower == s.snd.window.lower && s'.snd.window.current == s.snd.window.current
    ensures Chores(s') < Chores(s)
  {
  }

  lemma ExpectingStep(cfg: Config, s: State, a: Action)
    requires Inv(cfg, s) && CountsOk(s.snd) && Expecting(s) && Enabled(cfg, s, a) && Lossless(a) && !a.ServerTimeout?
    requires Sending(Next(cfg, s, a).snd) && Milestones(cfg, Next(cfg, s, a)) == Milestones(cfg, s)
    ensures var s' := Next(cfg, s, a);
      CountsOk(s'.snd) && Expecting(s') && Effort(s') < Effort(s)
  {
    MilestonesFall(cfg, s, a);
    if a.ClientReceive? {
      hide Next, Inv;
      ClientGetsOn(cfg, s);
    } else {
      assert a == ServerReceive(Deliver);
      hide Next, Inv;
      ServerGetsOn(cfg, s);
    }
  }

  /** At most so many steps are left if at most so many of them are faulty. */
  ghost function RunLeft(cfg: Config, s: State, faults: nat): int
    requires CountsOk(s.snd)
  {
    if Sending(s.snd) then Bound(Stage(cfg, s) + 2 * faults, Load(s), STRAIN)
    else if EofStarted(s.snd) then Budget(s)
    else |s.fwd|
  }

  /** With SEND_EOF behind it, or the server gone, the system runs out by itself. */
  lemma EndingStep(cfg: Config, s: State, a: Action, faults: nat, faults': nat)
    requires Inv(cfg, s) && CountsOk(s.snd) && !Sending(s.snd) && Enabled(cfg, s, a)
    ensures var s' := Next(cfg, s, a);
      CountsOk(s'.snd) && !Sending(s'.snd) && RunLeft(cfg, s', faults') < RunLeft(cfg, s, faults)
  {
    var s' := Next(cfg, s, a);
    hide Inv, Budget, Receive, Patience;
    assert cfg.Valid() by { InFile(cfg, s); }
    NextSpends(cfg, s, a);
    if EofStarted(s.snd) {
      NextKeepsInv(cfg, s, a);
      hide Next, Enabled;
      if a.ClientReceive? {
        ClientSpends(cfg, s, a);
      } else {
        ServerSpends(cfg, s, a);
      }
    } else {
      QuitInTheMiddle(cfg, s);
    }
  }

  lemma QuitInTheMiddle(cfg: Config, s: State)
    requires Inv(cfg, s) && !Sending(s.snd) && !EofStarted(s.snd)
    ensures Stopped(s.snd)
  {
  }

  lemma LeftIsSmall(cfg: Config, s: State, faults: nat)
    requires Inv(cfg, s) && CountsOk(s.snd) && !Sending(s.snd)
    ensures 0 <= RunLeft(cfg, s, faults) <= 335 * Size(s) + 98
  {
    hide Inv, Patience, Budget;
    BudgetOk(cfg, s);
    FwdWorkBounds(s.fwd, s.rcv.expected);
    RevWorkBounds(s.rev, s.rcv.expected);
  }

  lemma LittleIsLeft(cfg: Config, s: State, a: Action, faults: nat)
    requires Inv(cfg, s) && CountsOk(s.snd) && Enabled(cfg, s, a) && !Sending(Next(cfg, s, a).snd)
    ensures CountsOk(Next(cfg, s, a).snd) && RunLeft(cfg, Next(cfg, s, a), faults) <= STRAIN * (Load(s) + 1)
  {
    hide Inv, Next, Enabled, CountsOk, Effort, Size, RunLeft, Sending;
    assert cfg.Valid() by { InFile(cfg, s); }
    NextKeepsInv(cfg, s, a);
    SizeGrowsLittle(cfg, s, a);
    LeftIsSmall(cfg, Next(cfg, s, a), faults);
  }

  lemma MuchIsLeft(cfg: Config, s: State, faults: nat)
    requires CountsOk(s.snd) && Sending(s.snd)
    ensures STRAIN * (Load(s) + 1) < RunLeft(cfg, s, faults)
  {
    hide Load, CountsOk, Stage, Budget, Bound;
    BoundCovers(Stage(cfg, s) + 2 * faults, Load(s), STRAIN);
  }

  lemma SendingToEnd(cfg: Config, s: State, a: Action, faults: nat, faults': nat)
    requires Inv(cfg, s) && CountsOk(s.snd) && Sending(s.snd) && Enabled(cfg, s, a) && !Sending(Next(cfg, s, a).snd)
    ensures CountsOk(Next(cfg, s, a).snd) && RunLeft(cfg, Next(cfg, s, a), faults') < RunLeft(cfg, s, faults)
  {
    hide *;
    LittleIsLeft(cfg, s, a, faults');
    MuchIsLeft(cfg, s, faults);
  }

  lemma SendingOn(cfg: Config, s: State, a: Action, faults: nat, faults': nat)
    requires Inv(cfg, s) && CountsOk(s.snd) && Enabled(cfg, s, a)
    requires Sending(s.snd) && Sending(Next(cfg, s, a).snd)
    requires faults' == if Lossless(a) then faults else faults - 1
    ensures CountsOk(Next(cfg, s, a).snd) && RunLeft(cfg, Next(cfg, s, a), faults') < RunLeft(cfg, s, faults)
  {
    hide Inv, Next, Enabled, CountsOk, Effort, Size, Milestones, Lossless, Expecting, Bound;
    var s' := Next(cfg, s, a);
    assert cfg.Valid() by { InFile(cfg, s); }
    LoadGrowsLittle(cfg, s, a);
    SizeGrowsLittle(cfg, s, a);
    MilestonesFall(cfg, s, a);
    if Lossless(a) {
      FaultlessStep(cfg, s, a);
    }
    BoundFalls(Stage(cfg, s) + 2 * faults, Load(s), Stage(cfg, s') + 2 * faults', Load(s'), STRAIN);
  }

  /** Each step leaves less, or costs a fault. */
  lemma AnyStep(cfg: Config, s: State, a: Action, faults: nat)
    requires Inv(cfg, s) && CountsOk(s.snd) && Enabled(cfg, s, a) && (Lossless(a) || faults > 0)
    ensures var s' := Next(cfg, s, a);
      && Inv(cfg, s') && CountsOk(s'.snd)
      && RunLeft(cfg, s', if Lossless(a) then faults else faults - 1) < RunLeft(cfg, s, faults)
  {
    var s', faults' := Next(cfg, s, a), if Lossless(a) then faults else faults - 1;
    hide Inv, Next, Enabled, CountsOk, RunLeft, Lossless, Sending;
    NextKeepsInv(cfg, s, a);
    if !Sending(s.snd) {
      EndingStep(cfg, s, a, faults, faults');
    } else if !Sending(s'.snd) {
      SendingToEnd(cfg, s, a, faults, faults');
    } else {
      SendingOn(cfg, s, a, faults, faults');
    }
  }

  /** And only if a datagram is really lost or damaged. */
  lemma StepOrFailure(cfg: Config, s: State, a: Action, faults: nat)
    requires Inv(cfg, s) && CountsOk(s.snd) && Enabled(cfg, s, a) && (Fails(cfg, s, a) ==> faults > 0)
    ensures var s' := Next(cfg, s, a);
      && Inv(cfg, s') && CountsOk(s'.snd)
      && RunLeft(cfg, s', if Fails(cfg, s, a) then faults - 1 else faults) < RunLeft(cfg, s, faults)
  {
    hide Inv, Next, Enabled, CountsOk, RunLeft, Lossless;
    RepairedIsEnabled(cfg, s, a);
    AnyStep(cfg, s, if Fails(cfg, s, a) then a else Repaired(a), faults);
  }

  /** Over whole runs. */
  lemma {:induction false} RunIsWithin(cfg: Config, s: State, actions: seq<Action>, t: State)
    requires Inv(cfg, s) && CountsOk(s.snd) && Run(cfg, s, actions, t)
    ensures |actions| <= RunLeft(cfg, s, Failures(cfg, s, actions))
    decreases |actions|
  {
    hide Inv, Next, Enabled, CountsOk, RunLeft, Fails;
    if actions == [] {
      LeftIsNat(cfg, s, 0);
    } else {
      StepOrFailure(cfg, s, actions[0], Failures(cfg, s, actions));
      RunIsWithin(cfg, Next(cfg, s, actions[0]), actions[1..], t);
    }
  }

  lemma LeftIsNat(cfg: Config, s: State, faults: nat)
    requires Inv(cfg, s) && CountsOk(s.snd)
    ensures RunLeft(cfg, s, faults) >= 0
  {
    hide Inv, CountsOk, Stage, Load, Budget;
    if !Sending(s.snd) {
      LeftIsSmall(cfg, s, faults);
    }
  }

  lemma MoreFaultsMoreSteps(cfg: Config, s: State, faults: nat, more: nat)
    requires CountsOk(s.snd) && faults <= more
    ensures RunLeft(cfg, s, faults) <= RunLeft(cfg, s, more)
  {
    hide CountsOk, Stage, Load, Budget;
    if Sending(s.snd) {
      BoundIsMonotone(Stage(cfg, s) + 2 * faults, Load(s), Stage(cfg, s) + 2 * more, Load(s), STRAIN);
    }
  }

  // ---------------------------------------------------------------------------
  // The theorems
  // ---------------------------------------------------------------------------

  ghost predicate FailuresWithin(cfg: Config, s: State, runs: iset<seq<Action>>, bound: nat) {
    forall actions | actions in runs :: Failures(cfg, s, actions) <= bound
  }

  lemma {:induction false} FailuresAreSteps(cfg: Config, s: State, actions: seq<Action>)
    ensures Failures(cfg, s, actions) <= |actions|
    decreases |actions|
  {
    hide Next, Enabled, Fails;
    if actions != [] && Enabled(cfg, s, actions[0]) {
      FailuresAreSteps(cfg, Next(cfg, s, actions[0]), actions[1..]);
    }
  }

  lemma LengthsBoundFailures(cfg: Config, s: State, runs: iset<seq<Action>>, bound: nat)
    requires LengthsWithin(runs, bound)
    ensures FailuresWithin(cfg, s, runs, bound)
  {
    forall actions | actions in runs ensures Failures(cfg, s, actions) <= bound {
      FailuresAreSteps(cfg, s, actions);
    }
  }

  lemma FailuresBoundLengths(cfg: Config, s: State, runs: iset<seq<Action>>, bound: nat)
    requires Inv(cfg, s) && CountsOk(s.snd) && RunsFrom(cfg, s, runs) && FailuresWithin(cfg, s, runs, bound)
    ensures exists most: nat :: LengthsWithin(runs, most)
  {
    hide Inv, Run, RunLeft, CountsOk, Failures;
    forall actions | actions in runs ensures |actions| <= RunLeft(cfg, s, bound) {
      var t :| Run(cfg, s, actions, t);
      RunIsWithin(cfg, s, actions, t);
      MoreFaultsMoreSteps(cfg, s, Failures(cfg, s, actions), bound);
    }
    LeftIsNat(cfg, s, bound);
    assert LengthsWithin(runs, RunLeft(cfg, s, bound));
  }

  lemma BoundTogether(cfg: Config, s: State, runs: iset<seq<Action>>)
    requires Inv(cfg, s) && CountsOk(s.snd) && RunsFrom(cfg, s, runs)
    ensures (exists bound: nat :: LengthsWithin(runs, bound)) <==>
            (exists bound: nat :: FailuresWithin(cfg, s, runs, bound))
  {
    hide *;
    if bound: nat :| LengthsWithin(runs, bound) {
      LengthsBoundFailures(cfg, s, runs, bound);
    }
    if bound: nat :| FailuresWithin(cfg, s, runs, bound) {
      FailuresBoundLengths(cfg, s, runs, bound);
    }
  }

  /** Any set of runs from one state is bounded in length exactly if the number of failures in them is. */
  lemma BoundedIffFailuresBounded(cfg: Config, s: State, runs: iset<seq<Action>>)
    requires cfg.Valid() && Reachable(cfg, s) && RunsFrom(cfg, s, runs)
    ensures (exists bound: nat :: LengthsWithin(runs, bound)) <==>
            (exists bound: nat :: FailuresWithin(cfg, s, runs, bound))
  {
    ReachableInv(cfg, s);
    CountsAreOk(cfg, s);
    BoundTogether(cfg, s, runs);
  }

  lemma {:induction false} NoFailures(cfg: Config, s: State, actions: seq<Action>)
    requires forall a | a in actions :: Lossless(a)
    ensures Failures(cfg, s, actions) == 0
    decreases |actions|
  {
    hide Next, Enabled;
    if actions != [] && Enabled(cfg, s, actions[0]) {
      assert Lossless(actions[0]);
      NoFailures(cfg, Next(cfg, s, actions[0]), actions[1..]);
    }
  }

  /**
   * In particular a run without loss ends, however impatient the server is, with the
   * transfer completed or with the server having given up and the client waiting for ever.
   */
  lemma LosslessRunsEnd(cfg: Config, s: State, actions: seq<Action>, t: State)
    requires cfg.Valid() && Reachable(cfg, s) && LosslessRun(cfg, s, actions, t)
    ensures CountsOk(s.snd) && |actions| <= RunLeft(cfg, s, 0)
    ensures (forall a | Lossless(a) :: !Enabled(cfg, t, a)) ==>
              Completed(t) || (Doomed(t) && t.snd.phase == Quit && t.fwd == [])
  {
    hide RunLeft;
    CountsAreOk(cfg, s);
    ReachableInv(cfg, s);
    NoFailures(cfg, s, actions);
    RunIsWithin(cfg, s, actions, t);
    RunKeepsInv(cfg, s, actions, t);
    if forall a | Lossless(a) :: !Enabled(cfg, t, a) {
      NothingLeftToDo(cfg, t);
    }
  }

  lemma NothingLeftToDo(cfg: Config, t: State)
    requires Inv(cfg, t) && forall a | Lossless(a) :: !Enabled(cfg, t, a)
    ensures Completed(t) || (Doomed(t) && t.snd.phase == Quit && t.fwd == [])
  {
    assert Lossless(ServerTick(0, Deliver)) && Lossless(ServerTimeout(Deliver));
    assert Lossless(ClientReceive((Deliver, Deliver)));
    if !Stopped(t.snd) {
      ServerIsNeverBlocked(cfg, t);
    }
  }
}
