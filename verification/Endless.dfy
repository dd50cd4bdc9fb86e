/**
 * How long the two ends can go on. sendData() has no bound of its own: whatever reaches
 * the server, were it only noise, lets it start counting its tries afresh. Per datagram
 * received, however, it only makes a fixed number of steps.
 */
module Endless {
  import opened Bytes
  import opened Protocol
  import opened SlidingWindow
  import opened Rcopy
  import opened Server
  import opened System
  import opened Chunks
  import opened Invariant
  import opened ClientSteps
  import opened Preservation
  import opened Safety
  import opened EofTermination
  import opened Liveness
  import opened Doom

  // ---------------------------------------------------------------------------
  // A bounded number of steps per datagram received
  // ---------------------------------------------------------------------------

  function Arrivals(events: seq<Event>): nat {
    if events == [] then 0 else (if events[0].Arrive? then 1 else 0) + Arrivals(events[1..])
  }

  /** The counts as the server keeps them. */
  predicate CountsOk(s: Sender) {
    (s.phase == Wait ==> s.tries < MAX_TRIES) && s.eofTries <= MAX_TRIES && (s.phase != Quit ==> s.eofTries < MAX_TRIES)
  }

  /** How many steps the server can make until it stops if nothing arrives any more, or more. */
  function Patience(s: Sender): nat
    requires CountsOk(s)
  {
    13 * (|s.rest| + if s.atEOF then 0 else 1)
    + (match s.phase
       case Fill => if s.window.IsOpen() && !s.atEOF then 0 else 11
       case FillPoll => 12
       case Wait => if Blocked(s) then MAX_TRIES - s.tries else 1
       case _ => 0)
    + (if Stopped(s) then 0 else 2 * (MAX_TRIES - s.eofTries) - if s.phase == EofPoll then 1 else 0)
  }

  lemma StepSpends(s: Sender, bufferSize: nat, ev: Event)
    requires CountsOk(s) && s.window.Size() > 0 && 1 <= bufferSize <= MAX_PAYLOAD_SIZE && Accepts(s, ev)
    ensures var s' := Step(s, bufferSize, ev).sender;
      CountsOk(s') && Patience(s') < Patience(s) + if ev.Arrive? then 2 * MAX_TRIES else 0
  {
    if s.phase == Fill {
      var payload := Read(s.rest, bufferSize);
      assert payload != [] ==> |s.rest[|payload|..]| < |s.rest|;
    }
  }

  /** Whatever it receives: at most twenty steps of the server for each datagram, and a fixed number besides. */
  lemma {:induction false} ServerRunIsBounded(s: Sender, bufferSize: nat, events: seq<Event>)
    requires CountsOk(s) && bufferSize >= 1 && AcceptsAll(s, bufferSize, events)
    ensures |events| <= Patience(s) + 2 * MAX_TRIES * Arrivals(events)
    decreases |events|
  {
    hide Step, Accepts, Patience;
    if events != [] {
      StepSpends(s, bufferSize, events[0]);
      ServerRunIsBounded(Step(s, bufferSize, events[0]).sender, bufferSize, events[1..]);
    }
  }

  /** The datagrams the server receives in a run. */
  function Received(actions: seq<Action>): nat {
    if actions == [] then 0 else (if actions[0].ServerReceive? then 1 else 0) + Received(actions[1..])
  }

  function Stamina(s: State): nat
    requires CountsOk(s.snd)
  {
    2 * Patience(s.snd) + |s.fwd|
  }

  lemma NextSpends(cfg: Config, s: State, a: Action)
    requires cfg.Valid() && CountsOk(s.snd) && Enabled(cfg, s, a)
    ensures var s' := Next(cfg, s, a);
      CountsOk(s'.snd) && Stamina(s') < Stamina(s) + if a.ServerReceive? then 4 * MAX_TRIES else 0
  {
    hide Step, Patience, Receive, CountsOk;
    if !a.ClientReceive? {
      StepSpends(s.snd, cfg.bufferSize, EventOf(s, a));
      EmitAllLength(s.fwd, Step(s.snd, cfg.bufferSize, EventOf(s, a)).sent, [a.fault]);
    }
  }

  /** Over whole runs of the system, with the client's receipts and what is under way counted in. */
  lemma {:induction false} RunIsBounded(cfg: Config, s: State, actions: seq<Action>, t: State)
    requires cfg.Valid() && CountsOk(s.snd) && Run(cfg, s, actions, t)
    ensures |actions| <= Stamina(s) + 4 * MAX_TRIES * Received(actions)
    decreases |actions|
  {
    hide Next, Enabled, Stamina, CountsOk;
    if actions != [] {
      NextSpends(cfg, s, actions[0]);
      RunIsBounded(cfg, Next(cfg, s, actions[0]), actions[1..], t);
    }
  }

  lemma {:induction false} ReceivedAreSteps(actions: seq<Action>)
    ensures Received(actions) <= |actions|
  {
    if actions != [] {
      ReceivedAreSteps(actions[1..]);
    }
  }

  ghost predicate RunsFrom(cfg: Config, s: State, runs: iset<seq<Action>>) {
    forall actions | actions in runs :: exists t :: Run(cfg, s, actions, t)
  }

  ghost predicate LengthsWithin(runs: iset<seq<Action>>, bound: nat) {
    forall actions | actions in runs :: |actions| <= bound
  }

  ghost predicate ReceiptsWithin(runs: iset<seq<Action>>, bound: nat) {
    forall actions | actions in runs :: Received(actions) <= bound
  }

  lemma LengthsBoundReceipts(runs: iset<seq<Action>>, bound: nat)
    requires LengthsWithin(runs, bound)
    ensures ReceiptsWithin(runs, bound)
  {
    forall actions | actions in runs ensures Received(actions) <= bound {
      ReceivedAreSteps(actions);
    }
  }

  lemma ReceiptsBoundLengths(cfg: Config, s: State, runs: iset<seq<Action>>, bound: nat)
    requires cfg.Valid() && CountsOk(s.snd) && RunsFrom(cfg, s, runs) && ReceiptsWithin(runs, bound)
    ensures exists most: nat :: LengthsWithin(runs, most)
  {
    hide Run, Stamina, Config.Valid, CountsOk;
    forall actions | actions in runs ensures |actions| <= Stamina(s) + 4 * MAX_TRIES * bound {
      var t :| Run(cfg, s, actions, t);
      RunIsBounded(cfg, s, actions, t);
    }
    assert LengthsWithin(runs, Stamina(s) + 4 * MAX_TRIES * bound);
  }

  lemma BoundsEachOther(cfg: Config, s: State, runs: iset<seq<Action>>)
    requires cfg.Valid() && CountsOk(s.snd) && RunsFrom(cfg, s, runs)
    ensures (exists bound: nat :: LengthsWithin(runs, bound)) <==> (exists bound: nat :: ReceiptsWithin(runs, bound))
  {
    hide *;
    if bound: nat :| LengthsWithin(runs, bound) {
      LengthsBoundReceipts(runs, bound);
    }
    if bound: nat :| ReceiptsWithin(runs, bound) {
      ReceiptsBoundLengths(cfg, s, runs, bound);
    }
  }

  /** Any set of runs from one state is bounded in length exactly if the number of datagrams the server receives is. */
  lemma BoundedIffReceiptsBounded(cfg: Config, s: State, runs: iset<seq<Action>>)
    requires cfg.Valid() && Reachable(cfg, s) && RunsFrom(cfg, s, runs)
    ensures (exists bound: nat :: LengthsWithin(runs, bound)) <==> (exists bound: nat :: ReceiptsWithin(runs, bound))
  {
    CountsAreOk(cfg, s);
    BoundsEachOther(cfg, s, runs);
  }

  lemma CountsAreOk(cfg: Config, s: State)
    requires cfg.Valid() && Reachable(cfg, s)
    ensures CountsOk(s.snd)
  {
    ReachableInv(cfg, s);
  }

  // ---------------------------------------------------------------------------
  // No bound without that
  // ---------------------------------------------------------------------------

  function Repeat(round: seq<Action>, n: nat): seq<Action> {
    if n == 0 then [] else round + Repeat(round, n - 1)
  }

  /** A resend arrives, the first reply is corrupted and all others are lost. */
  function NoisyRound(): seq<Action> {
    [ServerTimeout(Deliver), ClientReceive((Flip, Drop)), ServerReceive(Deliver)]
  }

  lemma NoiseArrives(cfg: Config, s: State) returns (t: State)
    requires Inv(cfg, s) && s.rcv.state != Finished && |s.fwd| == 1 && s.rev == [] && s.fwd[0].Good?
    requires s.fwd[0].packet.flag == RESENT_DATA_TIMEOUT
    ensures Enabled(cfg, s, ClientReceive((Flip, Drop))) && t == Next(cfg, s, ClientReceive((Flip, Drop)))
    ensures Inv(cfg, t)
    ensures t.snd == s.snd && t.fwd == [] && t.rev == [Corrupt] && t.rcv.state != Finished
  {
    hide Inv;
    CanReceive(cfg, s);
    ResendIsExpected(cfg, s);
    ClientStepOk(cfg, s);
    NextKeepsInv(cfg, s, ClientReceive((Flip, Drop)));
    t := Next(cfg, s, ClientReceive((Flip, Drop)));
    EmitAtMostTwo([], Receive(s.rcv, s.fwd[0]).sent, Flip, Drop);
  }

  lemma NoiseRestartsTheCount(cfg: Config, s: State)
    requires Sized(cfg, s) && s.snd.phase == Wait && Blocked(s.snd) && s.fwd == [] && s.rev == [Corrupt]
    ensures Enabled(cfg, s, ServerReceive(Deliver))
    ensures Next(cfg, s, ServerReceive(Deliver)) == s.(snd := s.snd.(tries := 0), rev := [])
  {
  }

  lemma NoisyRoundRuns(cfg: Config, s: State) returns (t: State)
    requires Inv(cfg, s) && Quiescent(s) && s.snd.tries + 1 < MAX_TRIES && s.rcv.state != Finished
    ensures Run(cfg, s, NoisyRound(), t) && Inv(cfg, t)
    ensures t.snd == s.snd.(tries := 0) && t.fwd == [] && t.rev == [] && t.rcv.state != Finished
  {
    hide Inv, Next, Enabled;
    var s1 := AfterTimeout(cfg, s);
    var s2 := NoiseArrives(cfg, s1);
    NoiseRestartsTheCount(cfg, s2) by { SizedInv(cfg, s2); }
    t := Next(cfg, s2, ServerReceive(Deliver));
    NextKeepsInv(cfg, s2, ServerReceive(Deliver));
    ThreeSteps(cfg, s, NoisyRound(), s1, s2, t);
  }

  lemma SizedInv(cfg: Config, s: State)
    requires Inv(cfg, s)
    ensures Sized(cfg, s)
  {
  }

  lemma ThreeSteps(cfg: Config, s: State, actions: seq<Action>, s1: State, s2: State, t: State)
    requires |actions| == 3
    requires Enabled(cfg, s, actions[0]) && s1 == Next(cfg, s, actions[0])
    requires Enabled(cfg, s1, actions[1]) && s2 == Next(cfg, s1, actions[1])
    requires Enabled(cfg, s2, actions[2]) && t == Next(cfg, s2, actions[2])
    ensures Run(cfg, s, actions, t)
  {
    hide Next, Enabled;
    var tail := actions[1..];
    assert tail[1..] == [actions[2]] && tail[1..][1..] == [];
    assert Run(cfg, s2, tail[1..], t);
    assert Run(cfg, s1, tail, t);
  }

  /** Noise that keeps arriving keeps the server in its wait loop, with its window where it is. */
  lemma {:induction false} NoiseGoesOn(cfg: Config, s: State, n: nat) returns (t: State)
    requires Inv(cfg, s) && Quiescent(s) && s.snd.tries + 1 < MAX_TRIES && s.rcv.state != Finished
    ensures Run(cfg, s, Repeat(NoisyRound(), n), t)
    ensures Quiescent(t) && t.snd == s.snd.(tries := t.snd.tries)
    decreases n
  {
    hide Inv;
    if n == 0 {
      t := s;
    } else {
      var s' := NoisyRoundRuns(cfg, s);
      t := NoiseGoesOn(cfg, s', n - 1);
      RunConcat(cfg, s, NoisyRound(), s', Repeat(NoisyRound(), n - 1), t);
    }
  }

  /**
   * It does not take noise either: with a gap at the client, the RRs, and the resends
   * that its SREJs ask for, may be lost for ever while the SREJs themselves arrive.
   */
  function LossyRound(): seq<Action> {
    [ServerTimeout(Deliver), ClientReceive((Drop, Deliver)), ServerReceive(Drop)]
  }

  /** The client holds later chunks, and has got further than the server knows. */
  predicate Behind(s: State) {
    s.rcv.state == Buffering && s.snd.window.lower < s.rcv.expected
  }

  lemma SrejArrives(cfg: Config, s: State) returns (t: State)
    requires Inv(cfg, s) && Behind(s) && |s.fwd| == 1 && s.rev == [] && s.fwd[0].Good?
    requires s.fwd[0].packet.seqNum == s.snd.window.lower
    ensures Enabled(cfg, s, ClientReceive((Drop, Deliver))) && t == Next(cfg, s, ClientReceive((Drop, Deliver)))
    ensures t.snd == s.snd && t.rcv == s.rcv.(clientSeqNum := t.rcv.clientSeqNum) && t.fwd == []
    ensures |t.rev| == 1 && t.rev[0].Good? && t.rev[0].packet.flag == SREJ
  {
    hide Inv;
    CanReceive(cfg, s);
    StaleIsHarmless(s.rcv, s.fwd[0].packet);
    t := Next(cfg, s, ClientReceive((Drop, Deliver)));
    EmitAtMostTwo([], Receive(s.rcv, s.fwd[0]).sent, Drop, Deliver);
  }

  lemma SrejRestartsTheCount(cfg: Config, s: State)
    requires Sized(cfg, s) && s.snd.phase == Wait && Blocked(s.snd) && s.fwd == []
    requires |s.rev| == 1 && s.rev[0].Good? && s.rev[0].packet.flag == SREJ
    ensures Enabled(cfg, s, ServerReceive(Drop))
    ensures Next(cfg, s, ServerReceive(Drop)) == s.(snd := s.snd.(tries := 0), rev := [])
  {
    EmitAtMostOne(s.fwd, Step(s.snd, cfg.bufferSize, Arrive(s.rev[0])).sent, Drop);
  }

  lemma LossyRoundRuns(cfg: Config, s: State) returns (t: State)
    requires Inv(cfg, s) && Quiescent(s) && s.snd.tries + 1 < MAX_TRIES && Behind(s)
    ensures Run(cfg, s, LossyRound(), t) && Inv(cfg, t)
    ensures t.snd == s.snd.(tries := 0) && t.fwd == [] && t.rev == [] && Behind(t)
    ensures t.rcv == s.rcv.(clientSeqNum := t.rcv.clientSeqNum)
  {
    WindowIsNotEmpty(cfg, s);
    hide Inv, Next, Enabled;
    var s1 := AfterTimeout(cfg, s);
    var s2 := SrejArrives(cfg, s1);
    NextKeepsInv(cfg, s1, ClientReceive((Drop, Deliver)));
    SrejRestartsTheCount(cfg, s2) by { SizedInv(cfg, s2); }
    t := Next(cfg, s2, ServerReceive(Drop));
    NextKeepsInv(cfg, s2, ServerReceive(Drop));
    ThreeSteps(cfg, s, LossyRound(), s1, s2, t);
  }

  lemma WindowIsNotEmpty(cfg: Config, s: State)
    requires Inv(cfg, s) && Behind(s)
    ensures s.snd.window.lower < s.snd.window.current
  {
  }

  /** Losses alone do it, too: nothing the client knows changes, however long it goes on. */
  lemma {:induction false} LossGoesOn(cfg: Config, s: State, n: nat) returns (t: State)
    requires Inv(cfg, s) && Quiescent(s) && s.snd.tries + 1 < MAX_TRIES && Behind(s)
    ensures Run(cfg, s, Repeat(LossyRound(), n), t)
    ensures Quiescent(t) && t.snd == s.snd.(tries := t.snd.tries) && t.rcv == s.rcv.(clientSeqNum := t.rcv.clientSeqNum)
    decreases n
  {
    hide Inv;
    if n == 0 {
      t := s;
    } else {
      var s' := LossyRoundRuns(cfg, s);
      t := LossGoesOn(cfg, s', n - 1);
      RunConcat(cfg, s, LossyRound(), s', Repeat(LossyRound(), n - 1), t);
    }
  }

  // ---------------------------------------------------------------------------
  // Such states occur
  // ---------------------------------------------------------------------------

  /** After n rounds the server waits as before, for the same chunks. */
  ghost predicate StillWaits(cfg: Config, s: State, round: seq<Action>, n: nat) {
    exists t :: Run(cfg, s, Repeat(round, n), t) && Quiescent(t) && t.snd == s.snd.(tries := t.snd.tries)
  }

  /** From one and the same state of a transfer of one byte it can go on so for any number of rounds. */
  lemma SendDataNeedNotEnd() returns (s: State)
    ensures ONE_BYTE.Valid() && Reachable(ONE_BYTE, s)
    ensures forall n: nat :: StillWaits(ONE_BYTE, s, NoisyRound(), n)
  {
    s := AfterFirstSteps();
    StartIsInitial();
    ReachedBy(ONE_BYTE, Start(), FirstSteps(), s);
    ReachableInv(ONE_BYTE, s);
    hide Inv, Run, StillWaits, Reachable, Config.Valid;
    forall n: nat ensures StillWaits(ONE_BYTE, s, NoisyRound(), n) {
      NoiseStillWaits(ONE_BYTE, s, n);
    }
  }

  lemma NoiseStillWaits(cfg: Config, s: State, n: nat)
    requires Inv(cfg, s) && Quiescent(s) && s.snd.tries + 1 < MAX_TRIES && s.rcv.state != Finished
    ensures StillWaits(cfg, s, NoisyRound(), n)
  {
    hide Inv, Run;
    var t := NoiseGoesOn(cfg, s, n);
  }

  /** Three chunks, a window of three. */
  const THREE_BYTES := Config([7, 8, 9], 1, 3)

  function StartOfThree(): State {
    State(NewSender(3, [7, 8, 9], 0), NewClient(3, 0), [], [])
  }

  lemma OneByteChunk(file: seq<byte>)
    requires file != []
    ensures Chunks.Chunks(file, 1) == [[file[0]]] + Chunks.Chunks(file[1..], 1)
  {
    assert Read(file, 1) == [file[0]];
  }

  lemma StartOfThreeIsInitial()
    ensures THREE_BYTES.Valid() && Initial(THREE_BYTES, StartOfThree())
  {
    var file: seq<byte> := [7, 8, 9];
    OneByteChunk(file);
    OneByteChunk(file[1..]);
    OneByteChunk(file[1..][1..]);
  }

  lemma SendTwo() returns (s: State)
    ensures Run(THREE_BYTES, StartOfThree(), [ServerTick(0, Deliver), ServerTimeout(Drop), ServerTick(0, Drop)], s)
    ensures s.snd.phase == FillPoll && s.snd.window.Size() == 3 && s.snd.window.lower == 0 && s.snd.window.upper == 3
    ensures s.snd.window.current == s.snd.seqNum == 2 && s.snd.rest == [9] && !s.snd.atEOF && !s.snd.waiting
    ensures s.rcv == StartOfThree().rcv && s.fwd == [Good(Packet(0, DATA, [7]))] && s.rev == []
  {
    var actions := [ServerTick(0, Deliver), ServerTimeout(Drop), ServerTick(0, Drop)];
    var s1 := Next(THREE_BYTES, StartOfThree(), actions[0]);
    EmitAtMostOne([], [Packet(0, DATA, [7])], Deliver);
    assert [7, 8, 9][..1] == [7] && [7, 8, 9][1..] == [8, 9] && [8, 9][..1] == [8] && [8, 9][1..] == [9];
    assert s1.fwd == [Good(Packet(0, DATA, [7]))] && s1.snd.rest == [8, 9];
    var s2 := Next(THREE_BYTES, s1, actions[1]);
    EmitAtMostOne(s2.fwd, [Packet(1, DATA, [8])], Drop);
    s := Next(THREE_BYTES, s2, actions[2]);
    ThreeSteps(THREE_BYTES, StartOfThree(), actions, s1, s2, s);
  }

  lemma SendThird(s: State) returns (t: State)
    requires s.snd.phase == FillPoll && s.snd.window.Size() == 3 && s.snd.window.lower == 0 && s.snd.window.upper == 3
    requires s.snd.window.current == s.snd.seqNum == 2 && s.snd.rest == [9] && !s.snd.atEOF && !s.snd.waiting
    ensures Run(THREE_BYTES, s, [ServerTimeout(Drop), ServerTick(0, Deliver), ServerTimeout(Drop)], t)
    ensures t.snd.phase == Fill && t.snd.window.Size() == 3 && t.snd.window.lower == 0
    ensures !t.snd.window.IsOpen()
    ensures t.rcv == s.rcv && t.fwd == s.fwd + [Good(Packet(2, DATA, [9]))] && t.rev == s.rev
  {
    var actions := [ServerTimeout(Drop), ServerTick(0, Deliver), ServerTimeout(Drop)];
    var s1 := Next(THREE_BYTES, s, actions[0]);
    EmitAtMostOne(s1.fwd, [Packet(2, DATA, [9])], Deliver);
    var s2 := Next(THREE_BYTES, s1, actions[1]);
    t := Next(THREE_BYTES, s2, actions[2]);
    ThreeSteps(THREE_BYTES, s, actions, s1, s2, t);
  }

  lemma ReceiveFirstAndThird(s: State) returns (t: State)
    requires s.snd.phase == Fill && s.snd.window.Size() == 3 && s.snd.window.lower == 0 && !s.snd.window.IsOpen()
    requires s.rcv == StartOfThree().rcv && s.rev == []
    requires s.fwd == [Good(Packet(0, DATA, [7])), Good(Packet(2, DATA, [9]))]
    ensures Run(THREE_BYTES, s, [ServerTick(0, Drop), ClientReceive((Drop, Drop)), ClientReceive((Drop, Drop))], t)
    ensures Quiescent(t) && Behind(t) && t.snd.tries == 0 && t.rcv.expected == 1
  {
    var actions := [ServerTick(0, Drop), ClientReceive((Drop, Drop)), ClientReceive((Drop, Drop))];
    var s1 := Next(THREE_BYTES, s, actions[0]);
    assert s1.rcv == s.rcv && s1.fwd == s.fwd && s1.rev == [];
    var s2 := Next(THREE_BYTES, s1, actions[1]);
    EmitAtMostTwo([], Receive(s1.rcv, s1.fwd[0]).sent, Drop, Drop);
    assert s2.fwd == [Good(Packet(2, DATA, [9]))] && s2.rev == [] && s2.rcv.expected == 1 && s2.rcv.state == InOrder;
    EmitAtMostTwo([], Receive(s2.rcv, s2.fwd[0]).sent, Drop, Drop);
    t := Next(THREE_BYTES, s2, actions[2]);
    ThreeSteps(THREE_BYTES, s, actions, s1, s2, t);
  }

  lemma GapIsReachable() returns (s: State)
    ensures THREE_BYTES.Valid() && Reachable(THREE_BYTES, s)
    ensures Quiescent(s) && Behind(s) && s.snd.tries == 0 && s.rcv.expected == 1
  {
    StartOfThreeIsInitial();
    var s1 := SendTwo();
    var s2 := SendThird(s1);
    s := ReceiveFirstAndThird(s2);
    hide Run, Initial, Quiescent, Behind, Next;
    var a := [ServerTick(0, Deliver), ServerTimeout(Drop), ServerTick(0, Drop)];
    var b := [ServerTimeout(Drop), ServerTick(0, Deliver), ServerTimeout(Drop)];
    var c := [ServerTick(0, Drop), ClientReceive((Drop, Drop)), ClientReceive((Drop, Drop))];
    RunConcat(THREE_BYTES, StartOfThree(), a, s1, b, s2);
    RunConcat(THREE_BYTES, StartOfThree(), a + b, s2, c, s);
    ReachedBy(THREE_BYTES, StartOfThree(), (a + b) + c, s);
  }

  lemma ReachedBy(cfg: Config, s: State, actions: seq<Action>, t: State)
    requires cfg.Valid() && Initial(cfg, s) && Run(cfg, s, actions, t)
    ensures Reachable(cfg, t)
  {
  }

  /** And the client learns nothing either. */
  ghost predicate StillBehind(cfg: Config, s: State, round: seq<Action>, n: nat) {
    exists t :: && Run(cfg, s, Repeat(round, n), t) && Quiescent(t) && t.snd == s.snd.(tries := t.snd.tries)
                && t.rcv == s.rcv.(clientSeqNum := t.rcv.clientSeqNum)
  }

  /** And from one state of a transfer of three bytes without a single corrupted datagram. */
  lemma LossAloneNeedNotEnd() returns (s: State)
    ensures THREE_BYTES.Valid() && Reachable(THREE_BYTES, s) && s.rcv.expected == 1
    ensures forall n: nat :: StillBehind(THREE_BYTES, s, LossyRound(), n)
  {
    s := GapIsReachable();
    ReachableInv(THREE_BYTES, s);
    hide Inv, Run, StillBehind, Reachable, Config.Valid;
    forall n: nat ensures StillBehind(THREE_BYTES, s, LossyRound(), n) {
      LossStillBehind(THREE_BYTES, s, n);
    }
  }

  lemma LossStillBehind(cfg: Config, s: State, n: nat)
    requires Inv(cfg, s) && Quiescent(s) && s.snd.tries + 1 < MAX_TRIES && Behind(s)
    ensures StillBehind(cfg, s, LossyRound(), n)
  {
    hide Inv, Run;
    var t := LossGoesOn(cfg, s, n);
  }
}
