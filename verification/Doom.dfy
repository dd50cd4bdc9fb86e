/** The states from which no transfer completes do occur: enough losses in a row lead there. */
module Doom {
  import opened Bytes
  import opened Protocol
  import opened SlidingWindow
  import opened Rcopy
  import opened Server
  import opened System
  import opened Invariant
  import opened Liveness
  import opened Completion
  import opened Safety
  import Chunks

  /** One byte, sent in one chunk through a window of one. */
  const ONE_BYTE := Config([7], 1, 1)

  function Start(): State {
    State(NewSender(1, [7], 0), NewClient(1, 0), [], [])
  }

  /** The chunk is lost; its poll finds nothing; the window is closed. */
  function FirstSteps(): seq<Action> {
    [ServerTick(0, Drop), ServerTimeout(Drop), ServerTick(0, Drop)]
  }

  lemma AfterFirstSteps() returns (s: State)
    ensures Run(ONE_BYTE, Start(), FirstSteps(), s)
    ensures s.snd.phase == Wait && Blocked(s.snd) && s.snd.tries == 0 && s.snd.window.Size() == 1
    ensures s.rcv == Start().rcv && s.fwd == [] && s.rev == []
  {
    var s1 := Next(ONE_BYTE, Start(), FirstSteps()[0]);
    var s2 := Next(ONE_BYTE, s1, FirstSteps()[1]);
    s := Next(ONE_BYTE, s2, FirstSteps()[2]);
    assert FirstSteps()[1..] == [FirstSteps()[1], FirstSteps()[2]];
    assert FirstSteps()[1..][1..] == [FirstSteps()[2]];
    assert FirstSteps()[1..][1..][1..] == [];
    assert Run(ONE_BYTE, s2, FirstSteps()[1..][1..], s);
    assert Run(ONE_BYTE, s1, FirstSteps()[1..], s);
  }

  /** Resends that are lost change nothing but the count. */
  lemma {:induction false} LostResends(cfg: Config, s: State, n: nat)
    requires 1 <= cfg.bufferSize <= MAX_PAYLOAD_SIZE && s.snd.window.Size() > 0
    requires s.snd.phase == Wait && Blocked(s.snd) && s.snd.tries + n < MAX_TRIES
    ensures Run(cfg, s, seq(n, _ => ServerTimeout(Drop)), s.(snd := s.snd.(tries := s.snd.tries + n)))
    decreases n
  {
    if n > 0 {
      var lost := seq(n, _ => ServerTimeout(Drop));
      var s1 := Next(cfg, s, ServerTimeout(Drop));
      EmitAtMostOne(s.fwd, Step(s.snd, cfg.bufferSize, Timeout).sent, Drop);
      assert s1 == s.(snd := s.snd.(tries := s.snd.tries + 1));
      LostResends(cfg, s1, n - 1);
      assert lost[1..] == seq(n - 1, _ => ServerTimeout(Drop));
    }
  }

  /** Ten lost datagrams in a row. */
  lemma DoomedRun() returns (s: State)
    ensures Run(ONE_BYTE, Start(), FirstSteps() + seq(9, _ => ServerTimeout(Drop)), s)
    ensures Doomed(s) && s.snd.phase == Wait && s.rcv == Start().rcv
  {
    var s0 := AfterFirstSteps();
    LostResends(ONE_BYTE, s0, 9);
    s := s0.(snd := s0.snd.(tries := 9));
    hide Next, Enabled;
    RunConcat(ONE_BYTE, Start(), FirstSteps(), s0, seq(9, _ => ServerTimeout(Drop)), s);
  }

  lemma StartIsInitial()
    ensures ONE_BYTE.Valid() && Initial(ONE_BYTE, Start())
  {
    assert ONE_BYTE.FileChunks() == [[7]] by {
      assert [7][1..] == [];
    }
  }

  /** A transfer can get stuck for good with both processes still running and nothing written. */
  lemma DoomIsReachable() returns (s: State)
    ensures ONE_BYTE.Valid() && Reachable(ONE_BYTE, s)
    ensures Initial(ONE_BYTE, Start()) && Run(ONE_BYTE, Start(), FirstSteps() + seq(9, _ => ServerTimeout(Drop)), s)
    ensures Doomed(s) && !Stopped(s.snd) && s.rcv.state == InOrder && s.rcv.output == []
    ensures !exists actions, t :: Run(ONE_BYTE, s, actions, t) && t.rcv.state == Finished
  {
    s := DoomedRun();
    StartIsInitial();
    ReachableInv(ONE_BYTE, s);
    hide Inv, Doomed, Next, Enabled;
    forall actions, t | Run(ONE_BYTE, s, actions, t) ensures t.rcv.state != Finished {
      DoomedForever(ONE_BYTE, s, actions, t);
    }
  }

  /** At the start, on the other hand, no transfer is doomed: every run without loss completes it. */
  lemma LosslessTransfersSucceed(cfg: Config, s: State, actions: seq<Action>, t: State)
    requires cfg.Valid() && Initial(cfg, s) && PatientRun(cfg, s, actions, t)
    ensures |actions| <= StepsLeft(cfg, s)
    ensures (forall a :: !(Enabled(cfg, t, a) && Patient(t, a))) ==>
              t.rcv.state == Finished && t.snd.phase == Exited && t.rcv.output == cfg.file
  {
    InitialInv(cfg, s);
    assert Reachable(cfg, s) by { assert Run(cfg, s, [], s); }
    EveryPatientRunCompletes(cfg, s, actions, t);
  }

  /** And there are such runs. */
  lemma EveryTransferCanSucceed(cfg: Config, s: State) returns (actions: seq<Action>, t: State)
    requires cfg.Valid() && Initial(cfg, s)
    ensures LosslessRun(cfg, s, actions, t) && Completed(t) && t.snd.phase == Exited && t.rcv.output == cfg.file
  {
    InitialInv(cfg, s);
    actions, t := Completes(cfg, s);
    assert Reachable(cfg, t) by { assert Run(cfg, s, actions, t); }
    ClosingAgreement(cfg, t);
  }
}
