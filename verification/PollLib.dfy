/** processPoll (src/pollLib.c): waiting for a datagram a bounded number of times. */
module PollLib {
  datatype PollStatus = Received | TimedOut | GaveUp

  /** ready says whether pollCall found a datagram, whatever its contents; tryCount is updated in place. */
  method ProcessPoll(tryCount: nat, ready: bool, maxTries: nat) returns (status: PollStatus, newCount: nat)
    ensures status == Received <==> ready
    ensures newCount == if ready then 0 else tryCount + 1
    ensures status == GaveUp <==> newCount >= maxTries && !ready
  {
    newCount := tryCount + 1;
    if ready {
      status, newCount := Received, 0;
    } else if newCount >= maxTries {
      status := GaveUp;
    } else {
      status := TimedOut;
    }
  }
}
