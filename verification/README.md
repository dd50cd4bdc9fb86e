# Selective-reject file transfer: model and proofs

`server` sends a file to `rcopy` over UDP. Chunks go out through a circular send window, the
client keeps early arrivals in a circular reorder buffer, acknowledges with RR, asks for single
chunks with SREJ, and both ends close with END_OF_FILE and EOF_ACK. Every datagram passes a
fault injector that may drop it or complement one of its bytes; a one's complement checksum
turns the second kind of fault into the first.

No function of the program is correct alone. Both rings are read without looking at the
sequence number stored in the slot, and `lower`, `upper` and `highestRecvSeqNum` are assigned
whatever arrives. What makes this work is one invariant over the server, the client and every
PDU under way between them, and this project is built around it.

## How the project is laid out

| file | content |
|---|---|
| Bytes, Protocol | bytes and 32-bit numbers with their wrap-around, flags, packets |
| Checksum, Pdu | `in_cksum`, PDU building and reading over byte arrays, on hosts of either byte order |
| Channel | the fault injector |
| Rings, SlidingWindow, ReorderBuffer | the two circular buffers as values and as classes over arrays |
| Rcopy, Replies | the client: one function per handler, and the class `RcopyClient` proved to compute it; what it sends |
| Server, PollLib, ServerProcess | the server as a step machine cut at its polls, and the class with the real loops proved to run it |
| Chunks, System | the file as chunks; server, client and two FIFO channels as one step system |
| Invariant, ClientSteps, Preservation | the invariant, and that every step keeps it |
| Safety, Flushing, Retries | what follows for whole runs |
| EofTermination | SEND_EOF ends, with an explicit bound |
| Liveness | the states that cannot be completed, and what a step or an elapsed poll achieves without loss |
| Completion, Doom | every run without loss completes the transfer, and exactly when that is so |
| Economy | what a run without loss sends: nothing twice but one stale PDU |
| Endless | how long the server can go on: no bound in itself, a bounded number of steps per datagram received |
| Faults | the system goes on for ever only if the channel fails for ever |
| Wire | the same system over byte sequences, reduced step by step to the one over lossy channels |

The imperative code is in the classes `SendWindow`, `RingBuffer`, `RcopyClient`, `ServerProcess`
and `PacketManager` and in the methods of Pdu, Checksum and PollLib. Each method's contract ties
its whole new state to a function of the old one, and the lemmas are about those functions.

**Channels.** As the injector allows: each send is delivered once and in order, dropped, or
delivered with one byte complemented (`lib/libcpe464/PacketManager.cpp:132-189`). Datagrams are
neither reordered nor duplicated; the unconditional assignments above would not survive that. A
poll may elapse although a datagram is under way.

**Numbers.** Window size W >= 1, buffer size 1 to 1400, and N + W < 2^31 for a file of N chunks,
so that the C ints of the window do not overflow. Sequence numbers are 32 bits wide with explicit
wrap-around; that they never wrap is part of the invariant.

## Results

- *Safety.* In every reachable state the client has written exactly the chunks below the expected
  number (`Safety.OutputIsPrefixOfFile`); when either side believes the transfer is over, all of
  the file (`Safety.ClosingAgreement`). `Wire.EndToEnd` states both over bytes, whichever bytes
  the channel complements and whichever byte orders the hosts have.
- *The rings.* The reorder ring is a map of distinct sequence numbers, a read from it is never
  stale, and `flush()` writes the maximal contiguous run. Every SREJ is answered with the chunk
  it asks for.
- *Completion.* It is **not** true that an unfinished transfer can always be completed if nothing
  more is lost. If the server has one try left, nothing is on its way to it, and nothing on its way
  to the client would be answered, then the next elapsed poll ends the server and the client waits
  for ever; `Doom.DoomIsReachable` gives a run of twelve steps that leads there.
  `Completion.CompletableIffNotDoomed` proves that this family, together with its consequence (the
  server has given up and no END_OF_FILE is under way), is the only exception. From every other
  reachable state it takes no particular schedule: `Completion.EveryPatientRunCompletes` says that
  every run without loss is bounded in length and can only end with the transfer completed, as
  long as the polls of the wait loop and of SEND_EOF elapse only with nothing under way.
- *Termination.* From SEND_EOF on no run is longer than `EofTermination.Budget` of its first state.
  Before that there is no such bound: from one and the same state, replies that all arrive damaged
  keep the server in its wait loop for any number of rounds (`Endless.SendDataNeedNotEnd`), and so do
  losses alone, if SREJs arrive and neither RRs nor resends do (`Endless.LossAloneNeedNotEnd`). But
  the server cannot go on unless something reaches it: a set of runs is bounded in length if and only
  if the number of datagrams the server receives in them is (`Endless.BoundedIffReceiptsBounded`), with
  at most 40 steps of the whole system for each (`Endless.RunIsBounded`). And the system cannot go on
  unless the channel goes on failing: whenever polls elapse, a set of runs is bounded in length if and
  only if the number of steps is in which a datagram is lost or damaged
  (`Faults.BoundedIffFailuresBounded`).
- *Economy.* A run from the start, without loss and with those polls held back likewise, sends every
  chunk once, no SREJ and no answer to one, and resends at most one datagram, the stale one of the
  last wait (`Economy.NothingIsSentTwice`).
- *Giving up.* Whatever arrives in between, the server gives up only when the last ten polls have
  elapsed (`Retries.GivesUpAfterTenInARow`); in its wait loop and in SEND_EOF it does so exactly then.
- *Uninitialised variable.* `lastDataSeqNum` is passed to `processResponse` before it is set. Two runs
  that differ only in what it holds are indistinguishable (`Retries.GarbageIsUnobservable`).

Where the code and the project's own documentation disagree, the model follows the code:

- The documentation says that the client gives up after ten seconds without data. `receiveData` compares
  the result of `pollCall` with 0, but a timeout is reported as -1, so the client blocks in
  `recvfrom` (`src/rcopy.c:261`, `src/pollLib.c:73`). The model's client waits for ever.
- `processResponse` means to test whether the last RR is awaited but tests the pointer, which is never
  null (`src/server.c:386`); only the number is compared.
- The server is said to wait for the RR that frees the window. For a non-empty file it waits even if
  that RR has already arrived, because the lowest slot never holds number N
  (`src/slidingWindow.c:51-55`). The wait ends with the next RR(N) and nothing else
  (`Safety.LeavingTheFillLoop`, `Safety.LastRrEndsTheWait`). If none is under way any more, it takes a
  timeout and the resend of a stale slot to bring one about (`Safety.TimeoutResend`,
  `Safety.StaleResendIsHarmless`).

## Model

| member | source | states |
|---|---|---|
| InternetChecksum.InCksum | lib/libcpe464/checksum.c:58-86 | the loop with deferred carries and two-step fold returns the complement of the one's complement sum of RFC 1071 (sections 1 and 4.1), odd tail included, and no addition overflows the 32-bit int for up to 65536 bytes |
| InternetChecksum.FoldIsCanon | lib/libcpe464/checksum.c:81-84 | adding the high half and then the carry reduces any non-negative int to its representative mod 65535 |
| InternetChecksum.SumRepresentsTotal | lib/libcpe464/checksum.c:70-84 | the one's complement sum is congruent to the plain word sum mod 65535 and 0 only for all-zero bytes |
| InternetChecksum.SumIsByteOrderIndependent | lib/libcpe464/checksum.c:70-79 | section 2(B) of RFC 1071: with words read in the other byte order the sum is the same with its bytes swapped, odd lengths included |
| InternetChecksum.ChecksumBytesAreByteOrderIndependent | src/pduHelpers.c:43-44 | so both kinds of host store the same two checksum bytes |
| InternetChecksum.ComplementIsDetected | src/pduHelpers.c:86-103 | complementing any one byte of a buffer that verifies makes the checksum non-zero |
| Pdu.CreatePDU | src/pduHelpers.c:33-46 | the buffer holds the encoded PDU: the sequence number in network byte order, the flag behind the checksum, the payload behind the header, and nothing behind them changes |
| Pdu.RetrieveHeader | src/pduHelpers.c:71-84 | the sequence number read in network byte order, the flag, the payload length, negative for too short a datagram, and CRC_ERROR exactly if the checksum is not 0, for any datagram that fits the receive buffer |
| Pdu.CheckChecksum | src/pduHelpers.c:86-103 | CRC_GOOD exactly if the checksum over the given length is 0, for any length up to 65536 |
| Pdu.SendPDU | src/pduHelpers.c:15-20 | the datagram handed to the network is the encoded packet |
| Pdu.RetrievePDU | src/pduHelpers.c:24-31 | a datagram copied into the receive buffer is read as what its bytes decode to |
| Pdu.WireFormat | src/pduHelpers.c:38-44 | as a number its first four bytes have the weights of network byte order; flag and payload are where the header puts them |
| Pdu.FlagBytes | include/sharedConstants.h:17-28 | the flag byte of each kind of PDU of the transfer phase |
| Protocol.TargetIsBigEndian | src/server.c:364-368 | the number an RR or SREJ carries is in network byte order too, missing bytes counting as 0 |
| Pdu.RoundTrip | src/pduHelpers.c:33-84 | for every 32-bit number, flag and payload of up to 1400 bytes, and hosts of any byte orders, the receiver reads what was sent |
| Pdu.CorruptionIsDetected | src/pduHelpers.c:86-103 | complementing any byte of any PDU, header and checksum included, yields CRC_ERROR at a receiver of either byte order |
| Pdu.EncodeIsByteOrderIndependent | src/pduHelpers.c:33-46 | the bytes of a PDU do not depend on the byte order of the host that builds it |
| Bytes.ComplementIsXor | lib/libcpe464/MsgEvents/errorFlipBits.cpp:21-24 | XOR with 0xFF is the complement used throughout |
| Channel.FlipIsXor | lib/libcpe464/MsgEvents/errorFlipBits.cpp:21-24 | a flip is an exclusive or with 0xFF on the chosen byte and touches no other |
| Channel.PacketManager.RunEvent | lib/libcpe464/MsgEvents/errorFlipBits.cpp:8-27 | each kind of event: its return value, and the buffer unchanged but for the byte a flip inverts |
| Channel.PacketManager.RunMsgEvents | lib/libcpe464/PacketManager.cpp:100-130 | events run in order up to the first that drops the message |
| Channel.EventsInARow | lib/libcpe464/PacketManager.cpp:100-130 | such a list returns 2 exactly if an event drops the message, otherwise 1 exactly if one changes it; each byte is inverted as often as an event before the drop flips it |
| Channel.PacketManager.ProcessEvents | lib/libcpe464/PacketManager.cpp:132-189 | 2 exactly if a standard event or the one random event drops the message, otherwise what the random event returns if there was one; at most that event changes the message further |
| Channel.ResultByCases | lib/libcpe464/PacketManager.cpp:159-189 | that return value, case by case |
| Channel.PacketManager.SendToErr | lib/libcpe464/PacketManager.cpp:346-408 | with infoSeqNo and drop lists as the only standard events, case by case: the datagram is passed on untouched, dropped, or passed on with exactly the chosen byte inverted |
| Channel.StandardEventsChangeNothing | lib/libcpe464/PacketManager.cpp:144-156 | the standard events the library registers, infoSeqNo and drop lists, never change a datagram |
| PollLib.ProcessPoll | src/pollLib.c:106-128 | the try count is reset by any datagram, and an elapsed poll gives up exactly when the count reaches the limit |
| SlidingWindow.SendWindow.SetupWindow | src/slidingWindow.c:13-20 | a zeroed ring with an open window at 0 |
| SlidingWindow.SendWindow.AddDataToWindow | src/slidingWindow.c:57-70 | exits exactly if the window is closed, otherwise fills the slot and advances current |
| SlidingWindow.SendWindow.UpdateLower | src/slidingWindow.c:34-38 | lower and upper are assigned unconditionally, the ring and current are not touched |
| SlidingWindow.SendWindow.GetDataFromWindow | src/slidingWindow.c:72-78 | the slot's data, whatever number is stored there |
| SlidingWindow.SendWindow.GetLowestSeqNumData | src/slidingWindow.c:42-49 | number and data of the slot of lower |
| SlidingWindow.SendWindow.GetLowestSeqNum | src/slidingWindow.c:51-55 | the number stored in the slot of lower |
| SlidingWindow.AddHolds | src/slidingWindow.c:57-70 | filling the next slot overwrites none of the last W chunks |
| SlidingWindow.SlotIsChunk | src/slidingWindow.c:72-78 | for every number in [lower, current) the unchecked read returns exactly that chunk |
| SlidingWindow.LowestIsStale | src/slidingWindow.c:42-55 | with lower == current the lowest slot holds chunk current - W, or zeroes if the ring was never filled |
| ReorderBuffer.RingBuffer.SetupBuffer | src/buffer.c:11-18 | all slots invalid |
| ReorderBuffer.RingBuffer.AddDatatoBuffer | src/buffer.c:20-28 | the slot is overwritten and made valid |
| ReorderBuffer.RingBuffer.GetDataFromBuffer | src/buffer.c:30-40 | DATA_VALID with the slot's contents and the slot invalidated, or DATA_INVALID and no change |
| ReorderBuffer.AddIsMapUpdate | src/buffer.c:20-28 | within one window, buffering is a map update that displaces no other entry |
| ReorderBuffer.ReadIsMapLookup | src/buffer.c:30-40 | within one window, the read that never compares numbers is a map lookup and removes only what it returns |
| Rcopy.RcopyClient.HandleInOrder | src/rcopy.c:315-335 | state, ring, output and replies after a PDU in state IN_ORDER |
| Rcopy.RcopyClient.HandleBuffer | src/rcopy.c:339-364 | the same in state BUFFER, or that flush follows with the missing chunk written |
| Rcopy.RcopyClient.HandleFlush | src/rcopy.c:366-396 | the loop drains the ring as the specification does and answers accordingly |
| Rcopy.RcopyClient.HandleData | src/rcopy.c:250-313 | one received datagram, from its bytes to the next data state |
| Rcopy.RcopyClient.Process | src/rcopy.c:139-151 | the same, with EOF_ACK without payload sent if the client is done |
| Rcopy.RcopyClient.SendRR | src/rcopy.c:398-402 | an RR for the expected number under the next client number |
| Rcopy.RcopyClient.SendSREJ | src/rcopy.c:404-408 | an SREJ for the expected number under the next client number |
| Replies.OneReceipt | src/rcopy.c:398-412 | whatever the client and whatever arrives, the replies are numbered on from the client number, which ends behind them; EOF_ACK, without payload, is the only reply if the client is done, and otherwise each reply is an RR or SREJ with the number expected |
| Replies.EofEnds | src/rcopy.c:318-320 | END_OF_FILE for the number expected ends the transfer in either state and touches nothing but the client number |
| Replies.BufferedEofEnds | src/rcopy.c:372-379 | were END_OF_FILE found in the ring, the flush would end there, with nothing behind it written |
| Replies.RepliesAreNumbered | src/rcopy.c:398-412 | over any run the client's PDUs carry consecutive 32-bit numbers, and EOF_ACK is sent once, last, exactly if the client is done |
| Server.AnyArrival | src/server.c:335-397 | at any of the three polls and in any state: RR moves the window to what it carries, unconditionally, SREJ has the slot it points to resent, EOF_ACK ends the process, nothing else has an effect, and the count of the poll starts afresh |
| ServerProcess.ServerProcess.HandleResponse | src/server.c:335-397 | what each kind of datagram does to the window and the awaited RR, and what is sent |
| ServerProcess.ServerProcess.FillOnce | src/server.c:256-276 | one round of the fill loop up to its poll |
| ServerProcess.ServerProcess.LeaveFillLoop | src/server.c:283-291 | whether the last RR is awaited |
| ServerProcess.ServerProcess.WaitOnce | src/server.c:292-323 | one round of the wait loop: resend, response or end |
| ServerProcess.ServerProcess.SendData | src/server.c:244-333 | both loops together run the step machine on exactly the polls they consume, and where the method ends |
| ServerProcess.ServerProcess.SendEofAndWaitForAck | src/server.c:401-422 | END_OF_FILE first, then one poll if there is a result for it, and the next state |
| ServerProcess.ServerProcess.ProcessClient | src/server.c:124-171 | from SEND_DATA to the end the server is the step machine, for every script of poll results; if that runs out the server is at its next poll, with everything sent that goes out before |
| Chunks.FlattenChunks | src/server.c:256-277 | the reads cut the file into pieces that concatenate to it, each of bufferSize bytes except the last, of 1 to bufferSize |
| Invariant.RespondOk | src/server.c:335-397 | given what the invariant says of the PDU taken in, a response leaves the window intact; the only PDU sent has the number the SREJ asks for, which is in the window, and carries that chunk |
| Invariant.LowestSlot | src/slidingWindow.c:42-55 | the lowest slot holds chunk lower, or with nothing unacknowledged chunk current - W, or zeroes if it was never filled |
| ClientSteps.DrainReadsExpected | src/rcopy.c:372-379 | the slot flushed holds the expected number and its chunk |
| ClientSteps.FlushOk | src/rcopy.c:366-396 | flush returns IN_ORDER exactly when expected has passed highest, otherwise BUFFER with a gap left below it, and always starts with an RR |
| ClientSteps.AddOk | src/rcopy.c:326-331 | an early arrival is above everything received before and is buffered with its chunk |
| Preservation.NextKeepsInv | src/server.c:244-422 | every step of server, client and channels keeps the invariant, and moves nothing back |
| Preservation.ServerReceiveKeepsInv | src/server.c:335-397 | in particular a received response |
| Preservation.ClientReceiveKeepsInv | src/rcopy.c:250-313 | in particular a received PDU |
| Safety.RunKeepsInv | src/slidingWindow.c:34-38 | over any run lower, current, expected, highest and the output only grow, although they are assigned unconditionally |
| Safety.OutputIsPrefixOfFile | src/rcopy.c:315-396 | in every reachable state the output is chunks 0 to expected - 1 of the file, in order |
| Safety.ClosingAgreement | src/server.c:283-330 | server in SEND_EOF or gone on EOF_ACK, or client done, means that the output is the file |
| Safety.EofIsNeverBuffered | src/rcopy.c:318-331 | END_OF_FILE reaches the client only in IN_ORDER at the expected number, and is never in the ring |
| Safety.ReorderRingIsMap | src/buffer.c:20-40 | the ring holds distinct numbers in (expected, highest], highest < expected + W, each with its chunk |
| Safety.ReorderReadIsNeverStale | src/buffer.c:30-40 | reading any slot from expected to highest yields its own chunk or nothing |
| Safety.EarlyArrivalIsBuffered | src/rcopy.c:326-331 | whatever arrives above expected is a first transmission above the previous highest, and enters the map |
| Safety.SrejIsAnswered | src/server.c:373-379 | every SREJ the server takes in has its target in [lower, current), and exactly that chunk is resent |
| Safety.SrejAsksForTheGap | src/rcopy.c:326-331 | what an SREJ asks for is the first chunk the client lacks while it holds a later one |
| Safety.GapIsServed | src/rcopy.c:404-408 | over any run from the moment an SREJ is sent: when the server reads it, exactly the chunk that was missing is resent, and the client has not fallen back below it |
| Safety.SendWindowInvariant | src/slidingWindow.c:22-38 | lower <= expected <= current <= lower + W, so that testing current != upper is a sound test for an open window |
| Safety.TimeoutResend | src/server.c:301-310 | a timeout resends chunk lower; with nothing unacknowledged it resends chunk N - W, or number 0 without data if N < W |
| Safety.StaleResendIsHarmless | src/server.c:301-310 | along any run from a timeout with nothing unacknowledged, the stale PDU reaches a client in IN_ORDER that has the whole file; it writes nothing and the only reply is RR(N) |
| Safety.LastRrEndsTheWait | src/server.c:381-390 | of all that may arrive, RR(N) and nothing else ends the wait for the last RR, and the server goes on to SEND_EOF |
| Safety.LeavingTheFillLoop | src/server.c:283-289 | after the end of the file the server waits for an RR exactly if the file is not empty |
| Safety.WholeFileIsSent | src/server.c:256-277 | the first transmissions of a run are chunks 0 to N - 1 in order, and lastDataSeqNum + 1 == N at the end of the file |
| Safety.DataSentInOrder | src/server.c:272-276 | over any part of a run DATA carries consecutive numbers, each with its chunk |
| Flushing.DrainWritesMaximalRun | src/rcopy.c:372-379 | flush writes exactly the buffered chunks from expected up to the first that is missing, and takes exactly those out of the ring |
| Flushing.GapClosed | src/rcopy.c:342-350 | in every run the missing PDU sets off such a flush, and IN_ORDER means that the ring is empty |
| Flushing.RepliesExactly | src/rcopy.c:315-396 | RR answers everything but an early arrival, SREJ is sent exactly when a gap is found or found still open, both for what is expected afterwards |
| Retries.SilentWait | src/server.c:291-323 | while nothing arrives: at most nine resends, all of the lowest slot, and the end at the tenth poll exactly |
| Retries.SilentEof | src/server.c:401-422 | while nothing arrives: END_OF_FILE at most ten times, and the end after the tenth exactly |
| Retries.GivesUpAfterTenInARow | src/pollLib.c:106-128 | from the start of a transfer, whatever arrives in between: if the server gives up, the last ten polls have elapsed |
| Retries.WaitCountIsSilence | src/server.c:291-323 | in the wait loop it gives up exactly when ten polls in a row have elapsed, and any datagram starts the count afresh |
| Retries.EofCountIsSilence | src/server.c:401-422 | in SEND_EOF likewise |
| Retries.EofBeforeEachPoll | src/server.c:405-406 | there one END_OF_FILE goes out before each poll |
| Retries.GarbageIsUnobservable | src/server.c:253 | runs that differ only in the uninitialised lastDataSeqNum do the same and end the same |
| EofTermination.NoSrejInEof | src/server.c:401-422 | once SEND_EOF is reached no SREJ is under way |
| EofTermination.SendEofTerminates | src/server.c:401-422 | from SEND_EOF on every run is finite, within an explicit bound, whatever is dropped or corrupted, and can only end with the server stopped |
| Liveness.TimeoutRound | src/server.c:292-323 | from a wait with empty channels, the poll, the resend, its answer and its receipt, without loss, move lower on, or end the wait if lower is already N |
| Liveness.TimeoutPaysOff | src/server.c:292-323 | whatever is under way when a poll elapses: if nothing is lost from then on, lower has moved on, or the wait for the last RR is over, by the time both channels are empty |
| Liveness.DoomedStays | src/pollLib.c:114-125 | no step leaves the family of states that cannot be completed |
| Completion.PatientRunsAreBounded | src/server.c:244-422 | from any other state every loss-free run in which those polls elapse only with nothing under way is within an explicit bound, whatever the order of its steps |
| Completion.EveryPatientRunCompletes | src/server.c:244-422 | and if it cannot be continued the client is done with the whole file and the server has stopped, on EOF_ACK if both were still running at the start |
| Completion.Completes | src/server.c:244-422 | from any other state a loss-free continuation ends with the client done and the server stopped, on EOF_ACK if both were still running |
| Completion.CompletableIffNotDoomed | src/server.c:291-323 | a reachable transfer can be completed, with or without further loss, if and only if it is not in that family |
| Doom.DoomIsReachable | src/server.c:316-318 | a concrete run of twelve steps into the family: one chunk, window 1, ten losses in a row, and no continuation that gets the client done |
| Doom.LosslessTransfersSucceed | src/server.c:124-171 | from the start every such run transfers the whole file and ends with the server leaving on EOF_ACK |
| Doom.EveryTransferCanSucceed | src/server.c:244-422 | and there are such runs for every file |
| Economy.NothingIsSentTwice | src/server.c:256-310 | in such a run from the start each chunk is sent once as DATA, no SREJ and no RESENT_DATA_SREJ at all, and at most one RESENT_DATA_TIMEOUT, the stale one of the last wait |
| Endless.ServerRunIsBounded | src/server.c:244-422 | whatever arrives, the server makes at most twenty steps per datagram received and a fixed number besides |
| Endless.RunIsBounded | src/pollLib.c:106-128 | the same for runs of the whole system, with forty |
| Endless.BoundedIffReceiptsBounded | src/pollLib.c:114-119 | any set of runs from a reachable state is bounded in length if and only if the number of datagrams the server receives is |
| Endless.NoiseGoesOn | src/pollLib.c:114-119 | from any state of the wait loop with empty channels and a try to spare, n rounds in each of which just one damaged reply arrives can be run for any n, and leave the server where it was |
| Endless.LossGoesOn | src/server.c:292-323 | with a gap at the client, n rounds in which RRs and resends are lost and SREJs arrive leave the server and the client where they were |
| Endless.SendDataNeedNotEnd | src/server.c:291-323 | there is one reachable state from which the first kind of run exists for every n: sendData has no bound |
| Endless.LossAloneNeedNotEnd | src/server.c:291-323 | and one from which the second does |
| Faults.RunIsWithin | src/server.c:244-422 | every run is within an explicit bound of its first state and the number of its steps in which the channel loses or damages a datagram, whenever polls elapse |
| Faults.BoundedIffFailuresBounded | lib/libcpe464/PacketManager.cpp:132-189 | any set of runs from a reachable state is bounded in length if and only if the number of such steps is |
| Faults.LosslessRunsEnd | src/server.c:291-323 | a run without loss is within that bound for no failure, and if it cannot be continued the transfer is complete, or the server has given up on a client that waits for ever |
| Wire.StepIsRefined | lib/libcpe464/PacketManager.cpp:159-189 | every step over corrupting byte channels is a step over lossy channels, and the same steps are possible |
| Wire.RunIsRealised | lib/libcpe464/PacketManager.cpp:346-408 | and every run over lossy channels is one over byte channels |
| Wire.EndToEnd | src/rcopy.c:269-279 | over bytes, any faults and any byte orders: the output is a prefix of the file and at the end the file |
| Wire.CompletableOnWire | src/server.c:291-323 | the exact condition for completion carries over to the wire |
| Wire.CorruptionIsIgnored | src/rcopy.c:273-279 | a PDU with a complemented byte leaves the client as it was, and the server but for its phase and its try counts |

## Left out

- Sockets, `poll`, `fork`, signals, address lookup, opening and closing of files, argument parsing: `read` is the next piece of the file, always full unless the file ends, and `write` appends; errors of either are not modelled.
- The file name handshake: both ends start ready, with FNAME_OK_ACK messages possibly left over for the server.
- Reordering and duplication of datagrams: outside the fault injector, and the code does not withstand them.
- Pdu.RetrievePDU: not for datagrams shorter than the 7-byte header, for which the code calls memcpy with a negative length, whose effect C leaves undefined; neither program sends any.
- Rcopy.RcopyClient.HandleData: not for such datagrams either, for the same reason.
- Rcopy.RcopyClient.Process: likewise.
- Files of so many chunks that sequence numbers pass 2^31, and with them the conversion of larger targets to negative ints.
- Random numbers and error rates: the injector's choices are arbitrary. Its environment settings, statistics and debug output, and the sample TCP programs, are not modelled.
- The bytes of a ring slot behind its `dataLen`: they are never read.
- ServerProcess.ServerProcess.ProcessClient: the poll results carry decoded messages; that decoding is `Pdu.RetrievePDU`.
