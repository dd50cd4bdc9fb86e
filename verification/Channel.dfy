/**
 * The fault injector every datagram passes (lib/libcpe464/PacketManager.cpp and, in
 * lib/libcpe464/MsgEvents, errorFlipBits.cpp, errorDrop.cpp and infoSeqNo.cpp).
 */
module Channel {
  import opened Bytes
  import opened Rings

  /** The fate of one datagram: delivered as sent, lost, or delivered with one byte complemented. */
  datatype WireFault = Intact | Lost | Complemented(at: nat)

  function FlipByte(b: seq<byte>, i: nat): (r: seq<byte>)
    requires i < |b|
    ensures |r| == |b|
  {
    b[i := Complement(b[i])]
  }

  /** What the network is given to transmit; the byte to flip is chosen within the datagram. */
  function Inject(fault: WireFault, datagram: seq<byte>): (sent: seq<seq<byte>>)
    requires |datagram| > 0
    ensures |sent| <= 1 && forall d | d in sent :: |d| == |datagram|
  {
    match fault
    case Intact => [datagram]
    case Lost => []
    case Complemented(at) => [FlipByte(datagram, Index(at, |datagram|))]
  }

  /** InfoSeqNo keeps a log of sequence numbers, which is not part of this model. */
  datatype MsgEvent = DropAll | DropSpecific(msgNos: set<nat>) | FlipBits | InfoSeqNo

  /** An event's return value: 2 to drop the message, 1 if it changed it, 0 otherwise. */
  function EventResult(ev: MsgEvent, msgNo: nat): int {
    match ev
    case DropAll => 2
    case DropSpecific(msgNos) => if msgNo in msgNos then 2 else 0
    case FlipBits => 1
    case InfoSeqNo => 0
  }

  predicate InRange(flips: seq<nat>, len: nat) {
    forall i | 0 <= i < |flips| :: flips[i] < len
  }

  /** A list of events run in order until one drops the message; flips are the bytes each would flip. */
  function RunCases(cases: seq<MsgEvent>, msgNo: nat, flips: seq<nat>, b: seq<byte>, changed: bool)
    : (r: (int, seq<byte>))
    requires |flips| == |cases| && InRange(flips, |b|)
    ensures 0 <= r.0 <= 2 && |r.1| == |b|
  {
    if cases == [] then (if changed then 1 else 0, b)
    else if EventResult(cases[0], msgNo) == 2 then (2, b)
    else if cases[0] == FlipBits then RunCases(cases[1..], msgNo, flips[1..], FlipByte(b, flips[0]), true)
    else RunCases(cases[1..], msgNo, flips[1..], b, changed)
  }

  /** An event of the list drops the message. */
  predicate Dropping(cases: seq<MsgEvent>, msgNo: nat) {
    exists ev | ev in cases :: EventResult(ev, msgNo) == 2
  }

  /** The library's standard events are infoSeqNo and drop lists; they leave the datagram as it is. */
  lemma {:induction false} StandardEventsChangeNothing(cases: seq<MsgEvent>, msgNo: nat, flips: seq<nat>, b: seq<byte>)
    requires |flips| == |cases| && InRange(flips, |b|)
    requires FlipBits !in cases
    ensures RunCases(cases, msgNo, flips, b, false) == (if Dropping(cases, msgNo) then 2 else 0, b)
  {
    if cases != [] {
      assert cases == [cases[0]] + cases[1..];
      StandardEventsChangeNothing(cases[1..], msgNo, flips[1..], b);
    }
  }

  /** The one random event, if the error rate asks for one. */
  function Chosen(chance: seq<MsgEvent>, hit: bool, randCase: nat): (r: seq<MsgEvent>)
    requires chance != [] ==> randCase < |chance|
    ensures |r| <= 1
  {
    if hit && chance != [] then [chance[randCase]] else []
  }

  /** Either kind of event can drop the message; otherwise the random event has the last word on whether it changed. */
  function ProcessResult(standard: int, chosen: seq<MsgEvent>, msgNo: nat): int {
    if standard == 2 || Dropping(chosen, msgNo) then 2
    else if chosen == [] then standard
    else EventResult(chosen[0], msgNo)
  }

  function FaultOf(standard: seq<MsgEvent>, chosen: seq<MsgEvent>, msgNo: nat, byteToFlip: nat): WireFault {
    if Dropping(standard, msgNo) || Dropping(chosen, msgNo) then Lost
    else if chosen == [FlipBits] then Complemented(byteToFlip)
    else Intact
  }

  lemma OneFaultAtMost(standard: seq<MsgEvent>, chosen: seq<MsgEvent>, msgNo: nat, flips: seq<nat>, datagram: seq<byte>,
                       byteToFlip: nat, nResult: int, after: seq<byte>)
    requires |flips| == |standard| && InRange(flips, |datagram|) && FlipBits !in standard
    requires |chosen| <= 1 && byteToFlip < |datagram|
    requires var (r, b) := RunCases(standard, msgNo, flips, datagram, false);
      && nResult == ProcessResult(r, chosen, msgNo)
      && after == (if chosen == [FlipBits] then FlipByte(b, byteToFlip) else b)
    ensures (if nResult == 2 then [] else [after]) == Inject(FaultOf(standard, chosen, msgNo, byteToFlip), datagram)
  {
    StandardEventsChangeNothing(standard, msgNo, flips, datagram);
    IndexSmall(byteToFlip, |datagram|);
    hide RunCases, Index;
  }

  /** How often the events up to the first that drops the message flip byte j. */
  function FlipsOf(cases: seq<MsgEvent>, msgNo: nat, flips: seq<nat>, j: nat): nat
    requires |flips| == |cases|
  {
    if cases == [] || EventResult(cases[0], msgNo) == 2 then 0
    else (if cases[0] == FlipBits && flips[0] == j then 1 else 0) + FlipsOf(cases[1..], msgNo, flips[1..], j)
  }

  /** A list of events drops the message if one of them does; each byte is inverted as often as one flips it. */
  lemma {:induction false} EventsInARow(cases: seq<MsgEvent>, msgNo: nat, flips: seq<nat>, b: seq<byte>, changed: bool)
    requires |flips| == |cases| && InRange(flips, |b|)
    ensures var (r, b') := RunCases(cases, msgNo, flips, b, changed);
      && r == (if Dropping(cases, msgNo) then 2 else if changed || FlipBits in cases then 1 else 0)
      && |b'| == |b|
      && forall j | 0 <= j < |b| :: b'[j] == if FlipsOf(cases, msgNo, flips, j) % 2 == 1 then 0xFF - b[j] else b[j]
  {
    if cases != [] {
      var b1 := if cases[0] == FlipBits then FlipByte(b, flips[0]) else b;
      assert cases == [cases[0]] + cases[1..];
      if EventResult(cases[0], msgNo) != 2 {
        EventsInARow(cases[1..], msgNo, flips[1..], b1, changed || cases[0] == FlipBits);
      }
    }
  }

  /** What a flip does to the datagram: XOR with 0xFF on the chosen byte alone. */
  lemma FlipIsXor(b: seq<byte>, i: nat)
    requires i < |b|
    ensures |FlipByte(b, i)| == |b|
    ensures FlipByte(b, i)[i] == Xor(b[i], 0xFF)
    ensures forall j | 0 <= j < |b| && j != i :: FlipByte(b, i)[j] == b[j]
  {
    XorIsComplement(b[i]);
    hide Xor;
  }

  lemma ResultByCases(standard: int, chance: seq<MsgEvent>, hit: bool, randCase: nat, msgNo: nat)
    requires chance != [] ==> randCase < |chance|
    ensures var r := ProcessResult(standard, Chosen(chance, hit, randCase), msgNo);
      if standard == 2 then r == 2
      else if !hit || chance == [] then r == standard
      else match chance[randCase]
        case DropAll => r == 2
        case DropSpecific(msgNos) => r == if msgNo in msgNos then 2 else 0
        case FlipBits => r == 1
        case InfoSeqNo => r == 0
  {
    if hit && chance != [] {
      assert Dropping([chance[randCase]], msgNo) <==> EventResult(chance[randCase], msgNo) == 2;
    }
  }

  /** Which datagrams are sent, case by case: at most one standard event and one random event have a say. */
  lemma SendByCases(standard: seq<MsgEvent>, chance: seq<MsgEvent>, hit: bool, randCase: nat, msgNo: nat,
                    byteToFlip: nat, datagram: seq<byte>)
    requires byteToFlip < |datagram| && (chance != [] ==> randCase < |chance|)
    ensures var sent := Inject(FaultOf(standard, Chosen(chance, hit, randCase), msgNo, byteToFlip), datagram);
      if exists ev | ev in standard :: ev == DropAll || (ev.DropSpecific? && msgNo in ev.msgNos) then sent == []
      else if !hit || chance == [] then sent == [datagram]
      else match chance[randCase]
        case DropAll => sent == []
        case DropSpecific(msgNos) => sent == if msgNo in msgNos then [] else [datagram]
        case InfoSeqNo => sent == [datagram]
        case FlipBits =>
          && |sent| == 1 && |sent[0]| == |datagram|
          && sent[0][byteToFlip] == Xor(datagram[byteToFlip], 0xFF)
          && forall j | 0 <= j < |datagram| && j != byteToFlip :: sent[0][j] == datagram[j]
  {
    var chosen := Chosen(chance, hit, randCase);
    assert Dropping(standard, msgNo) <==>
      exists ev | ev in standard :: ev == DropAll || (ev.DropSpecific? && msgNo in ev.msgNos);
    if chosen != [] {
      assert Dropping(chosen, msgNo) <==> EventResult(chosen[0], msgNo) == 2;
    }
    IndexSmall(byteToFlip, |datagram|);
    FlipIsXor(datagram, byteToFlip);
  }

  class PacketManager {
    var errorCaseConstant: seq<MsgEvent>
    var errorCaseChance: seq<MsgEvent>
    var msgNo: nat

    constructor ()
      ensures errorCaseConstant == [] && errorCaseChance == [] && msgNo == 0
    {
      errorCaseConstant, errorCaseChance, msgNo := [], [], 0;
    }

    method RunEvent(ev: MsgEvent, buf: array<byte>, msgNo: nat, byteToFlip: nat) returns (nResult: int)
      requires byteToFlip < buf.Length
      modifies buf
      ensures nResult == EventResult(ev, msgNo)
      ensures nResult == match ev
                         case DropAll => 2
                         case DropSpecific(msgNos) => if msgNo in msgNos then 2 else 0
                         case FlipBits => 1
                         case InfoSeqNo => 0
      ensures buf[..] == if ev == FlipBits then FlipByte(old(buf[..]), byteToFlip) else old(buf[..])
      ensures ev == FlipBits ==> buf[byteToFlip] == Xor(old(buf[byteToFlip]), 0xFF)
      ensures forall j | 0 <= j < buf.Length && !(ev == FlipBits && j == byteToFlip) :: buf[j] == old(buf[j])
    {
      FlipIsXor(buf[..], byteToFlip);
      match ev
      case DropAll => nResult := 2;
      case DropSpecific(msgNos) => nResult := if msgNo in msgNos then 2 else 0;
      case FlipBits =>
        buf[byteToFlip] := Complement(buf[byteToFlip]);
        nResult := 1;
      case InfoSeqNo => nResult := 0;
    }

    method RunMsgEvents(cases: seq<MsgEvent>, buf: array<byte>, msgNo: nat, flips: seq<nat>) returns (nResult: int)
      requires |flips| == |cases| && InRange(flips, buf.Length)
      modifies buf
      ensures (nResult, buf[..]) == RunCases(cases, msgNo, flips, old(buf[..]), false)
    {
      var hasChanged := false;
      for i := 0 to |cases|
        invariant RunCases(cases[i..], msgNo, flips[i..], buf[..], hasChanged)
               == RunCases(cases, msgNo, flips, old(buf[..]), false)
      {
        assert cases[i..][1..] == cases[i + 1..] && flips[i..][1..] == flips[i + 1..];
        nResult := RunEvent(cases[i], buf, msgNo, flips[i]);
        if nResult == 1 {
          hasChanged := true;
        } else if nResult == 2 {
          return;
        }
      }
      nResult := if hasChanged then 1 else 0;
    }

    /** hit, randCase and byteToFlip are the outcomes of the three calls of drand48. */
    method ProcessEvents(buf: array<byte>, msgNo: nat, flips: seq<nat>, hit: bool, randCase: nat, byteToFlip: nat)
      returns (nResult: int)
      requires |flips| == |errorCaseConstant| && InRange(flips, buf.Length)
      requires byteToFlip < buf.Length && (errorCaseChance != [] ==> randCase < |errorCaseChance|)
      modifies buf
      ensures var (r, b) := RunCases(errorCaseConstant, msgNo, flips, old(buf[..]), false);
        var chosen := Chosen(errorCaseChance, hit, randCase);
        && nResult == ProcessResult(r, chosen, msgNo)
        && buf[..] == (if chosen == [FlipBits] then FlipByte(b, byteToFlip) else b)
    {
      var hasChanged, hasDropped := false, false;
      nResult := RunMsgEvents(errorCaseConstant, buf, msgNo, flips);
      if nResult == 2 {
        hasDropped := true;
      } else if nResult == 1 {
        hasChanged := true;
      }
      if |errorCaseChance| > 0 && hit {
        nResult := RunEvent(errorCaseChance[randCase], buf, msgNo, byteToFlip);
        if nResult == 2 {
          hasDropped := true;
        } else {
          hasChanged := nResult == 1;
        }
      }
      nResult := if hasDropped then 2 else if hasChanged then 1 else 0;
    }

    /**
     * With the events the two programs configure, every send is delivered, dropped, or
     * has exactly one byte complemented.
     */
    method SendToErr(datagram: seq<byte>, flips: seq<nat>, hit: bool, randCase: nat, byteToFlip: nat)
      returns (sent: seq<seq<byte>>)
      requires |datagram| > 0
      requires |flips| == |errorCaseConstant| && InRange(flips, |datagram|)
      requires byteToFlip < |datagram| && (errorCaseChance != [] ==> randCase < |errorCaseChance|)
      modifies this`msgNo
      ensures msgNo == old(msgNo) + 1
      ensures FlipBits !in errorCaseConstant ==>
        sent == Inject(FaultOf(errorCaseConstant, Chosen(errorCaseChance, hit, randCase), msgNo, byteToFlip), datagram)
      ensures FlipBits !in errorCaseConstant ==>
        if exists ev | ev in errorCaseConstant :: ev == DropAll || (ev.DropSpecific? && msgNo in ev.msgNos)
        then sent == []
        else if !hit || errorCaseChance == [] then sent == [datagram]
        else match errorCaseChance[randCase]
          case DropAll => sent == []
          case DropSpecific(msgNos) => sent == if msgNo in msgNos then [] else [datagram]
          case InfoSeqNo => sent == [datagram]
          case FlipBits =>
            && |sent| == 1 && |sent[0]| == |datagram|
            && sent[0][byteToFlip] == Xor(datagram[byteToFlip], 0xFF)
            && forall j | 0 <= j < |datagram| && j != byteToFlip :: sent[0][j] == datagram[j]
    {
      SendByCases(errorCaseConstant, errorCaseChance, hit, randCase, msgNo + 1, byteToFlip, datagram);
      hide RunCases, Dropping, Inject, FaultOf, FlipByte, Chosen;
      msgNo := msgNo + 1;
      var bufTmp := new byte[|datagram|](i requires 0 <= i < |datagram| => datagram[i]);
      assert bufTmp[..] == datagram;
      var nResult := ProcessEvents(bufTmp, msgNo, flips, hit, randCase, byteToFlip);
      sent := if nResult == 2 then [] else [bufTmp[..]];
      if FlipBits !in errorCaseConstant {
        OneFaultAtMost(errorCaseConstant, Chosen(errorCaseChance, hit, randCase), msgNo, flips, datagram,
                       byteToFlip, nResult, bufTmp[..]);
      }
    }
  }
}
