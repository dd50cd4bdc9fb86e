/** The client's circular reorder buffer (src/buffer.c). */
module ReorderBuffer {
  import opened Bytes
  import opened Protocol
  import opened Rings

  datatype RingSlot = RingSlot(seqNum: u32, flag: byte, data: Payload, valid: bool)

  const EMPTY_SLOT := RingSlot(0, 0, [], false)

  type Ring = r: seq<RingSlot> | |r| > 0 witness [EMPTY_SLOT]

  function NewRing(size: nat): Ring
    requires size > 0
  {
    seq(size, _ => EMPTY_SLOT)
  }

  function SlotOf(ring: Ring, seqNum: u32): RingSlot {
    ring[Index(seqNum, |ring|)]
  }

  function Add(ring: Ring, p: Packet): Ring {
    ring[Index(p.seqNum, |ring|) := RingSlot(p.seqNum, p.flag, p.payload, true)]
  }

  /** getDataFromBuffer on a valid slot: the slot is invalidated, its contents stay. */
  function Remove(ring: Ring, seqNum: u32): Ring {
    ring[Index(seqNum, |ring|) := SlotOf(ring, seqNum).(valid := false)]
  }

  // ---------------------------------------------------------------------------
  // The ring as a map from sequence numbers to buffered PDUs
  // ---------------------------------------------------------------------------

  datatype Entry = Entry(flag: byte, data: Payload)

  /** Every valid slot is the slot of its sequence number. */
  predicate Placed(ring: Ring) {
    forall i | 0 <= i < |ring| && ring[i].valid :: Index(ring[i].seqNum, |ring|) == i
  }

  function Stored(ring: Ring): set<u32> {
    set i | 0 <= i < |ring| && ring[i].valid :: ring[i].seqNum
  }

  function Contents(ring: Ring): map<u32, Entry>
  {
    map k: u32 | k in Stored(ring) :: Entry(SlotOf(ring, k).flag, SlotOf(ring, k).data)
  }

  /** All buffered sequence numbers lie in the window of the ring's size that starts at low. */
  predicate Within(ring: Ring, low: u32) {
    forall i | 0 <= i < |ring| && ring[i].valid :: low <= ring[i].seqNum < low + |ring|
  }

  lemma StoredIff(ring: Ring, k: u32)
    requires Placed(ring)
    ensures k in Stored(ring) <==> SlotOf(ring, k).valid && SlotOf(ring, k).seqNum == k
  {
  }

  /** Buffering a PDU of the current window adds it to the map and displaces no other. */
  lemma AddIsMapUpdate(ring: Ring, low: u32, p: Packet)
    requires Placed(ring) && Within(ring, low) && low <= p.seqNum < low + |ring|
    ensures Placed(Add(ring, p)) && Within(Add(ring, p), low)
    ensures Contents(Add(ring, p)) == Contents(ring)[p.seqNum := Entry(p.flag, p.payload)]
  {
    var ring' := Add(ring, p);
    forall k: u32
      ensures k in Stored(ring') <==> k in Stored(ring) || k == p.seqNum
      ensures k in Stored(ring) && k != p.seqNum ==> SlotOf(ring', k) == SlotOf(ring, k)
    {
      StoredIff(ring, k);
      StoredIff(ring', k);
      if k in Stored(ring) && k < p.seqNum {
        IndexInjective(k, p.seqNum, |ring|);
      } else if k in Stored(ring) && k > p.seqNum {
        IndexInjective(p.seqNum, k, |ring|);
      }
    }
  }

  /**
   * Although getDataFromBuffer never compares sequence numbers, a valid slot for a
   * sequence number of the current window holds exactly that number: the read is a
   * map lookup, and it removes only what it returns.
   */
  lemma ReadIsMapLookup(ring: Ring, low: u32, k: u32)
    requires Placed(ring) && Within(ring, low) && low <= k < low + |ring|
    ensures SlotOf(ring, k).valid <==> k in Contents(ring)
    ensures k in Contents(ring) ==> SlotOf(ring, k).seqNum == k
    ensures k in Contents(ring) ==> Contents(ring)[k] == Entry(SlotOf(ring, k).flag, SlotOf(ring, k).data)
    ensures Contents(Remove(ring, k)) == Contents(ring) - {k}
  {
    var s := SlotOf(ring, k);
    StoredIff(ring, k);
    if s.valid && s.seqNum != k {
      if s.seqNum < k {
        IndexInjective(s.seqNum, k, |ring|);
      } else {
        IndexInjective(k, s.seqNum, |ring|);
      }
    }
    var ring' := Remove(ring, k);
    forall j: u32
      ensures j in Stored(ring') <==> j in Stored(ring) && j != k
      ensures j in Stored(ring') ==> SlotOf(ring', j) == SlotOf(ring, j)
    {
      StoredIff(ring, j);
      StoredIff(ring', j);
      assert Placed(ring');
    }
  }

  // ---------------------------------------------------------------------------
  // The code itself, over an array
  // ---------------------------------------------------------------------------

  class RingBuffer {
    const myBufferSize: nat
    const buffer: array<RingSlot>

    ghost predicate Valid() {
      buffer.Length == myBufferSize > 0
    }

    ghost function View(): Ring
      requires Valid()
      reads buffer
    {
      buffer[..]
    }

    constructor SetupBuffer(bufferSize: nat)
      requires bufferSize > 0
      ensures Valid() && fresh(buffer) && View() == NewRing(bufferSize)
      ensures buffer.Length == bufferSize && forall i | 0 <= i < bufferSize :: !buffer[i].valid
    {
      myBufferSize := bufferSize;
      buffer := new RingSlot[bufferSize](_ => EMPTY_SLOT);
      new;
      for i := 0 to bufferSize
        invariant buffer[..] == NewRing(bufferSize)
      {
        buffer[i] := buffer[i].(valid := false);
      }
    }

    method AddDatatoBuffer(p: Packet)
      requires Valid()
      modifies buffer
      ensures View() == Add(old(View()), p)
      ensures forall i | 0 <= i < buffer.Length ::
                buffer[i] == if i == p.seqNum % buffer.Length then RingSlot(p.seqNum, p.flag, p.payload, true)
                             else old(buffer[i])
    {
      buffer[Index(p.seqNum, myBufferSize)] := RingSlot(p.seqNum, p.flag, p.payload, true);
    }

    /** DATA_VALID with the slot's contents and the slot invalidated, or DATA_INVALID and no change. */
    method GetDataFromBuffer(seqNum: u32) returns (dataValid: bool, flag: byte, data: Payload)
      requires Valid()
      modifies buffer
      ensures dataValid == SlotOf(old(View()), seqNum).valid
      ensures dataValid ==> (flag, data) == (SlotOf(old(View()), seqNum).flag, SlotOf(old(View()), seqNum).data)
      ensures View() == if dataValid then Remove(old(View()), seqNum) else old(View())
      ensures dataValid == old(buffer[seqNum % buffer.Length].valid)
      ensures dataValid ==>
        flag == old(buffer[seqNum % buffer.Length].flag) && data == old(buffer[seqNum % buffer.Length].data)
      ensures forall i | 0 <= i < buffer.Length ::
                buffer[i] == if i == seqNum % buffer.Length then old(buffer[i]).(valid := false) else old(buffer[i])
    {
      var index := Index(seqNum, myBufferSize);
      if !buffer[index].valid {
        return false, 0, [];
      }
      flag, data := buffer[index].flag, buffer[index].data;
      buffer[index] := buffer[index].(valid := false);
      dataValid := true;
    }
  }
}
