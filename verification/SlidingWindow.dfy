/** The server's circular send window (src/slidingWindow.c). */
module SlidingWindow {
  import opened Bytes
  import opened Protocol
  import opened Rings

  datatype SendSlot = SendSlot(seqNum: u32, data: Payload)

  const ZERO_SLOT := SendSlot(0, [])

  /** The file-level variables of slidingWindow.c. */
  datatype Window = Window(slots: seq<SendSlot>, lower: nat, upper: nat, current: nat) {
    function Size(): nat {
      |slots|
    }

    predicate IsOpen() {
      current != upper
    }

    function UpdateLower(seqNum: u32): Window {
      this.(lower := seqNum, upper := seqNum + |slots|)
    }

    function Slot(seqNum: nat): SendSlot
      requires |slots| > 0
    {
      slots[Index(seqNum, |slots|)]
    }

    function Lowest(): SendSlot
      requires |slots| > 0
    {
      Slot(lower)
    }

    /** addDataToWindow past its exit(1): the caller has an open window. */
    function Add(seqNum: u32, data: Payload): Window
      requires |slots| > 0 && IsOpen()
    {
      this.(slots := slots[Index(seqNum, |slots|) := SendSlot(seqNum, data)], current := current + 1)
    }
  }

  function NewWindow(size: nat): Window {
    Window(seq(size, _ => ZERO_SLOT), 0, size, 0)
  }

  /**
   * The window over the chunks sent so far: lower <= current <= upper, each of the
   * last Size() chunks sits in its slot, and slots not yet used are still zeroed.
   */
  ghost predicate HoldsChunks(w: Window, chunks: seq<Payload>) {
    && 0 < w.Size()
    && w.lower <= w.current <= w.upper == w.lower + w.Size()
    && w.current <= |chunks| < 0x8000_0000
    && (forall k {:trigger chunks[k]} | 0 <= k < w.current && w.current - w.Size() <= k ::
          w.Slot(k) == SendSlot(k, chunks[k]))
    && (forall i | w.current <= i < w.Size() :: w.slots[i] == ZERO_SLOT)
  }

  /** Sending the next chunk overwrites no chunk that may still have to be resent. */
  lemma AddHolds(w: Window, chunks: seq<Payload>)
    requires HoldsChunks(w, chunks) && w.IsOpen() && w.current < |chunks|
    ensures HoldsChunks(w.Add(w.current, chunks[w.current]), chunks)
  {
    var w' := w.Add(w.current, chunks[w.current]);
    forall k | 0 <= k < w'.current && w'.current - w.Size() <= k
      ensures w'.Slot(k) == SendSlot(k, chunks[k])
    {
      if k < w.current {
        IndexInjective(k, w.current, w.Size());
      }
    }
    if w.current < w.Size() {
      IndexSmall(w.current, w.Size());
    }
  }

  /** The ring is read without comparing sequence numbers, yet returns the chunk asked for. */
  lemma SlotIsChunk(w: Window, chunks: seq<Payload>, seqNum: nat)
    requires HoldsChunks(w, chunks) && w.lower <= seqNum < w.current
    ensures w.Slot(seqNum) == SendSlot(seqNum, chunks[seqNum])
  {
    assert chunks[seqNum] == chunks[seqNum];
  }

  /**
   * With everything acknowledged the lowest slot is stale: it holds the chunk Size()
   * before, or zeroes if the ring was never filled.
   */
  lemma LowestIsStale(w: Window, chunks: seq<Payload>)
    requires HoldsChunks(w, chunks) && w.lower == w.current
    ensures w.Lowest() == if w.current < w.Size() then ZERO_SLOT
                          else SendSlot(w.current - w.Size(), chunks[w.current - w.Size()])
  {
    if w.current < w.Size() {
      IndexSmall(w.current, w.Size());
    } else {
      var k := w.current - w.Size();
      assert w.Slot(k) == SendSlot(k, chunks[k]);
      IndexPeriod(k, w.Size());
    }
  }

  // ---------------------------------------------------------------------------
  // The code itself, over an array
  // ---------------------------------------------------------------------------

  class SendWindow {
    const myWindowSize: nat
    const window: array<SendSlot>
    var lower: nat
    var upper: nat
    var current: nat

    ghost predicate Valid() {
      window.Length == myWindowSize > 0
    }

    ghost function View(): Window
      reads this, window
    {
      Window(window[..], lower, upper, current)
    }

    constructor SetupWindow(windowSize: nat)
      requires windowSize > 0
      ensures Valid() && fresh(window) && View() == NewWindow(windowSize)
      ensures window.Length == windowSize == upper && lower == current == 0
      ensures forall i | 0 <= i < windowSize :: window[i] == SendSlot(0, [])
    {
      myWindowSize := windowSize;
      window := new SendSlot[windowSize](_ => ZERO_SLOT);
      lower := 0;
      current := 0;
      upper := windowSize;
    }

    method IsWindowClosed() returns (closed: bool)
      ensures closed <==> !View().IsOpen()
      ensures closed <==> current == upper
    {
      closed := current == upper;
    }

    method UpdateLower(seqNum: u32)
      requires Valid()
      modifies this`lower, this`upper
      ensures View() == old(View()).UpdateLower(seqNum)
      ensures lower == seqNum && upper == seqNum + window.Length
    {
      lower := seqNum;
      upper := lower + myWindowSize;
    }

    method GetLowestSeqNumData() returns (data: Payload, seqNum: u32)
      requires Valid()
      ensures SendSlot(seqNum, data) == View().Lowest() == window[lower % window.Length]
    {
      var index := Index(lower, myWindowSize);
      data, seqNum := window[index].data, window[index].seqNum;
    }

    method GetLowestSeqNum() returns (seqNum: u32)
      requires Valid()
      ensures seqNum == View().Lowest().seqNum == window[lower % window.Length].seqNum
    {
      seqNum := window[Index(lower, myWindowSize)].seqNum;
    }

    /** Adding to a closed window ends the process. */
    method AddDataToWindow(sequenceNum: u32, data: Payload) returns (exited: bool)
      requires Valid()
      modifies this`current, window
      ensures exited <==> !old(View()).IsOpen()
      ensures View() == if exited then old(View()) else old(View()).Add(sequenceNum, data)
      ensures exited <==> old(current) == upper
      ensures current == old(current) + if exited then 0 else 1
      ensures forall i | 0 <= i < window.Length ::
                window[i] == if !exited && i == sequenceNum % window.Length then SendSlot(sequenceNum, data)
                             else old(window[i])
    {
      exited := IsWindowClosed();
      if !exited {
        window[Index(sequenceNum, myWindowSize)] := SendSlot(sequenceNum, data);
        current := current + 1;
      }
    }

    method GetDataFromWindow(sequenceNum: u32) returns (data: Payload)
      requires Valid()
      ensures data == View().Slot(sequenceNum).data == window[sequenceNum % window.Length].data
    {
      data := window[Index(sequenceNum, myWindowSize)].data;
    }
  }
}
