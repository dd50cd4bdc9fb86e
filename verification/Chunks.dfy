/** The input file cut into the pieces that read() returns. */
module Chunks {
  import opened Bytes
  import opened Protocol
  import Server

  function Chunks(file: seq<byte>, bufferSize: nat): seq<Payload>
    requires 1 <= bufferSize <= MAX_PAYLOAD_SIZE
  {
    if file == [] then []
    else
      var head := Server.Read(file, bufferSize);
      [head] + Chunks(file[|head|..], bufferSize)
  }

  function Flatten(chunks: seq<Payload>): seq<byte> {
    if chunks == [] then [] else chunks[0] + Flatten(chunks[1..])
  }

  /** Chunking conserves the file, and every piece but the last is full. */
  lemma {:induction false} FlattenChunks(file: seq<byte>, bufferSize: nat)
    requires 1 <= bufferSize <= MAX_PAYLOAD_SIZE
    ensures Flatten(Chunks(file, bufferSize)) == file
    ensures forall i | 0 <= i < |Chunks(file, bufferSize)| :: 1 <= |Chunks(file, bufferSize)[i]| <= bufferSize
    ensures forall i | 0 <= i < |Chunks(file, bufferSize)| - 1 :: |Chunks(file, bufferSize)[i]| == bufferSize
  {
    if file != [] {
      var head := Server.Read(file, bufferSize);
      FlattenChunks(file[|head|..], bufferSize);
      assert Chunks(file, bufferSize)[1..] == Chunks(file[|head|..], bufferSize);
    }
  }

  lemma {:induction false} FlattenConcat(a: seq<Payload>, b: seq<Payload>)
    ensures Flatten(a + b) == Flatten(a) + Flatten(b)
  {
    if a == [] {
      assert a + b == b;
    } else {
      assert (a + b)[1..] == a[1..] + b;
      FlattenConcat(a[1..], b);
    }
  }

  lemma FlattenSnoc(chunks: seq<Payload>, k: nat)
    requires k < |chunks|
    ensures Flatten(chunks[..k + 1]) == Flatten(chunks[..k]) + chunks[k]
  {
    assert chunks[..k + 1] == chunks[..k] + [chunks[k]];
    FlattenConcat(chunks[..k], [chunks[k]]);
    assert [chunks[k]][1..] == [];
  }

  lemma FlattenPrefix(chunks: seq<Payload>, k: nat)
    requires k <= |chunks|
    ensures Flatten(chunks[..k]) <= Flatten(chunks)
  {
    FlattenConcat(chunks[..k], chunks[k..]);
    assert chunks == chunks[..k] + chunks[k..];
  }
}
