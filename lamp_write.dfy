/** The lamp-write transaction of `usbFunctionSetup` (request 0x40) and
    `usbFunctionWrite`, as a function on values: the 8-byte staging buffer
    LampData, the counters datareceived and dataLength, and the 2-byte Output. */
module LampWrite {
  import opened Bytes

  /** Size of the LampData staging buffer; no byte is stored at or past it. */
  const Capacity: nat := 8

  /** The state one write transaction works on. */
  datatype Transfer = Transfer(
    lamp: seq<bv8>,     // LampData
    received: nat,      // datareceived
    length: nat,        // dataLength
    output: seq<bv8>)   // Output

  predicate WellFormed(t: Transfer)
  {
    |t.lamp| == Capacity && t.received <= Capacity && t.length < 256 && |t.output| == 2
  }

  /** The value `usbFunctionWrite` returns is 1 exactly in this state; with at
      most 8 bytes staged it is out of reach of a declared length above 8. */
  predicate Done(t: Transfer)
    ensures Done(t) && t.received <= Capacity ==> t.length <= Capacity
  {
    t.received == t.length
  }

  /** How many bytes of a chunk of `len` bytes are stored when `at` bytes are
      already staged: as many as fit below Capacity. */
  function Accepted(at: nat, len: nat): (n: nat)
    requires at <= Capacity
    ensures n <= len && at + n <= Capacity
    ensures n == len || at + n == Capacity
  {
    if len <= Capacity - at then len else Capacity - at
  }

  /** The staging buffer after the copy loop stores `chunk` byte by byte from
      index `at` on, stopping at the end of the chunk or of the buffer. */
  function Staged(lamp: seq<bv8>, at: nat, chunk: seq<bv8>): (r: seq<bv8>)
    requires |lamp| == Capacity && at <= Capacity
    ensures |r| == Capacity
    ensures forall k :: 0 <= k < Capacity ==>
      r[k] == if at <= k < at + Accepted(at, |chunk|) then chunk[k - at] else lamp[k]
    decreases chunk
  {
    if at == Capacity || chunk == [] then lamp
    else Staged(lamp[at := chunk[0]], at + 1, chunk[1..])
  }

  /** Setup request 0x40: the counter restarts and the declared length is
      recorded, with nothing staged or output touched. */
  function Begin(t: Transfer, declared: uint8): (r: Transfer)
    requires WellFormed(t)
    ensures WellFormed(r) && r.received == 0 && r.length == declared
    ensures r.lamp == t.lamp && r.output == t.output
  {
    t.(received := 0, length := declared)
  }

  /** One call of `usbFunctionWrite` with a chunk. */
  function Write(t: Transfer, chunk: seq<bv8>): (r: Transfer)
    requires WellFormed(t)
    ensures WellFormed(r) && r.length == t.length
    ensures r.received == t.received + Accepted(t.received, |chunk|)
    ensures Done(r) ==> r.output == [r.lamp[0], r.lamp[2]]
    ensures !Done(r) ==> r.output == t.output
  {
    var lamp := Staged(t.lamp, t.received, chunk);
    var received := t.received + Accepted(t.received, |chunk|);
    Transfer(lamp, received, t.length,
             if received == t.length then [lamp[0], lamp[2]] else t.output)
  }

  /** The chunks of a transaction, in order, as one byte stream. */
  function Concat(chunks: seq<seq<bv8>>): seq<bv8>
  {
    if chunks == [] then [] else chunks[0] + Concat(chunks[1..])
  }

  /** The calls of `usbFunctionWrite` for a sequence of chunks. */
  function WriteAll(t: Transfer, chunks: seq<seq<bv8>>): (r: Transfer)
    requires WellFormed(t)
    ensures WellFormed(r) && r.length == t.length && t.received <= r.received
    decreases chunks
  {
    if chunks == [] then t else WriteAll(Write(t, chunks[0]), chunks[1..])
  }

  // ---------------------------------------------------------------------------
  // Properties of the transaction

  /** Write bound: exactly min(len, 8 - datareceived) bytes of the chunk land,
      in order, at LampData[datareceived..]; every other byte keeps its value. */
  lemma WriteBound(t: Transfer, chunk: seq<bv8>)
    requires WellFormed(t)
    ensures var r := Write(t, chunk);
      var n := if |chunk| < Capacity - t.received then |chunk| else Capacity - t.received;
      r.received == t.received + n <= Capacity &&
      r.lamp[t.received..t.received + n] == chunk[..n] &&
      r.lamp[..t.received] == t.lamp[..t.received] &&
      r.lamp[t.received + n..] == t.lamp[t.received + n..]
  {
    var r := Write(t, chunk);
    var n := Accepted(t.received, |chunk|);
    assert r.lamp[t.received..t.received + n] == chunk[..n];
    assert r.lamp[..t.received] == t.lamp[..t.received];
    assert r.lamp[t.received + n..] == t.lamp[t.received + n..];
  }

  /** Completion flag: the call returns 1 exactly when datareceived reaches
      dataLength; only then is Output set, from LampData[0] and LampData[2]. */
  lemma CompletionFlag(t: Transfer, chunk: seq<bv8>)
    requires WellFormed(t)
    ensures var r := Write(t, chunk);
      (Done(r) <==> t.received + Accepted(t.received, |chunk|) == t.length) &&
      r.output == if Done(r) then [r.lamp[0], r.lamp[2]] else t.output
  {
  }

  /** Staging two chunks one after the other stores the same bytes as staging
      their concatenation once. */
  lemma StagedConcat(lamp: seq<bv8>, at: nat, c: seq<bv8>, d: seq<bv8>)
    requires |lamp| == Capacity && at <= Capacity
    ensures Staged(Staged(lamp, at, c), at + Accepted(at, |c|), d) == Staged(lamp, at, c + d)
  {
    var n := Accepted(at, |c|);
    var left := Staged(Staged(lamp, at, c), at + n, d);
    var right := Staged(lamp, at, c + d);
    forall k | 0 <= k < Capacity
      ensures left[k] == right[k]
    {
      if at <= k < at + n {
        assert (c + d)[k - at] == c[k - at];
      } else if at + n <= k < at + n + Accepted(at + n, |d|) {
        assert (c + d)[k - at] == d[k - at - n];
      }
    }
  }

  /** Two calls whose bytes do not run past dataLength (or whose dataLength can
      never be reached) act as one call with both chunks. */
  lemma WriteTwice(t: Transfer, c: seq<bv8>, d: seq<bv8>)
    requires WellFormed(t)
    requires t.received + |c| + |d| <= t.length || t.length > Capacity
    ensures Write(Write(t, c), d) == Write(t, c + d)
  {
    StagedConcat(t.lamp, t.received, c, d);
  }

  lemma ConcatSplit(chunks: seq<seq<bv8>>, j: nat)
    requires j <= |chunks|
    ensures Concat(chunks) == Concat(chunks[..j]) + Concat(chunks[j..])
    decreases j
  {
    if j > 0 {
      ConcatSplit(chunks[1..], j - 1);
      assert chunks[1..][..j - 1] == chunks[1..j];
      assert chunks[1..][j - 1..] == chunks[j..];
      assert chunks[..j] == [chunks[0]] + chunks[1..j];
      assert Concat(chunks[..j]) == chunks[0] + Concat(chunks[1..j]);
    } else {
      assert chunks[..0] == [] && chunks[0..] == chunks;
    }
  }

  /** Chunk-split independence: when the stream does not run past dataLength
      (or dataLength exceeds the buffer), any non-empty sequence of chunks ends
      in exactly the state one call with the whole stream reaches. */
  lemma {:induction false} WriteAllIsOneWrite(t: Transfer, chunks: seq<seq<bv8>>)
    requires WellFormed(t) && chunks != []
    requires t.received + |Concat(chunks)| <= t.length || t.length > Capacity
    ensures WriteAll(t, chunks) == Write(t, Concat(chunks))
    decreases chunks
  {
    var t1 := Write(t, chunks[0]);
    if |chunks| == 1 {
      assert chunks[1..] == [];
      assert Concat(chunks) == chunks[0] + [];
    } else {
      var rest := Concat(chunks[1..]);
      assert Concat(chunks) == chunks[0] + rest;
      WriteAllIsOneWrite(t1, chunks[1..]);
      WriteTwice(t, chunks[0], rest);
    }
  }

  /** A transaction of L <= 8 bytes, split into chunks in any way (the last one
      non-empty): every call before the last returns 0, the last returns 1,
      LampData[0..L) holds the stream, the rest of LampData is as before, and
      Output holds bytes 0 and 2 of the buffer; for L >= 3 that is
      (stream[0], stream[2]). */
  lemma ChunkSplitIndependence(t0: Transfer, declared: uint8, chunks: seq<seq<bv8>>)
    requires WellFormed(t0) && declared <= Capacity
    requires chunks != [] && chunks[|chunks| - 1] != []
    requires |Concat(chunks)| == declared
    ensures var t := Begin(t0, declared);
      forall j :: 1 <= j < |chunks| ==> !Done(WriteAll(t, chunks[..j]))
    ensures var f := WriteAll(Begin(t0, declared), chunks);
      var stream := Concat(chunks);
      Done(f) &&
      f.lamp[..declared] == stream &&
      f.lamp[declared..] == t0.lamp[declared..] &&
      f.output == [f.lamp[0], f.lamp[2]] &&
      (declared >= 3 ==> f.output == [stream[0], stream[2]])
  {
    var t := Begin(t0, declared);
    var stream := Concat(chunks);
    WriteAllIsOneWrite(t, chunks);
    var f := WriteAll(t, chunks);
    assert f.lamp[..declared] == stream;
    assert f.lamp[declared..] == t0.lamp[declared..];
    forall j | 1 <= j < |chunks|
      ensures !Done(WriteAll(t, chunks[..j]))
    {
      ConcatSplit(chunks, j);
      var tail := chunks[j..];
      ConcatSplit(tail, |tail| - 1);
      assert tail[|tail| - 1..] == [chunks[|chunks| - 1]];
      assert Concat(tail[|tail| - 1..]) == chunks[|chunks| - 1] + [];
      assert chunks[..j] != [];
      WriteAllIsOneWrite(t, chunks[..j]);
    }
  }

  /** Oversized declaration: when dataLength exceeds the buffer no call ever
      returns 1 and Output never changes, however many bytes arrive. */
  lemma {:induction false} OversizedNeverCompletes(t: Transfer, chunks: seq<seq<bv8>>)
    requires WellFormed(t) && t.length > Capacity
    ensures !Done(WriteAll(t, chunks)) && WriteAll(t, chunks).output == t.output
    decreases chunks
  {
    if chunks != [] {
      OversizedNeverCompletes(Write(t, chunks[0]), chunks[1..]);
    }
  }

  /** After completion of a transaction shorter than the buffer, one more
      non-empty chunk moves datareceived past dataLength: the call returns 0
      and Output keeps the completed value. */
  lemma CompletesOnce(t: Transfer, chunk: seq<bv8>)
    requires WellFormed(t) && Done(t) && t.length < Capacity && chunk != []
    ensures !Done(Write(t, chunk)) && Write(t, chunk).output == t.output
  {
  }

  /** A zero-length chunk stores nothing and moves no counter. */
  lemma EmptyChunk(t: Transfer)
    requires WellFormed(t)
    ensures Write(t, []).lamp == t.lamp && Write(t, []).received == t.received
  {
  }

  /** At capacity the completion repeats: with dataLength == 8 and the buffer
      full, every further chunk stores nothing, returns 1 again and copies
      LampData[0] and LampData[2] into Output once more. */
  lemma CompletesAgainAtCapacity(t: Transfer, chunk: seq<bv8>)
    requires WellFormed(t) && t.length == Capacity && t.received == Capacity
    ensures var r := Write(t, chunk);
      Done(r) && r.lamp == t.lamp && r.output == [t.lamp[0], t.lamp[2]]
  {
  }

  /** After a setup that declares 0 bytes, a zero-length chunk completes at
      once and copies whatever LampData[0] and LampData[2] already hold into
      Output. */
  lemma EmptyChunkAfterZeroSetup(t0: Transfer)
    requires WellFormed(t0)
    ensures var r := Write(Begin(t0, 0), []);
      Done(r) && r.output == [t0.lamp[0], t0.lamp[2]]
  {
  }

  /** Those can be bytes an abandoned transfer left behind: here three bytes
      of an 8-byte write arrived, then a 0-byte setup and an empty chunk put
      two of them into Output. */
  lemma AbandonedBytesReachOutput()
    ensures var t0 := Transfer([0x01, 0x00, 0x02, 0, 0, 0, 0, 0], 3, 8, [0, 0]);
      var r := Write(Begin(t0, 0), []);
      Done(r) && r.output == [0x01, 0x02] && r.output != t0.output
  {
    EmptyChunkAfterZeroSetup(Transfer([0x01, 0x00, 0x02, 0, 0, 0, 0, 0], 3, 8, [0, 0]));
  }

  /** Once the transaction is complete, a zero-length chunk runs no copy step,
      finds datareceived == dataLength again, returns 1 once more and rewrites
      Output from LampData[0] and LampData[2]. */
  lemma EmptyChunkRepeatsCompletion(t: Transfer)
    requires WellFormed(t) && Done(t)
    ensures var r := Write(t, []);
      Done(r) && r.lamp == t.lamp && r.output == [t.lamp[0], t.lamp[2]]
  {
  }

  /** Once datareceived has run past dataLength it never comes back: no later
      chunk completes and Output keeps its value. */
  lemma {:induction false} PastLengthNeverCompletes(t: Transfer, chunks: seq<seq<bv8>>)
    requires WellFormed(t) && t.received > t.length
    ensures !Done(WriteAll(t, chunks)) && WriteAll(t, chunks).output == t.output
    decreases chunks
  {
    if chunks != [] {
      PastLengthNeverCompletes(Write(t, chunks[0]), chunks[1..]);
    }
  }

  /** After completion below the buffer size, a first non-empty chunk ends
      completion for the rest of the transaction: whatever chunks follow, no
      call returns 1 and Output keeps the completed value. */
  lemma CompletionEndsAfterOverrun(t: Transfer, chunks: seq<seq<bv8>>)
    requires WellFormed(t) && Done(t) && t.length < Capacity
    requires chunks != [] && chunks[0] != []
    ensures !Done(WriteAll(t, chunks)) && WriteAll(t, chunks).output == t.output
  {
    CompletesOnce(t, chunks[0]);
    PastLengthNeverCompletes(Write(t, chunks[0]), chunks[1..]);
  }

  /** A first chunk longer than a declared length below 8 carries datareceived
      past dataLength in one call, so the transaction never completes and
      Output is never written. */
  lemma OverrunSkipsCompletion(t0: Transfer, declared: uint8, chunks: seq<seq<bv8>>)
    requires WellFormed(t0) && declared < Capacity
    requires chunks != [] && |chunks[0]| > declared
    ensures var r := WriteAll(Begin(t0, declared), chunks);
      !Done(r) && r.output == t0.output
  {
    var t := Begin(t0, declared);
    PastLengthNeverCompletes(Write(t, chunks[0]), chunks[1..]);
  }
}
