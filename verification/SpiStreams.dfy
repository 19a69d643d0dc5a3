/** The entry streams that the two `write`s and the two `transfer_in_place`s must emit. */
module SpiStreams {
  import opened SpiEntries

  /** The chunk that `chunks(3)` yields next, and what it leaves. */
  function Head(words: seq<Byte>): (r: seq<Byte>)
    ensures |r| <= 3 && r + Rest(words) == words
  {
    if |words| <= 3 then words else words[..3]
  }

  function Rest(words: seq<Byte>): seq<Byte> {
    if |words| <= 3 then [] else words[3..]
  }

  /** The stream of the blocking calls: chunks of three, the last one through Io. */
  function WriteStream(words: seq<Byte>, msFirst: bool): seq<Write>
    decreases |words|
  {
    if words == [] then []
    else [Write(PortOf(words), Entry(Head(words), msFirst))] + WriteStream(Rest(words), msFirst)
  }

  function PortOf(words: seq<Byte>): Port {
    if Rest(words) == [] then Io else TxHold
  }

  lemma StreamStep(before: seq<Write>, words: seq<Byte>, msFirst: bool)
    requires words != []
    ensures before + WriteStream(words, msFirst) ==
            (before + [Write(PortOf(words), Entry(Head(words), msFirst))]) + WriteStream(Rest(words), msFirst)
  {
  }

  function ChunkCount(len: nat): nat {
    (len + 2) / 3
  }

  /** One entry a chunk; exactly the last goes through Io. */
  lemma {:induction false} OnlyLastThroughIo(words: seq<Byte>, msFirst: bool)
    ensures |WriteStream(words, msFirst)| == ChunkCount(|words|)
    ensures forall i :: 0 <= i < |WriteStream(words, msFirst)| ==>
              (WriteStream(words, msFirst)[i].port == Io <==> i == |WriteStream(words, msFirst)| - 1)
  {
    if 3 < |words| { OnlyLastThroughIo(words[3..], msFirst); }
  }

  /** What a receiver makes of a stream: every entry gives as many bytes as its length says. */
  function Decode(stream: seq<Write>, msFirst: bool): seq<Byte> {
    if stream == [] then []
    else
      var n := LengthOf(stream[0].entry);
      FromEntry(stream[0].entry, if n == 1 then 1 else if n == 2 then 2 else if n == 3 then 3 else 0, msFirst)
      + Decode(stream[1..], msFirst)
  }

  /** Least significant bit first, a stream decodes to the bytes that were written. */
  lemma {:induction false} DecodesToWords(words: seq<Byte>)
    ensures Decode(WriteStream(words, false), false) == words
    decreases |words|
  {
    if words != [] {
      LsbRoundTrip(Head(words));
      DecodesToWords(Rest(words));
      assert WriteStream(words, false)[1..] == WriteStream(Rest(words), false);
    }
  }

  /** Every complete chunk begins with the byte 3, which is also the length of such a chunk. */
  ghost predicate ChunksBeginWithLength(words: seq<Byte>)
    decreases |words|
  {
    |words| < 3 || (words[0] == 3 && ChunksBeginWithLength(words[3..]))
  }

  lemma {:induction false} ChunksBeginAt(words: seq<Byte>)
    ensures ChunksBeginWithLength(words) <==> forall k :: 0 <= k && 3 * k + 3 <= |words| ==> words[3 * k] == 3
    decreases |words|
  {
    if 3 <= |words| {
      var tail := words[3..];
      ChunksBeginAt(tail);
      if forall k :: 0 <= k && 3 * k + 3 <= |words| ==> words[3 * k] == 3 {
        assert words[3 * 0] == 3;
        assert forall k :: 0 <= k && 3 * k + 3 <= |tail| ==> tail[3 * k] == words[3 * (k + 1)];
      }
      if words[0] == 3 && forall k :: 0 <= k && 3 * k + 3 <= |tail| ==> tail[3 * k] == 3 {
        forall k | 0 <= k && 3 * k + 3 <= |words|
          ensures words[3 * k] == 3
        {
          assert 0 < k ==> tail[3 * (k - 1)] == 3;
        }
      }
    }
  }

  /** Decoding takes one chunk after the other. */
  lemma DecodeStep(words: seq<Byte>)
    requires words != []
    ensures var e := Entry(Head(words), true);
            var n := LengthOf(e);
            Decode(WriteStream(words, true), true) ==
            FromEntry(e, if n == 1 then 1 else if n == 2 then 2 else if n == 3 then 3 else 0, true)
            + Decode(WriteStream(Rest(words), true), true)
  {
    assert WriteStream(words, true)[1..] == WriteStream(Rest(words), true);
  }

  /** The bytes that a receiver makes of one chunk, most significant bit first. */
  lemma DecodedChunk(chunk: seq<Byte>)
    requires 0 < |chunk| <= 3
    ensures var e := Entry(chunk, true);
            var n := LengthOf(e);
            FromEntry(e, if n == 1 then 1 else if n == 2 then 2 else if n == 3 then 3 else 0, true) ==
            if |chunk| < 3 then chunk else if chunk[0] & 0xFC == 0 then [3, chunk[1], chunk[2]] else []
  {
    MsbRoundTripIff(chunk);
    if |chunk| == 3 {
      MsbEntry(chunk);
      LengthWithHighBits(chunk[0]);
      if chunk[0] & 0xFC == 0 {
        assert FromEntry(Entry(chunk, true), 3, true) == [chunk[0] | 3, chunk[1], chunk[2]];
      }
    }
  }

  lemma LengthWithHighBits(b: Byte)
    ensures b | 3 != 1 && b | 3 != 2 && (b | 3 == 3 <==> b & 0xFC == 0)
    ensures b == 3 ==> b & 0xFC == 0
  {
  }

  lemma {:induction false} DecodedLength(words: seq<Byte>)
    ensures |Decode(WriteStream(words, true), true)| <= |words|
    decreases |words|
  {
    if words != [] {
      DecodeStep(words);
      DecodedChunk(Head(words));
      DecodedLength(Rest(words));
    }
  }

  /** What a receiver makes of a complete chunk and `rest` is `words` only if both are right. */
  lemma ChunkThenRest(words: seq<Byte>, rest: seq<Byte>)
    requires 3 <= |words| && |rest| <= |words| - 3
    ensures (if words[0] & 0xFC == 0 then [3, words[1], words[2]] else []) + rest == words <==>
            words[0] == 3 && rest == words[3..]
  {
    LengthWithHighBits(words[0]);
    var head: seq<Byte> := [3, words[1], words[2]];
    assert (head + rest)[3..] == rest;
    if words[0] == 3 {
      assert words == head + words[3..];
    }
  }

  lemma {:induction false} MsbDecodes(words: seq<Byte>)
    ensures Decode(WriteStream(words, true), true) == words <==> ChunksBeginWithLength(words)
    decreases |words|
  {
    if words != [] {
      DecodeStep(words);
      DecodedChunk(Head(words));
      if 3 <= |words| {
        MsbDecodes(Rest(words));
        DecodedLength(Rest(words));
        ChunkThenRest(words, Decode(WriteStream(Rest(words), true), true));
        assert Rest(words) == words[3..];
      }
    }
  }

  /**
   Most significant bit first, a stream decodes to the bytes that were written if and only if every complete
   three-byte chunk begins with the byte 3: any other first byte changes, or falsifies the length.
   */
  lemma MsbDecodesIff(words: seq<Byte>)
    ensures Decode(WriteStream(words, true), true) == words <==>
            forall k :: 0 <= k && 3 * k + 3 <= |words| ==> words[3 * k] == 3
  {
    MsbDecodes(words);
    ChunksBeginAt(words);
  }

  // ---------------------------------------------------------------- the in-place future

  /** Chunk `k` of the in-place future: full chunks, then the remainder, which may be empty. */
  function InPlaceChunk(words: seq<Byte>, k: nat): (r: seq<Byte>)
    requires k <= |words| / 3
    ensures |r| <= 3
  {
    if k < |words| / 3 then words[3 * k..3 * k + 3] else words[3 * k..]
  }

  function InPlaceWrite(words: seq<Byte>, k: nat, msFirst: bool): Write
    requires k <= |words| / 3
  {
    Write(if k < |words| / 3 then TxHold else Io, Entry(InPlaceChunk(words, k), msFirst))
  }

  /** All that the in-place future sends. */
  function InPlaceStream(words: seq<Byte>, msFirst: bool): (r: seq<Write>)
    ensures |r| == |words| / 3 + 1
  {
    seq(|words| / 3 + 1, k requires 0 <= k <= |words| / 3 => InPlaceWrite(words, k, msFirst))
  }

  lemma InPlaceStreamTail(words: seq<Byte>, msFirst: bool)
    requires 3 <= |words|
    ensures InPlaceStream(words, msFirst) == [InPlaceWrite(words, 0, msFirst)] + InPlaceStream(words[3..], msFirst)
  {
    var tail := words[3..];
    forall k | 1 <= k <= |words| / 3
      ensures InPlaceWrite(words, k, msFirst) == InPlaceWrite(tail, k - 1, msFirst)
    {
      assert InPlaceChunk(words, k) == InPlaceChunk(tail, k - 1);
    }
  }

  /**
   The in-place future emits the stream of the blocking loop exactly when the length is no multiple
   of three; otherwise it emits one entry more, of length zero.
   */
  lemma {:induction false} InPlaceMatchesBlockingIff(words: seq<Byte>, msFirst: bool)
    ensures InPlaceStream(words, msFirst) == WriteStream(words, msFirst) <==> |words| % 3 != 0
    ensures |words| % 3 == 0 ==>
              |InPlaceStream(words, msFirst)| == |WriteStream(words, msFirst)| + 1
              && InPlaceStream(words, msFirst)[|words| / 3] == Write(Io, ZERO)
  {
    if words == [] {
      assert InPlaceWrite(words, 0, msFirst) == Write(Io, Entry([], msFirst));
      EmptyEntry(msFirst);
    } else if |words| < 3 {
      assert InPlaceChunk(words, 0) == words;
    } else {
      InPlaceStreamTail(words, msFirst);
      InPlaceMatchesBlockingIff(words[3..], msFirst);
      assert InPlaceChunk(words, 0) == words[..3];
      if |words| == 3 {
        assert |words[3..]| == 0;
      } else {
        var a, b := InPlaceStream(words, msFirst), WriteStream(words, msFirst);
        assert a[1..] == InPlaceStream(words[3..], msFirst) && b[1..] == WriteStream(words[3..], msFirst);
        assert a[0] == b[0];
        assert a == [a[0]] + a[1..] && b == [b[0]] + b[1..];
      }
    }
  }

  /** Every complete chunk goes out as in the blocking stream, through TxHold, in either bit order. */
  lemma {:induction false} InPlaceSendsChunks(words: seq<Byte>, msFirst: bool, k: nat)
    requires k < |words| / 3
    ensures k < |WriteStream(words, msFirst)|
    ensures InPlaceStream(words, msFirst)[k] == Write(TxHold, WriteStream(words, msFirst)[k].entry)
  {
    InPlaceStreamTail(words, msFirst);
    if k == 0 {
      assert InPlaceChunk(words, 0) == Head(words);
    } else {
      var tail := words[3..];
      InPlaceSendsChunks(tail, msFirst, k - 1);
      assert WriteStream(words, msFirst)[1..] == WriteStream(tail, msFirst);
      assert InPlaceStream(words, msFirst)[1..] == InPlaceStream(tail, msFirst);
    }
  }

  /** Least significant bit first, what the in-place future sends decodes to the buffer's bytes, for every length. */
  lemma {:induction false} InPlaceDecodesToWords(words: seq<Byte>)
    ensures Decode(InPlaceStream(words, false), false) == words
    decreases |words|
  {
    if |words| < 3 {
      assert InPlaceChunk(words, 0) == words;
      LsbRoundTrip(words);
      assert InPlaceStream(words, false)[1..] == [];
    } else {
      InPlaceStreamTail(words, false);
      assert InPlaceChunk(words, 0) == words[..3];
      LsbRoundTrip(words[..3]);
      InPlaceDecodesToWords(words[3..]);
      assert InPlaceStream(words, false)[1..] == InPlaceStream(words[3..], false);
    }
  }

  lemma EmptyEntry(msFirst: bool)
    ensures Entry([], msFirst) == ZERO
  {
    if msFirst { MsbEntry([]); } else { LsbEntry([]); }
  }

  /** A buffer of `len` bytes filled chunk by chunk from received entries. */
  function Filled(len: nat, entries: seq<Word>, msFirst: bool): (r: seq<Byte>)
    requires ChunkCount(len) <= |entries|
    ensures |r| == len
  {
    if len == 0 then []
    else if len <= 3 then FromEntry(entries[0], len, msFirst)
    else FromEntry(entries[0], 3, msFirst) + Filled(len - 3, entries[1..], msFirst)
  }

  /** Byte `j` of chunk `k` of a filled buffer comes from lane `j` of entry `k`. */
  lemma {:induction false} FilledAt(len: nat, entries: seq<Word>, msFirst: bool, k: nat, j: nat)
    requires ChunkCount(len) <= |entries| && 3 * k + j < len && j < 3
    ensures k < |entries|
    ensures Filled(len, entries, msFirst)[3 * k + j] ==
            ByteAt(entries[k], j, if 3 * k + 3 <= len then 3 else len - 3 * k, msFirst)
  {
    if 0 < k { FilledAt(len - 3, entries[1..], msFirst, k - 1, j); }
  }
}
