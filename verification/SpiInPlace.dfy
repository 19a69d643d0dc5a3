/** In-place transfers: the received bytes overwrite the buffer that is still being sent. */
module SpiInPlace {
  import opened Options
  import opened SpiEntries
  import opened SpiStreams
  import opened SpiBus

  /** The length of chunk `k` of a buffer of `len` bytes, the remainder included. */
  function ChunkLength(len: nat, k: nat): (r: nat)
    requires 3 * k <= len
    ensures r <= 3 && 3 * k + r <= len
  {
    if 3 * k + 3 <= len then 3 else len - 3 * k
  }

  /** Chunk `k` of the buffer holds what entry `base + k` brought. */
  ghost predicate ChunkFilled(words: seq<Byte>, received: seq<Word>, base: nat, k: nat, msFirst: bool) {
    && 3 * k <= |words| && base + k < |received|
    && words[3 * k..3 * k + ChunkLength(|words|, k)] == FromEntry(received[base + k], ChunkLength(|words|, k), msFirst)
  }

  ghost predicate ChunksFilled(words: seq<Byte>, received: seq<Word>, base: nat, m: nat, msFirst: bool) {
    forall k :: 0 <= k < m ==> ChunkFilled(words, received, base, k, msFirst)
  }

  /** Neither later entries nor writes to later chunks disturb the filled ones. */
  lemma StaysFilled(words: seq<Byte>, words': seq<Byte>, received: seq<Word>, received': seq<Word>,
                    base: nat, m: nat, msFirst: bool)
    requires ChunksFilled(words, received, base, m, msFirst) && received <= received'
    requires |words'| == |words| && 3 * m <= |words|
    requires words'[..3 * m] == words[..3 * m]
    ensures ChunksFilled(words', received', base, m, msFirst)
  {
    forall k | 0 <= k < m
      ensures ChunkFilled(words', received', base, k, msFirst)
    {
      assert ChunkFilled(words, received, base, k, msFirst);
      var n := ChunkLength(|words|, k);
      assert words'[3 * k..3 * k + n] == words'[..3 * m][3 * k..3 * k + n];
      assert words[3 * k..3 * k + n] == words[..3 * m][3 * k..3 * k + n];
    }
  }

  /** Receiving one more entry into the next chunk fills one more chunk. */
  lemma FillsNext(words: seq<Byte>, words': seq<Byte>, received: seq<Word>, base: nat, m: nat, msFirst: bool)
    requires ChunksFilled(words, received, base, m, msFirst)
    requires |words'| == |words| && 3 * m <= |words| && base + m < |received|
    requires words'[..3 * m] == words[..3 * m]
    requires ChunkFilled(words', received, base, m, msFirst)
    ensures ChunksFilled(words', received, base, m + 1, msFirst)
  {
    StaysFilled(words, words', received, received, base, m, msFirst);
  }

  /** All chunks filled is the buffer filled. */
  lemma AllFilled(words: seq<Byte>, received: seq<Word>, base: nat, msFirst: bool)
    requires base + ChunkCount(|words|) <= |received|
    requires ChunksFilled(words, received, base, ChunkCount(|words|), msFirst)
    ensures words == Filled(|words|, received[base..], msFirst)
  {
    forall i | 0 <= i < |words|
      ensures words[i] == Filled(|words|, received[base..], msFirst)[i]
    {
      ByteFilled(words, received, base, msFirst, i / 3, i % 3);
    }
  }

  lemma ByteFilled(words: seq<Byte>, received: seq<Word>, base: nat, msFirst: bool, k: nat, j: nat)
    requires base + ChunkCount(|words|) <= |received|
    requires ChunksFilled(words, received, base, ChunkCount(|words|), msFirst)
    requires 3 * k + j < |words| && j < 3
    ensures words[3 * k + j] == Filled(|words|, received[base..], msFirst)[3 * k + j]
  {
    FilledAt(|words|, received[base..], msFirst, k, j);
    assert ChunkFilled(words, received, base, k, msFirst);
    assert words[3 * k + j] == words[3 * k..3 * k + ChunkLength(|words|, k)][j];
  }

  /** A chunk that has not been received yet is still the original one. */
  lemma StillOriginal(words: seq<Byte>, orig: seq<Byte>, from: nat, k: nat)
    requires |words| == |orig| && from <= k && 3 * k <= |words|
    requires words[3 * from..] == orig[3 * from..]
    ensures words[3 * k..3 * k + ChunkLength(|words|, k)] == orig[3 * k..3 * k + ChunkLength(|words|, k)]
  {
    var n, d := ChunkLength(|words|, k), 3 * k - 3 * from;
    assert words[3 * k..3 * k + n] == words[3 * from..][d..d + n];
    assert orig[3 * k..3 * k + n] == orig[3 * from..][d..d + n];
  }

  /** The blocking loop: each chunk is sent, then overwritten by the entry that comes back for it. */
  method TransferInPlace(spi: Spi1, words: array<Byte>, outMsFirst: bool, inMsFirst: bool, patience: nat)
    requires spi.Valid()
    modifies spi, words
    ensures spi.Valid() && spi.taken == |spi.sent|
    ensures spi.sent == old(spi.sent) + WriteStream(old(words[..]), outMsFirst)
    ensures |old(spi.sent)| + ChunkCount(words.Length) <= |spi.received|
    ensures words[..] == Filled(words.Length, spi.received[|old(spi.sent)|..], inMsFirst)
  {
    spi.Flush(patience);
    ghost var orig, base := words[..], |spi.sent|;
    var index, n := 0, words.Length;
    while 3 * index < n
      invariant 3 * index < n + 3 && spi.Valid()
      invariant spi.taken == |spi.sent| == base + index
      invariant ChunksFilled(words[..], spi.received, base, index, inMsFirst)
      invariant words[From(n, index)..] == orig[From(n, index)..]
      invariant spi.sent + WriteStream(orig[From(n, index)..], outMsFirst) ==
                old(spi.sent) + WriteStream(orig, outMsFirst)
    {
      ghost var rest := orig[3 * index..];
      StreamStep(spi.sent, rest, outMsFirst);
      SendChunk(spi, words, index, outMsFirst, orig);
      TransferAnswer(spi, words, index, base, inMsFirst, patience, orig);
      index := index + 1;
      assert Rest(rest) == orig[From(n, index)..];
    }
    AllFilled(words[..], spi.received, base, inMsFirst);
    assert spi.sent + [] == spi.sent;
  }

  /** Where chunk `k` of a buffer of `len` bytes begins, or the end of the buffer. */
  function From(len: nat, k: nat): (r: nat)
    ensures r <= len
  {
    if 3 * k <= len then 3 * k else len
  }

  /** Sending the next chunk, which has not been overwritten. */
  method SendChunk(spi: Spi1, words: array<Byte>, index: nat, outMsFirst: bool, ghost orig: seq<Byte>)
    requires spi.Valid() && spi.taken == |spi.sent|
    requires 3 * index < words.Length == |orig| && words[3 * index..] == orig[3 * index..]
    modifies spi
    ensures spi.Valid() && spi.taken == old(spi.taken) && spi.received == old(spi.received)
    ensures var rest := orig[3 * index..];
            spi.sent == old(spi.sent) + [Write(PortOf(rest), Entry(Head(rest), outMsFirst))]
  {
    var at, len := 3 * index, ChunkLength(words.Length, index);
    var chunk := words[at..at + len];
    assert chunk == Head(words[at..]);
    var entry := ToEntry(chunk, outMsFirst);
    spi.Put(if (index + 1) * 3 >= words.Length then Io else TxHold, entry);
  }

  /** Waiting for the answer to the one entry in flight, and storing it. */
  method TransferAnswer(spi: Spi1, words: array<Byte>, index: nat, ghost base: nat, inMsFirst: bool,
                        patience: nat, ghost orig: seq<Byte>)
    requires spi.Valid() && spi.taken == base + index && |spi.sent| == base + index + 1
    requires 3 * index < words.Length == |orig|
    requires ChunksFilled(words[..], spi.received, base, index, inMsFirst)
    requires words[3 * index..] == orig[3 * index..]
    modifies spi, words
    ensures spi.Valid() && spi.sent == old(spi.sent) && spi.taken == |spi.sent|
    ensures ChunksFilled(words[..], spi.received, base, index + 1, inMsFirst)
    ensures words[From(words.Length, index + 1)..] == orig[From(words.Length, index + 1)..]
  {
    spi.WaitForAnswer(patience);
    ghost var before := words[..];
    StaysFilled(before, before, old(spi.received), spi.received, base, index, inMsFirst);
    var at, n := 3 * index, ChunkLength(words.Length, index);
    var entry := spi.Get();
    FromEntryInto(words, at, n, entry, inMsFirst);
    ghost var after := words[..];
    assert after[at..at + n] == words[at..at + n];
    assert after[..at] == words[..at] == before[..at];
    assert after[at + n..] == words[at + n..] == before[at + n..] == before[at..][n..];
    FillsNext(before, after, spi.received, base, index, inMsFirst);
  }

  /** `transfer`: what is written, padded by what was in the read buffer, or followed by a plain write. */
  method Transfer(spi: Spi1, read: array<Byte>, write: seq<Byte>, outMsFirst: bool, inMsFirst: bool, patience: nat)
    requires spi.Valid()
    modifies spi, read
    ensures spi.Valid()
    ensures |write| <= read.Length ==>
              spi.sent == old(spi.sent) + WriteStream(write + old(read[..])[|write|..], outMsFirst)
    ensures read.Length < |write| ==>
              spi.sent == old(spi.sent) + WriteStream(write[..read.Length], outMsFirst)
                          + WriteStream(write[read.Length..], outMsFirst)
    ensures |old(spi.sent)| + ChunkCount(read.Length) <= |spi.received|
    ensures read[..] == Filled(read.Length, spi.received[|old(spi.sent)|..], inMsFirst)
  {
    var n := if |write| <= read.Length then |write| else read.Length;
    forall i | 0 <= i < n {
      read[i] := write[i];
    }
    assert read[..] == write[..n] + old(read[..])[n..];
    TransferInPlace(spi, read, outMsFirst, inMsFirst, patience);
    if read.Length < |write| {
      ghost var received := spi.received;
      assert write[..n] + old(read[..])[n..] == write[..n];
      spi.WriteBlocking(write[read.Length..], outMsFirst, patience);
      FilledExtends(read.Length, received[|old(spi.sent)|..], spi.received[|old(spi.sent)|..], inMsFirst);
    } else {
      assert write[..n] == write;
    }
  }

  lemma {:induction false} FilledExtends(len: nat, entries: seq<Word>, more: seq<Word>, msFirst: bool)
    requires ChunkCount(len) <= |entries| && entries <= more
    ensures Filled(len, more, msFirst) == Filled(len, entries, msFirst)
  {
    if 3 < len { FilledExtends(len - 3, entries[1..], more[1..], msFirst); }
  }

  /** The future of `transfer_in_place`, made right after a flush. */
  class TransferInPlaceFut {
    const spi: Spi1
    const words: array<Byte>
    const outMsFirst: bool
    const inMsFirst: bool
    var txIndex: nat
    var rxIndex: nat
    /** History: the buffer at the start, and how many entries had been exchanged before. */
    ghost const orig: seq<Byte>
    ghost const base: nat

    /**
     At every moment of every schedule: receiving never overtakes sending, everything sent encodes
     the original chunks, and exactly the received chunks have been overwritten.
     */
    ghost predicate Valid()
      reads this, spi, words
    {
      && spi.Valid() && |orig| == words.Length
      && rxIndex <= txIndex <= words.Length / 3 + 1
      && |spi.sent| == base + txIndex && spi.taken == base + rxIndex
      && (forall k :: 0 <= k < txIndex ==> spi.sent[base + k] == InPlaceWrite(orig, k, outMsFirst))
      && ChunksFilled(words[..], spi.received, base, rxIndex, inMsFirst)
      && words[From(words.Length, rxIndex)..] == orig[From(words.Length, rxIndex)..]
    }

    constructor (spi: Spi1, words: array<Byte>, outMsFirst: bool, inMsFirst: bool)
      requires spi.Valid() && spi.taken == |spi.received| == |spi.sent|
      ensures Valid() && this.spi == spi && this.words == words && orig == words[..] && base == |spi.sent|
      ensures this.outMsFirst == outMsFirst && this.inMsFirst == inMsFirst && txIndex == 0 && rxIndex == 0
    {
      this.spi, this.words, this.outMsFirst, this.inMsFirst := spi, words, outMsFirst, inMsFirst;
      txIndex, rxIndex := 0, 0;
      orig, base := words[..], |spi.sent|;
    }

    /** Time passes between two steps of the future. */
    twostate lemma TimeKeeps()
      requires old(Valid()) && spi.Valid() && spi.OnlyTime()
      requires unchanged(this) && unchanged(words)
      ensures Valid()
    {
      forall k | 0 <= k < rxIndex
        ensures ChunkFilled(words[..], spi.received, base, k, inMsFirst)
      {
        assert old(ChunkFilled(words[..], spi.received, base, k, inMsFirst));
      }
    }

    method RxEmpty() returns (empty: bool)
      requires Valid()
      modifies spi
      ensures Valid() && (empty <==> spi.rxFifo == [])
      ensures |spi.txFifo| <= |old(spi.txFifo)| && |old(spi.rxFifo)| <= |spi.rxFifo|
    {
      empty := spi.RxEmpty();
      TimeKeeps();
    }

    method TxFull() returns (full: bool)
      requires Valid()
      modifies spi
      ensures Valid() && (full <==> |spi.txFifo| == TX_DEPTH) && |spi.txFifo| <= |old(spi.txFifo)|
    {
      full := spi.TxFull();
      TimeKeeps();
    }

    method Elapse()
      requires Valid()
      modifies spi
      ensures Valid()
    {
      spi.Elapse();
      TimeKeeps();
    }

    /** One round of the receiving loop. */
    method Receive()
      requires Valid() && spi.rxFifo != [] && rxIndex <= words.Length / 3
      modifies this, spi, words
      ensures Valid() && rxIndex == old(rxIndex) + 1 && txIndex == old(txIndex)
      ensures spi.txFifo == old(spi.txFifo) && spi.rxFifo == old(spi.rxFifo)[1..]
    {
      ghost var before := words[..];
      var at, n := 3 * rxIndex, ChunkLength(words.Length, rxIndex);
      var entry := spi.Get();
      FromEntryInto(words, at, n, entry, inMsFirst);
      ghost var after := words[..];
      assert after[at..at + n] == words[at..at + n];
      assert after[..at] == words[..at] == before[..at];
      assert after[at + n..] == words[at + n..] == before[at + n..];
      FillsNext(before, after, spi.received, base, rxIndex, inMsFirst);
      assert before[at + n..] == before[at..][n..];
      rxIndex := rxIndex + 1;
    }

    /** The next chunk to send: still the original one. */
    method NextChunk() returns (chunk: seq<Byte>)
      requires Valid() && txIndex <= words.Length / 3
      ensures chunk == InPlaceChunk(orig, txIndex)
    {
      var at, n := 3 * txIndex, ChunkLength(words.Length, txIndex);
      chunk := words[at..at + n];
      StillOriginal(words[..], orig, rxIndex, txIndex);
      assert words[..][at..at + n] == chunk;
    }

    /** One round of the sending loop. */
    method Send()
      requires Valid() && |spi.txFifo| < TX_DEPTH && txIndex <= words.Length / 3
      modifies `txIndex, spi
      ensures Valid() && txIndex == old(txIndex) + 1 && |spi.txFifo| == |old(spi.txFifo)| + 1
    {
      var chunk := NextChunk();
      var entry := ToEntry(chunk, outMsFirst);
      assert Write(if txIndex < words.Length / 3 then TxHold else Io, entry) == InPlaceWrite(orig, txIndex, outMsFirst);
      spi.Put(if txIndex < words.Length / 3 then TxHold else Io, entry);
      txIndex := txIndex + 1;
      SentKeeps();
    }

    /** One more entry of the in-place stream has been sent. */
    twostate lemma SentKeeps()
      requires old(Valid()) && old(txIndex) <= words.Length / 3
      requires spi.Valid() && spi.taken == old(spi.taken) && spi.received == old(spi.received)
      requires spi.sent == old(spi.sent) + [InPlaceWrite(orig, old(txIndex), outMsFirst)]
      requires txIndex == old(txIndex) + 1 && rxIndex == old(rxIndex) && unchanged(words)
      ensures Valid()
    {
      assert words[..] == old(words[..]);
      forall k | 0 <= k < txIndex
        ensures spi.sent[base + k] == InPlaceWrite(orig, k, outMsFirst)
      {
        assert k < old(txIndex) ==> old(spi.sent[base + k]) == InPlaceWrite(orig, k, outMsFirst);
      }
    }

    /** The receiving loop: it takes all that has arrived, as far as the buffer has chunks for it. */
    method ReceiveAll()
      requires Valid()
      modifies this, spi, words
      ensures Valid() && txIndex == old(txIndex) && rxIndex >= old(rxIndex)
      ensures |spi.txFifo| <= |old(spi.txFifo)|
      ensures rxIndex <= words.Length / 3 ==> |old(spi.rxFifo)| <= rxIndex - old(rxIndex)
    {
      var empty := RxEmpty();
      while !empty && rxIndex <= words.Length / 3
        invariant Valid() && txIndex == old(txIndex) && rxIndex >= old(rxIndex)
        invariant empty <==> spi.rxFifo == []
        invariant |spi.txFifo| <= |old(spi.txFifo)|
        invariant |old(spi.rxFifo)| <= |spi.rxFifo| + (rxIndex - old(rxIndex))
        decreases words.Length / 3 + 1 - rxIndex
      {
        Receive();
        empty := RxEmpty();
      }
    }

    /** The sending loop: it sends at least as many chunks as there was room for. */
    method SendAll()
      requires Valid()
      modifies `txIndex, spi
      ensures Valid() && txIndex >= old(txIndex)
      ensures txIndex <= words.Length / 3 ==> TX_DEPTH - |old(spi.txFifo)| <= txIndex - old(txIndex)
    {
      var full := TxFull();
      while !full && txIndex <= words.Length / 3
        invariant Valid() && txIndex >= old(txIndex)
        invariant full <==> |spi.txFifo| == TX_DEPTH
        invariant |spi.txFifo| - |old(spi.txFifo)| <= txIndex - old(txIndex)
        decreases words.Length / 3 + 1 - txIndex
      {
        Send();
        full := TxFull();
      }
    }

    /** The whole transfer has taken place. */
    ghost predicate Completed()
      reads this, spi, words
    {
      && |spi.sent| >= base && spi.sent[base..] == InPlaceStream(orig, outMsFirst)
      && base + ChunkCount(words.Length) <= |spi.received|
      && words[..] == Filled(words.Length, spi.received[base..], inMsFirst)
    }

    lemma AllReceived()
      requires Valid() && rxIndex == words.Length / 3 + 1
      ensures Completed()
    {
      AllFilled(words[..], spi.received, base, inMsFirst);
    }

    /**
     One poll: Ready means that every entry was sent from the original bytes, and that chunk `k` of the
     buffer holds the `k`-th received entry.
     */
    method Poll(task: Task) returns (r: Polled)
      requires Valid()
      modifies this, spi, words
      ensures Valid()
      ensures r == Ready <==> rxIndex == words.Length / 3 + 1
      ensures r == Ready ==> Completed()
      ensures r == Pending ==>
                && spi.waker == Some(task)
                && (if old(txIndex) > words.Length / 3 then 6 else 7) in spi.enables
      ensures r == Pending ==> |old(spi.rxFifo)| <= rxIndex - old(rxIndex)
      ensures r == Pending && txIndex <= words.Length / 3 ==>
                TX_DEPTH - |old(spi.txFifo)| <= txIndex - old(txIndex)
    {
      ReceiveAll();
      if rxIndex > words.Length / 3 {
        AllReceived();
        return Ready;
      }
      if txIndex > words.Length / 3 {
        Elapse();
        spi.Arm(IDLE_INTERRUPT, task);
        return Pending;
      }
      SendAll();
      Elapse();
      spi.Arm(EMPTY_INTERRUPT, task);
      return Pending;
    }

    /** Any number of polls with any amount of time between them. */
    method Run(polls: nat, task: Task) returns (done: bool)
      requires Valid()
      modifies this, spi, words
      ensures Valid()
      ensures done ==> Completed()
    {
      done := false;
      for i := 0 to polls
        invariant Valid() && !done
      {
        Elapse();
        var r := Poll(task);
        if r == Ready {
          return true;
        }
      }
    }
  }
}
