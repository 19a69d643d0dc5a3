/**
 The auxiliary SPI driver as code over its FIFOs.  The device answers, and interrupts are taken, at
 any register access.  One in-order receive entry comes back for every entry sent, and the receive
 FIFO is assumed not to overflow.
 */
module SpiBus {
  import opened Options
  import opened Registers
  import opened SpiEntries
  import opened SpiStreams

  type Task = nat

  const TX_DEPTH: nat := 4

  /** The interrupt enable bits of the second control register. */
  const IDLE_INTERRUPT: nat := 6
  const EMPTY_INTERRUPT: nat := 7

  datatype Polled = Pending | Ready

  class Spi1 {
    var txFifo: seq<Word>
    var rxFifo: seq<Word>
    var enables: Bits
    var waker: Option<Task>
    /** History: all entries written, all entries received, and how many of those have left the FIFO. */
    ghost var sent: seq<Write>
    ghost var received: seq<Word>
    ghost var taken: nat
    /** History: the tasks that the interrupt handler has woken. */
    ghost var woken: seq<Task>

    ghost predicate Valid()
      reads this
    {
      && |txFifo| <= TX_DEPTH
      && |received| + |txFifo| == |sent|
      && taken <= |received| && rxFifo == received[taken..]
    }

    constructor ()
      ensures Valid() && sent == [] && received == []
    {
      txFifo, rxFifo, enables, waker := [], [], {}, None;
      sent, received, taken, woken := [], [], 0, [];
    }

    /** The waker is where it was, or its task was the first to be woken since. */
    twostate predicate WakerKept()
      reads this
    {
      || (waker == old(waker) && woken == old(woken))
      || (old(waker).Some? && old(woken) + [old(waker).value] <= woken)
    }

    /** What time does: entries may be exchanged, but the program neither writes nor reads one. */
    twostate predicate OnlyTime()
      reads this
    {
      sent == old(sent) && taken == old(taken) && old(received) <= received && WakerKept()
    }

    method Exchange(answer: Word)
      requires Valid() && txFifo != []
      modifies `txFifo, `rxFifo, `received
      ensures Valid() && OnlyTime() && |txFifo| == |old(txFifo)| - 1
    {
      txFifo := txFifo[1..];
      rxFifo := rxFifo + [answer];
      received := received + [answer];
    }

    /** `spi::interrupt_handler`: disables both interrupts and wakes the stored task. */
    method InterruptHandler()
      modifies `enables, `waker, `woken
      ensures enables == old(enables) - {6, 7} && waker == None
      ensures woken == old(woken) + if old(waker).Some? then [old(waker).value] else []
    {
      enables := enables - {IDLE_INTERRUPT, EMPTY_INTERRUPT};
      woken := woken + if waker.Some? then [waker.value] else [];
      waker := None;
    }

    method Elapse()
      requires Valid()
      modifies this
      ensures Valid() && OnlyTime() && |txFifo| <= |old(txFifo)|
    {
      var events: nat :| true;
      while 0 < events
        invariant Valid() && OnlyTime() && |txFifo| <= |old(txFifo)|
      {
        events := events - 1;
        var exchange: bool := *;
        if txFifo != [] && exchange {
          var answer: Word :| true;
          Exchange(answer);
        } else {
          InterruptHandler();
        }
      }
    }

    method TxFull() returns (full: bool)
      requires Valid()
      modifies this
      ensures Valid() && OnlyTime() && |txFifo| <= |old(txFifo)|
      ensures full <==> |txFifo| == TX_DEPTH
    {
      Elapse();
      full := |txFifo| == TX_DEPTH;
    }

    method RxEmpty() returns (empty: bool)
      requires Valid()
      modifies this
      ensures Valid() && OnlyTime() && |txFifo| <= |old(txFifo)|
      ensures empty <==> rxFifo == []
    {
      Elapse();
      empty := rxFifo == [];
    }

    method Put(port: Port, entry: Word)
      requires Valid() && |txFifo| < TX_DEPTH
      modifies `txFifo, `sent
      ensures Valid() && sent == old(sent) + [Write(port, entry)] && |txFifo| == |old(txFifo)| + 1
    {
      txFifo := txFifo + [entry];
      sent := sent + [Write(port, entry)];
    }

    method Get() returns (entry: Word)
      requires Valid() && rxFifo != []
      modifies `rxFifo, `taken
      ensures Valid() && entry == received[old(taken)] && taken == old(taken) + 1
    {
      entry := rxFifo[0];
      rxFifo := rxFifo[1..];
      taken := taken + 1;
    }

    method Arm(bit: nat, task: Task)
      modifies `enables, `waker
      ensures enables == old(enables) + {bit} && waker == Some(task)
    {
      waker := Some(task);
      enables := enables + {bit};
    }

    /**
     `while full {}`, with `patience` a bound on how many more reads find the FIFO full before the
     device takes an entry.
     */
    method WaitForRoom(patience: nat)
      requires Valid()
      modifies this
      ensures Valid() && OnlyTime() && |txFifo| < TX_DEPTH && |txFifo| <= |old(txFifo)|
    {
      var left := patience;
      var full := TxFull();
      while full
        invariant Valid() && OnlyTime() && |txFifo| <= |old(txFifo)|
        invariant full <==> |txFifo| == TX_DEPTH
        decreases full, left
      {
        if left == 0 {
          var answer: Word :| true;
          Exchange(answer);
        } else {
          left := left - 1;
        }
        full := TxFull();
      }
    }

    /** `while empty {}`: something is in flight, so the device answers in the end. */
    method WaitForAnswer(patience: nat)
      requires Valid() && taken < |sent|
      modifies this
      ensures Valid() && OnlyTime() && rxFifo != [] && |txFifo| <= |old(txFifo)|
    {
      var left := patience;
      var empty := RxEmpty();
      while empty
        invariant Valid() && OnlyTime() && |txFifo| <= |old(txFifo)|
        invariant empty <==> rxFifo == []
        decreases empty, left
      {
        if left == 0 {
          var answer: Word :| true;
          Exchange(answer);
        } else {
          left := left - 1;
        }
        empty := RxEmpty();
      }
    }

    /** `flush`: wait until nothing is in flight, then clear the FIFOs. */
    method Flush(patience: nat)
      requires Valid()
      modifies this
      ensures Valid() && sent == old(sent) && old(received) <= received
      ensures txFifo == [] && rxFifo == [] && taken == |received| == |sent|
    {
      var left := patience;
      Elapse();
      while txFifo != []
        invariant Valid() && OnlyTime()
        decreases |txFifo|, left
      {
        if left == 0 {
          var answer: Word :| true;
          Exchange(answer);
        } else {
          left := left - 1;
          Elapse();
        }
      }
      txFifo, rxFifo := [], [];
      taken := |received|;
    }

    /** One poll of the future of `flush`. */
    method PollFlush(task: Task) returns (r: Polled)
      requires Valid()
      modifies this
      ensures Valid() && sent == old(sent) && old(received) <= received
      ensures r == Ready ==> txFifo == [] && rxFifo == [] && taken == |received| == |sent|
      ensures r == Pending ==> taken == old(taken) && 6 in enables
      ensures old(txFifo) == [] ==> r == Ready
      ensures old(woken) <= woken
      ensures r == Pending ==> waker == Some(task) || task in woken[|old(woken)|..]
    {
      Elapse();
      if txFifo != [] {
        waker := Some(task);
        ghost var before := woken;
        Elapse();
        assert waker == Some(task) || woken[|old(woken)|..][|before| - |old(woken)|] == task;
        enables := enables + {IDLE_INTERRUPT};
        return Pending;
      } else {
        txFifo, rxFifo := [], [];
        taken := |received|;
        return Ready;
      }
    }

    /** Blocking `write`. */
    method WriteBlocking(words: seq<Byte>, msFirst: bool, patience: nat)
      requires Valid()
      modifies this
      ensures Valid() && taken == old(taken) && old(received) <= received
      ensures sent == old(sent) + WriteStream(words, msFirst)
    {
      var index := 0;
      var rest := words;
      while rest != []
        invariant Valid() && taken == old(taken) && old(received) <= received
        invariant rest == if 3 * index <= |words| then words[3 * index..] else []
        invariant sent + WriteStream(rest, msFirst) == old(sent) + WriteStream(words, msFirst)
        decreases |rest|
      {
        StreamStep(sent, rest, msFirst);
        var chunk := Head(rest);
        rest := Rest(rest);
        var entry := ToEntry(chunk, msFirst);
        WaitForRoom(patience);
        if (index + 1) * 3 >= |words| {
          Put(Io, entry);
        } else {
          Put(TxHold, entry);
        }
        index := index + 1;
      }
      assert sent + [] == sent;
    }
  }

  // ---------------------------------------------------------------- futures

  /** The future of `write`: the chunks that are left. */
  class WriteFut {
    const spi: Spi1
    const msFirst: bool
    const words: seq<Byte>
    var rest: seq<Byte>
    ghost const base: seq<Write>

    /** Whatever the schedule: what was sent, followed by the stream of the rest, is the stream of it all. */
    ghost predicate Valid()
      reads this, spi
    {
      && spi.Valid()
      && spi.sent + WriteStream(rest, msFirst) == base + WriteStream(words, msFirst)
    }

    constructor (spi: Spi1, words: seq<Byte>, msFirst: bool)
      requires spi.Valid()
      ensures Valid() && this.spi == spi && this.words == words && this.msFirst == msFirst && base == spi.sent
    {
      this.spi, this.words, this.msFirst, rest, base := spi, words, msFirst, words, spi.sent;
    }

    /** One round of the loop: the next chunk goes out, through Io if it is the last. */
    method SendChunk()
      requires Valid() && rest != [] && |spi.txFifo| < TX_DEPTH
      modifies this, spi
      ensures Valid() && rest == Rest(old(rest)) && |rest| < |old(rest)|
      ensures |spi.sent| == |old(spi.sent)| + 1 && |spi.txFifo| == |old(spi.txFifo)| + 1
    {
      StreamStep(spi.sent, rest, msFirst);
      var chunk := Head(rest);
      rest := Rest(rest);
      var entry := ToEntry(chunk, msFirst);
      spi.Put(if rest == [] then Io else TxHold, entry);
    }

    /** One poll: Ready means exactly the entries of the blocking `write`, ports included. */
    method Poll(task: Task) returns (r: Polled)
      requires Valid()
      modifies this, spi
      ensures Valid() && |rest| <= |old(rest)|
      ensures r == Ready ==> rest == [] && spi.sent == base + WriteStream(words, msFirst)
      ensures r == Pending ==> spi.waker == Some(task) && 7 in spi.enables
      ensures |spi.sent| == |old(spi.sent)| + ChunkCount(|old(rest)|) - ChunkCount(|rest|)
      ensures r == Pending ==> TX_DEPTH - |old(spi.txFifo)| <= |spi.sent| - |old(spi.sent)|
      ensures |old(spi.txFifo)| < TX_DEPTH && ChunkCount(|old(rest)|) <= TX_DEPTH - |old(spi.txFifo)| ==> r == Ready
    {
      var full := spi.TxFull();
      while !full
        invariant Valid() && |rest| <= |old(rest)|
        invariant full <==> |spi.txFifo| == TX_DEPTH
        invariant |spi.sent| == |old(spi.sent)| + ChunkCount(|old(rest)|) - ChunkCount(|rest|)
        invariant |spi.txFifo| - |old(spi.txFifo)| <= |spi.sent| - |old(spi.sent)|
        invariant rest == [] ==> rest == old(rest) && spi.sent == old(spi.sent)
        decreases |rest|, !full
      {
        if rest == [] {
          assert spi.sent + [] == spi.sent;
          return Ready;
        }
        SendChunk();
        if rest == [] {
          assert spi.sent + [] == spi.sent;
          return Ready;
        }
        full := spi.TxFull();
      }
      spi.Elapse();
      spi.Arm(EMPTY_INTERRUPT, task);
      return Pending;
    }

    /** Any number of polls with any amount of time between them. */
    method Run(polls: nat, task: Task) returns (done: bool)
      requires Valid()
      modifies this, spi
      ensures Valid()
      ensures done ==> spi.sent == base + WriteStream(words, msFirst)
    {
      done := false;
      for i := 0 to polls
        invariant Valid() && !done
      {
        spi.Elapse();
        var r := Poll(task);
        if r == Ready {
          return true;
        }
      }
    }
  }
}
