/**
 The mini UART reader and writer as code over the hardware FIFOs.  Bytes arrive and leave, and an
 unmasked interrupt is taken, at any register access.
 */
module UartStreams {
  import opened Options
  import opened Registers
  import opened SleepWake

  type Byte = bv8

  datatype ReadPoll = ReadPending | ReadOk(count: nat) | ReadOverrun
  datatype WritePoll = WritePending | WriteOk(count: nat)
  datatype AllPoll = AllPending | AllDone | AllPanicked

  function Min(a: nat, b: nat): nat {
    if a <= b then a else b
  }

  class MiniUart {
    var rx: seq<Byte>
    var tx: seq<Byte>
    /** The overrun flag of the line status register. */
    var overrun: bool
    var ier: Bits
    var rxWaker: Option<Task>
    var txWaker: Option<Task>
    /** History: bytes that reached the receiver, that its FIFO took, that were read, and that left on the wire. */
    ghost var arrived: seq<Byte>
    ghost var accepted: seq<Byte>
    ghost var taken: seq<Byte>
    ghost var wire: seq<Byte>
    /** History: how many bytes arrived at a full FIFO. */
    ghost var lost: nat
    /** History: how many status reads found the receive FIFO empty. */
    ghost var emptyReads: nat

    ghost predicate Valid()
      reads this
    {
      && |rx| <= FIFO_SIZE && |tx| <= FIFO_SIZE
      && accepted == taken + rx
      && (lost == 0 ==> accepted == arrived)
      && (overrun ==> 0 < lost)
    }

    /** Everything given to the transmitter: what has left, then what still waits in the FIFO. */
    ghost function Sent(): seq<Byte>
      reads this
    {
      wire + tx
    }

    constructor ()
      ensures Valid() && accepted == [] && Sent() == [] && lost == 0
    {
      rx, tx, overrun, ier, rxWaker, txWaker := [], [], false, {}, None, None;
      arrived, accepted, taken, wire, lost, emptyReads := [], [], [], [], 0, 0;
    }

    method Arrive(b: Byte)
      requires Valid()
      modifies `rx, `overrun, `arrived, `accepted, `lost
      ensures Valid() && arrived == old(arrived) + [b]
      ensures |old(rx)| < FIFO_SIZE ==>
                rx == old(rx) + [b] && accepted == old(accepted) + [b] && lost == old(lost) && overrun == old(overrun)
      ensures |old(rx)| == FIFO_SIZE ==>
                rx == old(rx) && accepted == old(accepted) && overrun && lost == old(lost) + 1
    {
      arrived := arrived + [b];
      if |rx| < FIFO_SIZE {
        rx := rx + [b];
        accepted := accepted + [b];
      } else {
        overrun, lost := true, lost + 1;
      }
    }

    method Transmit()
      requires Valid() && tx != []
      modifies `tx, `wire
      ensures Valid() && Sent() == old(Sent()) && |tx| == |old(tx)| - 1
    {
      wire := wire + [tx[0]];
      tx := tx[1..];
    }

    /** `uart::interrupt_handler`: the identity register reported these sides. */
    method InterruptHandler(writerBit: bool, readerBit: bool) returns (woken: set<Task>)
      modifies `ier, `rxWaker, `txWaker
      ensures ier == old(ier) - (if writerBit then {Bit(Tx)} else {}) - (if readerBit then {Bit(Rx)} else {})
      ensures txWaker == if writerBit then None else old(txWaker)
      ensures rxWaker == if readerBit then None else old(rxWaker)
      ensures forall t :: t in woken <==>
                (writerBit && old(txWaker) == Some(t)) || (readerBit && old(rxWaker) == Some(t))
    {
      woken := {};
      if writerBit {
        ier := ier - {Bit(Tx)};
        if txWaker.Some? { woken := woken + {txWaker.value}; }
        txWaker := None;
      }
      if readerBit {
        ier := ier - {Bit(Rx)};
        if rxWaker.Some? { woken := woken + {rxWaker.value}; }
        rxWaker := None;
      }
    }

    /** What time does: it neither reads for the program nor writes for it. */
    twostate predicate OnlyTime()
      reads this
    {
      && taken == old(taken)
      && Sent() == old(Sent()) && |tx| <= |old(tx)|
      && old(rx) <= rx && old(accepted) <= accepted && old(arrived) <= arrived
      && old(lost) <= lost
    }

    /** The overrun flag was set, or a byte has been lost since. */
    twostate predicate Overrunning()
      reads this
    {
      old(overrun) || old(lost) < lost
    }

    /** The hardware and the interrupt handlers run on for some unknown time. */
    method Elapse()
      requires Valid()
      modifies this
      ensures Valid() && OnlyTime() && (old(overrun) ==> overrun) && (overrun ==> Overrunning())
      ensures emptyReads == old(emptyReads)
    {
      var events: nat :| true;
      while 0 < events
        invariant Valid() && OnlyTime() && (old(overrun) ==> overrun) && (overrun ==> Overrunning())
        invariant emptyReads == old(emptyReads)
      {
        events := events - 1;
        if * {
          var b: Byte :| true;
          Arrive(b);
        } else if tx != [] {
          Transmit();
        } else {
          var writerBit, readerBit: bool := *, *;
          var _ := InterruptHandler(writerBit, readerBit);
        }
      }
    }

    /** A read of the line status register; the hardware may drop the overrun flag afterwards. */
    method LineStatus() returns (overran: bool, ready: bool)
      requires Valid()
      modifies this
      ensures Valid() && OnlyTime()
      ensures ready <==> rx != []
      ensures (old(overrun) ==> overran) && (overran ==> Overrunning()) && (!overran ==> !overrun)
      ensures emptyReads == old(emptyReads) + if ready then 0 else 1
    {
      Elapse();
      overran, ready := overrun, rx != [];
      if !ready { emptyReads := emptyReads + 1; }
      if * { overrun := false; }
    }

    method ReadIo() returns (b: Byte)
      requires Valid() && rx != []
      modifies `rx, `taken
      ensures Valid() && b == old(rx)[0] && rx == old(rx)[1..] && taken == old(taken) + [b]
    {
      b := rx[0];
      rx := rx[1..];
      taken := taken + [b];
    }

    method WriteIo(b: Byte)
      requires Valid() && |tx| < FIFO_SIZE
      modifies `tx
      ensures Valid() && tx == old(tx) + [b]
    {
      tx := tx + [b];
    }

    /** The critical section that arms a side: waker first, then the enable bits. */
    method Arm(side: Side, task: Task)
      modifies `ier, `rxWaker, `txWaker
      ensures ier == old(ier) + ArmBits(side)
      ensures rxWaker == if side == Rx then Some(task) else old(rxWaker)
      ensures txWaker == if side == Tx then Some(task) else old(txWaker)
    {
      if side == Rx { rxWaker := Some(task); } else { txWaker := Some(task); }
      var reg := ier;
      reg := reg + ArmBits(side);
      ier := reg;
    }

    /** The blocking loops see an empty (full) FIFO only `patience` times more before the hardware moves. */
    method WaitForByte(patience: nat) returns (overran: bool, ready: bool, left: nat)
      requires Valid()
      modifies this
      ensures Valid() && OnlyTime()
      ensures ready <==> rx != []
      ensures (old(overrun) ==> overran) && (overran ==> Overrunning()) && (!overran ==> !overrun)
      ensures !ready ==> left < patience
      ensures emptyReads == old(emptyReads) + if ready then 0 else 1
    {
      left := patience;
      if patience == 0 && rx == [] {
        var b: Byte :| true;
        Arrive(b);
      } else if 0 < patience {
        left := patience - 1;
      }
      overran, ready := LineStatus();
    }

    /** The status loop of the blocking reads; only the first byte of a `read` is waited for. */
    method AwaitByte(block: bool, patience: nat) returns (overran: bool, ready: bool)
      requires Valid()
      modifies this
      ensures Valid() && OnlyTime()
      ensures ready <==> rx != []
      ensures (old(overrun) ==> overran) && (overran ==> Overrunning()) && (!overran ==> !overrun)
      ensures block ==> overran || ready
      ensures !block || old(rx) != [] ==> emptyReads == old(emptyReads) + if ready then 0 else 1
    {
      var left;
      overran, ready, left := WaitForByte(patience);
      while block && !overran && !ready
        invariant Valid() && OnlyTime()
        invariant ready <==> rx != []
        invariant (old(overrun) ==> overran) && (overran ==> Overrunning()) && (!overran ==> !overrun)
        invariant !block || old(rx) != [] ==> emptyReads == old(emptyReads) + if ready then 0 else 1
        decreases if ready then 0 else left + 1
      {
        overran, ready, left := WaitForByte(left);
      }
    }

    /** `*byte = IO` for the slot at `count`. */
    method ReadInto(buf: array<Byte>, count: nat)
      requires Valid() && rx != [] && count < buf.Length
      modifies `rx, `taken, buf
      ensures Valid() && taken == old(taken) + [buf[count]] && buf[count] == old(rx)[0]
      ensures buf[..count + 1] == old(buf[..count]) + [buf[count]]
      ensures buf[count + 1..] == old(buf[count + 1..]) && rx == old(rx)[1..]
    {
      var b := ReadIo();
      buf[count] := b;
    }

    method WaitForRoom(patience: nat) returns (available: nat, left: nat)
      requires Valid()
      modifies this
      ensures Valid() && OnlyTime()
      ensures available == FIFO_SIZE - |tx|
      ensures available == 0 ==> left < patience
    {
      left := patience;
      if patience == 0 && |tx| == FIFO_SIZE {
        Transmit();
      } else if 0 < patience {
        left := patience - 1;
      }
      Elapse();
      available := FIFO_SIZE - |tx|;
    }

    // -------------------------------------------------------------- reading

    /**
     Blocking `read`.  Success hands over exactly the next bytes of the accepted stream, at least one
     if the buffer has room; only the first is waited for, so that the first status read that then finds the
     FIFO empty is the last; an overrun is reported only if a byte was lost, and then `swallowed`
     bytes have been taken that the caller is not told about.
     */
    method Read(buf: array<Byte>, patience: nat) returns (r: ReadPoll, ghost swallowed: nat)
      requires Valid()
      modifies this, buf
      ensures Valid() && Sent() == old(Sent()) && !r.ReadPending?
      ensures r.ReadOk? ==>
                && r.count <= buf.Length && (r.count == 0 ==> buf.Length == 0)
                && taken == old(taken) + buf[..r.count]
                && buf[r.count..] == old(buf[..])[r.count..]
      ensures r.ReadOk? ==> Min(buf.Length, |old(rx)|) <= r.count && (r.count < buf.Length ==> rx == [])
      ensures r.ReadOk? && lost == 0 ==> taken <= arrived
      ensures r.ReadOverrun? ==> Overrunning() && swallowed <= buf.Length && taken == old(taken) + buf[..swallowed]
      ensures old(overrun) && 0 < buf.Length ==> r.ReadOverrun?
      ensures old(rx) != [] ==> emptyReads <= old(emptyReads) + 1
    {
      var count := 0;
      while count < buf.Length
        invariant 0 <= count <= buf.Length
        invariant Valid() && Sent() == old(Sent())
        invariant taken == old(taken) + buf[..count]
        invariant buf[count..] == old(buf[..])[count..] && old(accepted) <= accepted && old(lost) <= lost
        invariant (count == 0 ==> old(rx) <= rx) && (old(rx) != [] ==> emptyReads == old(emptyReads))
        invariant (overrun ==> Overrunning()) && (old(overrun) ==> overrun && count == 0)
      {
        var overran, ready := AwaitByte(count == 0, patience);
        if overran {
          return ReadOverrun, count;
        }
        if !ready {
          return ReadOk(count), 0;
        }
        ReadInto(buf, count);
        count := count + 1;
      }
      return ReadOk(count), 0;
    }

    /** Blocking `read_exact`: success fills the buffer with exactly the next bytes, however they straggle in. */
    method ReadExact(buf: array<Byte>, patience: nat) returns (ok: bool, ghost swallowed: nat)
      requires Valid()
      modifies this, buf
      ensures Valid() && Sent() == old(Sent())
      ensures ok ==> taken == old(taken) + buf[..]
      ensures !ok ==> Overrunning() && swallowed <= buf.Length && taken == old(taken) + buf[..swallowed]
      ensures old(overrun) && 0 < buf.Length ==> !ok
    {
      var count := 0;
      while count < buf.Length
        invariant 0 <= count <= buf.Length
        invariant Valid() && Sent() == old(Sent())
        invariant taken == old(taken) + buf[..count] && old(lost) <= lost
        invariant (overrun ==> Overrunning()) && (old(overrun) ==> overrun && count == 0)
      {
        var overran, ready := AwaitByte(true, patience);
        if overran {
          return false, count;
        }
        ReadInto(buf, count);
        count := count + 1;
      }
      assert buf[..count] == buf[..];
      return true, 0;
    }

    /**
     One poll of the future of `read`.  Pending has consumed nothing, so dropping it is safe, and has
     left the waker and the enable bit; Ready hands over exactly the next bytes.
     */
    method PollRead(buf: array<Byte>, task: Task) returns (r: ReadPoll, ghost swallowed: nat)
      requires Valid()
      modifies this, buf
      ensures Valid() && Sent() == old(Sent())
      ensures r.ReadPending? ==>
                && taken == old(taken) && buf[..] == old(buf[..]) && 0 < buf.Length && old(rx) == []
                && rxWaker == Some(task) && ArmBits(Rx) <= ier
      ensures r.ReadOk? ==>
                && r.count <= buf.Length && (r.count == 0 ==> buf.Length == 0)
                && taken == old(taken) + buf[..r.count]
                && buf[r.count..] == old(buf[..])[r.count..]
      ensures r.ReadOk? ==> Min(buf.Length, |old(rx)|) <= r.count && (r.count < buf.Length ==> rx == [])
      ensures r.ReadOk? && lost == 0 ==> taken <= arrived
      ensures r.ReadOverrun? ==> Overrunning() && swallowed <= buf.Length && taken == old(taken) + buf[..swallowed]
      ensures old(overrun) && 0 < buf.Length ==> r.ReadOverrun?
    {
      var count := 0;
      while count < buf.Length
        invariant 0 <= count <= buf.Length
        invariant Valid() && Sent() == old(Sent())
        invariant taken == old(taken) + buf[..count]
        invariant buf[count..] == old(buf[..])[count..] && old(accepted) <= accepted && old(lost) <= lost
        invariant (overrun ==> Overrunning()) && (old(overrun) ==> overrun && count == 0)
      {
        var overran, ready := LineStatus();
        if overran {
          return ReadOverrun, count;
        }
        if ready {
          ReadInto(buf, count);
        } else if count != 0 {
          return ReadOk(count), 0;
        } else {
          Elapse();
          Arm(Rx, task);
          return ReadPending, 0;
        }
        count := count + 1;
      }
      return ReadOk(buf.Length), 0;
    }

    // -------------------------------------------------------------- writing

    /** The loop that gives `count` bytes to the FIFO, which drains as it goes. */
    method Push(buf: seq<Byte>, count: nat)
      requires Valid() && count <= |buf| && |tx| + count <= FIFO_SIZE
      modifies this
      ensures Valid() && taken == old(taken) && Sent() == old(Sent()) + buf[..count]
      ensures |tx| <= |old(tx)| + count
    {
      var i := 0;
      while i < count
        invariant 0 <= i <= count
        invariant Valid() && taken == old(taken)
        invariant |tx| + (count - i) <= FIFO_SIZE && |tx| <= |old(tx)| + i
        invariant Sent() == old(Sent()) + buf[..i]
      {
        Elapse();
        ghost var before := Sent();
        WriteIo(buf[i]);
        assert Sent() == before + [buf[i]];
        assert buf[..i + 1] == buf[..i] + [buf[i]];
        i := i + 1;
      }
    }

    /** Blocking `write`: a non-empty prefix goes to the FIFO, in order. */
    method Write(buf: seq<Byte>, patience: nat) returns (written: nat)
      requires Valid()
      modifies this
      ensures Valid() && taken == old(taken)
      ensures written <= |buf| && (written == 0 <==> buf == [])
      ensures Min(|buf|, FIFO_SIZE - |old(tx)|) <= written
      ensures Sent() == old(Sent()) + buf[..written]
    {
      if buf == [] {
        return 0;
      }
      var available, left := WaitForRoom(patience);
      while available == 0
        invariant Valid() && OnlyTime() && available == FIFO_SIZE - |tx|
        decreases if available == 0 then left + 1 else 0
      {
        available, left := WaitForRoom(left);
      }
      written := Min(|buf|, available);
      Push(buf, written);
    }

    /** One poll of the future of `write`: Pending only at a full FIFO, with the wakeup armed. */
    method PollWrite(buf: seq<Byte>, task: Task) returns (r: WritePoll)
      requires Valid()
      modifies this
      ensures Valid() && taken == old(taken)
      ensures r.WritePending? ==> |old(tx)| == FIFO_SIZE
      ensures r.WritePending? ==> buf != [] && Sent() == old(Sent()) && txWaker == Some(task) && ArmBits(Tx) <= ier
      ensures r.WriteOk? ==>
                && Min(|buf|, FIFO_SIZE - |old(tx)|) <= r.count <= |buf| && (r.count == 0 <==> buf == [])
                && Sent() == old(Sent()) + buf[..r.count] && |tx| <= |old(tx)| + r.count
    {
      if buf == [] {
        return WriteOk(0);
      }
      Elapse();
      var available := FIFO_SIZE - |tx|;
      if available == 0 {
        Elapse();
        Arm(Tx, task);
        return WritePending;
      }
      var written := Min(|buf|, available);
      Push(buf, written);
      return WriteOk(written);
    }
  }

  /** Writing `n` more bytes of a remaining slice lengthens the written prefix by these. */
  lemma Advance(data: seq<Byte>, rest: seq<Byte>, n: nat)
    requires n <= |rest| <= |data| && rest == data[|data| - |rest|..]
    ensures rest[n..] == data[|data| - |rest[n..]|..]
    ensures data[..|data| - |rest|] + rest[..n] == data[..|data| - |rest[n..]|]
  {
  }

  /** The future of `write_all`: the remaining slice, and what had been sent when it was made. */
  class WriteAllFut {
    const uart: MiniUart
    const data: seq<Byte>
    var rest: seq<Byte>
    ghost const base: seq<Byte>

    /** At every moment of every schedule: exactly the written prefix has been given to the transmitter. */
    ghost predicate Valid()
      reads this, uart
    {
      && uart.Valid()
      && |rest| <= |data| && rest == data[|data| - |rest|..]
      && uart.Sent() == base + data[..|data| - |rest|]
    }

    constructor (uart: MiniUart, data: seq<Byte>)
      requires uart.Valid()
      ensures Valid() && this.uart == uart && this.data == data && base == uart.Sent() && rest == data
    {
      this.uart, this.data, this.rest := uart, data, data;
      this.base := uart.Sent();
    }

    /** One round: what the future of `write` does with the remaining slice. */
    method WriteSome(task: Task) returns (r: WritePoll)
      requires Valid() && rest != []
      modifies this, uart
      ensures Valid() && uart.taken == old(uart.taken)
      ensures r.WritePending? ==> rest == old(rest) && uart.txWaker == Some(task) && ArmBits(Tx) <= uart.ier
      ensures r.WritePending? ==> |old(uart.tx)| == FIFO_SIZE
      ensures r.WriteOk? ==> |rest| < |old(rest)| && 0 < r.count
      ensures r.WriteOk? ==> Min(|old(rest)|, FIFO_SIZE - |old(uart.tx)|) <= |old(rest)| - |rest|
      ensures r.WriteOk? ==> |uart.tx| <= |old(uart.tx)| + (|old(rest)| - |rest|)
    {
      r := uart.PollWrite(rest, task);
      if r.WriteOk? {
        Advance(data, rest, r.count);
        rest := rest[r.count..];
      }
    }

    /**
     One poll: done means all of `data`, in order, after what was sent before; `Ok(0)` never comes.  The poll
     writes at least as much as there was room for: it completes if that suffices, and is Pending only for a
     remainder that did not fit.
     */
    method Poll(task: Task) returns (r: AllPoll)
      requires Valid()
      modifies this, uart
      ensures Valid() && |rest| <= |old(rest)|
      ensures r != AllPanicked
      ensures r == AllDone ==> uart.Sent() == base + data
      ensures r == AllPending ==> rest != [] && uart.txWaker == Some(task) && ArmBits(Tx) <= uart.ier
      ensures |old(rest)| <= FIFO_SIZE - |old(uart.tx)| ==> r == AllDone
      ensures r == AllPending ==> FIFO_SIZE - |old(uart.tx)| <= |old(rest)| - |rest|
      ensures uart.taken == old(uart.taken)
    {
      while rest != []
        invariant Valid() && |rest| <= |old(rest)| && uart.taken == old(uart.taken)
        invariant |uart.tx| <= |old(uart.tx)| + (|old(rest)| - |rest|)
        decreases |rest|
      {
        var w := WriteSome(task);
        match w {
          case WritePending => return AllPending;
          case WriteOk(n) =>
            if n == 0 {
              return AllPanicked;
            }
        }
      }
      return AllDone;
    }

    /** Any number of polls with any amount of time between them. */
    method Run(polls: nat, task: Task) returns (done: bool)
      requires Valid()
      modifies this, uart
      ensures Valid()
      ensures done ==> uart.Sent() == base + data
      ensures 0 < polls && |old(rest)| <= FIFO_SIZE - |old(uart.tx)| ==> done
    {
      done := false;
      for i := 0 to polls
        invariant Valid() && !done
        invariant |old(rest)| <= FIFO_SIZE - |old(uart.tx)| ==> i == 0 && rest == old(rest) && uart.tx == old(uart.tx)
      {
        uart.Elapse();
        var r := Poll(task);
        if r == AllDone {
          return true;
        }
      }
    }
  }

  // ---------------------------------------------------------------- asynchronous read_exact

  /** What one round of `read_exact` finds: a byte, nothing yet, or the overrun flag. */
  datatype Found = Got(b: Byte) | Nothing | Overran

  /**
   One poll of `read_exact`, as a function of what its rounds find.  Its iterator moves on before the
   readiness check, so every round uses up the slot `next`, whether it fills it or not.
   */
  function ExactPoll(next: nat, len: nat, found: seq<Found>): (r: Option<ReadPoll>)
    decreases |found|
  {
    if len <= next then (if found == [] then Some(ReadOk(len)) else None)
    else if found == [] then None
    else
      match found[0]
      case Got(_) => ExactPoll(next + 1, len, found[1..])
      case Nothing => if |found| == 1 then Some(ReadPending) else None
      case Overran => if |found| == 1 then Some(ReadOverrun) else None
  }

  /** The bytes among what was found. */
  function BytesOf(found: seq<Found>): (r: seq<Byte>)
    ensures |r| <= |found|
  {
    if found == [] then []
    else
      var last := |found| - 1;
      BytesOf(found[..last]) + if found[last].Got? then [found[last].b] else []
  }

  /** The buffer after these rounds: a round that found no byte has left its slot as it was. */
  function Written(orig: seq<Byte>, found: seq<Found>): (r: seq<Byte>)
    requires |found| <= |orig|
    ensures |r| == |orig|
  {
    seq(|orig|, i requires 0 <= i < |orig| => if i < |found| && found[i].Got? then found[i].b else orig[i])
  }

  /** A poll that goes on after `more` rounds with bytes. */
  lemma {:induction false} ExactPollOn(next: nat, len: nat, more: seq<Found>, rest: seq<Found>)
    requires next + |more| <= len && forall i :: 0 <= i < |more| ==> more[i].Got?
    ensures ExactPoll(next, len, more + rest) == ExactPoll(next + |more|, len, rest)
    decreases |more|
  {
    if more == [] {
      assert more + rest == rest;
    } else {
      assert (more + rest)[1..] == more[1..] + rest;
      ExactPollOn(next + 1, len, more[1..], rest);
    }
  }

  /**
   When the whole buffer has been passed over, it holds the next bytes of the stream if and only if every
   round found one; otherwise fewer bytes were taken than the buffer is long, and the slots of the other
   rounds still hold what they held before.
   */
  lemma {:induction false} FilledIffNoGap(orig: seq<Byte>, found: seq<Found>)
    requires |found| == |orig|
    ensures Written(orig, found) == BytesOf(found) <==> forall i :: 0 <= i < |found| ==> found[i].Got?
    ensures |BytesOf(found)| == |orig| <==> forall i :: 0 <= i < |found| ==> found[i].Got?
    ensures forall i :: 0 <= i < |found| && !found[i].Got? ==> Written(orig, found)[i] == orig[i]
  {
    if orig != [] {
      var last := |orig| - 1;
      FilledIffNoGap(orig[..last], found[..last]);
      var w := Written(orig, found);
      assert w[..last] == Written(orig[..last], found[..last]);
      assert w == w[..last] + [w[last]];
      if found[last].Got? {
        assert forall i :: 0 <= i < last ==> found[i] == found[..last][i];
        assert w == BytesOf(found) ==> w[..last] == BytesOf(found[..last]);
      }
    }
  }

  /**
   The failing inputs: for any buffer and any of its slots, the future may be polled just before that slot's
   byte arrives.  It returns Pending there, and the next poll completes with `Ok`, although one byte less than
   asked for was taken and the slot was never written.
   */
  lemma PendingLeavesAGap(orig: seq<Byte>, before: seq<Found>, after: seq<Found>)
    requires |before| + 1 + |after| == |orig|
    requires forall i :: 0 <= i < |before| ==> before[i].Got?
    requires forall i :: 0 <= i < |after| ==> after[i].Got?
    ensures var found := before + [Nothing] + after;
            && ExactPoll(0, |orig|, before + [Nothing]) == Some(ReadPending)
            && ExactPoll(|before| + 1, |orig|, after) == Some(ReadOk(|orig|))
            && |BytesOf(found)| < |orig|
            && Written(orig, found)[|before|] == orig[|before|]
  {
    var found := before + [Nothing] + after;
    ExactPollOn(0, |orig|, before, [Nothing]);
    ExactPollOn(|before| + 1, |orig|, after, []);
    assert after + [] == after;
    FilledIffNoGap(orig, found);
    assert !found[|before|].Got?;
  }

  /** The future of `read_exact`. */
  class ReadExactFut {
    const uart: MiniUart
    const buf: array<Byte>
    var next: nat
    /** History: what every round of every poll has found, what had been taken, and the buffer at the start. */
    ghost var found: seq<Found>
    ghost const base: seq<Byte>
    ghost const orig: seq<Byte>

    /** Whatever the schedule: each round used up one slot, and those with a byte hold the next bytes in order. */
    ghost predicate Valid()
      reads this, uart, buf
    {
      && uart.Valid() && next == |found| <= buf.Length == |orig|
      && uart.taken == base + BytesOf(found)
      && buf[..] == Written(orig, found)
    }

    constructor (uart: MiniUart, buf: array<Byte>)
      requires uart.Valid()
      ensures Valid() && this.uart == uart && this.buf == buf && found == [] && base == uart.taken && orig == buf[..]
    {
      this.uart, this.buf, next, found := uart, buf, 0, [];
      base, orig := uart.taken, buf[..];
    }

    /** A round has found a byte. */
    method Fill()
      requires Valid() && uart.rx != [] && next < buf.Length
      modifies this, uart, buf
      ensures Valid() && next == old(next) + 1 && uart.rx == old(uart.rx)[1..]
      ensures found == old(found) + [Got(old(uart.rx)[0])] && uart.Sent() == old(uart.Sent())
      ensures uart.overrun == old(uart.overrun) && uart.lost == old(uart.lost)
    {
      ghost var before := buf[..];
      uart.ReadInto(buf, next);
      found := found + [Got(buf[next])];
      assert found[..|found| - 1] == old(found);
      assert buf[..] == before[next := buf[next]];
      next := next + 1;
    }

    /** A round has found none: its slot is passed over. */
    method Skip(ghost f: Found)
      requires Valid() && next < buf.Length && !f.Got?
      modifies this
      ensures Valid() && next == old(next) + 1 && found == old(found) + [f]
    {
      found := found + [f];
      assert found[..|found| - 1] == old(found);
      next := next + 1;
    }

    /** One round: `None` goes on to the next slot. */
    method Round(task: Task) returns (r: Option<ReadPoll>)
      requires Valid() && next < buf.Length
      modifies this, uart, buf
      ensures Valid() && next == old(next) + 1 && uart.Sent() == old(uart.Sent())
      ensures |found| == |old(found)| + 1 && old(found) == found[..|old(found)|]
      ensures match found[|old(found)|]
              case Got(_) => r == None && |old(uart.rx)| <= |uart.rx| + 1
              case Nothing =>
                r == Some(ReadPending) && old(uart.rx) == [] && uart.rxWaker == Some(task) && ArmBits(Rx) <= uart.ier
              case Overran => r == Some(ReadOverrun) && uart.Overrunning()
      ensures old(uart.overrun) ==> r == Some(ReadOverrun)
      ensures old(uart.lost) <= uart.lost && (r != Some(ReadOverrun) ==> uart.overrun ==> uart.Overrunning())
    {
      var overran, ready := uart.LineStatus();
      if overran {
        Skip(Overran);
        return Some(ReadOverrun);
      }
      if !ready {
        uart.Elapse();
        uart.Arm(Rx, task);
        Skip(Nothing);
        return Some(ReadPending);
      }
      Fill();
      return None;
    }

    /**
     One poll.  Its rounds and its result are those of `ExactPoll`; it never waits if the FIFO holds enough
     for all the slots that are left.
     */
    method Poll(task: Task) returns (r: ReadPoll)
      requires Valid()
      modifies this, uart, buf
      ensures Valid() && uart.Sent() == old(uart.Sent())
      ensures |old(found)| <= |found| && old(found) == found[..|old(found)|]
      ensures ExactPoll(old(next), buf.Length, found[|old(found)|..]) == Some(r)
      ensures buf.Length - old(next) <= |old(uart.rx)| ==> !r.ReadPending?
      ensures r.ReadPending? ==> |old(uart.rx)| < |found| - |old(found)|
      ensures r.ReadPending? ==> uart.rxWaker == Some(task) && ArmBits(Rx) <= uart.ier
      ensures r.ReadOverrun? ==> uart.Overrunning()
      ensures old(uart.overrun) && old(next) < buf.Length ==> r.ReadOverrun?
      ensures r.ReadOk? ==> next == buf.Length
    {
      ghost var start := |found|;
      while next < buf.Length
        invariant Valid() && uart.Sent() == old(uart.Sent())
        invariant start <= |found| && old(found) == found[..start]
        invariant forall i :: start <= i < |found| ==> found[i].Got?
        invariant |old(uart.rx)| <= |uart.rx| + (|found| - start) && old(uart.lost) <= uart.lost
        invariant (uart.overrun ==> uart.Overrunning()) && (old(uart.overrun) ==> uart.overrun && next == old(next))
        decreases buf.Length - next
      {
        ghost var before := found;
        var ended := Round(task);
        assert found[..start] == found[..|before|][..start];
        if ended.Some? {
          ExactPollOn(old(next), buf.Length, before[start..], [found[|before|]]);
          assert found[start..] == before[start..] + [found[|before|]];
          return ended.value;
        }
      }
      ExactPollOn(old(next), buf.Length, found[start..], []);
      assert found[start..] + [] == found[start..];
      return ReadOk(buf.Length);
    }

    /** On completion: the buffer holds the bytes taken exactly when no round of any poll found the FIFO empty. */
    lemma CompletedIff()
      requires Valid() && next == buf.Length
      ensures uart.taken == base + buf[..] <==> forall i :: 0 <= i < |found| ==> found[i].Got?
      ensures |uart.taken| == |base| + buf.Length <==> forall i :: 0 <= i < |found| ==> found[i].Got?
    {
      FilledIffNoGap(orig, found);
      assert uart.taken[|base|..] == BytesOf(found);
      assert (base + buf[..])[|base|..] == buf[..];
    }
  }
}
