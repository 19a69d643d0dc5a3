/**
 Event detection on the first bank of GPIO pins: six detect registers and a status register with one
 bit a pin, a slot a pin for the waker, the interrupt handler, and the detector futures.
 */
module GpioDetect {
  import opened Options
  import opened Registers

  type Task = nat

  const PINS: nat := 32

  /** The detect registers, in the order in which `DetectState` names its flags. */
  const REGISTERS: nat := 6

  datatype Polled = Pending | Ready

  /** The future for one pin: the detect registers that it asks for, and whether it has set them up. */
  datatype Detector = Detector(state: Bits, setup: bool)

  /** `IterOnes`: the positions of the set bits. */
  class IterOnes {
    var value: Bits

    constructor (value: Bits)
      ensures this.value == value
    {
      this.value := value;
    }

    /** Yields the lowest set bit and clears it, until none is left. */
    method Next() returns (r: Option<nat>)
      modifies this
      ensures r == None <==> old(value) == {}
      ensures r.Some? ==>
                && r.value in old(value) && (forall i :: i in old(value) ==> r.value <= i)
                && value == old(value) - {r.value} && value < old(value)
      ensures r == None ==> value == {}
    {
      if value == {} {
        return None;
      }
      var some :| some in value;
      var trailing := 0;
      while trailing !in value
        invariant forall i :: i in value ==> trailing <= i
        decreases some - trailing
      {
        trailing := trailing + 1;
      }
      value := value - {trailing};
      return Some(trailing);
    }
  }

  class Gpio {
    /** detect[r] has bit `p` set when register `r` watches pin `p`. */
    const detect: array<Bits>
    var status: Bits
    var wakers: map<nat, Task>
    var detectors: map<nat, Detector>
    /** History: how often the waker of a pin was taken, and for which task last. */
    ghost var takes: seq<nat>
    ghost var takenFrom: map<nat, Task>
    /** History of the detectors: how often the waker had been taken at the first poll, and the last poll's task. */
    ghost var since: map<nat, nat>
    ghost var polledBy: map<nat, Task>
    /** History of the hardware: the events that were latched, one set at a time. */
    ghost var latched: seq<Bits>

    ghost predicate Shape()
      reads this, detect
    {
      && detect.Length == REGISTERS
      && (forall r, p :: 0 <= r < REGISTERS && p in detect[r] ==> p < PINS)
      && (forall p :: p in status ==> p < PINS)
      && |takes| == PINS
      && (forall p :: p in detectors ==> p < PINS && forall r :: r in detectors[p].state ==> r < REGISTERS)
    }

    /** Register `r` watches pin `p`. */
    ghost predicate Watched(r: nat, p: nat)
      requires r < detect.Length
      reads detect
    {
      p in detect[r]
    }

    /** The waker of `p` waits in its slot, and every register of `state` below `upTo` watches the pin. */
    ghost predicate Waits(p: nat, state: Bits, upTo: nat, from: nat, task: Task)
      requires Shape()
      reads this, detect
    {
      && p in wakers && wakers[p] == task && p < PINS && takes[p] == from
      && forall r :: r in state && r < upTo && r < REGISTERS ==> Watched(r, p)
    }

    /** The handler has taken the waker of `p` since, and has woken the task. */
    ghost predicate Woken(p: nat, from: nat, task: Task)
      requires Shape()
      reads this, detect
    {
      p !in wakers && p < PINS && from < takes[p] && p in takenFrom && takenFrom[p] == task
    }

    /** The waker waits, or the handler has taken it and woken the task. */
    ghost predicate Promised(p: nat, state: Bits, upTo: nat, from: nat, task: Task)
      requires Shape()
      reads this, detect
    {
      Waits(p, state, upTo, from, task) || Woken(p, from, task)
    }

    ghost predicate DetectorOk(p: nat)
      requires Shape() && p in detectors
      reads this, detect
    {
      var d := detectors[p];
      d.setup ==> p in since && p in polledBy && Promised(p, d.state, REGISTERS, since[p], polledBy[p])
    }

    /** All that there is to know of the detectors. */
    ghost function Futures(): (map<nat, Detector>, map<nat, nat>, map<nat, Task>)
      reads this
    {
      (detectors, since, polledBy)
    }

    ghost predicate Valid()
      reads this, detect
    {
      Shape() && forall p :: p in detectors ==> DetectorOk(p)
    }

    constructor ()
      ensures Valid() && fresh(detect) && detectors == map[] && wakers == map[]
    {
      detect := new Bits[REGISTERS](_ => {});
      status, wakers, detectors := {}, map[], map[];
      takes := seq(PINS, _ => 0);
      takenFrom, since, polledBy, latched := map[], map[], map[], [];
    }

    /** The hardware latches events, of watched pins only. */
    method Latch()
      requires Valid()
      modifies `status, `latched
      ensures Valid() && |latched| == |old(latched)| + 1 && old(latched) <= latched
      ensures status == old(status) + latched[|old(latched)|]
      ensures forall p :: p in status && p !in old(status) ==> exists r :: 0 <= r < REGISTERS && Watched(r, p)
    {
      var events: Bits :| true;
      var news := set p | p in events && exists r :: 0 <= r < REGISTERS && p in detect[r];
      status := status + news;
      latched := latched + [news];
      forall p | p in status && p !in old(status)
        ensures exists r :: 0 <= r < REGISTERS && Watched(r, p)
      {
        var r :| 0 <= r < REGISTERS && p in detect[r];
        assert Watched(r, p);
      }
    }

    /** Pin `p` as the handler leaves it: no waker, watched by no register, status clear. */
    ghost predicate Cleared(p: nat)
      requires Shape()
      reads this, detect
    {
      p !in wakers && p !in status && forall r :: 0 <= r < REGISTERS ==> !Watched(r, p)
    }

    /** Stops all six registers from watching pin `p`. */
    method Unwatch(p: nat)
      requires Shape() && p < PINS
      modifies detect
      ensures Shape()
      ensures forall r :: 0 <= r < REGISTERS ==> detect[r] == old(detect[r]) - {p}
    {
      var r := 0;
      while r < REGISTERS
        invariant 0 <= r <= REGISTERS && Shape()
        invariant forall k :: 0 <= k < r ==> detect[k] == old(detect[k]) - {p}
        invariant forall k :: r <= k < REGISTERS ==> detect[k] == old(detect[k])
      {
        var bits := detect[r];
        detect[r] := bits - {p};
        r := r + 1;
      }
    }

    /**
     One round of the handler's loop: exactly pin `p` loses its waker, all six detect bits and its
     status bit, and the task that waited for it is woken.
     */
    method HandlePin(p: nat) returns (woken: Option<Task>)
      requires Valid() && p < PINS
      modifies this, detect
      ensures Valid() && Cleared(p) && Futures() == old(Futures())
      ensures latched == old(latched)
      ensures woken == if p in old(wakers) then Some(old(wakers)[p]) else None
      ensures wakers == old(wakers) - {p} && status == old(status) - {p}
      ensures forall r :: 0 <= r < REGISTERS ==> detect[r] == old(detect[r]) - {p}
      ensures takes == if p in old(wakers) then old(takes)[p := old(takes)[p] + 1] else old(takes)
      ensures takenFrom == if p in old(wakers) then old(takenFrom)[p := old(wakers)[p]] else old(takenFrom)
    {
      woken := None;
      if p in wakers {
        woken := Some(wakers[p]);
        takes := takes[p := takes[p] + 1];
        takenFrom := takenFrom[p := wakers[p]];
      }
      wakers := wakers - {p};
      Unwatch(p);
      status := status - {p};
      forall q | q in detectors
        ensures DetectorOk(q)
      {
        assert old(DetectorOk(q));
        var d := detectors[q];
        if d.setup && old(Waits(q, d.state, REGISTERS, since[q], polledBy[q])) && q != p {
          forall r | r in d.state && r < REGISTERS
            ensures Watched(r, q)
          {
            assert old(Watched(r, q));
          }
        }
      }
    }

    /**
     Against the wakers, detect registers and status at the start: the pins of `pins` are cleared, all
     others are as they were, except that watched pins may have latched an event.
     */
    ghost predicate Handled(pins: Bits, wakers0: map<nat, Task>, detect0: seq<Bits>, status0: Bits)
      requires Shape() && |detect0| == REGISTERS
      reads this, detect
    {
      && wakers == wakers0 - pins
      && (forall r :: 0 <= r < REGISTERS ==> detect[r] == detect0[r] - pins)
      && status * pins == {}
      && status0 - pins <= status
      && (forall p :: p in status && p !in status0 ==> exists r :: 0 <= r < REGISTERS && p in detect0[r])
    }

    /** The tasks that wait on these pins. */
    ghost function Waiting(pins: Bits, wakers0: map<nat, Task>): set<Task> {
      set p | p in pins && p in wakers0 :: wakers0[p]
    }

    /** Each of these pins had its waker taken once, if it had one, and no other pin did. */
    ghost predicate Counted(pins: Bits, wakers0: map<nat, Task>, takes0: seq<nat>, takenFrom0: map<nat, Task>)
      reads this
    {
      && |takes| == |takes0| == PINS
      && (forall p :: 0 <= p < PINS ==> takes[p] == takes0[p] + if p in pins && p in wakers0 then 1 else 0)
      && (forall p :: p in pins && p in wakers0 ==> p in takenFrom && takenFrom[p] == wakers0[p])
      && (forall p :: p in takenFrom0 && !(p in pins && p in wakers0) ==>
            p in takenFrom && takenFrom[p] == takenFrom0[p])
    }

    /** One round of the handler, and the events that are latched meanwhile. */
    method Round(p: nat, ghost pins: Bits, ghost wakers0: map<nat, Task>, ghost detect0: seq<Bits>, ghost status0: Bits,
                 ghost takes0: seq<nat>, ghost takenFrom0: map<nat, Task>)
      returns (woken: set<Task>)
      requires Valid() && p < PINS && p !in pins && |detect0| == REGISTERS
      requires Handled(pins, wakers0, detect0, status0) && Counted(pins, wakers0, takes0, takenFrom0)
      modifies this, detect
      ensures Valid() && Futures() == old(Futures()) && old(latched) <= latched
      ensures Handled(pins + {p}, wakers0, detect0, status0) && Counted(pins + {p}, wakers0, takes0, takenFrom0)
      ensures Waiting(pins + {p}, wakers0) == Waiting(pins, wakers0) + woken
    {
      var w := HandlePin(p);
      assert wakers == wakers0 - (pins + {p});
      woken := if w.Some? then {w.value} else {};
      WaitingGrows(pins, p, wakers0);
      Latch();
    }

    lemma WaitingGrows(pins: Bits, p: nat, wakers0: map<nat, Task>)
      ensures Waiting(pins + {p}, wakers0) == Waiting(pins, wakers0) + if p in wakers0 then {wakers0[p]} else {}
    {
      var bigger, smaller := Waiting(pins + {p}, wakers0), Waiting(pins, wakers0);
      forall t | t in smaller
        ensures t in bigger
      {
        var q :| q in pins && q in wakers0 && wakers0[q] == t;
        assert q in pins + {p};
      }
      if p in wakers0 { assert p in pins + {p} && wakers0[p] in bigger; }
    }

    /** The handler's loop over the set bits of its snapshot. */
    method HandleAll(snapshot: Bits, ghost wakers0: map<nat, Task>, ghost detect0: seq<Bits>, ghost status0: Bits,
                     ghost takes0: seq<nat>, ghost takenFrom0: map<nat, Task>)
      returns (woken: set<Task>)
      requires Valid() && |detect0| == REGISTERS && forall p :: p in snapshot ==> p < PINS
      requires Handled({}, wakers0, detect0, status0) && Counted({}, wakers0, takes0, takenFrom0)
      modifies this, detect
      ensures Valid() && Futures() == old(Futures()) && old(latched) <= latched
      ensures Handled(snapshot, wakers0, detect0, status0) && Counted(snapshot, wakers0, takes0, takenFrom0)
      ensures woken == Waiting(snapshot, wakers0)
    {
      var ones := new IterOnes(snapshot);
      woken := {};
      ghost var handled: Bits := {};
      var next := ones.Next();
      while next.Some?
        invariant Valid() && Futures() == old(Futures()) && old(latched) <= latched && fresh(ones)
        invariant next.Some? ==>
                    && next.value in snapshot && next.value !in handled
                    && ones.value == snapshot - handled - {next.value}
        invariant handled <= snapshot && (next.None? ==> snapshot <= handled)
        invariant Handled(handled, wakers0, detect0, status0) && Counted(handled, wakers0, takes0, takenFrom0)
        invariant woken == Waiting(handled, wakers0)
        decreases snapshot - handled
      {
        var w := Round(next.value, handled, wakers0, detect0, status0, takes0, takenFrom0);
        handled := handled + {next.value};
        woken := woken + w;
        next := ones.Next();
      }
      assert handled == snapshot;
    }

    /**
     `interrupt_handler1`: whatever is latched while it runs, exactly the pins of the status snapshot, which is
     what was latched when it read the register, lose their waker, all six detect bits and their status bit,
     and exactly their tasks are woken.
     */
    method InterruptHandler() returns (woken: set<Task>, ghost snapshot: Bits)
      requires Valid()
      modifies this, detect
      ensures Valid() && Futures() == old(Futures())
      ensures |old(latched)| < |latched| && snapshot == old(status) + latched[|old(latched)|]
      ensures Handled(snapshot, old(wakers), old(detect[..]), old(status))
      ensures woken == Waiting(snapshot, old(wakers))
      ensures Counted(snapshot, old(wakers), old(takes), old(takenFrom))
    {
      Latch();
      snapshot := status;
      assert wakers == old(wakers) - {};
      woken := HandleAll(status, old(wakers), old(detect[..]), old(status), old(takes), old(takenFrom));
    }

    /**
     Interrupts are unmasked for a while: events are latched and the handler runs any number of times.
     What was promised to the given pin is kept.
     */
    method Preempt(ghost p: nat, ghost state: Bits, ghost upTo: nat, ghost from: nat, ghost task: Task)
      requires Valid() && Promised(p, state, upTo, from, task)
      modifies this, detect
      ensures Valid() && Futures() == old(Futures())
      ensures Promised(p, state, upTo, from, task)
      ensures forall r :: 0 <= r < REGISTERS ==> detect[r] <= old(detect[r])
    {
      var times: nat :| true;
      Latch();
      while 0 < times
        invariant Valid() && Futures() == old(Futures())
        invariant Promised(p, state, upTo, from, task)
        invariant forall r :: 0 <= r < REGISTERS ==> detect[r] <= old(detect[r])
      {
        ghost var waits := Waits(p, state, upTo, from, task);
        label before:
        ghost var snapshot;
        var woken;
        woken, snapshot := InterruptHandler();
        if waits && p !in snapshot {
          forall r | r in state && r < upTo && r < REGISTERS
            ensures Watched(r, p)
          {
            assert old@before(Watched(r, p));
          }
        }
        times := times - 1;
      }
    }

    /** `Pin::detect`: a new detector for the pin, which replaces any earlier one. */
    method Detect(p: nat, state: Bits)
      requires Valid() && p < PINS && forall r :: r in state ==> r < REGISTERS
      modifies `detectors
      ensures Valid() && detectors == old(detectors)[p := Detector(state, false)]
    {
      detectors := detectors[p := Detector(state, false)];
      forall q | q in detectors
        ensures DetectorOk(q)
      {
        assert q != p ==> old(DetectorOk(q));
      }
    }

    /** One register of `setup_detection`: a read-modify-write in a critical section. */
    method Watch(r: nat, p: nat)
      requires Valid() && r < REGISTERS && p < PINS
      modifies detect
      ensures Valid() && detect[r] == old(detect[r]) + {p}
      ensures forall k :: 0 <= k < REGISTERS && k != r ==> detect[k] == old(detect[k])
    {
      var bits := detect[r];
      detect[r] := bits + {p};
      forall q | q in detectors
        ensures DetectorOk(q)
      {
        assert old(DetectorOk(q));
      }
    }

    /**
     `setup_detection`, with the handler free to run between any two registers.  No register comes to watch
     anything but this pin, and only those that were asked for do.
     */
    method SetupDetection(p: nat, state: Bits, ghost from: nat, task: Task)
      requires Valid() && p < PINS && Promised(p, {}, 0, from, task)
      modifies this, detect
      ensures Valid() && Futures() == old(Futures())
      ensures Promised(p, state, REGISTERS, from, task)
      ensures forall r :: 0 <= r < REGISTERS ==> detect[r] <= old(detect[r]) + if r in state then {p} else {}
    {
      var r := 0;
      assert Promised(p, state, 0, from, task);
      while r < REGISTERS
        invariant 0 <= r <= REGISTERS
        invariant Valid() && Futures() == old(Futures())
        invariant Promised(p, state, r, from, task)
        invariant forall k :: 0 <= k < REGISTERS ==> detect[k] <= old(detect[k]) + if k in state then {p} else {}
      {
        Preempt(p, state, r, from, task);
        if r in state {
          label before:
          Watch(r, p);
          if old@before(Waits(p, state, r, from, task)) {
            forall k | k in state && k < r + 1 && k < REGISTERS
              ensures Watched(k, p)
            {
              assert k < r ==> old@before(Watched(k, p));
            }
          }
        }
        r := r + 1;
      }
    }

    /** The first critical section of a first poll: store the waker. */
    method StoreWaker(p: nat, task: Task)
      requires Valid() && p in detectors && !detectors[p].setup
      modifies `wakers
      ensures Valid() && Promised(p, {}, 0, takes[p], task)
    {
      wakers := wakers[p := task];
      forall q | q in detectors
        ensures DetectorOk(q)
      {
        assert old(DetectorOk(q));
      }
    }

    /** A later poll that finds the waker still there. */
    method RefreshWaker(p: nat, task: Task)
      requires Valid() && p in detectors && detectors[p].setup && p in wakers
      modifies `wakers, `polledBy
      ensures Valid() && wakers == old(wakers)[p := task] && polledBy == old(polledBy)[p := task]
    {
      assert DetectorOk(p);
      wakers := wakers[p := task];
      polledBy := polledBy[p := task];
      forall q | q in detectors
        ensures DetectorOk(q)
      {
        assert old(DetectorOk(q));
      }
    }

    method FinishSetup(p: nat, ghost from: nat, ghost task: Task)
      requires Valid() && p in detectors
      requires Promised(p, detectors[p].state, REGISTERS, from, task)
      modifies `detectors, `since, `polledBy
      ensures Valid() && detectors == old(detectors)[p := old(detectors)[p].(setup := true)]
      ensures since == old(since)[p := from] && polledBy == old(polledBy)[p := task]
    {
      detectors := detectors[p := detectors[p].(setup := true)];
      since := since[p := from];
      polledBy := polledBy[p := task];
      forall q | q in detectors
        ensures DetectorOk(q)
      {
        assert old(DetectorOk(q));
      }
    }

    /**
     One poll of a detector.  Ready means that nothing was asked for, or that the handler has taken the
     waker since the first poll; Pending means that the waker of this task waits with all requested
     registers watching the pin, or that the handler has already taken it and woken the task.
     */
    method Poll(p: nat, task: Task) returns (r: Polled)
      requires Valid() && p in detectors
      modifies this, detect
      ensures Valid() && detectors.Keys == old(detectors).Keys
      ensures detectors - {p} == old(detectors) - {p}
      ensures since - {p} == old(since) - {p} && polledBy - {p} == old(polledBy) - {p}
      ensures var d := old(detectors)[p];
              r == Ready <==> d.state == {} || (d.setup && old(since)[p] < old(takes)[p])
      ensures r == Pending ==>
                && detectors[p] == old(detectors)[p].(setup := true)
                && p in since && (old(detectors)[p].setup ==> since[p] == old(since)[p])
                && Promised(p, detectors[p].state, REGISTERS, since[p], task)
      ensures forall k :: 0 <= k < REGISTERS ==>
                detect[k] <= old(detect[k]) + if k in old(detectors)[p].state then {p} else {}
      ensures r == Ready || old(detectors)[p].setup ==>
                detect[..] == old(detect[..]) && wakers == if r == Ready then old(wakers) else old(wakers)[p := task]
    {
      var d := detectors[p];
      assert DetectorOk(p);
      if d.state == {} {
        return Ready;
      }
      if !d.setup {
        ghost var from := takes[p];
        StoreWaker(p, task);
        SetupDetection(p, d.state, from, task);
        FinishSetup(p, from, task);
        return Pending;
      }
      if p in wakers {
        RefreshWaker(p, task);
        assert DetectorOk(p);
        return Pending;
      } else {
        return Ready;
      }
    }
  }
}
