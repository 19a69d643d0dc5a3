/** Who owns the mini UART: the enable bits of the extra control register as locks. */
module UartOwnership {
  import opened Registers

  /** The receiver and transmitter enable bits are the locks: `control_reg & 0b11 != 0`. */
  predicate Taken(control: Bits) {
    0 in control || 1 in control
  }

  datatype Op = Setup | Pair | GetReader | GetWriter | DropReader | DropWriter

  /** The register, and as history the numbers of `Reader`s and `Writer`s that are alive. */
  datatype State = State(control: Bits, readers: nat, writers: nat)

  /** Handles can only be dropped while they exist; `setup` runs before any does. */
  predicate Enabled(s: State, op: Op) {
    match op
    case Setup => s.readers == 0 && s.writers == 0
    case DropReader => 0 < s.readers
    case DropWriter => 0 < s.writers
    case _ => true
  }

  /** Each is one critical section: the constructors refuse while either enable bit is set. */
  function Apply(s: State, op: Op): (State, bool)
    requires Enabled(s, op)
  {
    match op
    case Setup => (s.(control := {}), true)
    case Pair =>
      if Taken(s.control) then (s, false) else (State(s.control + {0, 1}, s.readers + 1, s.writers + 1), true)
    case GetReader =>
      if Taken(s.control) then (s, false) else (s.(control := s.control + {0}, readers := s.readers + 1), true)
    case GetWriter =>
      if Taken(s.control) then (s, false) else (s.(control := s.control + {1}, writers := s.writers + 1), true)
    case DropReader => (s.(control := s.control - {0}, readers := s.readers - 1), true)
    case DropWriter => (s.(control := s.control - {1}, writers := s.writers - 1), true)
  }

  /** Bit 0 counts the readers, bit 1 the writers: there is never more than one of each. */
  ghost predicate Owned(s: State) {
    && s.readers <= 1 && s.writers <= 1
    && (0 in s.control <==> s.readers == 1)
    && (1 in s.control <==> s.writers == 1)
  }

  class Control {
    var control: Bits
    ghost var readers: nat
    ghost var writers: nat

    ghost function Abs(): State
      reads this
    {
      State(control, readers, writers)
    }

    /** `uart::setup`, before main, whatever the register held. */
    constructor (before: Bits)
      ensures Abs() == Apply(State(before, 0, 0), Setup).0 && control == {}
    {
      control, readers, writers := before, 0, 0;
      control := {};
    }

    method TryPair() returns (granted: bool)
      modifies this
      ensures Owned(old(Abs())) ==> Owned(Abs()) && (granted <==> old(readers) == 0 && old(writers) == 0)
      ensures control == if granted then old(control) + {0, 1} else old(control)
      ensures (Abs(), granted) == Apply(old(Abs()), Pair)
    {
      var controlReg := control;
      if Taken(controlReg) {
        return false;
      }
      control := controlReg + {0, 1};
      readers, writers := readers + 1, writers + 1;
      return true;
    }

    method TryReader() returns (granted: bool)
      modifies this
      ensures Owned(old(Abs())) ==> Owned(Abs()) && (granted <==> old(readers) == 0 && old(writers) == 0)
      ensures control == if granted then old(control) + {0} else old(control)
      ensures (Abs(), granted) == Apply(old(Abs()), GetReader)
    {
      var controlReg := control;
      if Taken(controlReg) {
        return false;
      }
      control := controlReg + {0};
      readers := readers + 1;
      return true;
    }

    method TryWriter() returns (granted: bool)
      modifies this
      ensures Owned(old(Abs())) ==> Owned(Abs()) && (granted <==> old(readers) == 0 && old(writers) == 0)
      ensures control == if granted then old(control) + {1} else old(control)
      ensures (Abs(), granted) == Apply(old(Abs()), GetWriter)
    {
      var controlReg := control;
      if Taken(controlReg) {
        return false;
      }
      control := controlReg + {1};
      writers := writers + 1;
      return true;
    }

    method ReleaseReader()
      requires 0 < readers
      modifies this
      ensures Abs() == Apply(old(Abs()), DropReader).0
    {
      var controlReg := control;
      control := controlReg - {0};
      readers := readers - 1;
    }

    method ReleaseWriter()
      requires 0 < writers
      modifies this
      ensures Abs() == Apply(old(Abs()), DropWriter).0
    {
      var controlReg := control;
      control := controlReg - {1};
      writers := writers - 1;
    }
  }

  /** A run of operations from before main, with any register contents. */
  ghost predicate IsRun(states: seq<State>, ops: seq<Op>) {
    && |states| == |ops| + 1
    && states[0].readers == 0 && states[0].writers == 0
    && (ops != [] ==> ops[0] == Setup)
    && forall i :: 0 <= i < |ops| ==> Enabled(states[i], ops[i]) && states[i + 1] == Apply(states[i], ops[i]).0
  }

  lemma {:induction false} OwnedAlways(states: seq<State>, ops: seq<Op>, i: nat)
    requires IsRun(states, ops) && 0 < i <= |ops|
    ensures Owned(states[i]) && states[i].control <= {0, 1}
  {
    assert Enabled(states[i - 1], ops[i - 1]) && states[i] == Apply(states[i - 1], ops[i - 1]).0;
    if i != 1 {
      OwnedAlways(states, ops, i - 1);
    }
  }

  /** A constructor succeeds exactly when neither a reader nor a writer is alive. */
  lemma GrantedIffFree(states: seq<State>, ops: seq<Op>, i: nat, op: Op)
    requires IsRun(states, ops) && 0 < i <= |ops| && op in {Pair, GetReader, GetWriter}
    ensures Apply(states[i], op).1 <==> states[i].readers == 0 && states[i].writers == 0
  {
    OwnedAlways(states, ops, i);
  }

  /** All other bits of the register survive every operation after `setup`. */
  lemma OtherBitsSurvive(s: State, op: Op)
    requires Enabled(s, op) && op != Setup
    ensures Apply(s, op).0.control - {0, 1} == s.control - {0, 1}
  {
  }
}
