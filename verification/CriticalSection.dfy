/** The single-core critical section: masking interrupts with a restore flag, nested to any depth. */
module CriticalSection {

  /** Acquiring masks, and asks for a restore exactly when interrupts were not masked before. */
  function Acquired(masked: bool): (bool, bool) {
    if !masked then (true, true) else (masked, false)
  }

  function Released(masked: bool, restore: bool): bool {
    if restore then false else masked
  }

  /** The sections that a critical section runs inside itself, in order. */
  datatype Section = Section(inner: seq<Section>)

  /** The sections in a section, itself included. */
  function Count(s: Section): nat {
    1 + CountAll(s.inner)
  }

  function CountAll(sections: seq<Section>): nat {
    if sections == [] then 0
    else CountAll(sections[..|sections| - 1]) + Count(sections[|sections| - 1])
  }

  class Cpu {
    /** The I bit of the status register. */
    var masked: bool
    /** History: how many sections are open, and how many have been opened. */
    ghost var depth: nat
    ghost var entries: nat

    /** Interrupts are masked as long as any section is open. */
    ghost predicate Valid()
      reads this
    {
      0 < depth ==> masked
    }

    constructor ()
      ensures Valid() && !masked && depth == 0
    {
      masked, depth, entries := false, 0, 0;
    }

    method Acquire() returns (restore: bool)
      requires Valid()
      modifies this
      ensures Valid() && depth == old(depth) + 1 && entries == old(entries) + 1
      ensures masked && (restore <==> !old(masked))
      ensures (masked, restore) == Acquired(old(masked))
    {
      if !masked {
        masked := true;
        restore := true;
      } else {
        restore := false;
      }
      depth, entries := depth + 1, entries + 1;
    }

    /** Only the release that leaves nothing open may restore. */
    method Release(restore: bool)
      requires Valid() && 0 < depth && (restore ==> depth == 1)
      modifies this
      ensures Valid() && depth == old(depth) - 1 && entries == old(entries)
      ensures masked <==> old(masked) && !restore
    {
      if restore {
        masked := false;
      }
      depth := depth - 1;
    }

    /**
     A section, with all the sections inside it: each is opened once and closed again, masked throughout, and
     the entry mask comes back.
     */
    method With(s: Section)
      requires Valid()
      modifies this
      ensures Valid() && masked == old(masked) && depth == old(depth)
      ensures entries == old(entries) + Count(s)
      decreases s
    {
      var restore := Acquire();
      var i := 0;
      while i < |s.inner|
        invariant 0 <= i <= |s.inner| && Valid() && masked && depth == old(depth) + 1
        invariant entries == old(entries) + 1 + CountAll(s.inner[..i])
      {
        With(s.inner[i]);
        assert s.inner[..i + 1][..i] == s.inner[..i];
        i := i + 1;
      }
      assert s.inner[..i] == s.inner;
      Release(restore);
    }
  }

  // ---------------------------------------------------------------- with interrupts

  /** What is open, oldest first: sections with their restore flags, and handlers with the mask they interrupted. */
  datatype Frame = Open(restore: bool) | Interrupt(saved: bool)

  datatype Machine = Machine(masked: bool, frames: seq<Frame>)

  datatype Op = Acquire | Release | Enter | Return

  function Top(m: Machine): Frame
    requires m.frames != []
  {
    m.frames[|m.frames| - 1]
  }

  predicate Enabled(m: Machine, op: Op) {
    match op
    case Acquire => true
    case Release => m.frames != [] && Top(m).Open?
    case Enter => !m.masked
    case Return => m.frames != [] && Top(m).Interrupt?
  }

  /** The processor masks on entry to a handler and puts the interrupted status back on return. */
  function Apply(m: Machine, op: Op): Machine
    requires Enabled(m, op)
  {
    match op
    case Acquire =>
      var (masked, restore) := Acquired(m.masked);
      Machine(masked, m.frames + [Open(restore)])
    case Release => Machine(Released(m.masked, Top(m).restore), m.frames[..|m.frames| - 1])
    case Enter => Machine(true, m.frames + [Interrupt(m.masked)])
    case Return => Machine(Top(m).saved, m.frames[..|m.frames| - 1])
  }

  /** A run of the processor from a state with nothing open and the mask `entry`. */
  ghost predicate IsRun(entry: bool, ms: seq<Machine>, ops: seq<Op>) {
    && |ms| == |ops| + 1
    && ms[0] == Machine(entry, [])
    && forall i :: 0 <= i < |ops| ==> Enabled(ms[i], ops[i]) && ms[i + 1] == Apply(ms[i], ops[i])
  }

  /** Only the oldest open frame unmasks when it closes. */
  ghost predicate OldestRestores(entry: bool, m: Machine) {
    forall i :: 0 <= i < |m.frames| ==>
      match m.frames[i]
      case Open(restore) => restore <==> i == 0 && !entry
      case Interrupt(saved) => i == 0 && !entry && !saved
  }

  /**
   Over every run: interrupts are masked exactly while something is open (or if they were masked on
   entry), so from the outermost acquire to its release, whatever is nested inside; the entry mask is
   back when nothing is open; and a section inside a handler never unmasks.
   */
  lemma {:induction false} MaskedWhileOpen(entry: bool, ms: seq<Machine>, ops: seq<Op>, i: nat)
    requires IsRun(entry, ms, ops) && i <= |ops|
    ensures ms[i].masked <==> entry || ms[i].frames != []
    ensures OldestRestores(entry, ms[i])
  {
    if i != 0 {
      MaskedWhileOpen(entry, ms, ops, i - 1);
      assert Enabled(ms[i - 1], ops[i - 1]) && ms[i] == Apply(ms[i - 1], ops[i - 1]);
    }
  }

  /** No handler starts inside a critical section or another handler: sections are mutually exclusive with handlers. */
  lemma HandlersStayOutside(entry: bool, ms: seq<Machine>, ops: seq<Op>, i: nat)
    requires IsRun(entry, ms, ops) && i < |ops| && ops[i] == Enter
    ensures ms[i].frames == [] && !entry
  {
    MaskedWhileOpen(entry, ms, ops, i);
    assert Enabled(ms[i], ops[i]);
  }

  /** Between an acquire and its own release, interrupts never become unmasked. */
  lemma MaskedUntilRelease(entry: bool, ms: seq<Machine>, ops: seq<Op>, from: nat, to: nat)
    requires IsRun(entry, ms, ops) && from < to <= |ops| && ops[from] == Acquire
    requires forall k :: from < k <= to ==> |ms[k].frames| > |ms[from].frames|
    ensures forall k :: from < k <= to ==> ms[k].masked
    ensures to < |ops| && |ms[to + 1].frames| == |ms[from].frames| ==> ms[to + 1].masked == ms[from].masked
  {
    forall k | from <= k <= |ops|
      ensures ms[k].masked <==> entry || ms[k].frames != []
    {
      MaskedWhileOpen(entry, ms, ops, k);
    }
  }
}
