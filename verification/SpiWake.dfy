/**
 How the SPI futures are woken.  They share one waker cell and one control register; `write` and
 `transfer_in_place` arm in a critical section, `flush` stores its waker in one but updates the register
 outside.  A critical section and the interrupt handler are single steps here, because neither can be
 interrupted by the other and the hardware touches neither cell nor enable bits.
 */
module SpiWake {
  import opened Options
  import opened Registers
  import opened SpiBus

  /** What a future waits for: an empty transmit FIFO, or nothing in flight at all. */
  datatype Wait = ForEmpty | ForIdle

  function Bit(w: Wait): nat {
    if w == ForEmpty then EMPTY_INTERRUPT else IDLE_INTERRUPT
  }

  /** A poll of `flush` that found the SPI busy: its waker stored, then the register read as well. */
  datatype Flush = NotFlushing | WakerStored(task: Task) | Loaded(task: Task, reg: Bits)

  /**
   `fifo` counts the entries that wait to be sent, `shifting` says that one is on the wire.  `pending` is the
   task of the future that last returned Pending, and `woken` the tasks that will be polled again.
   */
  datatype State = State(fifo: nat, shifting: bool, enables: Bits, waker: Option<Task>,
                         flush: Flush, pending: Option<(Task, Wait)>, woken: set<Task>)

  predicate Ready(s: State, w: Wait) {
    s.fifo == 0 && (w == ForIdle ==> !s.shifting)
  }

  /** Level-triggered. */
  predicate Line(s: State) {
    (EMPTY_INTERRUPT in s.enables && Ready(s, ForEmpty)) || (IDLE_INTERRUPT in s.enables && Ready(s, ForIdle))
  }

  datatype Action =
    // hardware
    | Shift
    | Shifted
    // the task that holds the SPI
    | Resume(task: Task)
    | Put
    | Arm(task: Task, wait: Wait)
    | FlushWaker(task: Task)
    | FlushLoad
    | FlushStore
    // the interrupt handler, while no critical section is open
    | Interrupt

  predicate Enabled(s: State, act: Action) {
    match act
    case Shift => 0 < s.fifo && !s.shifting
    case Shifted => s.shifting
    case Resume(t) => s.flush.NotFlushing? && t in s.woken
    case Put => s.flush.NotFlushing? && s.pending.None? && s.fifo < TX_DEPTH
    case Arm(_, _) => s.flush.NotFlushing? && s.pending.None?
    case FlushWaker(_) => s.flush.NotFlushing? && s.pending.None? && !Ready(s, ForIdle)
    case FlushLoad => s.flush.WakerStored?
    case FlushStore => s.flush.Loaded?
    case Interrupt => Line(s)
  }

  function Apply(s: State, act: Action): State
    requires Enabled(s, act)
  {
    match act
    case Shift => s.(fifo := s.fifo - 1, shifting := true)
    case Shifted => s.(shifting := false)
    // The task polls its future again or drops it: nothing of its own is pending now.
    case Resume(t) =>
      s.(woken := s.woken - {t}, pending := if s.pending.Some? && s.pending.value.0 == t then None else s.pending)
    case Put => s.(fifo := s.fifo + 1)
    case Arm(t, w) => s.(waker := Some(t), enables := s.enables + {Bit(w)}, pending := Some((t, w)))
    case FlushWaker(t) => s.(waker := Some(t), flush := WakerStored(t))
    case FlushLoad => s.(flush := Loaded(s.flush.task, s.enables))
    case FlushStore =>
      s.(enables := s.flush.reg + {IDLE_INTERRUPT}, flush := NotFlushing, pending := Some((s.flush.task, ForIdle)))
    case Interrupt =>
      s.(enables := s.enables - {IDLE_INTERRUPT, EMPTY_INTERRUPT}, waker := None,
         woken := s.woken + if s.waker.Some? then {s.waker.value} else {})
  }

  /** Futures do become pending: a poll of `write` or `transfer_in_place` that arms, and its exact effect. */
  lemma ArmSuspends(s: State, t: Task, w: Wait)
    requires Enabled(s, Arm(t, w))
    ensures var r := Apply(s, Arm(t, w));
            && r.pending == Some((t, w)) && r.waker == Some(t)
            && r.enables == s.enables + {if w == ForEmpty then 7 else 6} && r.woken == s.woken
  {
  }

  /** And so does a poll of `flush` that finds the SPI busy, whether or not it is interrupted on the way. */
  lemma FlushSuspends(s: State, t: Task)
    requires Enabled(s, FlushWaker(t))
    ensures var s1 := Apply(s, FlushWaker(t));
            var s2 := Apply(s1, FlushLoad);
            var s3 := Apply(s2, FlushStore);
            && s3.pending == Some((t, ForIdle)) && s3.waker == Some(t) && s3.enables == s.enables + {6}
            && (Enabled(s2, Interrupt) ==>
                  var r := Apply(Apply(s2, Interrupt), FlushStore);
                  r.pending == Some((t, ForIdle)) && r.waker == None && t in r.woken && 6 in r.enables)
  {
  }

  /** The task will be polled again, or its waker is where the handler finds it. */
  ghost predicate Reachable(s: State, t: Task) {
    t in s.woken || s.waker == Some(t)
  }

  ghost predicate Inv(s: State) {
    && (!s.flush.NotFlushing? ==> Reachable(s, s.flush.task) && s.pending.None?)
    && (s.pending.Some? ==>
          || s.pending.value.0 in s.woken
          || (s.waker == Some(s.pending.value.0) && Bit(s.pending.value.1) in s.enables))
  }

  ghost predicate IsRun(states: seq<State>, acts: seq<Action>) {
    && |states| == |acts| + 1
    && states[0].flush.NotFlushing? && states[0].pending.None?
    && forall i :: 0 <= i < |acts| ==> Enabled(states[i], acts[i]) && states[i + 1] == Apply(states[i], acts[i])
  }

  lemma {:induction false} RunKeepsInv(states: seq<State>, acts: seq<Action>, i: nat)
    requires IsRun(states, acts) && i <= |acts|
    ensures Inv(states[i])
  {
    if i != 0 {
      RunKeepsInv(states, acts, i - 1);
      assert Enabled(states[i - 1], acts[i - 1]) && states[i] == Apply(states[i - 1], acts[i - 1]);
    }
  }

  /**
   No wakeup of an SPI future is lost, over every run, with any registers at the start and interrupts between
   any two steps of `flush`: once the hardware is ready for a pending future, its task is queued, or the line is
   asserted and the handler that it calls queues exactly that task and releases the line.
   */
  lemma ReadyFutureIsWoken(states: seq<State>, acts: seq<Action>, i: nat)
    requires IsRun(states, acts) && i <= |acts| && states[i].pending.Some?
    requires Ready(states[i], states[i].pending.value.1)
    ensures var s, t := states[i], states[i].pending.value.0;
            || t in s.woken
            || (Enabled(s, Interrupt) && Apply(s, Interrupt).woken == s.woken + {t} && !Line(Apply(s, Interrupt)))
  {
    RunKeepsInv(states, acts, i);
  }
}
