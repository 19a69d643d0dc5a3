/**
 The chain that puts the core to sleep and wakes it: the executor's loop, its critical section, the
 mini UART futures with their waker cells and shared interrupt-enable register, and the interrupt
 handler.  Register accesses are single steps; the hardware moves, and an unmasked interrupt is
 taken, between any two of them.
 */
module SleepWake {
  import opened Options
  import opened Registers
  import CriticalSection

  type Task = nat

  const FIFO_SIZE: nat := 8

  /** Steps of the critical section in which a future that found nothing to do arms its wakeup. */
  datatype ArmPc =
    | Checked                          // the status read said "not ready"
    | Locked(restore: bool)            // critical section acquired
    | WakerStored(restore: bool)       // set_waker done
    | Loaded(restore: bool, reg: Bits) // interrupt-enable register read
    | Stored(restore: bool)            // and written back with the bit set

  /** Where `Executor::run` stands.  `batch`: tasks that this `poll` has dequeued and not yet run. */
  datatype Exec =
    | Poll
    | Run(batch: set<Task>)
    | InTask(batch: set<Task>, task: Task)
    | Arm(batch: set<Task>, task: Task, side: Side, pc: ArmPc)
    | Acquire
    | Swap(restore: bool)
    | Asleep(restore: bool)
    | Release(restore: bool)

  /** Where the interrupt handler stands; the writer's part runs before the reader's. */
  datatype Handler =
    | Off
    | Entered
    | Load(side: Side, thenRx: bool)
    | Store(side: Side, reg: Bits, thenRx: bool)
    | Wake(side: Side, thenRx: bool)
    | Leave

  datatype State = State(
    masked: bool,
    signaled: bool,
    runnable: set<Task>,
    rxWaker: Option<Task>,
    txWaker: Option<Task>,
    ier: Bits,
    rx: nat,
    tx: nat,
    other: bool,
    reader: Option<Task>,
    writer: Option<Task>,
    exec: Exec,
    handler: Handler)

  function Waker(s: State, side: Side): Option<Task> {
    if side == Rx then s.rxWaker else s.txWaker
  }

  function WithWaker(s: State, side: Side, w: Option<Task>): State {
    if side == Rx then s.(rxWaker := w) else s.(txWaker := w)
  }

  /** The task whose read (write) future last returned Pending. */
  function Pending(s: State, side: Side): Option<Task> {
    if side == Rx then s.reader else s.writer
  }

  function WithPending(s: State, side: Side, t: Option<Task>): State {
    if side == Rx then s.(reader := t) else s.(writer := t)
  }

  /** What raises the interrupt: a byte to read, or nothing left to send. */
  predicate Ready(s: State, side: Side) {
    if side == Rx then 0 < s.rx else s.tx == 0
  }

  /** Level-triggered: asserted as long as the condition holds and its bit is enabled. */
  predicate Asserted(s: State, side: Side) {
    Ready(s, side) && Bit(side) in s.ier
  }

  predicate Line(s: State) {
    Asserted(s, Rx) || Asserted(s, Tx) || s.other
  }

  /** The raw executor's contract: enqueue, and call the pender at least when the queue was empty. */
  function WakeTask(s: State, t: Task, pend: bool): State {
    s.(runnable := s.runnable + {t}, signaled := s.signaled || s.runnable == {} || pend)
  }

  /** `critical_section` acquire: mask, and say whether that changed anything. */
  function AcquireMask(s: State): (State, bool) {
    var (masked, restore) := CriticalSection.Acquired(s.masked);
    (s.(masked := masked), restore)
  }

  function ReleaseMask(s: State, restore: bool): State {
    s.(masked := CriticalSection.Released(s.masked, restore))
  }

  datatype Action =
    // hardware
    | Receive
    | Transmit
    | OtherDevice
    // executor
    | ExecStep
    | Pick(task: Task)
    | WakeUp
    // the running task
    | ReadByte
    | WriteBytes(count: nat)
    | Check(side: Side)
    | ArmStep
    | WakeOther(woken: Task, pend: bool)
    | Suspend
    // interrupt handler
    | Enter
    | DeviceWake(woken: Task, pend: bool)
    | ReadId(txBit: bool, rxBit: bool)
    | HandlerStep(pend: bool)

  predicate Enabled(s: State, act: Action) {
    match act
    case Receive => s.rx < FIFO_SIZE
    case Transmit => 0 < s.tx
    case OtherDevice => true
    case ExecStep =>
      s.handler.Off? && (s.exec.Poll? || s.exec == Run({}) || s.exec.Acquire? || s.exec.Swap? || s.exec.Release?)
    case Pick(t) => s.handler.Off? && s.exec.Run? && t in s.exec.batch
    case WakeUp => s.exec.Asleep? && Line(s)
    case ReadByte => s.handler.Off? && s.exec.InTask? && s.reader.None? && 0 < s.rx
    case WriteBytes(n) => s.handler.Off? && s.exec.InTask? && s.writer.None? && 0 < n && s.tx + n <= FIFO_SIZE
    case Check(side) =>
      && s.handler.Off? && s.exec.InTask? && Pending(s, side).None?
      && if side == Rx then s.rx == 0 else s.tx == FIFO_SIZE
    case ArmStep => s.handler.Off? && s.exec.Arm?
    case WakeOther(_, _) => s.handler.Off? && s.exec.InTask?
    case Suspend => s.handler.Off? && s.exec.InTask?
    case Enter => s.handler.Off? && !s.masked && Line(s)
    case DeviceWake(_, _) => s.handler.Entered?
    case ReadId(tx, rx) =>
      && s.handler.Entered?
      && (tx ==> Asserted(s, Tx)) && (rx ==> Asserted(s, Rx))
      && (Asserted(s, Tx) || Asserted(s, Rx) ==> tx || rx)
    case HandlerStep(_) => s.handler.Load? || s.handler.Store? || s.handler.Wake? || s.handler.Leave?
  }

  function ExecMove(s: State): State
    requires Enabled(s, ExecStep)
  {
    match s.exec
    case Poll => s.(exec := Run(s.runnable), runnable := {})
    case Run(_) => s.(exec := Acquire)
    case Acquire => var (s', restore) := AcquireMask(s); s'.(exec := Swap(restore))
    case Swap(restore) => s.(signaled := false, exec := if s.signaled then Release(restore) else Asleep(restore))
    case Release(restore) => ReleaseMask(s, restore).(exec := Poll)
  }

  function ArmMove(s: State): State
    requires s.exec.Arm?
  {
    var e := s.exec;
    match e.pc
    case Checked => var (s', restore) := AcquireMask(s); s'.(exec := e.(pc := Locked(restore)))
    case Locked(restore) => WithWaker(s, e.side, Some(e.task)).(exec := e.(pc := WakerStored(restore)))
    case WakerStored(restore) => s.(exec := e.(pc := Loaded(restore, s.ier)))
    case Loaded(restore, reg) => s.(ier := reg + ArmBits(e.side), exec := e.(pc := Stored(restore)))
    case Stored(restore) =>
      WithPending(ReleaseMask(s, restore), e.side, Some(e.task)).(exec := InTask(e.batch, e.task))
  }

  function HandlerMove(s: State, pend: bool): State
    requires Enabled(s, HandlerStep(pend))
  {
    match s.handler
    case Load(side, rx) => s.(handler := Store(side, s.ier, rx))
    case Store(side, reg, rx) => s.(ier := reg - {Bit(side)}, handler := Wake(side, rx))
    case Wake(side, rx) =>
      var s' := if Waker(s, side).Some? then WakeTask(s, Waker(s, side).value, pend) else s;
      WithWaker(s', side, None).(handler := if rx then Load(Rx, false) else Leave)
    case Leave => s.(masked := false, handler := Off)
  }

  function Apply(s: State, act: Action): State
    requires Enabled(s, act)
  {
    match act
    case Receive => s.(rx := s.rx + 1)
    case Transmit => s.(tx := s.tx - 1)
    case OtherDevice => s.(other := !s.other)
    case ExecStep => ExecMove(s)
    // A running task polls its futures again or drops them: none of them is pending now.
    case Pick(t) =>
      s.(exec := InTask(s.exec.batch - {t}, t),
         reader := if s.reader == Some(t) then None else s.reader,
         writer := if s.writer == Some(t) then None else s.writer)
    case WakeUp => s.(exec := Release(s.exec.restore))
    case ReadByte => s.(rx := s.rx - 1)
    case WriteBytes(n) => s.(tx := s.tx + n)
    case Check(side) => s.(exec := Arm(s.exec.batch, s.exec.task, side, Checked))
    case ArmStep => ArmMove(s)
    case WakeOther(t, pend) => WakeTask(s, t, pend)
    case Suspend => s.(exec := Run(s.exec.batch))
    case Enter => s.(masked := true, handler := Entered)
    case DeviceWake(t, pend) => WakeTask(s, t, pend)
    case ReadId(tx, rx) =>
      s.(handler := if tx then Load(Tx, rx) else if rx then Load(Rx, false) else Leave)
    case HandlerStep(pend) => HandlerMove(s, pend)
  }

  /** Nothing armed, no interrupts taken yet; any tasks spawned, each of which called the pender. */
  predicate Init(s: State) {
    && !s.masked && s.exec.Poll? && s.handler.Off?
    && s.rxWaker.None? && s.txWaker.None? && s.reader.None? && s.writer.None?
    && s.rx <= FIFO_SIZE && s.tx <= FIFO_SIZE
  }

  ghost predicate Step(s: State, act: Action, s': State) {
    Enabled(s, act) && s' == Apply(s, act)
  }

  ghost predicate IsRun(states: seq<State>, acts: seq<Action>) {
    && |states| == |acts| + 1
    && Init(states[0])
    && forall i :: 0 <= i < |acts| ==> Step(states[i], acts[i], states[i + 1])
  }

  ghost predicate Reachable(s: State) {
    exists states, acts :: IsRun(states, acts) && states[|acts|] == s
  }
}
