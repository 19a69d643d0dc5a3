/**
 The system timer driver as a protocol between a free-running clock, the main
 program and the timer interrupt handlers.  Every volatile register access and
 every critical section of the driver is one step, so the clock may move and an
 interrupt may be taken between any two of them.
 */
module AlarmProtocol {
  import opened Options

  /** The number of ticks after which the low clock word, and so a compare register, repeats. */
  const WORD: nat := 0x1_0000_0000

  datatype Alarm = C1 | C3

  /**
   What belongs to one alarm: the driver's slot (the timestamp of its `AlarmState`, absent until
   the alarm is allocated), the compare register and the match bit.  `owed` is history that no
   step branches on: the accepted timestamp that was neither delivered to the callback, nor
   refused with `false`, nor replaced by a later request; 0 when there is none.
   */
  datatype Channel = Channel(slot: Option<nat>, compare: nat, matched: bool, owed: nat)

  // ---------------------------------------------------------------- the clock

  /** Where a call of `now` stands: the three register reads, in order. */
  datatype Now = ReadHigh | ReadLow(hi: nat) | ReadCheck(hi: nat, lo: nat)

  datatype NowOutcome = Reading(next: Now) | Read(time: nat)

  function NowStep(n: Now, clock: nat): NowOutcome {
    match n
    case ReadHigh => Reading(ReadLow(clock / WORD))
    case ReadLow(hi) => Reading(ReadCheck(hi, clock % WORD))
    case ReadCheck(hi, lo) =>
      if clock / WORD != hi then Reading(ReadHigh) else Read(hi * WORD + lo)
  }

  /** The words read so far never describe a time in the future. */
  ghost predicate NowOk(n: Now, clock: nat) {
    match n
    case ReadHigh => true
    case ReadLow(hi) => hi <= clock / WORD
    case ReadCheck(hi, lo) => hi <= clock / WORD && lo < WORD && hi * WORD + lo <= clock
  }

  /** This call of `now`, if it returns without another retry, returns at least `t`. */
  ghost predicate Sees(n: Now, t: nat, clock: nat) {
    && t <= clock
    && (n.ReadCheck? ==> n.hi < clock / WORD || t <= n.hi * WORD + n.lo)
  }

  lemma NowStepKeeps(n: Now, clock: nat)
    requires NowOk(n, clock)
    ensures match NowStep(n, clock)
            case Reading(next) => NowOk(next, clock) && forall t: nat :: Sees(n, t, clock) ==> Sees(next, t, clock)
            case Read(time) => time <= clock && forall t: nat :: Sees(n, t, clock) ==> t <= time
  {
  }

  lemma NowTickKeeps(n: Now, clock: nat)
    requires NowOk(n, clock)
    ensures NowOk(n, clock + 1)
    ensures forall t: nat :: Sees(n, t, clock) ==> Sees(n, t, clock + 1)
  {
  }

  // ---------------------------------------------------------------- set_alarm

  /** The steps of `set_alarm`; the two slot updates are critical sections. */
  datatype SetPc =
    | First(now: Now)
    | StoreSlot
    | WriteCompare
    | Second(now: Now)
    | ClearMatch
    | ZeroSlot

  /** A call of `set_alarm` in progress. */
  datatype Frame = Frame(alarm: Alarm, ts: nat, pc: SetPc)

  datatype Progress = Running(frame: Frame) | Returned(accepted: bool)

  /**
   One step of `set_alarm` on its channel.  `delivering` says that the caller is the handler's
   own loop, which fires the alarm itself when the call returns `false`.
   */
  function FrameStep(f: Frame, clock: nat, c: Channel, delivering: bool): (Channel, Progress) {
    match f.pc
    case First(now) =>
      (match NowStep(now, clock)
       case Reading(next) => (c, Running(f.(pc := First(next))))
       case Read(time) => if f.ts <= time then (c, Returned(false)) else (c, Running(f.(pc := StoreSlot))))
    case StoreSlot => (c.(slot := Some(f.ts), owed := f.ts), Running(f.(pc := WriteCompare)))
    case WriteCompare => (c.(compare := f.ts % WORD), Running(f.(pc := Second(ReadHigh))))
    case Second(now) =>
      (match NowStep(now, clock)
       case Reading(next) => (c, Running(f.(pc := Second(next))))
       case Read(time) => if f.ts <= time then (c, Running(f.(pc := ClearMatch))) else (c, Returned(true)))
    case ClearMatch => (c.(matched := false), Running(f.(pc := ZeroSlot)))
    case ZeroSlot =>
      (c.(slot := Some(0), owed := if !delivering && c.owed == f.ts then 0 else c.owed), Returned(false))
  }

  function Start(a: Alarm, ts: nat): Frame {
    Frame(a, ts, First(ReadHigh))
  }

  /** The call has put its timestamp in the slot and has not returned. */
  predicate PastStore(f: Frame) {
    f.pc.WriteCompare? || f.pc.Second? || f.pc.ClearMatch? || f.pc.ZeroSlot?
  }

  // ---------------------------------------------------------------- the handlers

  /** Where `alarm_interrupt` stands; `pass` counts the completed rounds of its loop. */
  datatype Handler =
    | Off
    | Acknowledge(alarm: Alarm)
    | Load(alarm: Alarm)
    | Decide(alarm: Alarm, ts: nat, now: Now, pass: nat)
    | Rearm(frame: Frame, pass: nat)
    | Fire(alarm: Alarm, ts: nat)
    | Callback(alarm: Alarm)
    | InCallback(alarm: Alarm, frame: Frame)
    | Panicked

  datatype Main = Idle | Busy(frame: Frame, masked: bool)

  /** `alsoC3`: the pending snapshot of this interrupt still has C3 to dispatch. */
  datatype State = State(clock: nat, c1: Channel, c3: Channel, main: Main, handler: Handler, alsoC3: bool)

  function Ch(s: State, a: Alarm): Channel {
    if a == C1 then s.c1 else s.c3
  }

  function WithCh(s: State, a: Alarm, c: Channel): State {
    if a == C1 then s.(c1 := c) else s.(c3 := c)
  }

  datatype Action =
    | Tick
    | Enter
    | HandlerStep
    | CallbackSet(alarm: Alarm, ts: nat)
    | CallbackReturn
    | Call(alarm: Alarm, ts: nat, masked: bool)
    | MainStep
    | SetCallback(alarm: Alarm)
    | Allocate

  /** Main code runs only while no handler does; a handler starts only while interrupts are unmasked. */
  predicate Enabled(s: State, act: Action) {
    match act
    case Tick => true
    case Enter => s.handler.Off? && (s.c1.matched || s.c3.matched) && !(s.main.Busy? && s.main.masked)
    case HandlerStep => !s.handler.Off? && !s.handler.Callback? && !s.handler.Panicked?
    case CallbackSet(a, ts) => s.handler.Callback? && Ch(s, a).slot.Some?
    case CallbackReturn => s.handler.Callback?
    case Call(a, ts, masked) => s.handler.Off? && s.main.Idle? && Ch(s, a).slot.Some?
    case MainStep => s.handler.Off? && s.main.Busy?
    case SetCallback(a) => s.handler.Off? && s.main.Idle? && Ch(s, a).slot.Some?
    case Allocate => s.handler.Off? && s.main.Idle?
  }

  function TickChannel(c: Channel, clock: nat): Channel {
    c.(matched := c.matched || clock % WORD == c.compare)
  }

  /** A channel after the clock has run from `from` to `to`, tick by tick. */
  function Passed(c: Channel, from: nat, to: nat): Channel {
    if to <= from then c else TickChannel(Passed(c, from, to - 1), to)
  }

  lemma {:induction false} PassedShape(c: Channel, from: nat, to: nat)
    ensures Passed(c, from, to) == c.(matched := Passed(c, from, to).matched)
    ensures c.matched ==> Passed(c, from, to).matched
  {
    if from < to { PassedShape(c, from, to - 1); }
  }

  /** The handler of one alarm is done: dispatch C3 if the snapshot asked for it, else return. */
  function Next(s: State): State {
    if s.alsoC3 then s.(handler := Acknowledge(C3), alsoC3 := false) else s.(handler := Off)
  }

  function HandlerMove(s: State): State
    requires Enabled(s, HandlerStep)
  {
    match s.handler
    case Acknowledge(a) => WithCh(s, a, Ch(s, a).(matched := false)).(handler := Load(a))
    case Load(a) =>
      (match Ch(s, a).slot
       case None => s.(handler := Panicked)
       case Some(ts) => s.(handler := Decide(a, ts, ReadHigh, 0)))
    case Decide(a, ts, now, pass) =>
      (match NowStep(now, s.clock)
       case Reading(next) => s.(handler := Decide(a, ts, next, pass))
       case Read(time) =>
         if ts <= time then s.(handler := Fire(a, ts)) else s.(handler := Rearm(Start(a, ts), pass)))
    case Rearm(f, pass) =>
      var (c, p) := FrameStep(f, s.clock, Ch(s, f.alarm), true);
      var s' := WithCh(s, f.alarm, c);
      (match p
       case Running(g) => s'.(handler := Rearm(g, pass))
       case Returned(true) => Next(s')
       case Returned(false) => s'.(handler := Decide(f.alarm, f.ts, ReadHigh, pass + 1)))
    case Fire(a, ts) => WithCh(s, a, Ch(s, a).(slot := Some(0), owed := 0)).(handler := Callback(a))
    case InCallback(a, f) =>
      var (c, p) := FrameStep(f, s.clock, Ch(s, f.alarm), false);
      WithCh(s, f.alarm, c).(handler := if p.Running? then InCallback(a, p.frame) else Callback(a))
  }

  function MainMove(s: State): State
    requires Enabled(s, MainStep)
  {
    var f := s.main.frame;
    var (c, p) := FrameStep(f, s.clock, Ch(s, f.alarm), false);
    WithCh(s, f.alarm, c).(main := if p.Running? then s.main.(frame := p.frame) else Idle)
  }

  function Apply(s: State, act: Action): State
    requires Enabled(s, act)
  {
    match act
    case Tick =>
      var now := s.clock + 1;
      s.(clock := now, c1 := TickChannel(s.c1, now), c3 := TickChannel(s.c3, now))
    case Enter =>
      if s.c1.matched
      then s.(handler := Acknowledge(C1), alsoC3 := s.c3.matched)
      else s.(handler := Acknowledge(C3), alsoC3 := false)
    case HandlerStep => HandlerMove(s)
    case CallbackSet(a, ts) => s.(handler := InCallback(s.handler.alarm, Start(a, ts)))
    case CallbackReturn => Next(s)
    case Call(a, ts, masked) => s.(main := Busy(Start(a, ts), masked))
    case MainStep => MainMove(s)
    case SetCallback(a) => WithCh(s, a, Ch(s, a).(slot := Some(0), owed := 0))
    case Allocate =>
      if s.c1.slot.None? then s.(c1 := s.c1.(slot := Some(0)))
      else if s.c3.slot.None? then s.(c3 := s.c3.(slot := Some(0)))
      else s
  }

  /** Before allocation: nothing accepted, nothing running, any clock and compare registers. */
  predicate Init(s: State) {
    && s.c1.slot == None && !s.c1.matched && s.c1.owed == 0 && s.c1.compare < WORD
    && s.c3.slot == None && !s.c3.matched && s.c3.owed == 0 && s.c3.compare < WORD
    && s.main.Idle? && s.handler.Off? && !s.alsoC3
  }

  /** The interrupted main program is inside `set_alarm` for `a`, past its slot update. */
  predicate Interrupting(s: State, a: Alarm) {
    s.main.Busy? && s.main.frame.alarm == a && PastStore(s.main.frame)
  }

  /**
   What the driver needs of its users: a callback does not re-arm an alarm whose `set_alarm` call it
   interrupts past the slot update, except for the same timestamp or for one that is refused anyway.
   */
  predicate Guarded(s: State, act: Action) {
    match act
    case CallbackSet(a, ts) => Interrupting(s, a) ==> ts == s.main.frame.ts || ts <= s.clock
    case _ => true
  }

  /** A tick that makes the low clock word meet the compare register of an unallocated alarm. */
  predicate Strikes(s: State, act: Action) {
    && act.Tick?
    && exists a :: Ch(s, a).slot.None? && (s.clock + 1) % WORD == Ch(s, a).compare
  }

  ghost predicate Step(s: State, act: Action, s': State) {
    Enabled(s, act) && s' == Apply(s, act)
  }

  /** A run from `states[0]` under `acts`. */
  ghost predicate Run(states: seq<State>, acts: seq<Action>) {
    && |states| == |acts| + 1
    && forall i :: 0 <= i < |acts| ==> Step(states[i], acts[i], states[i + 1])
  }

  ghost predicate GuardedRun(states: seq<State>, acts: seq<Action>) {
    && Run(states, acts)
    && Init(states[0])
    && forall i :: 0 <= i < |acts| ==> Guarded(states[i], acts[i])
  }
}
