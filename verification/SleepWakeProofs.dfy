/** No wakeup is lost: the invariant of the sleep and wake chain, and what follows from it. */
module SleepWakeProofs {
  import opened Options
  import opened Registers
  import opened SleepWake

  predicate InSection(e: Exec) {
    || e.Swap? || e.Asleep? || e.Release?
    || (e.Arm? && !e.pc.Checked?)
  }

  function Restore(e: Exec): bool
    requires InSection(e)
  {
    if e.Arm? then e.pc.restore else e.restore
  }

  /** Interrupts are masked exactly inside the main program's critical sections and the handler. */
  ghost predicate MaskOk(s: State) {
    && (s.masked <==> InSection(s.exec) || !s.handler.Off?)
    && (InSection(s.exec) ==> s.handler.Off? && Restore(s.exec))
  }

  /** Queued work is signalled, or the loop is already on its way to `poll`. */
  ghost predicate QueueOk(s: State) {
    && (s.runnable != {} ==> s.signaled || s.exec.Release? || s.exec.Poll?)
    && (s.exec.Asleep? ==> s.runnable == {} && !s.signaled)
  }

  function Batch(e: Exec): set<Task> {
    if e.Run? || e.InTask? || e.Arm? then e.batch else {}
  }

  /** The task will be polled: it is in the run queue, or in the part that `poll` has dequeued. */
  ghost predicate Queued(s: State, t: Task) {
    t in s.runnable || t in Batch(s.exec)
  }

  /** The waker of `t` is in its cell, with its interrupt enabled or its handler about to take it. */
  ghost predicate WillWake(s: State, side: Side, t: Task) {
    Waker(s, side) == Some(t) && (Bit(side) in s.ier || (s.handler.Wake? && s.handler.side == side))
  }

  ghost predicate SideOk(s: State, side: Side) {
    && (Pending(s, side).Some? ==>
          Queued(s, Pending(s, side).value) || WillWake(s, side, Pending(s, side).value))
    && (s.exec.Arm? && s.exec.side == side ==> Pending(s, side).None?)
  }

  /** A register value held between its load and its store is still what the register holds. */
  ghost predicate RegisterOk(s: State) {
    && (s.exec.Arm? && s.exec.pc.Loaded? ==> s.exec.pc.reg == s.ier && Waker(s, s.exec.side) == Some(s.exec.task))
    && (s.exec.Arm? && s.exec.pc.WakerStored? ==> Waker(s, s.exec.side) == Some(s.exec.task))
    && (s.exec.Arm? && s.exec.pc.Stored? ==>
          Waker(s, s.exec.side) == Some(s.exec.task) && Bit(s.exec.side) in s.ier)
    && (s.handler.Store? ==> s.handler.reg == s.ier)
  }

  ghost predicate Inv(s: State) {
    && MaskOk(s) && QueueOk(s) && RegisterOk(s)
    && SideOk(s, Rx) && SideOk(s, Tx)
    && s.rx <= FIFO_SIZE && s.tx <= FIFO_SIZE
  }

  lemma InitHolds(s: State)
    requires Init(s)
    ensures Inv(s)
  {
  }

  lemma HardwareKeeps(s: State, act: Action)
    requires Inv(s) && Enabled(s, act) && (act.Receive? || act.Transmit? || act.OtherDevice?)
    ensures Inv(Apply(s, act))
  {
  }

  lemma ExecKeeps(s: State, act: Action)
    requires Inv(s) && Enabled(s, act) && (act.ExecStep? || act.Pick? || act.WakeUp?)
    ensures Inv(Apply(s, act))
  {
  }

  lemma TaskKeeps(s: State, act: Action)
    requires Inv(s) && Enabled(s, act)
    requires act.ReadByte? || act.WriteBytes? || act.Check? || act.WakeOther? || act.Suspend?
    ensures Inv(Apply(s, act))
  {
  }

  lemma ArmKeeps(s: State)
    requires Inv(s) && s.exec.Arm? && s.handler.Off?
    ensures Inv(ArmMove(s))
  {
  }

  lemma HandlerKeeps(s: State, pend: bool)
    requires Inv(s) && Enabled(s, HandlerStep(pend))
    ensures Inv(HandlerMove(s, pend))
  {
  }

  lemma EntryKeeps(s: State, act: Action)
    requires Inv(s) && Enabled(s, act) && (act.Enter? || act.DeviceWake? || act.ReadId?)
    ensures Inv(Apply(s, act))
  {
  }

  lemma StepKeeps(s: State, act: Action)
    requires Inv(s) && Enabled(s, act)
    ensures Inv(Apply(s, act))
  {
    match act
    case Receive => HardwareKeeps(s, act);
    case Transmit => HardwareKeeps(s, act);
    case OtherDevice => HardwareKeeps(s, act);
    case ExecStep => ExecKeeps(s, act);
    case Pick(_) => ExecKeeps(s, act);
    case WakeUp => ExecKeeps(s, act);
    case ArmStep => ArmKeeps(s);
    case HandlerStep(pend) => HandlerKeeps(s, pend);
    case Enter => EntryKeeps(s, act);
    case DeviceWake(_, _) => EntryKeeps(s, act);
    case ReadId(_, _) => EntryKeeps(s, act);
    case _ => TaskKeeps(s, act);
  }

  lemma {:induction false} RunKeepsInv(states: seq<State>, acts: seq<Action>, i: nat)
    requires IsRun(states, acts) && i <= |acts|
    ensures Inv(states[i])
  {
    if i == 0 {
      InitHolds(states[0]);
    } else {
      RunKeepsInv(states, acts, i - 1);
      assert Step(states[i - 1], acts[i - 1], states[i]);
      StepKeeps(states[i - 1], acts[i - 1]);
    }
  }

  lemma ReachableInv(s: State)
    requires Reachable(s)
    ensures Inv(s)
  {
    var states, acts :| IsRun(states, acts) && states[|acts|] == s;
    RunKeepsInv(states, acts, |acts|);
  }

  // ---------------------------------------------------------------- the theorems

  /** The executor never sleeps on signalled or runnable work, and no handler runs while it decides. */
  lemma NeverSleepsOnWork(s: State)
    requires Reachable(s)
    ensures s.exec.Asleep? ==> s.runnable == {} && !s.signaled && s.handler.Off? && s.masked
    ensures s.exec.Swap? ==> s.handler.Off? && s.masked
    ensures s.runnable != {} ==> s.signaled || s.exec.Release? || s.exec.Poll?
  {
    ReachableInv(s);
  }

  /**
   No lost wakeup: the core is never asleep with no interrupt line asserted while a task waits for
   a byte that is in the receive FIFO, or waits to write and the transmit FIFO is empty.
   */
  lemma NoLostWakeup(s: State)
    requires Reachable(s) && s.exec.Asleep? && !Line(s)
    ensures s.reader.Some? ==> s.rx == 0
    ensures s.writer.Some? ==> s.tx != 0
  {
    ReachableInv(s);
    assert SideOk(s, Rx) && SideOk(s, Tx);
  }

  /**
   At every moment, asleep or not: once the hardware is ready for a pending future, its task is queued,
   or the interrupt line for it is asserted, or its handler is about to wake it.
   */
  lemma ReadyFutureIsSeen(s: State, side: Side)
    requires Reachable(s) && Pending(s, side).Some? && Ready(s, side)
    ensures || Queued(s, Pending(s, side).value)
            || (Asserted(s, side) && Waker(s, side) == Pending(s, side))
            || (s.handler.Wake? && s.handler.side == side && Waker(s, side) == Pending(s, side))
  {
    ReachableInv(s);
    assert SideOk(s, side);
  }

  /** Reader and writer share the enable register: no step of one side changes the other side's bit. */
  lemma SidesShareTheRegister(s: State, act: Action, side: Side)
    requires Reachable(s) && Enabled(s, act)
    requires Bit(side) in Apply(s, act).ier <==> Bit(side) !in s.ier
    ensures if Bit(side) in Apply(s, act).ier
            then act.ArmStep? && s.exec.side == side
            else act.HandlerStep? && s.handler.Store? && s.handler.side == side
  {
    ReachableInv(s);
  }

  /** How many of the two interrupts are enabled. */
  function EnabledSides(s: State): nat {
    (if Bit(Rx) in s.ier then 1 else 0) + if Bit(Tx) in s.ier then 1 else 0
  }

  /**
   The level-triggered line cannot keep re-entering the handler: the handler only ever disables, and
   disables each side that the identity register reported before it wakes that side's task.
   */
  lemma HandlerDisables(s: State, act: Action)
    requires Reachable(s) && Enabled(s, act) && !s.handler.Off?
    ensures EnabledSides(Apply(s, act)) <= EnabledSides(s)
    ensures act.HandlerStep? && s.handler.Store? && Bit(s.handler.side) in s.ier
            ==> EnabledSides(Apply(s, act)) < EnabledSides(s)
    ensures act.HandlerStep? && s.handler.Wake? && Waker(s, s.handler.side).Some?
            ==> Waker(s, s.handler.side).value in Apply(s, act).runnable
  {
    ReachableInv(s);
  }

  // ---------------------------------------------------------------- delivery, along every run

  /** Interrupts are taken at once: the executor's own code goes on only when none is waiting to be taken. */
  ghost predicate Prompt(states: seq<State>, acts: seq<Action>)
    requires |states| == |acts| + 1
  {
    forall i :: 0 <= i < |acts| ==> acts[i].ExecStep? ==> !Enabled(states[i], Enter)
  }

  /** The executor's steps to its next `poll`, not counting what the tasks of the running batch do. */
  function PollIn(e: Exec): nat {
    match e
    case Poll => 1
    case Release(_) => 2
    case Asleep(_) => 3
    case Swap(_) => 4
    case Acquire => 5
    case _ => 6
  }

  /** The executor gets on: a step of its loop, or the wakeup of the core. */
  predicate Moves(act: Action) {
    act.ExecStep? || act.WakeUp?
  }

  function Moved(acts: seq<Action>): nat {
    if acts == [] then 0 else Moved(acts[..|acts| - 1]) + if Moves(acts[|acts| - 1]) then 1 else 0
  }

  /** The future of `t` is still pending, and the hardware ready for it. */
  ghost predicate Due(s: State, side: Side, t: Task) {
    Pending(s, side) == Some(t) && Ready(s, side)
  }

  /**
   Nothing but running its task takes a pending future whose hardware is ready out of that state, and
   every move of the executor brings its `poll` closer, which dequeues the task.
   */
  lemma DueStep(s: State, act: Action, side: Side, t: Task)
    requires Inv(s) && Enabled(s, act) && Due(s, side, t) && t !in Batch(s.exec)
    requires act.ExecStep? ==> !Enabled(s, Enter)
    ensures var s' := Apply(s, act);
            && Due(s', side, t)
            && (t in Batch(s'.exec) || PollIn(s'.exec) + (if Moves(act) then 1 else 0) <= PollIn(s.exec))
  {
    assert SideOk(s, side);
  }

  /**
   From any moment, asleep or not, a pending future whose hardware is ready has its task dequeued within six
   moves of the executor (three from sleep).  This holds along every run in which interrupts are taken at once:
   whichever sides the identity register reports, whatever other devices assert and their handlers wake, and
   whatever the tasks do meanwhile.
   */
  lemma {:induction false} ReadyFutureIsDequeued(states: seq<State>, acts: seq<Action>, side: Side, t: Task)
    requires |states| == |acts| + 1 && Reachable(states[0]) && Due(states[0], side, t)
    requires forall i :: 0 <= i < |acts| ==> Step(states[i], acts[i], states[i + 1])
    requires Prompt(states, acts) && PollIn(states[0].exec) <= Moved(acts)
    ensures exists i :: 0 <= i <= |acts| && t in Batch(states[i].exec)
  {
    ReachableInv(states[0]);
    if forall i :: 0 <= i <= |acts| ==> t !in Batch(states[i].exec) {
      StillDue(states, acts, side, t);
    }
  }

  lemma {:induction false} StillDue(states: seq<State>, acts: seq<Action>, side: Side, t: Task)
    requires |states| == |acts| + 1 && Inv(states[0]) && Due(states[0], side, t)
    requires forall i :: 0 <= i < |acts| ==> Step(states[i], acts[i], states[i + 1])
    requires Prompt(states, acts) && forall i :: 0 <= i <= |acts| ==> t !in Batch(states[i].exec)
    ensures Inv(states[|acts|]) && Due(states[|acts|], side, t)
    ensures PollIn(states[|acts|].exec) + Moved(acts) <= PollIn(states[0].exec)
    decreases |acts|
  {
    if acts != [] {
      var n := |acts| - 1;
      var init, prefix := states[..n + 1], acts[..n];
      assert forall i :: 0 <= i < n ==> Step(init[i], prefix[i], init[i + 1]);
      StillDue(init, prefix, side, t);
      assert Step(states[n], acts[n], states[n + 1]);
      DueStep(states[n], acts[n], side, t);
      StepKeeps(states[n], acts[n]);
    }
  }

  // ---------------------------------------------------------------- delivery, by a schedule

  /** The state after the given actions, if each was enabled in turn. */
  function Exec(s: State, acts: seq<Action>): Option<State>
    decreases |acts|
  {
    if acts == [] then Some(s)
    else if Enabled(s, acts[0]) then Exec(Apply(s, acts[0]), acts[1..])
    else None
  }

  lemma ExecCons(s: State, act: Action, rest: seq<Action>)
    requires Enabled(s, act)
    ensures Exec(s, [act] + rest) == Exec(Apply(s, act), rest)
  {
    assert ([act] + rest)[1..] == rest;
  }

  lemma {:induction false} ExecConcat(s: State, x: seq<Action>, y: seq<Action>)
    requires Exec(s, x).Some?
    ensures Exec(s, x + y) == Exec(Exec(s, x).value, y)
    decreases |x|
  {
    if x == [] {
      assert x + y == y;
    } else {
      assert (x + y)[1..] == x[1..] + y;
      ExecConcat(Apply(s, x[0]), x[1..], y);
    }
  }

  /** From sleep to the interrupt: the core wakes, leaves its critical section and takes the interrupt. */
  const WAKE_AND_ENTER: seq<Action> := [WakeUp] + ([ExecStep] + [Enter])

  /** One side of the handler, when only that side is reported. */
  function Serve(side: Side): seq<Action> {
    [ReadId(side == Tx, side == Rx)]
    + ([HandlerStep(false)] + ([HandlerStep(false)] + ([HandlerStep(false)] + ([HandlerStep(false)] + []))))
  }

  lemma WakesAndEnters(s: State)
    requires Inv(s) && s.exec.Asleep? && Line(s)
    ensures Exec(s, WAKE_AND_ENTER) == Some(s.(masked := true, exec := Poll, handler := Entered))
  {
    var s1 := s.(exec := Release(s.exec.restore));
    var s2 := s.(exec := Poll, masked := false);
    var s3 := s.(exec := Poll, masked := true, handler := Entered);
    ExecCons(s, WakeUp, [ExecStep] + [Enter]);
    ExecCons(s1, ExecStep, [Enter]);
    assert Apply(s1, ExecStep) == s2;
    assert [Enter] == [Enter] + [];
    ExecCons(s2, Enter, []);
    assert Exec(s3, []) == Some(s3);
  }

  lemma HandlerServes(s: State, side: Side)
    requires s.handler.Entered? && Asserted(s, side) && Waker(s, side).Some?
    ensures var r := Exec(s, Serve(side));
            && r.Some? && r.value.handler.Off? && r.value.exec == s.exec && !r.value.masked
            && r.value.runnable == s.runnable + {Waker(s, side).value} && Waker(r.value, side) == None
            && r.value.ier == s.ier - {Bit(side)}
  {
    var s1 := s.(handler := Load(side, false));
    var s2 := s.(handler := Store(side, s.ier, false));
    var s3 := s.(handler := Wake(side, false), ier := s.ier - {Bit(side)});
    var s4 := HandlerMove(s3, false);
    var s5 := HandlerMove(s4, false);
    var h := HandlerStep(false);
    ExecCons(s, ReadId(side == Tx, side == Rx), [h] + ([h] + ([h] + ([h] + []))));
    ExecCons(s1, h, [h] + ([h] + ([h] + [])));
    ExecCons(s2, h, [h] + ([h] + []));
    ExecCons(s3, h, [h] + []);
    ExecCons(s4, h, []);
    assert Exec(s5, []) == Some(s5);
  }

  /**
   From sleep to the task: when the core sleeps while a future waits for what the hardware already has,
   it wakes, takes the interrupt, and the next `poll` dequeues the future's task.
   */
  lemma SleeperIsDelivered(s: State, side: Side)
    requires Reachable(s) && s.exec.Asleep? && Pending(s, side).Some? && Ready(s, side)
    ensures var r := Exec(s, WAKE_AND_ENTER + (Serve(side) + [ExecStep]));
            r.Some? && r.value.exec.Run? && Pending(s, side).value in r.value.exec.batch
  {
    ReachableInv(s);
    assert SideOk(s, side);
    WakesAndEnters(s);
    ExecConcat(s, WAKE_AND_ENTER, Serve(side) + [ExecStep]);
    var entered := s.(masked := true, exec := Poll, handler := Entered);
    HandlerServes(entered, side);
    ExecConcat(entered, Serve(side), [ExecStep]);
    var served := Exec(entered, Serve(side)).value;
    assert [ExecStep] == [ExecStep] + [];
    ExecCons(served, ExecStep, []);
    assert Exec(Apply(served, ExecStep), []) == Some(Apply(served, ExecStep));
  }

  // ---------------------------------------------------------------- and it does sleep

  lemma ExecOne(s: State, act: Action)
    requires Enabled(s, act)
    ensures Exec(s, [act]) == Some(Apply(s, act))
  {
    assert [act] == [act] + [];
    ExecCons(s, act, []);
  }

  /** From `poll` with nothing to run, by way of the swap in its critical section, to WFI. */
  const TO_SLEEP: seq<Action> := [ExecStep] + ([ExecStep] + ([ExecStep] + [ExecStep]))

  /** Without work, and with no interrupt to take, four steps of the executor put the core to sleep, masked. */
  lemma IdleCoreSleeps(s: State)
    requires Reachable(s) && s.exec.Poll? && s.handler.Off? && s.runnable == {} && !s.signaled && !Line(s)
    ensures Exec(s, TO_SLEEP) == Some(s.(exec := Asleep(true), masked := true))
  {
    ReachableInv(s);
    FallsAsleep(s);
  }

  lemma FallsAsleep(s: State)
    requires s.exec.Poll? && s.handler.Off? && s.runnable == {} && !s.signaled && !s.masked
    ensures Exec(s, TO_SLEEP) == Some(s.(exec := Asleep(true), masked := true))
  {
    var s1 := s.(exec := Run({}));
    SuspendedSleeps(s1);
    ExecCons(s, ExecStep, [ExecStep] + ([ExecStep] + [ExecStep]));
  }

  lemma SuspendedSleeps(s: State)
    requires s.exec == Run({}) && s.handler.Off? && !s.signaled && !s.masked
    ensures Exec(s, [ExecStep] + ([ExecStep] + [ExecStep])) == Some(s.(exec := Asleep(true), masked := true))
  {
    var s1 := s.(exec := Acquire);
    var s2 := s.(exec := Swap(true), masked := true);
    ExecOne(s2, ExecStep);
    ExecCons(s1, ExecStep, [ExecStep]);
    ExecCons(s, ExecStep, [ExecStep] + [ExecStep]);
  }

  /** A signal with nothing behind it costs one round of the loop, in which it is consumed. */
  lemma StaleSignalIsConsumed(s: State)
    requires Reachable(s) && s.exec.Poll? && s.handler.Off? && s.runnable == {} && s.signaled
    ensures Exec(s, TO_SLEEP + [ExecStep]) == Some(s.(signaled := false))
  {
    ReachableInv(s);
    var s1 := s.(exec := Run({}));
    var s2 := s.(exec := Acquire);
    var s3 := s.(exec := Swap(true), masked := true);
    var s4 := s.(exec := Release(true), masked := true, signaled := false);
    ExecOne(s3, ExecStep);
    ExecCons(s2, ExecStep, [ExecStep]);
    ExecCons(s1, ExecStep, [ExecStep] + [ExecStep]);
    ExecCons(s, ExecStep, [ExecStep] + ([ExecStep] + [ExecStep]));
    ExecConcat(s, TO_SLEEP, [ExecStep]);
    ExecOne(s4, ExecStep);
  }

  /** A future that finds its hardware not ready: the check, and the five steps of its critical section. */
  function ArmSchedule(side: Side): seq<Action> {
    [Check(side)] + ([ArmStep] + ([ArmStep] + ([ArmStep] + ([ArmStep] + [ArmStep]))))
  }

  /**
   Such a poll leaves the future pending, with its task's waker in its cell and the enable bits of its side set,
   those of the other side as they were, and interrupts unmasked again.
   */
  lemma FutureArms(s: State, side: Side)
    requires Enabled(s, Check(side)) && !s.masked
    ensures Exec(s, ArmSchedule(side)) ==
            Some(WithPending(WithWaker(s, side, Some(s.exec.task)), side, Some(s.exec.task))
                 .(ier := s.ier + ArmBits(side)))
  {
    var t := s.exec.task;
    var e := Arm(s.exec.batch, t, side, Checked);
    var s1 := s.(exec := e);
    var s2 := s.(exec := e.(pc := Locked(true)), masked := true);
    SectionArms(s2);
    ExecCons(s1, ArmStep, [ArmStep] + ([ArmStep] + ([ArmStep] + [ArmStep])));
    ExecCons(s, Check(side), [ArmStep] + ([ArmStep] + ([ArmStep] + ([ArmStep] + [ArmStep]))));
  }

  /** The critical section of the future, from its acquire to its release. */
  lemma SectionArms(s: State)
    requires s.exec.Arm? && s.exec.pc == Locked(true) && s.handler.Off? && s.masked
    ensures var e := s.exec;
            Exec(s, [ArmStep] + ([ArmStep] + ([ArmStep] + [ArmStep]))) ==
            Some(WithPending(WithWaker(s, e.side, Some(e.task)), e.side, Some(e.task))
                 .(ier := s.ier + ArmBits(e.side), masked := false, exec := InTask(e.batch, e.task)))
  {
    var e := s.exec;
    var s3 := WithWaker(s, e.side, Some(e.task)).(exec := e.(pc := WakerStored(true)));
    var s4 := s3.(exec := e.(pc := Loaded(true, s.ier)));
    var s5 := s3.(exec := e.(pc := Stored(true)), ier := s.ier + ArmBits(e.side));
    ExecOne(s5, ArmStep);
    ExecCons(s4, ArmStep, [ArmStep]);
    ExecCons(s3, ArmStep, [ArmStep] + [ArmStep]);
    ExecCons(s, ArmStep, [ArmStep] + ([ArmStep] + [ArmStep]));
  }

  /** Where enabled actions lead from a reachable state is reachable. */
  lemma {:induction false} ExecReachable(s: State, acts: seq<Action>)
    requires Reachable(s) && Exec(s, acts).Some?
    ensures Reachable(Exec(s, acts).value)
    decreases |acts|
  {
    if acts != [] {
      var states, done :| IsRun(states, done) && states[|done|] == s;
      var more := states + [Apply(s, acts[0])];
      assert forall i :: 0 <= i < |done| ==> Step(states[i], done[i], states[i + 1]);
      assert IsRun(more, done + [acts[0]]);
      ExecReachable(Apply(s, acts[0]), acts[1..]);
    }
  }

  /** At start-up, with task 0 spawned, an empty receive FIFO and a full transmit FIFO. */
  const START: State := State(false, false, {0}, None, None, {}, 0, FIFO_SIZE, false, None, None, Poll, Off)

  /** Task 0 runs, its future on one side arms, and the task suspends. */
  lemma TaskSuspends(side: Side)
    ensures var armed := WithPending(WithWaker(START, side, Some(0)), side, Some(0)).(ier := ArmBits(side));
            Exec(START, [ExecStep] + ([Pick(0)] + (ArmSchedule(side) + [Suspend]))) ==
            Some(armed.(runnable := {}, exec := Run({})))
  {
    var picked := START.(runnable := {}, exec := InTask({}, 0));
    var armed := WithPending(WithWaker(picked, side, Some(0)), side, Some(0)).(ier := ArmBits(side));
    assert Apply(START.(runnable := {}, exec := Run({0})), Pick(0)) == picked by { assert {0} - {0} == {}; }
    assert {} + ArmBits(side) == ArmBits(side);
    FutureArms(picked, side);
    ExecConcat(picked, ArmSchedule(side), [Suspend]);
    ExecOne(armed, Suspend);
    ExecCons(START.(runnable := {}, exec := Run({0})), Pick(0), ArmSchedule(side) + [Suspend]);
    ExecCons(START, ExecStep, [Pick(0)] + (ArmSchedule(side) + [Suspend]));
  }

  /** Asleep, with the future of task 0 on one side pending and armed. */
  function Sleeper(side: Side): State {
    WithPending(WithWaker(START, side, Some(0)), side, Some(0))
    .(ier := ArmBits(side), runnable := {}, exec := Asleep(true), masked := true)
  }

  lemma SleeperIsReachable(side: Side)
    ensures Reachable(Sleeper(side))
  {
    var none: seq<Action> := [];
    assert IsRun([START], none) && [START][|none|] == START;
    var x := [ExecStep] + ([Pick(0)] + (ArmSchedule(side) + [Suspend]));
    TaskSuspends(side);
    var suspended := Exec(START, x).value;
    SuspendedSleeps(suspended);
    ExecReachable(START, x);
    ExecReachable(suspended, [ExecStep] + ([ExecStep] + [ExecStep]));
  }

  lemma {:induction false} TransmitDrains(s: State)
    requires Reachable(s)
    ensures Reachable(s.(tx := 0))
    decreases s.tx
  {
    if s.tx != 0 {
      ExecOne(s, Transmit);
      ExecReachable(s, [Transmit]);
      TransmitDrains(s.(tx := s.tx - 1));
    } else {
      assert s.(tx := 0) == s;
    }
  }

  /**
   The theorems on sleep speak of states that occur: the core is reachably asleep with a read pending on an empty
   FIFO, and with one whose byte has just arrived; likewise with a write pending on a full FIFO, and on one
   that has drained since.  In the second state of each pair the line is asserted.
   */
  lemma SleepingFuturesAreReachable(side: Side)
    ensures exists s :: Reachable(s) && s.exec.Asleep? && Pending(s, side).Some? && !Ready(s, side) && !Line(s)
    ensures exists s :: Reachable(s) && s.exec.Asleep? && Pending(s, side).Some? && Ready(s, side) && Line(s)
  {
    var s := Sleeper(side);
    SleeperIsReachable(side);
    assert !Ready(s, side) && !Line(s);
    if side == Rx {
      var arrived := s.(rx := 1);
      ExecOne(s, Receive);
      ExecReachable(s, [Receive]);
      assert Reachable(arrived) && Line(arrived) && Ready(arrived, side);
    } else {
      var drained := s.(tx := 0);
      TransmitDrains(s);
      assert Reachable(drained) && Line(drained) && Ready(drained, side);
    }
  }
}
