/**
 A callback that re-arms the alarm whose `set_alarm` call it has interrupted: exactly when the alarm is
 forgotten, and how.  And that callers who mask interrupts around `set_alarm` never get there.
 */
module AlarmReArm {
  import opened Options
  import opened AlarmProtocol
  import opened AlarmInvariant
  import opened AlarmRuns
  import opened AlarmTheorems

  /** All code has returned, but the slot does not name the accepted timestamp or no match will be raised for it. */
  ghost predicate Forgets(s: State, a: Alarm) {
    && s.handler.Off? && s.main.Idle? && Ch(s, a).slot.Some?
    && var c := Ch(s, a);
       c.slot.value != c.owed || (c.owed != 0 && !Armed(c, c.owed, s.clock))
  }

  // ---------------------------------------------------------------- a standing clock

  /** The callback's `set_alarm(a, later)` has been accepted. */
  function ReArmed(s: State, a: Alarm, later: nat): State {
    WithCh(s, a, Ch(s, a).(slot := Some(later), owed := later, compare := later % WORD))
  }

  /** The callback's call at a standing clock, and the end of its interrupt. */
  lemma ReArmRuns(s: State, a: Alarm, later: nat)
    requires s.handler.Callback? && Ch(s, a).slot.Some? && s.clock < later && (s.alsoC3 ==> s.c3.slot.Some?)
    ensures var armed := ReArmed(s, a, later);
            Leads(Apply(s, CallbackSet(a, later)), Times(HandlerStep, 8) + Finish(armed), Finished(armed))
  {
    var armed := ReArmed(s, a, later);
    CallbackRuns(Apply(s, CallbackSet(a, later)));
    InterruptFinishes(armed);
    LeadsOn(Apply(s, CallbackSet(a, later)), Times(HandlerStep, 8), armed, Finish(armed), Finished(armed));
  }

  /** The interrupt dispatches C3 after this callback: a match that was pending for it is acknowledged. */
  lemma FinishedState(s: State, a: Alarm, later: nat)
    requires s.clock < later && (s.alsoC3 ==> s.c3.slot.Some?)
    ensures var m := Finished(ReArmed(s, a, later));
            && m.main == s.main && m.handler.Off? && !m.alsoC3 && m.clock == s.clock
            && (s.c1.slot.Some? ==> m.c1.slot.Some?) && (m.c3.slot.Some? ==> s.c3.slot.Some? || a == C3)
            && Ch(m, a) == Channel(Some(later), later % WORD, Ch(s, a).matched && !(s.alsoC3 && a == C3), later)
  {
  }

  lemma InterruptedFrameOk(s: State, a: Alarm)
    requires Reachable(s) && Interrupting(s, a)
    ensures FrameOk(s.main.frame, Ch(s, a), s.clock) && (s.c3.slot.Some? ==> s.c1.slot.Some?)
  {
    ReachableInv(s);
  }

  /** And then the interrupted call has run to its end as well. */
  ghost function Resumed(s: State, a: Alarm, later: nat): State
    requires Interrupting(s, a) && (s.alsoC3 ==> s.c3.slot.Some?)
  {
    var m := Finished(ReArmed(s, a, later));
    WithCh(m, a, CallResult(s.main.frame, s.clock, Ch(m, a), false)).(main := Idle)
  }

  /**
   Wherever the re-arm interrupts the outer call past its slot update, and however that call's second
   check then comes out: if the clock stands still meanwhile, the re-armed timestamp is forgotten exactly
   when the outer call refuses its own, or has yet to write a compare word that differs.
   */
  lemma InterruptedReArm(s: State, a: Alarm, later: nat)
    requires Reachable(s) && Enabled(s, CallbackSet(a, later)) && (s.alsoC3 ==> s.c3.slot.Some?)
    requires Interrupting(s, a) && s.clock < later && later != s.main.frame.ts
    ensures var f, r := s.main.frame, Resumed(s, a, later);
            && Leads(Apply(s, CallbackSet(a, later)),
                     Times(HandlerStep, 8) + Finish(ReArmed(s, a, later)) + Times(MainStep, CallLeft(f, s.clock)), r)
            && r.handler.Off? && r.main.Idle? && Ch(r, a).owed == later
            && Ch(r, a).slot == Some(if Refuses(f, s.clock) then 0 else later)
            && (Forgets(r, a) <==>
                  || Refuses(f, s.clock)
                  || (f.pc.WriteCompare? && f.ts % WORD != later % WORD
                      && (Ch(s, a).matched ==> s.alsoC3 && a == C3)))
  {
    ReachableInv(s);
    var f, m := s.main.frame, Finished(ReArmed(s, a, later));
    ReArmRuns(s, a, later);
    FinishedState(s, a, later);
    MainRuns(m);
    LeadsOn(Apply(s, CallbackSet(a, later)), Times(HandlerStep, 8) + Finish(ReArmed(s, a, later)), m,
            Times(MainStep, CallLeft(f, s.clock)), Resumed(s, a, later));
  }

  // ---------------------------------------------------------------- a moving clock

  /** `n` ticks pass before the interrupted call goes on. */
  ghost function ResumedAfter(m: State, n: nat): State
    requires m.main.Busy?
  {
    var f, l := m.main.frame, Later(m, n);
    WithCh(l, f.alarm, CallResult(f, l.clock, Ch(l, f.alarm), false)).(main := Idle)
  }

  lemma ResumesAfter(m: State, n: nat)
    requires m.handler.Off? && m.main.Busy? && FrameOk(m.main.frame, Ch(Later(m, n), m.main.frame.alarm), m.clock + n)
    ensures Leads(m, Times(Tick, n) + Times(MainStep, CallLeft(m.main.frame, m.clock + n)), ResumedAfter(m, n))
  {
    TicksLead(m, n);
    MainRuns(Later(m, n));
    LeadsOn(m, Times(Tick, n), Later(m, n), Times(MainStep, CallLeft(m.main.frame, m.clock + n)), ResumedAfter(m, n));
  }

  lemma FrameOkLater(f: Frame, c: Channel, clock: nat, n: nat)
    requires FrameOk(f, c, clock)
    ensures FrameOk(f, Passed(c, clock, clock + n), clock + n)
  {
    PassedShape(c, clock, clock + n);
    assert clock / WORD <= (clock + n) / WORD;
  }

  /** A lap later, and at its time, the interrupted call sees that it is too late, whatever it had read before. */
  lemma RefusesLater(f: Frame, c: Channel, clock: nat, n: nat)
    requires FrameOk(f, c, clock) && PastStore(f) && f.ts <= clock + n && WORD <= n
    ensures Refuses(f, clock + n)
  {
    assert clock / WORD < (clock + n) / WORD;
  }

  /** A refusal zeroes the slot under a re-armed timestamp, and drops its match. */
  lemma RefusalForgets(m: State, n: nat)
    requires m.handler.Off? && m.main.Busy? && PastStore(m.main.frame)
    requires FrameOk(m.main.frame, Ch(m, m.main.frame.alarm), m.clock)
    requires m.main.frame.ts <= m.clock + n && WORD <= n
    ensures var f, c, r := m.main.frame, Ch(m, m.main.frame.alarm), ResumedAfter(m, n);
            && Leads(m, Times(Tick, n) + Times(MainStep, CallLeft(f, m.clock + n)), r)
            && r.handler.Off? && r.main.Idle? && r.alsoC3 == m.alsoC3 && r.clock == m.clock + n
            && (m.c1.slot.Some? ==> r.c1.slot.Some?) && (m.c3.slot.Some? <==> r.c3.slot.Some?)
            && Ch(r, f.alarm).slot == Some(0) && Ch(r, f.alarm).owed == (if c.owed == f.ts then 0 else c.owed)
            && Ch(r, f.alarm).compare == (if f.pc.WriteCompare? then f.ts % WORD else c.compare)
            && (!f.pc.ZeroSlot? ==> !Ch(r, f.alarm).matched)
  {
    var f := m.main.frame;
    var c := Ch(m, f.alarm);
    FrameOkLater(f, c, m.clock, n);
    ResumesAfter(m, n);
    RefusesLater(f, c, m.clock, n);
    PassedShape(m.c1, m.clock, m.clock + n);
    PassedShape(m.c3, m.clock, m.clock + n);
  }

  lemma ThenResumes(s: State, x: seq<Action>, m: State, n: nat)
    requires Leads(s, x, m) && m.handler.Off? && m.main.Busy?
    requires FrameOk(m.main.frame, Ch(m, m.main.frame.alarm), m.clock)
    ensures exists acts :: Leads(s, acts, ResumedAfter(m, n))
  {
    var y := Times(Tick, n) + Times(MainStep, CallLeft(m.main.frame, m.clock + n));
    FrameOkLater(m.main.frame, Ch(m, m.main.frame.alarm), m.clock, n);
    ResumesAfter(m, n);
    LeadsOn(s, x, m, y, ResumedAfter(m, n));
  }

  /** After an unguarded re-arm and the end of its interrupt, the interrupted call goes on `n` ticks later. */
  lemma UnguardedReArmRuns(s: State, a: Alarm, later: nat, n: nat)
    requires Reachable(s) && Enabled(s, CallbackSet(a, later)) && (s.alsoC3 ==> s.c3.slot.Some?)
    requires Interrupting(s, a) && s.clock < later
    ensures exists acts ::
              Leads(Apply(s, CallbackSet(a, later)), acts, ResumedAfter(Finished(ReArmed(s, a, later)), n))
  {
    var m := Finished(ReArmed(s, a, later));
    InterruptedFrameOk(s, a);
    FinishedState(s, a, later);
    ReArmRuns(s, a, later);
    ThenResumes(Apply(s, CallbackSet(a, later)), Times(HandlerStep, 8) + Finish(ReArmed(s, a, later)), m, n);
  }

  /**
   Every unguarded re-arm can be forgotten, from any point past the slot update: accepted, then its slot
   zeroed by the refusal of the outer call.  Unless that call had only the zeroing left to do, it also drops
   the match, and then nothing is left that would ever bring the timestamp back.
   */
  lemma UnguardedReArmIsForgotten(s: State, a: Alarm, later: nat)
    requires Reachable(s) && Enabled(s, CallbackSet(a, later)) && (s.alsoC3 ==> s.c3.slot.Some?)
    requires !Guarded(s, CallbackSet(a, later))
    ensures exists acts, r ::
              && Leads(Apply(s, CallbackSet(a, later)), acts, r) && Forgets(r, a) && Ch(r, a).owed == later
              && (!s.main.frame.pc.ZeroSlot? ==> !Covered(r, a, later))
  {
    var n := s.main.frame.ts + later + WORD;
    UnguardedReArmRuns(s, a, later, n);
    InterruptedFrameOk(s, a);
    FinishedState(s, a, later);
    RefusalForgets(Finished(ReArmed(s, a, later)), n);
  }

  /** The interrupted call refuses the timestamp that a callback has requested as well. */
  lemma SameRequestRefused(s: State, a: Alarm)
    requires Reachable(s) && s.handler.Callback? && Ch(s, a).slot.Some? && (s.alsoC3 ==> s.c3.slot.Some?)
    requires Interrupting(s, a) && s.clock < s.main.frame.ts
    ensures exists acts, r ::
              && Leads(ReArmed(s, a, s.main.frame.ts), acts, r)
              && r.handler.Off? && r.main.Idle? && s.main.frame.ts <= r.clock
              && Ch(r, a).slot == Some(0) && Ch(r, a).owed == 0 && !Ch(r, a).matched
  {
    var ts, n := s.main.frame.ts, s.main.frame.ts + WORD;
    var armed := ReArmed(s, a, ts);
    var m := Finished(armed);
    InterruptedFrameOk(s, a);
    FinishedState(s, a, ts);
    InterruptFinishes(armed);
    RefusalForgets(m, n);
    LeadsOn(armed, Finish(armed), m, Times(Tick, n) + Times(MainStep, CallLeft(m.main.frame, m.clock + n)),
            ResumedAfter(m, n));
  }

  /**
   A request for the very timestamp that the interrupted call is setting is guarded, but it has one answer for
   two callers: the callback can be told that it is accepted, and the outer call then be refused, which zeroes
   the slot and drops the match for both.  Only the outer caller learns that the timestamp is due.
   */
  lemma SameRequestHasOneAnswer(s: State, a: Alarm)
    requires Reachable(s) && s.handler.Callback? && Ch(s, a).slot.Some? && (s.alsoC3 ==> s.c3.slot.Some?)
    requires Interrupting(s, a) && s.clock < s.main.frame.ts
    ensures var ts := s.main.frame.ts;
            && Guarded(s, CallbackSet(a, ts)) && !Refuses(Start(a, ts), s.clock)
            && Leads(Apply(s, CallbackSet(a, ts)), Times(HandlerStep, 8), ReArmed(s, a, ts))
            && exists acts, r ::
                 && Leads(ReArmed(s, a, ts), acts, r) && r.handler.Off? && r.main.Idle? && ts <= r.clock
                 && Ch(r, a).slot == Some(0) && Ch(r, a).owed == 0 && !Ch(r, a).matched
  {
    CallbackRuns(Apply(s, CallbackSet(a, s.main.frame.ts)));
    SameRequestRefused(s, a);
  }

  // ---------------------------------------------------------------- the exact condition

  lemma InvForgetsNothing(s: State, b: Alarm)
    requires Inv(s)
    ensures !Forgets(s, b)
  {
    assert ChannelOk(s, b);
  }

  /**
   The guard on callbacks is exactly what safety needs.  For every reachable state with a callback running,
   every alarm and every timestamp: no continuation of the callback's request, however long and with whatever
   further guarded requests, ends with a forgotten alarm, if and only if the request is guarded.  (`alsoC3`
   with C3 unallocated means that the interrupt is already bound to panic.)
   */
  lemma ReArmIsSafeIff(s: State, a: Alarm, later: nat)
    requires Reachable(s) && Enabled(s, CallbackSet(a, later)) && (s.alsoC3 ==> s.c3.slot.Some?)
    ensures Guarded(s, CallbackSet(a, later)) <==>
            forall acts, r, b :: Leads(Apply(s, CallbackSet(a, later)), acts, r) ==> !Forgets(r, b)
  {
    ReachableInv(s);
    var s' := Apply(s, CallbackSet(a, later));
    if Guarded(s, CallbackSet(a, later)) {
      StepKeeps(s, CallbackSet(a, later));
      forall acts, r, b | Leads(s', acts, r)
        ensures !Forgets(r, b)
      {
        LeadsKeepsInv(s', acts, r);
        InvForgetsNothing(r, b);
      }
    } else {
      UnguardedReArmIsForgotten(s, a, later);
    }
  }

  // ---------------------------------------------------------------- too early

  /** A zeroed slot fires at the next match, whatever was accepted. */
  lemma ZeroedSlotFires(q: State, a: Alarm)
    requires q.handler.Off? && q.main.Idle? && !q.alsoC3 && (q.c3.slot.Some? ==> q.c1.slot.Some?)
    requires Ch(q, a).slot == Some(0) && Ch(q, a).compare < WORD
    ensures exists acts, r ::
              && Leads(q, acts, r) && r.handler == Fire(a, 0)
              && r.clock <= q.clock + WORD && Ch(r, a).owed == Ch(q, a).owed
  {
    var n := TicksTo(Ch(q, a).compare, q.clock);
    MatchComes(q, a, n);
    MatchedFires(Later(q, n), a);
    var acts, r :| Leads(Later(q, n), acts, r) && r.handler == Fire(a, 0)
                   && r.clock == Later(q, n).clock && Ch(r, a).owed == Ch(Later(q, n), a).owed;
    LeadsOn(q, Times(Tick, n), Later(q, n), acts, r);
  }

  lemma MatchedFires(l: State, a: Alarm)
    requires l.handler.Off? && l.main.Idle? && (l.c3.slot.Some? ==> l.c1.slot.Some?)
    requires Ch(l, a).slot == Some(0) && Ch(l, a).matched
    ensures exists acts, r ::
              Leads(l, acts, r) && r.handler == Fire(a, 0) && r.clock == l.clock && Ch(r, a).owed == Ch(l, a).owed
  {
    var entered := Apply(l, Enter);
    if entered.handler == Acknowledge(a) {
      LeadsOne(l, Enter);
      MatchFires(l, [Enter], entered, a);
    } else {
      HandlerServes(entered, C1);
      var next := Next(WithCh(entered, C1, Served(entered.c1, entered.clock)));
      LeadsCons(l, Enter, Serve(entered.c1, entered.clock), next);
      MatchFires(l, [Enter] + Serve(entered.c1, entered.clock), next, a);
    }
  }

  lemma MatchFires(q: State, x: seq<Action>, s: State, a: Alarm)
    requires Leads(q, x, s) && s.handler == Acknowledge(a) && Ch(s, a).slot == Some(0)
    ensures exists acts, r ::
              Leads(q, acts, r) && r.handler == Fire(a, 0) && r.clock == s.clock && Ch(r, a).owed == Ch(s, a).owed
  {
    var r := WithCh(s, a, Ch(s, a).(matched := false)).(handler := Fire(a, 0));
    HandlerDecides(s, a);
    LeadsOn(q, x, s, Times(HandlerStep, 5), r);
  }

  /**
   The other way in which an unguarded re-arm goes wrong: for a timestamp more than two laps after the
   outer one, the callback can be run while the accepted timestamp is still ahead.
   */
  lemma UnguardedReArmFiresEarly(s: State, a: Alarm, later: nat)
    requires Reachable(s) && Enabled(s, CallbackSet(a, later)) && (s.alsoC3 ==> s.c3.slot.Some?)
    requires !Guarded(s, CallbackSet(a, later)) && s.clock + s.main.frame.ts + 2 * WORD < later
    ensures exists acts, r ::
              && Leads(Apply(s, CallbackSet(a, later)), acts, r)
              && r.handler == Fire(a, 0) && Ch(r, a).owed == later && r.clock < later
  {
    var n := s.main.frame.ts + WORD;
    UnguardedReArmRuns(s, a, later, n);
    InterruptedFrameOk(s, a);
    FinishedState(s, a, later);
    var m := Finished(ReArmed(s, a, later));
    RefusalForgets(m, n);
    var q := ResumedAfter(m, n);
    var x :| Leads(Apply(s, CallbackSet(a, later)), x, q);
    ZeroedSlotFires(q, a);
    var y, r :| Leads(q, y, r) && r.handler == Fire(a, 0)
                && r.clock <= q.clock + WORD && Ch(r, a).owed == Ch(q, a).owed;
    LeadsOn(Apply(s, CallbackSet(a, later)), x, q, y, r);
  }

  // ---------------------------------------------------------------- and it happens

  /** Where a schedule leads from initialization is reachable. */
  lemma {:induction false} LeadsReachable(states: seq<State>, done: seq<Action>, acts: seq<Action>, r: State)
    requires GuardedRun(states, done) && Leads(states[|done|], acts, r)
    ensures Reachable(r)
    decreases |acts|
  {
    if acts != [] {
      var act, s := acts[0], states[|done|];
      var more := states + [Apply(s, act)];
      assert forall i :: 0 <= i < |done| ==> Step(states[i], done[i], states[i + 1]);
      assert GuardedRun(more, done + [act]);
      LeadsReachable(more, done + [act], acts[1..], r);
    }
  }

  /** Both alarms allocated, and `set_alarm(C1, 100)` begun with interrupts unmasked, up to its slot update. */
  lemma CallUpToStore(s: State)
    requires s == State(10, Channel(Some(0), 0, false, 0), Channel(Some(0), 11, false, 0), Idle, Off, false)
    ensures Leads(s, [Call(C1, 100, false)] + Times(MainStep, 4),
                  s.(main := Busy(Frame(C1, 100, WriteCompare), false), c1 := Channel(Some(100), 0, false, 100)))
  {
    var s0 := s.(main := Busy(Start(C1, 100), false));
    var s1 := s.(main := Busy(Frame(C1, 100, First(ReadLow(0))), false));
    var s2 := s.(main := Busy(Frame(C1, 100, First(ReadCheck(0, 10))), false));
    var s3 := s.(main := Busy(Frame(C1, 100, StoreSlot), false));
    var s4 := s.(main := Busy(Frame(C1, 100, WriteCompare), false), c1 := Channel(Some(100), 0, false, 100));
    assert Leads(s4, Times(MainStep, 0), s4);
    StepTimes(s3, MainStep, 0, s4);
    StepTimes(s2, MainStep, 1, s4);
    StepTimes(s1, MainStep, 2, s4);
    StepTimes(s0, MainStep, 3, s4);
    LeadsCons(s, Call(C1, 100, false), Times(MainStep, 4), s4);
  }

  /** A stale match of C3 interrupts it there, and its callback runs. */
  lemma StaleMatchInterrupts(s: State)
    requires s == State(10, Channel(Some(100), 0, false, 100), Channel(Some(0), 11, false, 0),
                        Busy(Frame(C1, 100, WriteCompare), false), Off, false)
    ensures Leads(s, [Tick] + ([Enter] + Times(HandlerStep, 6)),
                  s.(clock := 11, handler := Callback(C3)))
  {
    var s1 := s.(clock := 11, c3 := Channel(Some(0), 11, true, 0));
    var s2 := s1.(handler := Acknowledge(C3));
    DueHandlerRuns(s2, C3);
    LeadsCons(s1, Enter, Times(HandlerStep, 6), s.(clock := 11, handler := Callback(C3)));
    LeadsCons(s, Tick, [Enter] + Times(HandlerStep, 6), s.(clock := 11, handler := Callback(C3)));
  }

  lemma BothAllocate(s: State)
    requires s == State(10, Channel(None, 0, false, 0), Channel(None, 11, false, 0), Idle, Off, false)
    ensures Leads(s, [Allocate] + [Allocate],
                  s.(c1 := Channel(Some(0), 0, false, 0), c3 := Channel(Some(0), 11, false, 0)))
  {
    LeadsOne(s.(c1 := Channel(Some(0), 0, false, 0)), Allocate);
    LeadsCons(s, Allocate, [Allocate], s.(c1 := Channel(Some(0), 0, false, 0), c3 := Channel(Some(0), 11, false, 0)));
  }

  /** The main program is inside `set_alarm(C1, 100)`, and a callback of C3 is running. */
  const INTERRUPTED: State := State(11, Channel(Some(100), 0, false, 100), Channel(Some(0), 11, false, 0),
                                    Busy(Frame(C1, 100, WriteCompare), false), Callback(C3), false)

  lemma CallIsInterrupted(both: State) returns (acts: seq<Action>)
    requires both == State(10, Channel(Some(0), 0, false, 0), Channel(Some(0), 11, false, 0), Idle, Off, false)
    ensures Leads(both, acts, INTERRUPTED)
  {
    var called := both.(main := Busy(Frame(C1, 100, WriteCompare), false), c1 := Channel(Some(100), 0, false, 100));
    CallUpToStore(both);
    StaleMatchInterrupts(called);
    var x, y := [Call(C1, 100, false)] + Times(MainStep, 4), [Tick] + ([Enter] + Times(HandlerStep, 6));
    LeadsOn(both, x, called, y, INTERRUPTED);
    acts := x + y;
  }

  lemma InterruptedIsReachable()
    ensures Reachable(INTERRUPTED)
  {
    var start := State(10, Channel(None, 0, false, 0), Channel(None, 11, false, 0), Idle, Off, false);
    var both := State(10, Channel(Some(0), 0, false, 0), Channel(Some(0), 11, false, 0), Idle, Off, false);
    BothAllocate(start);
    var acts := CallIsInterrupted(both);
    LeadsOn(start, [Allocate] + [Allocate], both, acts, INTERRUPTED);
    LeadsReachable([start], [], [Allocate] + [Allocate] + acts, INTERRUPTED);
  }

  /** So unguarded requests can come up, for every timestamp ahead but the one being set. */
  lemma UnguardedReArmIsReachable(later: nat)
    requires 11 < later && later != 100
    ensures Reachable(INTERRUPTED) && Enabled(INTERRUPTED, CallbackSet(C1, later))
    ensures !Guarded(INTERRUPTED, CallbackSet(C1, later))
  {
    InterruptedIsReachable();
  }

  // ---------------------------------------------------------------- masking callers

  /** Every call of `set_alarm` by the main program is made with interrupts masked. */
  ghost predicate MaskingRun(states: seq<State>, acts: seq<Action>) {
    && Run(states, acts) && Init(states[0])
    && forall i :: 0 <= i < |acts| ==> acts[i].Call? ==> acts[i].masked
  }

  /** Then no handler runs during a call. */
  lemma {:induction false} MaskedCallsAreAlone(states: seq<State>, acts: seq<Action>, i: nat)
    requires MaskingRun(states, acts) && i <= |acts|
    ensures states[i].main.Busy? ==> states[i].main.masked && states[i].handler.Off?
  {
    if i != 0 {
      MaskedCallsAreAlone(states, acts, i - 1);
      assert Step(states[i - 1], acts[i - 1], states[i]);
    }
  }

  /** And so every request of every callback is guarded: such callers lose no alarm, at no moment of any run. */
  lemma MaskingLosesNoAlarm(states: seq<State>, acts: seq<Action>, i: nat, a: Alarm)
    requires MaskingRun(states, acts) && i <= |acts|
    ensures GuardedRun(states, acts)
    ensures Ch(states[i], a).owed != 0 ==> Covered(states[i], a, Ch(states[i], a).owed)
    ensures !Forgets(states[i], a)
  {
    forall k | 0 <= k < |acts|
      ensures Guarded(states[k], acts[k])
    {
      MaskedCallsAreAlone(states, acts, k);
      assert Step(states[k], acts[k], states[k + 1]);
    }
    RunKeepsInv(states, acts, i);
    InvForgetsNothing(states[i], a);
    assert ChannelOk(states[i], a);
  }
}
