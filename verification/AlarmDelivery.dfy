/** A due alarm is delivered: along every run in which the handlers go on, and by a fixed schedule. */
module AlarmDelivery {
  import opened Options
  import opened AlarmProtocol
  import opened AlarmInvariant
  import opened AlarmHandlers
  import opened AlarmRuns
  import opened AlarmTheorems

  // ---------------------------------------------------------------- along every run

  /** The same for a handler whose alarm is due: it does not arm again. */
  function DueBound(h: Handler, clock: nat): nat {
    match h
    case Acknowledge(_) => 6
    case Load(_) => 5
    case Decide(_, _, now, _) => NowLeft(now, clock) + 1
    case _ => 1
  }

  /** `ts` is due on `a`, and its handler is on the way to its callback. */
  ghost predicate Firing(s: State, a: Alarm, ts: nat) {
    match s.handler
    case Acknowledge(b) => a == b && Ch(s, a).slot == Some(ts)
    case Load(b) => a == b && Ch(s, a).slot == Some(ts)
    case Decide(b, t, now, _) => a == b && t == ts && Sees(now, ts, s.clock)
    case Fire(b, t) => a == b && t == ts
    case _ => false
  }

  /** `ts` is due on C3, and the handler of C1 will dispatch C3 when it is done. */
  ghost predicate Waiting(s: State, a: Alarm, ts: nat) {
    && a == C3 && s.alsoC3 && s.c3.slot == Some(ts) && !s.handler.Panicked?
    && (s.handler.InCallback? ==> s.handler.frame.alarm == C1)
  }

  ghost predicate OnTheWay(s: State, a: Alarm, ts: nat) {
    ts <= s.clock && Ch(s, a).owed == ts && (Firing(s, a, ts) || Waiting(s, a, ts))
  }

  /** The handler steps, outside callbacks, to the callback of `a`, if the clock stands still. */
  ghost function ToGo(s: State, a: Alarm, ts: nat): nat {
    if Firing(s, a, ts) then DueBound(s.handler, s.clock) else HandlerBound(s.handler, s.clock) + 6
  }

  /** The callback of `a` has been called for what was owed, and nothing is owed any more. */
  predicate Delivered(s: State, a: Alarm) {
    s.handler == Callback(a) && Ch(s, a).owed == 0 && Ch(s, a).slot == Some(0)
  }

  /** The step keeps what is owed to `a` on the way, and brings its callback closer; a tick costs a retry at most. */
  ghost predicate Closer(s: State, act: Action, s': State, a: Alarm, ts: nat) {
    && OnTheWay(s', a, ts)
    && ToGo(s', a, ts) + (if Works(s, act) then 1 else 0) <= ToGo(s, a, ts) + 3 * (High(s') - High(s))
  }

  lemma FiringTick(s: State, a: Alarm, ts: nat)
    requires Inv(s) && OnTheWay(s, a, ts) && Firing(s, a, ts)
    ensures Closer(s, Tick, Apply(s, Tick), a, ts)
  {
    if s.handler.Decide? {
      NowWork(s.handler.now, s.clock);
      NowTickKeeps(s.handler.now, s.clock);
    }
  }

  lemma FiringStep(s: State, act: Action, a: Alarm, ts: nat)
    requires Inv(s) && Enabled(s, act) && OnTheWay(s, a, ts) && Firing(s, a, ts)
    ensures Delivered(Apply(s, act), a) || Closer(s, act, Apply(s, act), a, ts)
  {
    if act.Tick? {
      FiringTick(s, a, ts);
    } else if s.handler.Decide? {
      NowWork(s.handler.now, s.clock);
      NowStepKeeps(s.handler.now, s.clock);
    }
  }

  lemma WaitingTick(s: State, ts: nat)
    requires Inv(s) && OnTheWay(s, C3, ts) && Waiting(s, C3, ts) && !Firing(s, C3, ts)
    ensures Closer(s, Tick, Apply(s, Tick), C3, ts)
  {
    TickWork(s);
  }

  /** C3 waits for the handler of C1, whose callback may do anything but replace the timestamp of C3. */
  lemma WaitingStep(s: State, act: Action, ts: nat)
    requires Inv(s) && Enabled(s, act) && OnTheWay(s, C3, ts) && Waiting(s, C3, ts) && !Firing(s, C3, ts)
    requires !(act.CallbackSet? && act.alarm == C3)
    ensures Closer(s, act, Apply(s, act), C3, ts)
  {
    if act.Tick? {
      WaitingTick(s, ts);
    } else if s.handler.Decide? {
      NowWork(s.handler.now, s.clock);
    } else if s.handler.Rearm? {
      CallWork(s.handler.frame, Ch(s, s.handler.frame.alarm), s.clock);
    }
  }

  /** A guarded run that begins with the interrupt of a due alarm, and whose callbacks do not replace that alarm. */
  ghost predicate DueRun(states: seq<State>, acts: seq<Action>, a: Alarm) {
    && Run(states, acts) && Reachable(states[0])
    && acts != [] && acts[0] == Enter && Ch(states[0], a).matched
    && 0 < Ch(states[0], a).owed <= states[0].clock
    && forall i :: 0 <= i < |acts| ==>
         Guarded(states[i], acts[i]) && !(acts[i].CallbackSet? && acts[i].alarm == a)
  }

  lemma {:induction false} StillOnTheWay(states: seq<State>, acts: seq<Action>, a: Alarm, n: nat)
    requires DueRun(states, acts, a) && 0 < n <= |acts|
    requires forall i :: 0 < i <= n ==> !Delivered(states[i], a)
    ensures var ts := Ch(states[0], a).owed;
            && Inv(states[n]) && OnTheWay(states[n], a, ts)
            && ToGo(states[n], a, ts) + Work(states, acts, n) <= 25 + 3 * (High(states[n]) - High(states[0]))
  {
    var ts, s := Ch(states[0], a).owed, states[n - 1];
    assert Step(s, acts[n - 1], states[n]);
    if n == 1 {
      ReachableInv(s);
      assert ChannelOk(s, a);
    } else {
      StillOnTheWay(states, acts, a, n - 1);
      if Firing(s, a, ts) { FiringStep(s, acts[n - 1], a, ts); } else { WaitingStep(s, acts[n - 1], ts); }
    }
    StepKeeps(s, acts[n - 1]);
  }

  /**
   A due alarm is delivered, along every run: once its interrupt is taken, at most 25 steps of the handlers,
   and three more for every change of the high clock word, lie before its callback, which is called for exactly
   the owed timestamp.  The clock may tick between any two steps, both alarms may be pending in one interrupt, the
   other one due or not, and its callback may set that alarm again as often as it likes.
   */
  lemma DueAlarmIsDelivered(states: seq<State>, acts: seq<Action>, a: Alarm)
    requires DueRun(states, acts, a)
    requires 25 + 3 * (High(states[|acts|]) - High(states[0])) <= Work(states, acts, |acts|)
    ensures exists i :: 0 < i <= |acts| && Delivered(states[i], a)
  {
    if forall i :: 0 < i <= |acts| ==> !Delivered(states[i], a) {
      StillOnTheWay(states, acts, a, |acts|);
    }
  }

  // ---------------------------------------------------------------- by a fixed schedule

  /** The interrupt at a standing clock: C1 is served first if its match is pending too. */
  function Schedule(s: State, a: Alarm): seq<Action>
    requires s.c1.matched ==> s.c1.slot.Some?
  {
    [Enter] + ((if a == C3 && s.c1.matched then Serve(s.c1, s.clock) else []) + Times(HandlerStep, 6))
  }

  /**
   And such runs exist: in every reachable state with interrupts unmasked, inside `set_alarm` or not, a due
   alarm whose match is pending is delivered by this schedule.
   */
  lemma DueAlarmHasASchedule(s: State, a: Alarm)
    requires Reachable(s) && Enabled(s, Enter) && Ch(s, a).matched && 0 < Ch(s, a).owed <= s.clock
    ensures s.c1.matched ==> s.c1.slot.Some?
    ensures exists r :: Leads(s, Schedule(s, a), r) && Delivered(r, a) && r.clock == s.clock
  {
    ReachableInv(s);
    assert ChannelOk(s, a);
    var entered := Apply(s, Enter);
    var serving, first := entered, [];
    if a == C3 && s.c1.matched {
      first := Serve(s.c1, s.clock);
      HandlerServes(entered, C1);
      serving := Next(WithCh(entered, C1, Served(entered.c1, s.clock)));
    }
    var r := WithCh(serving, a, Served(Ch(serving, a), s.clock)).(handler := Callback(a));
    DueHandlerRuns(serving, a);
    LeadsOn(entered, first, serving, Times(HandlerStep, 6), r);
    LeadsCons(s, Enter, first + Times(HandlerStep, 6), r);
  }

  /**
   A due alarm whose match is not pending is in the hands of an interrupted `set_alarm` call, which refuses it
   when it goes on.
   */
  lemma DueCallRefuses(s: State, a: Alarm)
    requires Reachable(s) && s.handler.Off? && !Ch(s, a).matched && 0 < Ch(s, a).owed <= s.clock
    ensures Interrupting(s, a) && s.main.frame.ts == Ch(s, a).owed && Refuses(s.main.frame, s.clock)
    ensures exists r ::
              && Leads(s, Times(MainStep, CallLeft(s.main.frame, s.clock)), r)
              && r.main.Idle? && Ch(r, a).owed == 0 && Ch(r, a).slot == Some(0)
  {
    ReachableInv(s);
    assert ChannelOk(s, a);
    MainRuns(s);
  }
}
