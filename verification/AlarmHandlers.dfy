/** The work that the timer's interrupt handlers can do before they return, however the clock moves. */
module AlarmHandlers {
  import opened AlarmProtocol
  import opened AlarmInvariant
  import opened AlarmRuns
  import opened AlarmTheorems

  /** The steps that the handler's own `set_alarm` can still take at a standing clock. */
  function CallBound(f: Frame, clock: nat): nat {
    match f.pc
    case First(now) => NowLeft(now, clock) + 7
    case StoreSlot => 7
    case WriteCompare => 6
    case Second(now) => NowLeft(now, clock) + 2
    case ClearMatch => 2
    case ZeroSlot => 1
  }

  /** The steps that a handler can still take, outside callbacks, at a standing clock. */
  function HandlerBound(h: Handler, clock: nat): nat {
    match h
    case Acknowledge(_) => 19
    case Load(_) => 18
    case Decide(_, _, now, pass) => NowLeft(now, clock) + if pass == 0 then 14 else 1
    case Rearm(f, _) => CallBound(f, clock) + 4
    case Fire(_, _) => 1
    case _ => 0
  }

  /** A step of the handler that is not part of a callback. */
  predicate Works(s: State, act: Action) {
    act.HandlerStep? && !s.handler.InCallback?
  }

  /** The high clock word: its changes are what makes a call of `now` retry. */
  function High(s: State): nat {
    s.clock / WORD
  }

  lemma NowWork(n: Now, clock: nat)
    requires NowOk(n, clock)
    ensures NowLeft(n, clock + 1) <= NowLeft(n, clock) + 3 * ((clock + 1) / WORD - clock / WORD)
    ensures NowStep(n, clock).Reading? ==> NowLeft(NowStep(n, clock).next, clock) + 1 == NowLeft(n, clock)
    ensures NowStep(n, clock).Read? ==> NowLeft(n, clock) == 1
  {
  }

  lemma CallWork(f: Frame, c: Channel, clock: nat)
    requires FrameOk(f, c, clock)
    ensures CallBound(f, clock + 1) <= CallBound(f, clock) + 3 * ((clock + 1) / WORD - clock / WORD)
    ensures var p := FrameStep(f, clock, c, true).1;
            if p.Running? then CallBound(p.frame, clock) + 1 <= CallBound(f, clock) else 1 <= CallBound(f, clock)
  {
    if f.pc.First? || f.pc.Second? { NowWork(f.pc.now, clock); }
  }

  /** The handler steps outside callbacks among the first `n` actions of a run. */
  function Work(states: seq<State>, acts: seq<Action>, n: nat): nat
    requires n <= |acts| <= |states|
  {
    if n == 0 then 0 else Work(states, acts, n - 1) + if Works(states[n - 1], acts[n - 1]) then 1 else 0
  }

  // ---------------------------------------------------------------- along every run

  /** The handler steps, outside callbacks, that an interrupt can still take: C3 may have to be dispatched too. */
  function InterruptBound(s: State): nat {
    HandlerBound(s.handler, s.clock) + if s.alsoC3 then 19 else 0
  }

  lemma BoundOnTick(s: State)
    requires HandlerOk(s)
    ensures HandlerBound(s.handler, s.clock + 1) <=
            HandlerBound(s.handler, s.clock) + 3 * ((s.clock + 1) / WORD - s.clock / WORD)
  {
    assert s.clock / WORD <= (s.clock + 1) / WORD;
    if s.handler.Decide? {
      NowWork(s.handler.now, s.clock);
    } else if s.handler.Rearm? {
      CallWork(s.handler.frame, Ch(s, s.handler.frame.alarm), s.clock);
    }
  }

  lemma TickWork(s: State)
    requires Inv(s)
    ensures InterruptBound(Apply(s, Tick)) <= InterruptBound(s) + 3 * (High(Apply(s, Tick)) - High(s))
  {
    BoundOnTick(s);
    assert Apply(s, Tick).handler == s.handler && Apply(s, Tick).alsoC3 == s.alsoC3;
  }

  /** Every step of a handler uses up some of the bound; a tick costs a retry at most, and a callback nothing. */
  lemma StepWork(s: State, act: Action)
    requires Inv(s) && Enabled(s, act) && !s.handler.Off?
    ensures var s' := Apply(s, act);
            InterruptBound(s') + (if Works(s, act) then 1 else 0) <= InterruptBound(s) + 3 * (High(s') - High(s))
  {
    if act.Tick? {
      TickWork(s);
    } else if s.handler.Decide? {
      NowWork(s.handler.now, s.clock);
    } else if s.handler.Rearm? {
      CallWork(s.handler.frame, Ch(s, s.handler.frame.alarm), s.clock);
    }
  }

  /** A guarded run that begins with an interrupt. */
  ghost predicate InterruptRun(states: seq<State>, acts: seq<Action>) {
    && Run(states, acts) && Reachable(states[0]) && acts != [] && acts[0] == Enter
    && forall i :: 0 <= i < |acts| ==> Guarded(states[i], acts[i])
  }

  lemma {:induction false} WorkSoFar(states: seq<State>, acts: seq<Action>, n: nat)
    requires InterruptRun(states, acts) && 0 < n <= |acts|
    requires forall i :: 0 < i < n ==> !states[i].handler.Off?
    ensures Inv(states[n])
    ensures InterruptBound(states[n]) + Work(states, acts, n) <= 38 + 3 * (High(states[n]) - High(states[0]))
  {
    assert Step(states[n - 1], acts[n - 1], states[n]);
    if n == 1 {
      ReachableInv(states[0]);
      assert Work(states, acts, 0) == 0;
    } else {
      WorkSoFar(states, acts, n - 1);
      StepWork(states[n - 1], acts[n - 1]);
    }
    StepKeeps(states[n - 1], acts[n - 1]);
  }

  /**
   The handlers end, along every run: an interrupt, of one alarm or of both, due or not, with callbacks that
   request whatever they like, takes at most 38 steps outside its callbacks, and three more for every change
   of the high clock word.
   */
  lemma HandlersEnd(states: seq<State>, acts: seq<Action>)
    requires InterruptRun(states, acts)
    requires 38 + 3 * (High(states[|acts|]) - High(states[0])) < Work(states, acts, |acts|)
    ensures exists i :: 0 < i <= |acts| && states[i].handler.Off?
  {
    if forall i :: 0 < i <= |acts| ==> !states[i].handler.Off? {
      WorkSoFar(states, acts, |acts|);
    }
  }

  // ---------------------------------------------------------------- by a schedule

  /** What is left of the callback that is running, if it requests nothing more. */
  ghost function CallbackBound(s: State): nat {
    match s.handler
    case InCallback(_, f) => 2 + CallLeft(f, s.clock)
    case Callback(_) => 1
    case _ => 0
  }

  /** A handler has found an unallocated alarm, or will in this interrupt. */
  predicate Doomed(s: State) {
    || s.handler.Panicked?
    || (s.alsoC3 && s.c3.slot.None?)
    || ((s.handler.Acknowledge? || s.handler.Load?) && Ch(s, s.handler.alarm).slot.None?)
  }

  /** At the same instant all handlers have returned, or one has panicked. */
  ghost predicate Finishes(s: State, r: State) {
    && r.clock == s.clock && r.main == s.main
    && (r.handler.Panicked? || (r.handler.Off? && !Doomed(s)
                                && forall b :: Ch(s, b).slot.None? ==> Ch(r, b) == Ch(s, b)))
  }

  /** From every state the handlers can go on to their end while the clock stands still. */
  lemma {:induction false} HandlersFinish(s: State)
    requires Inv(s)
    ensures exists acts, r :: Leads(s, acts, r) && Finishes(s, r)
    decreases InterruptBound(s), CallbackBound(s)
  {
    if s.handler.Off? || s.handler.Panicked? {
      assert Leads(s, [], s) && Finishes(s, s);
    } else {
      var act := if s.handler.Callback? then CallbackReturn else HandlerStep;
      var next := Apply(s, act);
      StepKeeps(s, act);
      StepWork(s, act);
      CallbackWork(s, act);
      HandlersFinish(next);
      var acts, r :| Leads(next, acts, r) && Finishes(next, r);
      FinishesFirst(s, act, r);
      LeadsCons(s, act, acts, r);
    }
  }

  /** A step of a callback that requests nothing more brings its return closer. */
  lemma CallbackWork(s: State, act: Action)
    requires HandlerOk(s) && Enabled(s, act) && (act.HandlerStep? || act.CallbackReturn?)
    ensures !Works(s, act) ==> CallbackBound(Apply(s, act)) < CallbackBound(s)
  {
    if s.handler.InCallback? {
      CallStep(s.handler.frame, s.clock, Ch(s, s.handler.frame.alarm), false);
    }
  }

  lemma FinishesFirst(s: State, act: Action, r: State)
    requires Inv(s) && Enabled(s, act) && (act.HandlerStep? || act.CallbackReturn?)
    requires Finishes(Apply(s, act), r)
    ensures Finishes(s, r)
  {
  }
}
