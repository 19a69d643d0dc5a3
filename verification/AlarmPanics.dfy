/** The handler's panic: exactly the states with an unallocated alarm are exposed to it. */
module AlarmPanics {
  import opened AlarmProtocol
  import opened AlarmInvariant
  import opened AlarmHandlers
  import opened AlarmRuns
  import opened AlarmTheorems

  /** No match of an unallocated alarm is pending, or being served. */
  ghost predicate Clean(s: State) {
    && (forall a :: Ch(s, a).slot.None? ==> !Ch(s, a).matched)
    && (s.handler.Acknowledge? || s.handler.Load? ==> Ch(s, s.handler.alarm).slot.Some?)
    && (s.alsoC3 ==> s.c3.slot.Some?)
    && !s.handler.Panicked?
  }

  lemma StepStaysClean(s: State, act: Action)
    requires Clean(s) && Enabled(s, act) && !Strikes(s, act)
    ensures Clean(Apply(s, act))
  {
    assert Ch(s, C1) == s.c1 && Ch(s, C3) == s.c3;
  }

  lemma {:induction false} RunStaysClean(states: seq<State>, acts: seq<Action>, n: nat)
    requires Run(states, acts) && Init(states[0]) && n <= |acts|
    requires forall i :: 0 <= i < n ==> !Strikes(states[i], acts[i])
    ensures Clean(states[n])
  {
    if n != 0 {
      RunStaysClean(states, acts, n - 1);
      assert Step(states[n - 1], acts[n - 1], states[n]);
      StepStaysClean(states[n - 1], acts[n - 1]);
    }
  }

  /**
   Over every run, whatever its callbacks request: a handler that has panicked was preceded by a tick that met
   the compare word of an unallocated alarm.
   */
  lemma PanicNeedsAStrike(states: seq<State>, acts: seq<Action>, n: nat)
    requires Run(states, acts) && Init(states[0]) && n <= |acts| && states[n].handler.Panicked?
    ensures exists i :: 0 <= i < n && Strikes(states[i], acts[i])
  {
    if forall i :: 0 <= i < n ==> !Strikes(states[i], acts[i]) {
      RunStaysClean(states, acts, n);
    }
  }

  // ---------------------------------------------------------------- the exact condition

  /** Where nothing runs, such a match panics in its handler, after that of C1 if both are pending. */
  lemma QuietMatchPanics(s: State, a: Alarm)
    requires Inv(s) && s.handler.Off? && s.main.Idle? && Ch(s, a).slot.None? && Ch(s, a).matched
    ensures exists acts, r :: Leads(s, acts, r) && r.handler.Panicked? && r.clock == s.clock
  {
    var entered := Apply(s, Enter);
    StepKeeps(s, Enter);
    HandlersFinish(entered);
    var acts, r :| Leads(entered, acts, r) && Finishes(entered, r);
    LeadsCons(s, Enter, acts, r);
  }

  /** Wherever the handlers and the main program stand, they can go on to the panic at this very instant. */
  lemma MatchPanics(s: State, a: Alarm)
    requires Inv(s) && !s.handler.Panicked? && Ch(s, a).slot.None? && Ch(s, a).matched
    ensures exists acts, r :: Leads(s, acts, r) && r.handler.Panicked? && r.clock == s.clock
  {
    HandlersFinish(s);
    var x, mid :| Leads(s, x, mid) && Finishes(s, mid);
    if !mid.handler.Panicked? {
      LeadsKeepsInv(s, x, mid);
      CallEndsThenPanics(mid, a);
      var y, r :| Leads(mid, y, r) && r.handler.Panicked? && r.clock == mid.clock;
      LeadsOn(s, x, mid, y, r);
    }
  }

  lemma CallEndsThenPanics(s: State, a: Alarm)
    requires Inv(s) && s.handler.Off? && Ch(s, a).slot.None? && Ch(s, a).matched
    ensures exists acts, r :: Leads(s, acts, r) && r.handler.Panicked? && r.clock == s.clock
  {
    if s.main.Idle? {
      QuietMatchPanics(s, a);
    } else {
      var f := s.main.frame;
      var x := Times(MainStep, CallLeft(f, s.clock));
      var idle := WithCh(s, f.alarm, CallResult(f, s.clock, Ch(s, f.alarm), false)).(main := Idle);
      MainRuns(s);
      LeadsKeepsInv(s, x, idle);
      QuietMatchPanics(idle, a);
      var y, r :| Leads(idle, y, r) && r.handler.Panicked? && r.clock == idle.clock;
      LeadsOn(s, x, idle, y, r);
    }
  }

  /** A pending match of an unallocated alarm can panic without another tick, from every reachable state. */
  lemma UnallocatedMatchPanics(s: State, a: Alarm)
    requires Reachable(s) && !s.handler.Panicked? && Ch(s, a).slot.None? && Ch(s, a).matched
    ensures exists acts, r :: Leads(s, acts, r) && r.handler.Panicked? && r.clock == s.clock
  {
    ReachableInv(s);
    MatchPanics(s, a);
  }

  /** So every strike can be fatal at once, also while handlers run or interrupts are masked. */
  lemma StrikeCanPanic(s: State)
    requires Reachable(s) && !s.handler.Panicked? && Strikes(s, Tick)
    ensures exists acts, r :: Leads(s, acts, r) && r.handler.Panicked? && r.clock == s.clock + 1
  {
    ReachableInv(s);
    var a :| Ch(s, a).slot.None? && (s.clock + 1) % WORD == Ch(s, a).compare;
    var struck := Apply(s, Tick);
    StepKeeps(s, Tick);
    MatchPanics(struck, a);
    var acts, r :| Leads(struck, acts, r) && r.handler.Panicked? && r.clock == struck.clock;
    LeadsCons(s, Tick, acts, r);
  }

  /** The clock runs until it meets the compare word of an unallocated alarm. */
  lemma PanicsAfter(s: State, a: Alarm, n: nat)
    requires Inv(s) && !s.handler.Panicked? && Ch(s, a).slot.None?
    requires 0 < n && (s.clock + n) % WORD == Ch(s, a).compare
    ensures exists acts, r :: Leads(s, acts, r) && r.handler.Panicked? && r.clock == s.clock + n
  {
    MatchComes(s, a, n);
    LeadsKeepsInv(s, Times(Tick, n), Later(s, n));
    MatchPanics(Later(s, n), a);
    var acts, r :| Leads(Later(s, n), acts, r) && r.handler.Panicked? && r.clock == s.clock + n;
    LeadsOn(s, Times(Tick, n), Later(s, n), acts, r);
  }

  /** And the clock meets every compare word: with an alarm unallocated, a panic is never more than a lap away. */
  lemma UnallocatedCanPanic(s: State, a: Alarm)
    requires Reachable(s) && !s.handler.Panicked? && Ch(s, a).slot.None?
    ensures exists acts, r :: Leads(s, acts, r) && r.handler.Panicked? && r.clock <= s.clock + WORD
  {
    ReachableInv(s);
    assert ChannelOk(s, a);
    PanicsAfter(s, a, TicksTo(Ch(s, a).compare, s.clock));
  }

  /** A program that has not allocated anything yet is exposed like any other. */
  lemma IdleStartPanics(s: State)
    requires Init(s)
    ensures exists acts, r :: Leads(s, acts, r) && r.handler.Panicked? && r.clock <= s.clock + WORD
  {
    var none: seq<Action> := [];
    assert GuardedRun([s], none) && [s][|none|] == s;
    UnallocatedCanPanic(s, C1);
  }

  /** With both alarms allocated no step panics, whatever callbacks request, and both stay allocated. */
  predicate Safe(s: State) {
    s.c1.slot.Some? && s.c3.slot.Some? && !s.handler.Panicked?
  }

  lemma StaysSafe(s: State, act: Action)
    requires Safe(s) && Enabled(s, act)
    ensures Safe(Apply(s, act))
  {
  }

  lemma {:induction false} LeadsSafe(s: State, acts: seq<Action>, r: State)
    requires Safe(s) && Leads(s, acts, r)
    ensures Safe(r)
    decreases |acts|
  {
    if acts != [] {
      StaysSafe(s, acts[0]);
      LeadsSafe(Apply(s, acts[0]), acts[1..], r);
    }
  }

  /**
   Exactly the allocation of both alarms rules the panic out: from a reachable state that has not panicked, at
   any point of handlers and main program, no continuation panics if and only if neither slot is empty.
   */
  lemma NeverPanicsIffAllocated(s: State)
    requires Reachable(s) && !s.handler.Panicked?
    ensures s.c1.slot.Some? && s.c3.slot.Some? <==>
            forall acts, r :: Leads(s, acts, r) ==> !r.handler.Panicked?
  {
    if s.c1.slot.None? {
      UnallocatedCanPanic(s, C1);
    } else if s.c3.slot.None? {
      UnallocatedCanPanic(s, C3);
    } else {
      forall acts, r | Leads(s, acts, r)
        ensures !r.handler.Panicked?
      {
        LeadsSafe(s, acts, r);
      }
    }
  }
}
