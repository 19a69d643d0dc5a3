/** What the alarm protocol promises over all guarded runs: safety, re-arming, and bounded interrupts. */
module AlarmTheorems {
  import opened Options
  import opened AlarmProtocol
  import opened AlarmInvariant

  /** Some guarded run from initialization ends in `s`. */
  ghost predicate Reachable(s: State) {
    exists states, acts :: GuardedRun(states, acts) && states[|acts|] == s
  }

  lemma {:induction false} RunKeepsInv(states: seq<State>, acts: seq<Action>, i: nat)
    requires GuardedRun(states, acts) && i <= |acts|
    ensures Inv(states[i])
  {
    if i == 0 {
      InitHolds(states[0]);
    } else {
      RunKeepsInv(states, acts, i - 1);
      assert Step(states[i - 1], acts[i - 1], states[i]);
      StepKeeps(states[i - 1], acts[i - 1]);
    }
  }

  lemma ReachableInv(s: State)
    requires Reachable(s)
    ensures Inv(s)
  {
    var states, acts :| GuardedRun(states, acts) && states[|acts|] == s;
    RunKeepsInv(states, acts, |acts|);
  }

  // ---------------------------------------------------------------- safety

  /**
   No alarm is lost: an accepted timestamp is pending in hardware, or the compare register waits
   for it, or a handler or `set_alarm` call in progress still has it in hand.
   */
  lemma NoAlarmLost(s: State, a: Alarm)
    requires Reachable(s)
    ensures Ch(s, a).owed != 0 ==> Covered(s, a, Ch(s, a).owed)
  {
    ReachableInv(s);
  }

  /** When no code is running the hardware alone holds every accepted timestamp, and the slot names it. */
  lemma QuietAlarmIsArmed(s: State, a: Alarm)
    requires Reachable(s) && s.handler.Off? && s.main.Idle? && Ch(s, a).slot.Some?
    ensures Ch(s, a).slot.value == Ch(s, a).owed
    ensures Ch(s, a).owed != 0 ==> Armed(Ch(s, a), Ch(s, a).owed, s.clock)
    ensures 0 < Ch(s, a).owed <= s.clock ==> Ch(s, a).matched
  {
    ReachableInv(s);
    assert ChannelOk(s, a);
  }

  /**
   A callback never runs before its time: the handler fires exactly what is owed, and only once
   the clock has reached it.  (With nothing owed, `ts` is 0: a stale match.)
   */
  lemma NeverEarly(s: State)
    requires Reachable(s) && s.handler.Fire?
    ensures s.handler.ts == Ch(s, s.handler.alarm).owed
    ensures s.handler.ts <= s.clock
  {
    ReachableInv(s);
    assert ChannelOk(s, s.handler.alarm);
  }

  /** The handler's loop never starts a third round, so it always leaves after at most two. */
  lemma AtMostTwoPasses(s: State)
    requires Reachable(s)
    ensures s.handler.Decide? ==> s.handler.pass <= 1
    ensures s.handler.Rearm? ==> s.handler.pass == 0
    ensures s.handler.Decide? && s.handler.pass == 1 && NowStep(s.handler.now, s.clock).Read?
            ==> HandlerMove(s).handler == Fire(s.handler.alarm, s.handler.ts)
  {
    ReachableInv(s);
    if s.handler.Decide? { NowStepKeeps(s.handler.now, s.clock); }
  }

  /**
   `set_alarm` refuses a timestamp only when it is due, and then nothing is owed for it, whether the main
   program or a callback has called it.
   */
  lemma RefusedIsDue(s: State, act: Action, f: Frame)
    requires Reachable(s) && Enabled(s, act)
    requires (act.MainStep? && f == s.main.frame) || (act.HandlerStep? && s.handler.InCallback? && f == s.handler.frame)
    requires FrameStep(f, s.clock, Ch(s, f.alarm), false).1 == Returned(false)
    ensures f.ts <= s.clock
    ensures PastStore(f) ==> Ch(Apply(s, act), f.alarm).owed == 0 && Ch(Apply(s, act), f.alarm).slot == Some(0)
    ensures !PastStore(f) ==> Ch(Apply(s, act), f.alarm) == Ch(s, f.alarm)
  {
    ReachableInv(s);
    FrameStepKeeps(f, Ch(s, f.alarm), s.clock, false);
  }

  /** The alarm that a step works for; a tick works for none. */
  function Subject(s: State, act: Action): Option<Alarm>
    requires Enabled(s, act)
  {
    match act
    case HandlerStep => Some(if s.handler.InCallback? then s.handler.frame.alarm else HandlerAlarm(s.handler))
    case MainStep => Some(s.main.frame.alarm)
    case SetCallback(a) => Some(a)
    case Allocate => Some(if s.c1.slot.None? then C1 else C3)
    case _ => None
  }

  /** The two alarms never touch each other's slot, compare register or match bit. */
  lemma AlarmsAreIndependent(s: State, act: Action, b: Alarm)
    requires Enabled(s, act) && !act.Tick? && Subject(s, act) != Some(b)
    ensures Ch(Apply(s, act), b) == Ch(s, b)
  {
  }

  /** The handler has nothing in hand for `a`. */
  predicate Elsewhere(h: Handler, a: Alarm) {
    match h
    case Load(b) => b != a
    case Decide(b, _, _, _) => b != a
    case Rearm(f, _) => f.alarm != a
    case Fire(b, _) => b != a
    case InCallback(_, f) => f.alarm != a
    case _ => true
  }

  /** The handler goes on without acknowledging `a`, and its callback without another request for `a`. */
  predicate LeavesAlone(s: State, act: Action, a: Alarm) {
    && !s.handler.Off?
    && !(act.HandlerStep? && s.handler == Acknowledge(a))
    && !(act.CallbackSet? && act.alarm == a)
  }

  lemma StaysElsewhere(s: State, act: Action, a: Alarm)
    requires Enabled(s, act) && Elsewhere(s.handler, a) && LeavesAlone(s, act, a)
    ensures Elsewhere(Apply(s, act).handler, a)
    ensures !act.Tick? ==> Subject(s, act) != Some(a)
  {
  }

  /** Both the slot and the hardware hold `ts`. */
  ghost predicate Stands(s: State, a: Alarm, ts: nat) {
    Ch(s, a).slot == Some(ts) && Ch(s, a).owed == ts && Armed(Ch(s, a), ts, s.clock)
  }

  lemma {:induction false} ArmedStands(states: seq<State>, acts: seq<Action>, a: Alarm, ts: nat, i: nat)
    requires Run(states, acts) && i <= |acts|
    requires Elsewhere(states[0].handler, a) && Stands(states[0], a, ts)
    requires forall j :: 0 <= j < i ==> LeavesAlone(states[j], acts[j], a)
    ensures Elsewhere(states[i].handler, a) && Stands(states[i], a, ts)
  {
    if i != 0 {
      ArmedStands(states, acts, a, ts, i - 1);
      assert Step(states[i - 1], acts[i - 1], states[i]);
      StaysElsewhere(states[i - 1], acts[i - 1], a);
      if acts[i - 1].Tick? {
        ArmedTickKeeps(Ch(states[i - 1], a), ts, states[i - 1].clock);
      } else {
        AlarmsAreIndependent(states[i - 1], acts[i - 1], a);
      }
    }
  }

  /**
   A re-arm from inside a callback stands.  From the step on which `set_alarm` accepts it, however far the
   clock moves and whatever the callback and the handler then do, the slot names it and the hardware is armed
   for it: until the first moment at which no handler runs, or the alarm is itself acknowledged or requested
   again.
   */
  lemma AcceptedReArmStands(states: seq<State>, acts: seq<Action>, i: nat)
    requires Run(states, acts) && 0 < i <= |acts|
    requires Reachable(states[0]) && acts[0].HandlerStep? && states[0].handler.InCallback?
    requires var f := states[0].handler.frame;
             && FrameStep(f, states[0].clock, Ch(states[0], f.alarm), false).1 == Returned(true)
             && forall j :: 1 <= j < i ==> LeavesAlone(states[j], acts[j], f.alarm)
    ensures Stands(states[i], states[0].handler.frame.alarm, states[0].handler.frame.ts)
  {
    var s := states[0];
    var f := s.handler.frame;
    ReachableInv(s);
    assert ChannelOk(s, f.alarm) && Step(s, acts[0], states[1]);
    FrameStepKeeps(f, Ch(s, f.alarm), s.clock, false);
    var states', acts' := states[1..], acts[1..];
    assert forall j :: 0 <= j < |acts'| ==> Step(states'[j], acts'[j], states'[j + 1]);
    ArmedStands(states', acts', f.alarm, f.ts, i - 1);
  }

  /** Installing a callback drops what the alarm owed, and nothing else: hardware and the other alarm stay. */
  lemma SetCallbackDrops(s: State, a: Alarm)
    requires Enabled(s, SetCallback(a))
    ensures var r := Apply(s, SetCallback(a));
            && Ch(r, a).slot == Some(0) && Ch(r, a).owed == 0
            && Ch(r, a).compare == Ch(s, a).compare && Ch(r, a).matched == Ch(s, a).matched
            && (forall b :: b != a ==> Ch(r, b) == Ch(s, b))
            && r.clock == s.clock && r.main == s.main && r.handler == s.handler
  {
  }

  // ---------------------------------------------------------------- progress

  /** How many times the low clock word still has to meet that of `t`: `t - clock` laps, rounded up. */
  function Laps(t: nat, clock: nat): nat {
    if t <= clock then 0 else (t - clock + WORD - 1) / WORD
  }

  /** A tick uses up a lap exactly when it meets the low word of `t`, which is when it raises the match. */
  lemma LapsOnTick(t: nat, clock: nat)
    requires clock < t
    ensures Laps(t, clock + 1) == Laps(t, clock) - (if (clock + 1) % WORD == t % WORD then 1 else 0)
  {
    var d := t - clock - 1;
    assert t == clock + 1 + d;
    assert (t - (clock + 1)) == d;
    LowWords(clock + 1, d);
  }

  lemma LowWords(c: nat, d: nat)
    ensures c % WORD == (c + d) % WORD <==> d % WORD == 0
    ensures (d + WORD) / WORD == (d + WORD - 1) / WORD + (if d % WORD == 0 then 1 else 0)
  {
  }

  /** The interrupts that alarm `a` can still take for what it owes. */
  function InterruptsLeft(s: State, a: Alarm): nat {
    Laps(Ch(s, a).owed, s.clock) + if Ch(s, a).matched then 1 else 0
  }

  /** Step `act` acknowledges a match of `a`. */
  predicate Acknowledges(s: State, act: Action, a: Alarm) {
    act.HandlerStep? && s.handler == Acknowledge(a) && Ch(s, a).matched
  }

  /** The same timestamp is owed, and the compare register holds its low word. */
  predicate Waits(s: State, a: Alarm, t: nat) {
    Ch(s, a).owed == t && Ch(s, a).compare == t % WORD
  }

  lemma InterruptsLeftStep(s: State, act: Action, a: Alarm, t: nat)
    requires 0 < t && Enabled(s, act) && Waits(s, a, t) && Waits(Apply(s, act), a, t)
    requires Apply(s, act).clock <= t
    ensures InterruptsLeft(Apply(s, act), a) + (if Acknowledges(s, act, a) then 1 else 0) <= InterruptsLeft(s, a)
  {
    if act.Tick? { LapsOnTick(t, s.clock); }
  }

  function Acknowledged(states: seq<State>, acts: seq<Action>, a: Alarm): nat
    requires |states| == |acts| + 1
  {
    if acts == [] then 0
    else Acknowledged(states[..|acts|], acts[..|acts| - 1], a)
         + if Acknowledges(states[|acts| - 1], acts[|acts| - 1], a) then 1 else 0
  }

  /** Once the compare register waits for what is owed, only delivery, refusal or replacement ends that. */
  lemma WaitsPersists(s: State, act: Action, a: Alarm, t: nat)
    requires 0 < t && Inv(s) && Enabled(s, act) && Guarded(s, act)
    requires Waits(s, a, t) && Ch(Apply(s, act), a).owed == t
    ensures Waits(Apply(s, act), a, t)
  {
    assert ChannelOk(s, a);
    if act.MainStep? || (act.HandlerStep? && (s.handler.Rearm? || s.handler.InCallback?)) {
      WaitsThroughCall(s, act, if act.MainStep? then s.main.frame else s.handler.frame, a, t);
    }
  }

  /** A call for `a` writes the low word of the timestamp that it has put in the slot. */
  lemma WaitsThroughCall(s: State, act: Action, f: Frame, a: Alarm, t: nat)
    requires 0 < t && Inv(s) && Enabled(s, act) && Waits(s, a, t)
    requires (act.MainStep? && f == s.main.frame)
             || (act.HandlerStep? && (s.handler.Rearm? || s.handler.InCallback?) && f == s.handler.frame)
    ensures Ch(Apply(s, act), a).compare == t % WORD
  {
    assert ChannelOk(s, a);
    if f.alarm == a && f.pc.WriteCompare? {
      assert f.ts == t;
    }
  }

  /** `t` is owed to the caller of `a`, and not yet due, in every state. */
  ghost predicate OwedThroughout(states: seq<State>, a: Alarm, t: nat) {
    forall i :: 0 <= i < |states| ==> Ch(states[i], a).owed == t && states[i].clock <= t
  }

  /**
   An alarm however far ahead takes at most one interrupt for each lap of the low clock word, and one
   for a match that was already pending: the re-arming cannot go on without the clock closing in.
   */
  lemma {:induction false} BoundedInterrupts(states: seq<State>, acts: seq<Action>, a: Alarm, t: nat)
    requires 0 < t && Run(states, acts) && Inv(states[0])
    requires forall i :: 0 <= i < |acts| ==> Guarded(states[i], acts[i])
    requires OwedThroughout(states, a, t) && Waits(states[0], a, t)
    ensures Inv(states[|acts|]) && Waits(states[|acts|], a, t)
    ensures Acknowledged(states, acts, a) + InterruptsLeft(states[|acts|], a) <= InterruptsLeft(states[0], a)
  {
    if acts != [] {
      var n := |acts| - 1;
      var init, prefix := states[..n + 1], acts[..n];
      assert forall i :: 0 <= i < n ==> Step(init[i], prefix[i], init[i + 1]);
      BoundedInterrupts(init, prefix, a, t);
      assert Step(states[n], acts[n], states[n + 1]);
      StepKeeps(states[n], acts[n]);
      WaitsPersists(states[n], acts[n], a, t);
      InterruptsLeftStep(states[n], acts[n], a, t);
    }
  }

}
