/** Where schedules of the alarm protocol lead, and what code does while the clock stands still. */
module AlarmRuns {
  import opened Options
  import opened AlarmProtocol
  import opened AlarmInvariant

  /** The actions, each enabled and guarded in its turn, lead from `s` to `r`. */
  ghost predicate Leads(s: State, acts: seq<Action>, r: State)
    decreases |acts|
  {
    if acts == [] then s == r
    else Enabled(s, acts[0]) && Guarded(s, acts[0]) && Leads(Apply(s, acts[0]), acts[1..], r)
  }

  lemma LeadsCons(s: State, act: Action, rest: seq<Action>, r: State)
    requires Enabled(s, act) && Guarded(s, act) && Leads(Apply(s, act), rest, r)
    ensures Leads(s, [act] + rest, r)
  {
    assert ([act] + rest)[1..] == rest;
  }

  lemma LeadsOne(s: State, act: Action)
    requires Enabled(s, act) && Guarded(s, act)
    ensures Leads(s, [act], Apply(s, act))
  {
  }

  lemma {:induction false} LeadsOn(s: State, x: seq<Action>, mid: State, y: seq<Action>, r: State)
    requires Leads(s, x, mid) && Leads(mid, y, r)
    ensures Leads(s, x + y, r)
    decreases |x|
  {
    if x == [] {
      assert x + y == y;
    } else {
      LeadsOn(Apply(s, x[0]), x[1..], mid, y, r);
      assert (x + y)[1..] == x[1..] + y;
    }
  }

  lemma {:induction false} LeadsKeepsInv(s: State, acts: seq<Action>, r: State)
    requires Inv(s) && Leads(s, acts, r)
    ensures Inv(r)
    decreases |acts|
  {
    if acts != [] {
      StepKeeps(s, acts[0]);
      LeadsKeepsInv(Apply(s, acts[0]), acts[1..], r);
    }
  }

  function Times(act: Action, n: nat): seq<Action> {
    if n == 0 then [] else [act] + Times(act, n - 1)
  }

  /** The clock runs on by itself. */
  function Later(s: State, n: nat): State {
    s.(clock := s.clock + n, c1 := Passed(s.c1, s.clock, s.clock + n), c3 := Passed(s.c3, s.clock, s.clock + n))
  }

  lemma {:induction false} PassedFirst(c: Channel, from: nat, to: nat)
    requires from < to
    ensures Passed(c, from, to) == Passed(TickChannel(c, from + 1), from + 1, to)
  {
    if from + 1 < to { PassedFirst(c, from, to - 1); }
  }

  lemma {:induction false} TicksLead(s: State, n: nat)
    ensures Leads(s, Times(Tick, n), Later(s, n))
    decreases n
  {
    if n != 0 {
      TicksLead(Apply(s, Tick), n - 1);
      PassedFirst(s.c1, s.clock, s.clock + n);
      PassedFirst(s.c3, s.clock, s.clock + n);
      LeadsCons(s, Tick, Times(Tick, n - 1), Later(s, n));
    }
  }

  /** The ticks until the low clock word next meets a compare word: at most a lap. */
  function TicksTo(word: nat, clock: nat): (n: nat)
    requires word < WORD
    ensures 1 <= n <= WORD && (clock + n) % WORD == word
  {
    var low := clock % WORD;
    if low < word then word - low else word + WORD - low
  }

  /** At the tick that meets the compare word the match is raised. */
  lemma MatchRaised(c: Channel, clock: nat, n: nat)
    requires 0 < n && (clock + n) % WORD == c.compare
    ensures Passed(c, clock, clock + n).matched
  {
    PassedShape(c, clock, clock + n - 1);
  }

  /** Time passes for both channels, and for nothing of them but the match bits. */
  lemma LaterShape(s: State, n: nat, a: Alarm)
    ensures Ch(Later(s, n), a) == Passed(Ch(s, a), s.clock, s.clock + n)
    ensures Later(s, n).c1 == s.c1.(matched := Later(s, n).c1.matched)
    ensures Later(s, n).c3 == s.c3.(matched := Later(s, n).c3.matched)
  {
    PassedShape(s.c1, s.clock, s.clock + n);
    PassedShape(s.c3, s.clock, s.clock + n);
  }

  /** The clock runs until the match of `a` comes. */
  lemma MatchComes(s: State, a: Alarm, n: nat)
    requires 0 < n && (s.clock + n) % WORD == Ch(s, a).compare
    ensures Leads(s, Times(Tick, n), Later(s, n)) && Ch(Later(s, n), a).matched
    ensures Later(s, n).c1 == s.c1.(matched := Later(s, n).c1.matched)
    ensures Later(s, n).c3 == s.c3.(matched := Later(s, n).c3.matched)
  {
    MatchRaised(Ch(s, a), s.clock, n);
    LaterShape(s, n, a);
    TicksLead(s, n);
  }

  // ---------------------------------------------------------------- a standing clock

  /** The reads that a call of `now` still makes: a stale high word costs it another round. */
  function NowLeft(n: Now, clock: nat): nat {
    match n
    case ReadHigh => 3
    case ReadLow(hi) => if hi == clock / WORD then 2 else 5
    case ReadCheck(hi, _) => if hi == clock / WORD then 1 else 4
  }

  /** At a standing clock each read brings `now` closer to its end; it returns `t` or more exactly if it sees `t`. */
  lemma NowStepLeft(n: Now, clock: nat, t: nat)
    requires NowOk(n, clock)
    ensures match NowStep(n, clock)
            case Reading(next) =>
              && NowOk(next, clock) && NowLeft(next, clock) + 1 == NowLeft(n, clock)
              && (Sees(next, t, clock) <==> Sees(n, t, clock))
            case Read(time) => NowLeft(n, clock) == 1 && (t <= time <==> Sees(n, t, clock))
  {
  }

  /** The call ends in a refusal, unless the clock moves. */
  ghost predicate Refuses(f: Frame, clock: nat) {
    match f.pc
    case First(now) => Sees(now, f.ts, clock)
    case Second(now) => Sees(now, f.ts, clock)
    case ClearMatch => true
    case ZeroSlot => true
    case _ => f.ts <= clock
  }

  /** The steps of the call from its second check on. */
  function CheckLeft(ts: nat, clock: nat): nat {
    if ts <= clock then 5 else 3
  }

  ghost function CallLeft(f: Frame, clock: nat): nat {
    match f.pc
    case First(now) => NowLeft(now, clock) + if Refuses(f, clock) then 0 else 2 + CheckLeft(f.ts, clock)
    case StoreSlot => 2 + CheckLeft(f.ts, clock)
    case WriteCompare => 1 + CheckLeft(f.ts, clock)
    case Second(now) => NowLeft(now, clock) + if Refuses(f, clock) then 2 else 0
    case ClearMatch => 2
    case ZeroSlot => 1
  }

  /** The channel once the rest of the call has run at a standing clock. */
  ghost function CallResult(f: Frame, clock: nat, c: Channel, delivering: bool): Channel {
    match f.pc
    case First(_) => if Refuses(f, clock) then c else Checked(f, clock, Stored(f, c), delivering)
    case StoreSlot => Checked(f, clock, Stored(f, c), delivering)
    case WriteCompare => Checked(f, clock, c.(compare := f.ts % WORD), delivering)
    case Second(_) => if Refuses(f, clock) then Zeroed(f, c.(matched := false), delivering) else c
    case ClearMatch => Zeroed(f, c.(matched := false), delivering)
    case ZeroSlot => Zeroed(f, c, delivering)
  }

  function Stored(f: Frame, c: Channel): Channel {
    c.(slot := Some(f.ts), owed := f.ts, compare := f.ts % WORD)
  }

  function Checked(f: Frame, clock: nat, c: Channel, delivering: bool): Channel {
    if f.ts <= clock then Zeroed(f, c.(matched := false), delivering) else c
  }

  function Zeroed(f: Frame, c: Channel, delivering: bool): Channel {
    c.(slot := Some(0), owed := if !delivering && c.owed == f.ts then 0 else c.owed)
  }

  /** The single steps of `set_alarm` add up to `CallResult`, in `CallLeft` steps. */
  lemma CallStep(f: Frame, clock: nat, c: Channel, delivering: bool)
    requires FrameOk(f, c, clock)
    ensures var (c', p) := FrameStep(f, clock, c, delivering);
            match p
            case Running(g) =>
              && g.alarm == f.alarm && g.ts == f.ts && FrameOk(g, c', clock)
              && CallLeft(g, clock) + 1 == CallLeft(f, clock)
              && CallResult(g, clock, c', delivering) == CallResult(f, clock, c, delivering)
              && (Refuses(g, clock) ==> Refuses(f, clock) || f.ts <= clock)
            case Returned(accepted) =>
              && CallLeft(f, clock) == 1 && CallResult(f, clock, c, delivering) == c'
              && (accepted <==> !Refuses(f, clock))
  {
    if f.pc.First? || f.pc.Second? { NowStepLeft(f.pc.now, clock, f.ts); }
  }

  lemma {:induction false} MainRuns(s: State)
    requires s.handler.Off? && s.main.Busy? && FrameOk(s.main.frame, Ch(s, s.main.frame.alarm), s.clock)
    ensures var f := s.main.frame;
            Leads(s, Times(MainStep, CallLeft(f, s.clock)),
                  WithCh(s, f.alarm, CallResult(f, s.clock, Ch(s, f.alarm), false)).(main := Idle))
    decreases CallLeft(s.main.frame, s.clock)
  {
    var f := s.main.frame;
    var n := CallLeft(f, s.clock);
    CallStep(f, s.clock, Ch(s, f.alarm), false);
    var next, r := MainMove(s), WithCh(s, f.alarm, CallResult(f, s.clock, Ch(s, f.alarm), false)).(main := Idle);
    if next.main.Busy? {
      MainRuns(next);
      assert Leads(next, Times(MainStep, n - 1), r);
    } else {
      assert Leads(next, [], r);
    }
    LeadsCons(s, MainStep, Times(MainStep, n - 1), r);
  }

  lemma {:induction false} CallbackRuns(s: State)
    requires s.handler.InCallback? && FrameOk(s.handler.frame, Ch(s, s.handler.frame.alarm), s.clock)
    ensures var f := s.handler.frame;
            Leads(s, Times(HandlerStep, CallLeft(f, s.clock)),
                  WithCh(s, f.alarm, CallResult(f, s.clock, Ch(s, f.alarm), false))
                  .(handler := Callback(s.handler.alarm)))
    decreases CallLeft(s.handler.frame, s.clock)
  {
    var f := s.handler.frame;
    var n := CallLeft(f, s.clock);
    CallStep(f, s.clock, Ch(s, f.alarm), false);
    var next := HandlerMove(s);
    var r := WithCh(s, f.alarm, CallResult(f, s.clock, Ch(s, f.alarm), false)).(handler := Callback(s.handler.alarm));
    if next.handler.InCallback? {
      CallbackRuns(next);
      assert Leads(next, Times(HandlerStep, n - 1), r);
    } else {
      assert Leads(next, [], r);
    }
    LeadsCons(s, HandlerStep, Times(HandlerStep, n - 1), r);
  }

  /** The handler's own call for a timestamp still ahead. */
  lemma {:induction false} RearmRuns(s: State)
    requires s.handler.Rearm? && FrameOk(s.handler.frame, Ch(s, s.handler.frame.alarm), s.clock)
    requires !Refuses(s.handler.frame, s.clock) && s.clock < s.handler.frame.ts
    ensures var f := s.handler.frame;
            Leads(s, Times(HandlerStep, CallLeft(f, s.clock)),
                  Next(WithCh(s, f.alarm, CallResult(f, s.clock, Ch(s, f.alarm), true))))
    decreases CallLeft(s.handler.frame, s.clock)
  {
    var f := s.handler.frame;
    var n := CallLeft(f, s.clock);
    CallStep(f, s.clock, Ch(s, f.alarm), true);
    var next := HandlerMove(s);
    var r := Next(WithCh(s, f.alarm, CallResult(f, s.clock, Ch(s, f.alarm), true)));
    if FrameStep(f, s.clock, Ch(s, f.alarm), true).1.Running? {
      RearmRuns(next);
      assert Leads(next, Times(HandlerStep, n - 1), r);
    } else {
      assert Leads(next, [], r);
    }
    LeadsCons(s, HandlerStep, Times(HandlerStep, n - 1), r);
  }

  /** The handler's loop decides: it fires what it sees to be due, and arms again what is not. */
  lemma {:induction false} DecideRuns(s: State)
    requires s.handler.Decide? && NowOk(s.handler.now, s.clock)
    ensures var Decide(a, ts, now, pass) := s.handler;
            Leads(s, Times(HandlerStep, NowLeft(now, s.clock)),
                  s.(handler := if Sees(now, ts, s.clock) then Fire(a, ts) else Rearm(Start(a, ts), pass)))
    decreases NowLeft(s.handler.now, s.clock)
  {
    var Decide(a, ts, now, pass) := s.handler;
    var n := NowLeft(now, s.clock);
    NowStepLeft(now, s.clock, ts);
    var next := HandlerMove(s);
    var r := s.(handler := if Sees(now, ts, s.clock) then Fire(a, ts) else Rearm(Start(a, ts), pass));
    if NowStep(now, s.clock).Reading? {
      DecideRuns(next);
    } else {
      assert Leads(next, [], r);
    }
    LeadsCons(s, HandlerStep, Times(HandlerStep, n - 1), r);
  }

  // ---------------------------------------------------------------- whole interrupts

  /** The handler and its callback, when that does nothing. */
  function Serve(c: Channel, clock: nat): seq<Action>
    requires c.slot.Some?
  {
    if c.slot.value <= clock then Times(HandlerStep, 6) + [CallbackReturn] else Times(HandlerStep, 13)
  }

  /** Fired and zeroed if due, else armed again; the match is acknowledged in either case. */
  function Served(c: Channel, clock: nat): Channel
    requires c.slot.Some?
  {
    var ts := c.slot.value;
    if ts <= clock then c.(matched := false, slot := Some(0), owed := 0)
    else c.(matched := false, owed := ts, compare := ts % WORD)
  }

  lemma {:induction false} TimesAdd(act: Action, m: nat, n: nat)
    ensures Times(act, m + n) == Times(act, m) + Times(act, n)
  {
    if m == 0 {
      assert [] + Times(act, n) == Times(act, n);
    } else {
      TimesAdd(act, m - 1, n);
      assert [act] + (Times(act, m - 1) + Times(act, n)) == Times(act, m) + Times(act, n);
    }
  }

  lemma LeadsTimes(s: State, act: Action, m: nat, mid: State, n: nat, r: State)
    requires Leads(s, Times(act, m), mid) && Leads(mid, Times(act, n), r)
    ensures Leads(s, Times(act, m + n), r)
  {
    LeadsOn(s, Times(act, m), mid, Times(act, n), r);
    TimesAdd(act, m, n);
  }

  lemma StepTimes(s: State, act: Action, n: nat, r: State)
    requires Enabled(s, act) && Guarded(s, act) && Leads(Apply(s, act), Times(act, n), r)
    ensures Leads(s, Times(act, n + 1), r)
  {
    LeadsCons(s, act, Times(act, n), r);
  }

  /** From the acknowledgement to the decision of the handler's loop. */
  lemma HandlerDecides(s: State, a: Alarm)
    requires s.handler == Acknowledge(a) && Ch(s, a).slot.Some?
    ensures var ts := Ch(s, a).slot.value;
            Leads(s, Times(HandlerStep, 5),
                  WithCh(s, a, Ch(s, a).(matched := false))
                  .(handler := if ts <= s.clock then Fire(a, ts) else Rearm(Start(a, ts), 0)))
  {
    var ts := Ch(s, a).slot.value;
    var s1 := WithCh(s, a, Ch(s, a).(matched := false)).(handler := Load(a));
    var s2 := s1.(handler := Decide(a, ts, ReadHigh, 0));
    var s5 := s1.(handler := if ts <= s.clock then Fire(a, ts) else Rearm(Start(a, ts), 0));
    DecideRuns(s2);
    StepTimes(s1, HandlerStep, 3, s5);
    StepTimes(s, HandlerStep, 4, s5);
  }

  /** A due alarm: six steps from the acknowledgement to the callback. */
  lemma DueHandlerRuns(s: State, a: Alarm)
    requires s.handler == Acknowledge(a) && Ch(s, a).slot.Some? && Ch(s, a).slot.value <= s.clock
    ensures Leads(s, Times(HandlerStep, 6), WithCh(s, a, Served(Ch(s, a), s.clock)).(handler := Callback(a)))
  {
    var fire := WithCh(s, a, Ch(s, a).(matched := false)).(handler := Fire(a, Ch(s, a).slot.value));
    HandlerDecides(s, a);
    LeadsOne(fire, HandlerStep);
    assert Times(HandlerStep, 1) == [HandlerStep];
    LeadsTimes(s, HandlerStep, 5, fire, 1, HandlerMove(fire));
  }

  /** The handler's own `set_alarm`, for a timestamp still ahead. */
  lemma EarlyCallRuns(s: State, a: Alarm, ts: nat)
    requires s.handler == Rearm(Start(a, ts), 0) && Ch(s, a).slot == Some(ts) && s.clock < ts
    ensures Leads(s, Times(HandlerStep, 8), Next(WithCh(s, a, Ch(s, a).(owed := ts, compare := ts % WORD))))
  {
    RearmRuns(s);
  }

  lemma NextOverwrites(s: State, a: Alarm, c: Channel, h: Handler, d: Channel)
    ensures Next(WithCh(WithCh(s, a, c).(handler := h), a, d)) == Next(WithCh(s, a, d))
  {
  }

  /** An alarm that is not due yet: thirteen steps, and it is armed again. */
  lemma EarlyHandlerRuns(s: State, a: Alarm)
    requires s.handler == Acknowledge(a) && Ch(s, a).slot.Some? && s.clock < Ch(s, a).slot.value
    ensures Leads(s, Times(HandlerStep, 13), Next(WithCh(s, a, Served(Ch(s, a), s.clock))))
  {
    var ts := Ch(s, a).slot.value;
    var rearm := WithCh(s, a, Ch(s, a).(matched := false)).(handler := Rearm(Start(a, ts), 0));
    HandlerDecides(s, a);
    EarlyCallRuns(rearm, a, ts);
    NextOverwrites(s, a, Ch(s, a).(matched := false), Rearm(Start(a, ts), 0), Served(Ch(s, a), s.clock));
    LeadsTimes(s, HandlerStep, 5, rearm, 8, Next(WithCh(s, a, Served(Ch(s, a), s.clock))));
  }

  lemma HandlerServes(s: State, a: Alarm)
    requires s.handler == Acknowledge(a) && Ch(s, a).slot.Some?
    ensures Leads(s, Serve(Ch(s, a), s.clock), Next(WithCh(s, a, Served(Ch(s, a), s.clock))))
  {
    if Ch(s, a).slot.value <= s.clock {
      DueHandlerRuns(s, a);
      var called := WithCh(s, a, Served(Ch(s, a), s.clock)).(handler := Callback(a));
      LeadsOne(called, CallbackReturn);
      LeadsOn(s, Times(HandlerStep, 6), called, [CallbackReturn], Apply(called, CallbackReturn));
    } else {
      EarlyHandlerRuns(s, a);
    }
  }

  /** What is left of an interrupt when a callback has done its work: return, and serve C3 if it was pending too. */
  function Finish(s: State): seq<Action>
    requires s.alsoC3 ==> s.c3.slot.Some?
  {
    [CallbackReturn] + if s.alsoC3 then Serve(s.c3, s.clock) else []
  }

  function Finished(s: State): State
    requires s.alsoC3 ==> s.c3.slot.Some?
  {
    s.(handler := Off, alsoC3 := false, c3 := if s.alsoC3 then Served(s.c3, s.clock) else s.c3)
  }

  lemma InterruptFinishes(s: State)
    requires s.handler.Callback? && (s.alsoC3 ==> s.c3.slot.Some?)
    ensures Leads(s, Finish(s), Finished(s))
  {
    var next := Apply(s, CallbackReturn);
    if s.alsoC3 {
      HandlerServes(next, C3);
    }
    LeadsCons(s, CallbackReturn, if s.alsoC3 then Serve(s.c3, s.clock) else [], Finished(s));
  }
}
