/** The invariant of the alarm protocol, and that every guarded step keeps it. */
module AlarmInvariant {
  import opened Options
  import opened AlarmProtocol

  /** The hardware will raise the match for `t`: it is pending, or the compare register waits for it. */
  ghost predicate Armed(c: Channel, t: nat, clock: nat) {
    c.matched || (c.compare == t % WORD && clock < t)
  }

  /** This `set_alarm` call arms `t` on `a`, or sees that it has passed and refuses it. */
  ghost predicate FrameCovers(f: Frame, a: Alarm, t: nat, clock: nat) {
    f.alarm == a && f.ts == t &&
    match f.pc
    case WriteCompare => true
    case Second(now) => Sees(now, t, clock)
    case ClearMatch => true
    case ZeroSlot => true
    case _ => false
  }

  /** The running handler delivers `t`, or arms it again. */
  ghost predicate HandlerCovers(s: State, a: Alarm, t: nat) {
    || (s.alsoC3 && a == C3)
    || match s.handler
       case Acknowledge(b) => a == b
       case Load(b) => a == b
       case Decide(b, ts, _, _) => a == b && ts == t
       case Fire(b, ts) => a == b && ts == t
       case Rearm(f, _) =>
         FrameCovers(f, a, t, s.clock) || (f.alarm == a && f.ts == t && (f.pc.First? || f.pc.StoreSlot?))
       case InCallback(_, f) => FrameCovers(f, a, t, s.clock)
       case _ => false
  }

  ghost predicate MainCovers(s: State, a: Alarm, t: nat) {
    s.main.Busy? && FrameCovers(s.main.frame, a, t, s.clock)
  }

  /** Somebody, hardware or code, still has to deliver, arm or refuse `t`. */
  ghost predicate Covered(s: State, a: Alarm, t: nat) {
    Armed(Ch(s, a), t, s.clock) || HandlerCovers(s, a, t) || MainCovers(s, a, t)
  }

  ghost predicate FrameOk(f: Frame, c: Channel, clock: nat) {
    && c.slot.Some?
    && (!f.pc.First? ==> 0 < f.ts)
    && match f.pc
       case First(now) => NowOk(now, clock)
       case Second(now) => NowOk(now, clock)
       case ClearMatch => f.ts <= clock
       case ZeroSlot => f.ts <= clock
       case _ => true
  }

  /** The timestamp that the handler's loop holds for `a`, if it is in that loop. */
  function Held(h: Handler, a: Alarm): Option<nat> {
    match h
    case Decide(b, ts, _, _) => if a == b then Some(ts) else None
    case Fire(b, ts) => if a == b then Some(ts) else None
    case Rearm(f, _) => if a == f.alarm then Some(f.ts) else None
    case _ => None
  }

  /** The slot holds the owed timestamp; only the handler's loop may hold it in a local instead. */
  ghost predicate SlotOk(s: State, a: Alarm) {
    var c := Ch(s, a);
    match c.slot
    case None => c.owed == 0 && Held(s.handler, a).None?
    case Some(v) =>
      if Held(s.handler, a).Some? then c.owed == Held(s.handler, a).value && v in {0, c.owed}
      else v == c.owed
  }

  ghost predicate MainOk(s: State) {
    s.main.Busy? ==>
      && FrameOk(s.main.frame, Ch(s, s.main.frame.alarm), s.clock)
      && (PastStore(s.main.frame) ==> Ch(s, s.main.frame.alarm).owed in {0, s.main.frame.ts})
  }

  /** A callback's call for the alarm whose `set_alarm` it interrupts asks for the same, or is being refused. */
  ghost predicate Harmless(s: State, f: Frame) {
    Interrupting(s, f.alarm) ==> f.ts == s.main.frame.ts || (f.pc.First? && Sees(f.pc.now, f.ts, s.clock))
  }

  ghost predicate HandlerOk(s: State) {
    && (s.alsoC3 ==> s.handler.Panicked? || (!s.handler.Off? && HandlerAlarm(s.handler) == C1))
    && match s.handler
       case Decide(a, ts, now, pass) => NowOk(now, s.clock) && pass <= 1 && (pass == 1 ==> Sees(now, ts, s.clock))
       case Fire(a, ts) => ts <= s.clock
       case Rearm(f, pass) =>
         && FrameOk(f, Ch(s, f.alarm), s.clock) && pass == 0
         && (PastStore(f) ==> Ch(s, f.alarm).slot == Some(f.ts))
       case InCallback(a, f) =>
         && FrameOk(f, Ch(s, f.alarm), s.clock) && Harmless(s, f)
         && (PastStore(f) ==> Ch(s, f.alarm).owed == f.ts && InHand(f, Ch(s, f.alarm), s.clock))
       case _ => true
  }

  /** The alarm whose `alarm_interrupt` is running. */
  function HandlerAlarm(h: Handler): Alarm {
    match h
    case Off => C3
    case Acknowledge(a) => a
    case Load(a) => a
    case Decide(a, _, _, _) => a
    case Fire(a, _) => a
    case Rearm(f, _) => f.alarm
    case Callback(a) => a
    case InCallback(a, _) => a
    case Panicked => C3
  }

  ghost predicate ChannelOk(s: State, a: Alarm) {
    && SlotOk(s, a) && Ch(s, a).compare < WORD
    && (Ch(s, a).owed != 0 ==> Covered(s, a, Ch(s, a).owed))
  }

  ghost predicate Inv(s: State) {
    && ChannelOk(s, C1) && ChannelOk(s, C3) && MainOk(s) && HandlerOk(s)
    && (s.c3.slot.Some? ==> s.c1.slot.Some?)
  }

  lemma InitHolds(s: State)
    requires Init(s)
    ensures Inv(s)
  {
  }

  /** The timestamp of a call past its slot update is armed, or the call itself still covers it. */
  ghost predicate InHand(f: Frame, c: Channel, clock: nat) {
    Armed(c, f.ts, clock) || FrameCovers(f, f.alarm, f.ts, clock)
  }

  /**
   One step of `set_alarm` keeps its own bookkeeping, and its timestamp in good hands from the slot
   update on: it accepts only what is armed, and refuses only what is due.
   */
  lemma FrameStepKeeps(f: Frame, c: Channel, clock: nat, delivering: bool)
    requires FrameOk(f, c, clock)
    requires PastStore(f) ==> c.owed in {0, f.ts}
    ensures var (c', p) := FrameStep(f, clock, c, delivering);
            && c'.slot.Some? && (c.compare < WORD ==> c'.compare < WORD)
            && (c'.owed != c.owed ==> c'.owed == 0 || (f.pc.StoreSlot? && c'.owed == f.ts))
            && match p
               case Running(g) =>
                 && g.alarm == f.alarm && g.ts == f.ts && FrameOk(g, c', clock)
                 && (PastStore(f) ==> PastStore(g) && c'.owed == c.owed && c'.slot == c.slot)
                 && (PastStore(g) ==> c'.owed in {0, f.ts})
                 && (PastStore(g) && (PastStore(f) ==> InHand(f, c, clock)) ==> InHand(g, c', clock))
                 && (PastStore(g) && !PastStore(f) ==> c'.owed == f.ts && c'.slot == Some(f.ts))
                 && (!PastStore(g) ==> c' == c)
               case Returned(true) =>
                 c' == c && PastStore(f) && (InHand(f, c, clock) ==> Armed(c', f.ts, clock))
               case Returned(false) =>
                 && f.ts <= clock
                 && (f.pc.First? ==> c' == c)
                 && (!f.pc.First? ==> c'.slot == Some(0) && c'.owed == if delivering then c.owed else 0)
  {
    if f.pc.First? || f.pc.Second? { NowStepKeeps(f.pc.now, clock); }
  }

  lemma FrameTickKeeps(f: Frame, c: Channel, clock: nat)
    requires FrameOk(f, c, clock)
    ensures FrameOk(f, TickChannel(c, clock + 1), clock + 1)
    ensures forall a, t: nat :: FrameCovers(f, a, t, clock) ==> FrameCovers(f, a, t, clock + 1)
  {
    if f.pc.First? || f.pc.Second? { NowTickKeeps(f.pc.now, clock); }
  }

  /** A time that is armed stays armed: the tick that reaches it raises the match. */
  lemma ArmedTickKeeps(c: Channel, t: nat, clock: nat)
    requires Armed(c, t, clock)
    ensures Armed(TickChannel(c, clock + 1), t, clock + 1)
  {
  }

  lemma TickKeepsChannel(s: State, a: Alarm)
    requires Inv(s)
    ensures ChannelOk(Apply(s, Tick), a)
  {
    var t := Ch(s, a).owed;
    assert ChannelOk(s, a);
    if Armed(Ch(s, a), t, s.clock) { ArmedTickKeeps(Ch(s, a), t, s.clock); }
    if s.main.Busy? { FrameTickKeeps(s.main.frame, Ch(s, s.main.frame.alarm), s.clock); }
    if s.handler.Rearm? || s.handler.InCallback? {
      FrameTickKeeps(s.handler.frame, Ch(s, s.handler.frame.alarm), s.clock);
    }
  }

  lemma TickKeepsMain(s: State)
    requires MainOk(s)
    ensures MainOk(Apply(s, Tick))
  {
    if s.main.Busy? { FrameTickKeeps(s.main.frame, Ch(s, s.main.frame.alarm), s.clock); }
  }

  lemma TickKeepsHandler(s: State)
    requires HandlerOk(s)
    ensures HandlerOk(Apply(s, Tick))
  {
    if s.handler.Rearm? {
      FrameTickKeeps(s.handler.frame, Ch(s, s.handler.frame.alarm), s.clock);
    } else if s.handler.InCallback? {
      TickKeepsInCallback(s, s.handler.frame);
    } else if s.handler.Decide? {
      NowTickKeeps(s.handler.now, s.clock);
    }
  }

  lemma TickKeepsInCallback(s: State, f: Frame)
    requires FrameOk(f, Ch(s, f.alarm), s.clock)
    ensures FrameOk(f, Ch(Apply(s, Tick), f.alarm), s.clock + 1)
    ensures Harmless(s, f) ==> Harmless(Apply(s, Tick), f)
    ensures InHand(f, Ch(s, f.alarm), s.clock) ==> InHand(f, Ch(Apply(s, Tick), f.alarm), s.clock + 1)
  {
    var c := Ch(s, f.alarm);
    FrameTickKeeps(f, c, s.clock);
    if f.pc.First? { NowTickKeeps(f.pc.now, s.clock); }
    if Armed(c, f.ts, s.clock) { ArmedTickKeeps(c, f.ts, s.clock); }
  }

  lemma TickKeeps(s: State)
    requires Inv(s)
    ensures Inv(Apply(s, Tick))
  {
    TickKeepsChannel(s, C1);
    TickKeepsChannel(s, C3);
    TickKeepsMain(s);
    TickKeepsHandler(s);
  }

  lemma MainKeepsChannel(s: State, a: Alarm)
    requires Inv(s) && Enabled(s, MainStep)
    ensures ChannelOk(MainMove(s), a)
  {
    var f := s.main.frame;
    FrameStepKeeps(f, Ch(s, f.alarm), s.clock, false);
    assert ChannelOk(s, a);
  }

  lemma MainKeeps(s: State)
    requires Inv(s) && Enabled(s, MainStep)
    ensures Inv(MainMove(s))
  {
    var f := s.main.frame;
    FrameStepKeeps(f, Ch(s, f.alarm), s.clock, false);
    MainKeepsChannel(s, C1);
    MainKeepsChannel(s, C3);
  }

  lemma RearmKeepsChannel(s: State, a: Alarm)
    requires Inv(s) && s.handler.Rearm?
    ensures ChannelOk(HandlerMove(s), a)
  {
    var f := s.handler.frame;
    FrameStepKeeps(f, Ch(s, f.alarm), s.clock, true);
    assert ChannelOk(s, a);
    if a != f.alarm {
      assert Ch(HandlerMove(s), a) == Ch(s, a);
    }
  }

  lemma RearmKeepsRest(s: State)
    requires Inv(s) && s.handler.Rearm?
    ensures MainOk(HandlerMove(s)) && HandlerOk(HandlerMove(s))
  {
    var f := s.handler.frame;
    FrameStepKeeps(f, Ch(s, f.alarm), s.clock, true);
  }

  lemma RearmKeeps(s: State)
    requires Inv(s) && s.handler.Rearm?
    ensures Inv(HandlerMove(s))
  {
    RearmKeepsChannel(s, C1);
    RearmKeepsChannel(s, C3);
    RearmKeepsRest(s);
  }

  lemma InCallbackKeepsChannel(s: State, a: Alarm)
    requires Inv(s) && s.handler.InCallback?
    ensures ChannelOk(HandlerMove(s), a)
  {
    var f := s.handler.frame;
    FrameStepKeeps(f, Ch(s, f.alarm), s.clock, false);
    assert ChannelOk(s, a);
    if a != f.alarm {
      assert Ch(HandlerMove(s), a) == Ch(s, a);
    }
  }

  lemma InCallbackKeepsRest(s: State)
    requires Inv(s) && s.handler.InCallback?
    ensures MainOk(HandlerMove(s)) && HandlerOk(HandlerMove(s))
  {
    var f := s.handler.frame;
    FrameStepKeeps(f, Ch(s, f.alarm), s.clock, false);
  }

  lemma InCallbackKeeps(s: State)
    requires Inv(s) && s.handler.InCallback?
    ensures Inv(HandlerMove(s))
  {
    InCallbackKeepsChannel(s, C1);
    InCallbackKeepsChannel(s, C3);
    InCallbackKeepsRest(s);
  }

  lemma DecideKeepsChannel(s: State, a: Alarm)
    requires Inv(s) && s.handler.Decide?
    ensures ChannelOk(HandlerMove(s), a)
  {
    assert ChannelOk(s, a);
  }

  lemma DecideKeepsRest(s: State)
    requires Inv(s) && s.handler.Decide?
    ensures MainOk(HandlerMove(s)) && HandlerOk(HandlerMove(s))
  {
    NowStepKeeps(s.handler.now, s.clock);
    assert ChannelOk(s, s.handler.alarm);
  }

  lemma DecideKeeps(s: State)
    requires Inv(s) && s.handler.Decide?
    ensures Inv(HandlerMove(s))
  {
    DecideKeepsChannel(s, C1);
    DecideKeepsChannel(s, C3);
    DecideKeepsRest(s);
  }

  /** The remaining handler steps: acknowledging, loading the slot, firing. */
  lemma PlainKeeps(s: State)
    requires Inv(s) && (s.handler.Acknowledge? || s.handler.Load? || s.handler.Fire?)
    ensures Inv(HandlerMove(s))
  {
  }

  lemma HandlerKeeps(s: State)
    requires Inv(s) && Enabled(s, HandlerStep)
    ensures Inv(HandlerMove(s))
  {
    match s.handler
    case Decide(_, _, _, _) => DecideKeeps(s);
    case Rearm(_, _) => RearmKeeps(s);
    case InCallback(_, _) => InCallbackKeeps(s);
    case _ => PlainKeeps(s);
  }

  lemma OtherKeepsChannel(s: State, act: Action, a: Alarm)
    requires Inv(s) && Enabled(s, act) && !act.Tick? && !act.MainStep? && !act.HandlerStep?
    ensures ChannelOk(Apply(s, act), a)
  {
    assert ChannelOk(s, a);
  }

  lemma OtherKeeps(s: State, act: Action)
    requires Inv(s) && Enabled(s, act) && Guarded(s, act)
    requires !act.Tick? && !act.MainStep? && !act.HandlerStep?
    ensures Inv(Apply(s, act))
  {
    OtherKeepsChannel(s, act, C1);
    OtherKeepsChannel(s, act, C3);
  }

  lemma StepKeeps(s: State, act: Action)
    requires Inv(s) && Enabled(s, act) && Guarded(s, act)
    ensures Inv(Apply(s, act))
  {
    match act
    case Tick => TickKeeps(s);
    case MainStep => MainKeeps(s);
    case HandlerStep => HandlerKeeps(s);
    case _ => OtherKeeps(s, act);
  }
}
