/**
 The system timer driver as code: the hardware clock runs on by an unknown number of ticks before
 every register access, and `now`, `set_alarm` and `alarm_interrupt` are run with interrupts masked.
 */
module SystemTime {
  import opened Options
  import opened AlarmProtocol
  import opened AlarmInvariant

  /** The clock is a 64-bit counter, assumed not to wrap. */
  const END_OF_TIME: nat := WORD * WORD

  lemma {:induction false} PassedOn(c: Channel, from: nat, mid: nat, to: nat)
    requires from <= mid <= to
    ensures Passed(Passed(c, from, mid), mid, to) == Passed(c, from, to)
  {
    if mid < to { PassedOn(c, from, mid, to - 1); }
  }

  /** However far the clock runs, what was armed is armed. */
  lemma {:induction false} ArmedPasses(c: Channel, t: nat, from: nat, to: nat)
    requires from <= to && Armed(c, t, from)
    ensures Armed(Passed(c, from, to), t, to)
  {
    if from < to {
      ArmedPasses(c, t, from, to - 1);
      ArmedTickKeeps(Passed(c, from, to - 1), t, to - 1);
    }
  }

  /** The compare register holds `t`, and its match was dropped at some moment at or after `t`. */
  ghost predicate MatchDropped(c: Channel, t: nat, clock: nat) {
    && c.compare == t % WORD
    && exists from :: t <= from <= clock && c == Passed(c.(matched := false), from, clock)
  }

  lemma {:induction false} SlotDoesNotMatter(c: Channel, d: Channel, from: nat, to: nat)
    requires c.compare == d.compare && c.matched == d.matched
    ensures Passed(c, from, to).matched == Passed(d, from, to).matched
  {
    if from < to {
      PassedShape(c, from, to - 1);
      PassedShape(d, from, to - 1);
      SlotDoesNotMatter(c, d, from, to - 1);
    }
  }

  lemma DroppedMatch(missed: Channel, c: Channel, t: nat, from: nat, clock: nat)
    requires missed.compare == t % WORD && !missed.matched && t <= from <= clock
    requires c == Passed(missed, from, clock).(slot := Some(0), owed := 0)
    ensures MatchDropped(c, t, clock)
  {
    PassedShape(missed, from, clock);
    PassedShape(c.(matched := false), from, clock);
    SlotDoesNotMatter(missed, c.(matched := false), from, clock);
    assert c == Passed(c.(matched := false), from, clock);
  }

  /** So a refused alarm does not ring in this lap of the low clock word. */
  lemma RefusedStaysQuiet(c: Channel, t: nat, clock: nat)
    requires MatchDropped(c, t, clock) && clock < t + WORD
    ensures !c.matched
  {
    var from :| t <= from <= clock && c == Passed(c.(matched := false), from, clock);
    QuietWithinLap(c.(matched := false), t, from, clock);
  }

  function Other(a: Alarm): Alarm {
    if a == C1 then C3 else C1
  }

  /** A time that has passed and whose match was dropped raises no other match within the lap. */
  lemma {:induction false} QuietWithinLap(c: Channel, t: nat, from: nat, to: nat)
    requires c.compare == t % WORD && !c.matched && t <= from <= to < t + WORD
    ensures !Passed(c, from, to).matched
  {
    if from < to {
      QuietWithinLap(c, t, from, to - 1);
      PassedShape(c, from, to - 1);
      assert to - t < WORD && to % WORD != t % WORD;
    }
  }

  /** History of the callbacks: which alarm's, and the clock when it was called. */
  datatype Ring = Ring(alarm: Alarm, at: nat)

  /** A callback, as far as the driver can see it: at most one call of `set_alarm`. */
  datatype Request = Request(alarm: Alarm, ts: nat)

  class Driver {
    var clock: nat
    var c1: Channel
    var c3: Channel
    /** History: the 64-bit clock at each read of the low word. */
    ghost var lowReads: seq<nat>
    ghost var rings: seq<Ring>

    ghost predicate Valid()
      reads this
    {
      clock < END_OF_TIME
    }

    function Chan(a: Alarm): Channel
      reads this
    {
      if a == C1 then c1 else c3
    }

    constructor (clock: nat, compare1: nat, compare3: nat)
      requires clock < END_OF_TIME
      ensures Valid() && this.clock == clock
      ensures c1 == Channel(None, compare1, false, 0) && c3 == Channel(None, compare3, false, 0)
    {
      this.clock := clock;
      c1 := Channel(None, compare1, false, 0);
      c3 := Channel(None, compare3, false, 0);
      lowReads, rings := [], [];
    }

    method Tick()
      requires Valid() && clock + 1 < END_OF_TIME
      modifies `clock, `c1, `c3
      ensures Valid() && clock == old(clock) + 1
      ensures c1 == TickChannel(old(c1), clock) && c3 == TickChannel(old(c3), clock)
    {
      clock := clock + 1;
      c1 := TickChannel(c1, clock);
      c3 := TickChannel(c3, clock);
    }

    /** The hardware runs on for some unknown time. */
    method Elapse()
      requires Valid()
      modifies `clock, `c1, `c3
      ensures Valid() && old(clock) <= clock
      ensures c1 == Passed(old(c1), old(clock), clock) && c3 == Passed(old(c3), old(clock), clock)
    {
      var until: nat :| clock <= until < END_OF_TIME;
      while clock < until
        invariant old(clock) <= clock <= until
        invariant c1 == Passed(old(c1), old(clock), clock) && c3 == Passed(old(c3), old(clock), clock)
      {
        Tick();
      }
    }

    method ReadHighWord() returns (hi: nat)
      requires Valid()
      modifies `clock, `c1, `c3
      ensures Valid() && old(clock) <= clock && hi == clock / WORD
      ensures c1 == Passed(old(c1), old(clock), clock) && c3 == Passed(old(c3), old(clock), clock)
    {
      Elapse();
      hi := clock / WORD;
    }

    method ReadLowWord() returns (lo: nat)
      requires Valid()
      modifies this
      ensures Valid() && old(clock) <= clock && lo == clock % WORD
      ensures lowReads == old(lowReads) + [clock] && rings == old(rings)
      ensures c1 == Passed(old(c1), old(clock), clock) && c3 == Passed(old(c3), old(clock), clock)
    {
      Elapse();
      lo := clock % WORD;
      lowReads := lowReads + [clock];
    }

    /**
     Reads the clock.  The result is the true 64-bit clock at the instant of the last low-word read,
     however the clock moved between the three reads; a retry happens only when the high word rose.
     */
    method Now() returns (time: nat)
      requires Valid()
      modifies this
      ensures Valid() && old(clock) <= time <= clock
      ensures rings == old(rings)
      ensures |old(lowReads)| < |lowReads| && time == lowReads[|lowReads| - 1]
      ensures c1 == Passed(old(c1), old(clock), clock) && c3 == Passed(old(c3), old(clock), clock)
      decreases WORD - clock / WORD
    {
      var hi := ReadHighWord();
      ghost var t1 := clock;
      var lo := ReadLowWord();
      ghost var t2 := clock;
      var check := ReadHighWord();
      PassedOn(old(c1), old(clock), t1, t2);
      PassedOn(old(c3), old(clock), t1, t2);
      PassedOn(old(c1), old(clock), t2, clock);
      PassedOn(old(c3), old(clock), t2, clock);
      if check != hi {
        ghost var t3 := clock;
        time := Now();
        PassedOn(old(c1), old(clock), t3, clock);
        PassedOn(old(c3), old(clock), t3, clock);
      } else {
        time := hi * WORD + lo;
      }
    }

    method AllocateAlarm() returns (r: Option<Alarm>)
      modifies `c1, `c3
      ensures r == if old(c1.slot.None?) then Some(C1) else if old(c3.slot.None?) then Some(C3) else None
      ensures c1 == if r == Some(C1) then old(c1).(slot := Some(0)) else old(c1)
      ensures c3 == if r == Some(C3) then old(c3).(slot := Some(0)) else old(c3)
    {
      if c1.slot.None? {
        c1 := c1.(slot := Some(0));
        return Some(C1);
      } else if c3.slot.None? {
        c3 := c3.(slot := Some(0));
        return Some(C3);
      } else {
        return None;
      }
    }

    method Put(a: Alarm, c: Channel)
      modifies `c1, `c3
      ensures Chan(a) == c && Chan(Other(a)) == old(Chan(Other(a)))
    {
      if a == C1 { c1 := c; } else { c3 := c; }
    }

    /** The recheck of `set_alarm` failed: drop the match, which may or may not have been raised, and the slot. */
    method Disarm(a: Alarm)
      requires Valid()
      modifies this
      ensures Valid() && old(clock) <= clock && lowReads == old(lowReads) && rings == old(rings)
      ensures Chan(a) == Passed(old(Chan(a)).(matched := false), old(clock), clock).(slot := Some(0), owed := 0)
      ensures Chan(Other(a)) == Passed(old(Chan(Other(a))), old(clock), clock)
    {
      Put(a, Chan(a).(matched := false));
      var cleared := Chan(a);
      Elapse();
      PassedShape(cleared, old(clock), clock);
      Put(a, Chan(a).(slot := Some(0), owed := 0));
    }

    /**
     Accepting means that the slot names the timestamp and the hardware will raise the match for it;
     refusing means that it is due, with the alarm either left alone or disarmed.
     */
    method SetAlarm(a: Alarm, ts: nat) returns (accepted: bool)
      requires Valid() && Chan(a).slot.Some?
      modifies this
      ensures Valid() && old(clock) <= clock && Chan(a).slot.Some? && rings == old(rings)
      ensures accepted ==> Chan(a).slot == Some(ts) && Chan(a).owed == ts && Armed(Chan(a), ts, clock)
      ensures accepted ==> Chan(a).compare == ts % WORD
      ensures accepted ==> old(clock) < ts && (clock == old(clock) ==> Chan(a).matched == old(Chan(a).matched))
      ensures !accepted ==> ts <= clock
      ensures !accepted ==>
                || Chan(a) == Passed(old(Chan(a)), old(clock), clock)
                || (Chan(a).slot == Some(0) && Chan(a).owed == 0 && MatchDropped(Chan(a), ts, clock))
      ensures Chan(Other(a)) == Passed(old(Chan(Other(a))), old(clock), clock)
    {
      ghost var start, other := clock, Chan(Other(a));
      var time := Now();
      PassedShape(old(Chan(a)), start, clock);
      if ts <= time {
        return false;
      }
      var stored := Chan(a).(slot := Some(ts), owed := ts);
      Put(a, stored);
      ghost var t1 := clock;
      Elapse();
      ghost var t2 := clock;
      PassedShape(stored, t1, t2);
      PassedOn(other, start, t1, t2);
      var written := Chan(a).(compare := ts % WORD);
      Put(a, written);
      time := Now();
      ghost var t3 := clock;
      PassedShape(written, t2, t3);
      PassedOn(other, start, t2, t3);
      if ts <= time {
        ghost var missed := Chan(a).(matched := false);
        Disarm(a);
        PassedShape(missed, t3, clock);
        DroppedMatch(missed, Chan(a), ts, t3, clock);
        PassedOn(other, start, t3, clock);
        return false;
      }
      ArmedPasses(written, ts, t2, t3);
      return true;
    }

    /** One more callback than before, of alarm `a`, at or after `ts`. */
    ghost predicate Called(before: seq<Ring>, a: Alarm, ts: nat)
      reads this
    {
      |rings| == |before| + 1 && rings[..|before|] == before
      && rings[|before|].alarm == a && ts <= rings[|before|].at <= clock
    }

    /** Calling the callback, recorded. */
    method RunCallback(a: Alarm)
      modifies `rings
      ensures rings == old(rings) + [Ring(a, clock)]
    {
      rings := rings + [Ring(a, clock)];
    }

    /**
     The handler: afterwards the callback has run once, at or after its time and with the slot cleared
     first, or has not run and the same timestamp is armed again.  The loop takes at most two rounds.
     */
    method AlarmInterrupt(a: Alarm, callback: Option<Request>) returns (fired: bool, rounds: nat, reArmed: bool)
      requires Valid() && Chan(a).slot.Some?
      requires callback.Some? ==> Chan(callback.value.alarm).slot.Some?
      modifies this
      ensures Valid() && old(clock) <= clock && 1 <= rounds <= 2
      ensures if fired then Called(old(rings), a, old(Chan(a)).slot.value) else rings == old(rings)
      ensures fired && (callback.None? || callback.value.alarm != a) ==> Chan(a).slot == Some(0) && Chan(a).owed == 0
      ensures reArmed ==> fired && callback.Some?
      ensures reArmed ==>
                var r := callback.value;
                && Chan(r.alarm).slot == Some(r.ts) && Chan(r.alarm).compare == r.ts % WORD
                && Armed(Chan(r.alarm), r.ts, clock)
      ensures fired && callback.Some? && !reArmed ==> callback.value.ts <= clock
      ensures !fired ==>
                var ts := old(Chan(a)).slot.value;
                && old(clock) < ts && Chan(a).slot == Some(ts) && Armed(Chan(a), ts, clock)
                && Chan(a).compare == ts % WORD
                && (clock == old(clock) ==> !Chan(a).matched)
      ensures callback.None? || callback.value.alarm == a ==>
                Chan(Other(a)) == Passed(old(Chan(Other(a))), old(clock), clock)
    {
      ghost var start, other := clock, Chan(Other(a));
      Put(a, Chan(a).(matched := false));
      var ts := Chan(a).slot.value;
      fired, rounds, reArmed := false, 0, false;
      while true
        invariant Valid() && start <= clock && Chan(a).slot.Some? && rounds <= 1
        invariant !fired && !reArmed && rings == old(rings)
        invariant if rounds == 0 then clock == start && !Chan(a).matched else ts <= clock
        invariant Chan(Other(a)) == Passed(other, start, clock)
        decreases 2 - rounds
      {
        rounds := rounds + 1;
        ghost var t0, before := clock, Chan(a);
        var time := Now();
        ghost var t1 := clock;
        PassedShape(before, t0, t1);
        PassedShape(other, start, t1);
        PassedOn(other, start, t0, t1);
        if ts <= time {
          Put(a, Chan(a).(slot := Some(0), owed := 0));
          fired := true;
          RunCallback(a);
          if callback.Some? {
            ghost var zeroed := Chan(a);
            reArmed := SetAlarm(callback.value.alarm, callback.value.ts);
            PassedShape(zeroed, t1, clock);
            PassedOn(other, start, t1, clock);
          }
          break;
        }
        var accepted := SetAlarm(a, ts);
        PassedOn(other, start, t1, clock);
        if accepted {
          break;
        }
      }
    }

    /**
     Progress: from the moment `set_alarm` has accepted a timestamp, however many laps of the compare
     register ahead, taking every interrupt leads to the callback, not before the timestamp.
     */
    method Deliver(a: Alarm, ts: nat) returns (interrupts: nat)
      requires Valid() && ts < END_OF_TIME
      requires Chan(a).slot == Some(ts) && Armed(Chan(a), ts, clock)
      modifies this
      ensures Valid() && Called(old(rings), a, ts) && Chan(a).slot == Some(0) && Chan(a).owed == 0
    {
      var fired := false;
      interrupts := 0;
      while !fired
        invariant Valid()
        invariant !fired ==> Chan(a).slot == Some(ts) && Armed(Chan(a), ts, clock) && rings == old(rings)
        invariant fired ==> Called(old(rings), a, ts) && Chan(a).slot == Some(0) && Chan(a).owed == 0
        decreases !fired, if clock < ts then ts - clock else 0, Chan(a).matched
      {
        ghost var start, pending := clock, Chan(a).matched;
        while !Chan(a).matched
          invariant rings == old(rings) && start <= clock && (clock == start ==> Chan(a).matched == pending)
          invariant Valid() && Chan(a).slot == Some(ts) && Armed(Chan(a), ts, clock)
          decreases ts - clock
        {
          ArmedTickKeeps(Chan(a), ts, clock);
          Tick();
        }
        var rounds, reArmed;
        fired, rounds, reArmed := AlarmInterrupt(a, None);
        interrupts := interrupts + 1;
      }
    }
  }
}
