/** The interrupt sources: which are enabled at start-up, and which handlers an interrupt calls. */
module Interrupts {
  import opened Registers

  datatype Handler = TimerC1 | TimerC3 | Aux | GpioBank1 | GpioBank2 | Uart | Spi

  /** A source: its interrupt number, below 64. */
  datatype Source = Source(bit: nat, handler: Handler)

  const SOURCES1: seq<Source> := [Source(1, TimerC1), Source(3, TimerC3), Source(29, Aux)]
  const SOURCES2: seq<Source> := [Source(49, GpioBank1), Source(50, GpioBank2)]

  /** The register bits of the first `n` sources of a table, whose register starts at interrupt `base`. */
  function BitsOfSources(sources: seq<Source>, base: nat, n: nat): Bits
    requires n <= |sources| && forall i :: 0 <= i < |sources| ==> base <= sources[i].bit
  {
    set i | 0 <= i < n :: sources[i].bit - base
  }

  /** The handlers of the pending sources among the first `n`, in table order. */
  function Pending(sources: seq<Source>, base: nat, pending: Bits, n: nat): seq<Handler>
    requires n <= |sources| && forall i :: 0 <= i < |sources| ==> base <= sources[i].bit
  {
    if n == 0 then []
    else Pending(sources, base, pending, n - 1)
         + if sources[n - 1].bit - base in pending then [sources[n - 1].handler] else []
  }

  /** One loop of `setup`. */
  method EnableWord(sources: seq<Source>, base: nat) returns (word: Bits)
    requires forall i :: 0 <= i < |sources| ==> base <= sources[i].bit
    ensures word == BitsOfSources(sources, base, |sources|)
  {
    word := {};
    for i := 0 to |sources|
      invariant word == BitsOfSources(sources, base, i)
    {
      var bigger := BitsOfSources(sources, base, i + 1);
      assert forall b :: b in bigger <==> b in BitsOfSources(sources, base, i) || b == sources[i].bit - base;
      word := word + {sources[i].bit - base};
    }
  }

  method Setup() returns (irqs1: Bits, irqs2: Bits)
    ensures irqs1 == {1, 3, 29} && irqs2 == {17, 18}
    ensures irqs1 == BitsOfSources(SOURCES1, 0, |SOURCES1|) && irqs2 == BitsOfSources(SOURCES2, 32, |SOURCES2|)
  {
    irqs1 := EnableWord(SOURCES1, 0);
    irqs2 := EnableWord(SOURCES2, 32);
    assert BitsOfSources(SOURCES1, 0, 3) == {SOURCES1[0].bit - 0, SOURCES1[1].bit - 0, SOURCES1[2].bit - 0};
    assert BitsOfSources(SOURCES2, 32, 2) == {SOURCES2[0].bit - 32, SOURCES2[1].bit - 32};
  }

  /** One loop of the interrupt handler over a snapshot of a pending register. */
  method DispatchWord(sources: seq<Source>, base: nat, pending: Bits) returns (called: seq<Handler>)
    requires forall i :: 0 <= i < |sources| ==> base <= sources[i].bit
    ensures called == Pending(sources, base, pending, |sources|)
  {
    called := [];
    for i := 0 to |sources|
      invariant called == Pending(sources, base, pending, i)
    {
      if sources[i].bit - base in pending {
        called := called + [sources[i].handler];
      }
    }
  }

  /** The tables, unrolled. */
  lemma PendingSources(pending1: Bits, pending2: Bits)
    ensures Pending(SOURCES1, 0, pending1, |SOURCES1|) ==
            (if 1 in pending1 then [TimerC1] else []) + (if 3 in pending1 then [TimerC3] else [])
            + (if 29 in pending1 then [Aux] else [])
    ensures Pending(SOURCES2, 32, pending2, |SOURCES2|) ==
            (if 17 in pending2 then [GpioBank1] else []) + (if 18 in pending2 then [GpioBank2] else [])
  {
    assert Pending(SOURCES1, 0, pending1, 1) == if 1 in pending1 then [TimerC1] else [];
    assert Pending(SOURCES2, 32, pending2, 1) == if 17 in pending2 then [GpioBank1] else [];
  }

  /** `interrupt_handler`: bits 8 and 9 of the basic register say which pending registers to look at. */
  method Dispatch(basic: Bits, pending1: Bits, pending2: Bits) returns (called: seq<Handler>)
    ensures called == (if 8 in basic then Pending(SOURCES1, 0, pending1, |SOURCES1|) else [])
                      + (if 9 in basic then Pending(SOURCES2, 32, pending2, |SOURCES2|) else [])
    ensures TimerC1 in called <==> 8 in basic && 1 in pending1
    ensures TimerC3 in called <==> 8 in basic && 3 in pending1
    ensures Aux in called <==> 8 in basic && 29 in pending1
    ensures GpioBank1 in called <==> 9 in basic && 49 - 32 in pending2
    ensures GpioBank2 in called <==> 9 in basic && 50 - 32 in pending2
    ensures Uart !in called && Spi !in called
  {
    PendingSources(pending1, pending2);
    called := [];
    if 8 in basic {
      called := DispatchWord(SOURCES1, 0, pending1);
    }
    if 9 in basic {
      var more := DispatchWord(SOURCES2, 32, pending2);
      called := called + more;
    }
  }

  /** `aux::interrupt_handler`: the second level of dispatch. */
  method DispatchAux(status: Bits) returns (called: seq<Handler>)
    ensures Uart in called <==> 0 in status
    ensures Spi in called <==> 1 in status
    ensures multiset(called)[Uart] <= 1 && multiset(called)[Spi] <= 1
    ensures forall h :: h in called ==> h in {Uart, Spi}
  {
    called := [];
    if 0 in status { called := called + [Uart]; }
    if 1 in status { called := called + [Spi]; }
  }

  /** A handler is called exactly when its source is pending. */
  lemma {:induction false} CalledIffPending(sources: seq<Source>, base: nat, pending: Bits, n: nat, h: Handler)
    requires n <= |sources| && forall i :: 0 <= i < |sources| ==> base <= sources[i].bit
    ensures h in Pending(sources, base, pending, n) <==>
            exists i :: 0 <= i < n && sources[i].handler == h && sources[i].bit - base in pending
  {
    if n != 0 {
      CalledIffPending(sources, base, pending, n - 1, h);
      if sources[n - 1].handler == h && sources[n - 1].bit - base in pending {
        assert h in Pending(sources, base, pending, n);
      }
    }
  }

  /**
   No source is enabled without a handler: of either table, whatever line is pending among those that `Setup`
   has enabled, the handler of its source is called.
   */
  lemma EnabledIsHandled(sources: seq<Source>, base: nat, pending: Bits, bit: nat)
    requires forall i :: 0 <= i < |sources| ==> base <= sources[i].bit
    requires pending <= BitsOfSources(sources, base, |sources|) && bit in pending
    ensures exists i :: 0 <= i < |sources| && sources[i].bit - base == bit
                        && sources[i].handler in Pending(sources, base, pending, |sources|)
  {
    var i :| 0 <= i < |sources| && sources[i].bit - base == bit;
    CalledIffPending(sources, base, pending, |sources|, sources[i].handler);
  }
}
