/** The control words of the SPI, and the bit-order flags that the transfers read back from them. */
module SpiConfig {

  function Flag(b: bool): bv32 {
    if b then 1 else 0
  }

  /** The second control word, as `get` writes it. */
  function Control1(extraHighTime: bv8, inMsFirst: bool, keepInput: bool): bv32 {
    ((extraHighTime as bv32) << 8) | (Flag(inMsFirst) << 1) | Flag(keepInput)
  }

  /** The input bit order that the transfers read from it. */
  predicate InOrderRead(control1: bv32) {
    control1 & 1 != 0
  }

  /** The transfers read the bit where the keep-input setting was written, not the input bit order. */
  lemma InOrderIsKeepInput(extraHighTime: bv8, inMsFirst: bool, keepInput: bool)
    ensures InOrderRead(Control1(extraHighTime, inMsFirst, keepInput)) == keepInput
    ensures InOrderRead(Control1(extraHighTime, inMsFirst, keepInput)) == inMsFirst <==> keepInput == inMsFirst
    ensures Control1(extraHighTime, inMsFirst, keepInput) & 1 != 0 <==> keepInput
    ensures Control1(extraHighTime, inMsFirst, keepInput) & 2 != 0 <==> inMsFirst
  {
    var high, order, keep := (extraHighTime as bv32) << 8, Flag(inMsFirst) << 1, Flag(keepInput);
    assert high & 1 == 0 && order & 1 == 0 && keep & 1 == keep;
    assert (high | order | keep) & 1 == keep;
    assert high & 2 == 0 && order & 2 == order && keep & 2 == 0;
    assert (high | order | keep) & 2 == order;
  }

  /** The first control word; `speed` is already in the low twelve bits of a word. */
  function Control0(speed: bv32, postInput: bool, dataOutHold: bv32, inRising: bool, outRising: bool,
                    idleHigh: bool, outMsFirst: bool): bv32
  {
    (speed << 20) | (Flag(postInput) << 16) | (1 << 14) | (dataOutHold << 12) | (1 << 11) | (Flag(inRising) << 10)
    | (Flag(outRising) << 8) | (Flag(idleHigh) << 7) | (Flag(outMsFirst) << 6)
  }

  lemma Bit6(a: bv32, b: bv32, c: bv32, d: bv32, e: bv32, f: bv32, g: bv32)
    requires g <= 1 && b <= 1 && c <= 3 && d <= 1 && e <= 1 && f <= 1
    ensures (((a << 20) | (b << 16) | (1 << 14) | (c << 12) | (1 << 11) | (d << 10)
              | (e << 8) | (f << 7) | (g << 6)) >> 6) & 1 == g
  {
  }

  /** The output bit order reads back as it was configured, whatever else was. */
  lemma OutOrderReadsBack(speed: bv32, postInput: bool, dataOutHold: bv32, inRising: bool, outRising: bool,
                          idleHigh: bool, outMsFirst: bool)
    requires dataOutHold <= 3
    ensures (Control0(speed, postInput, dataOutHold, inRising, outRising, idleHigh, outMsFirst) >> 6) & 1 != 0
            <==> outMsFirst
  {
    Bit6(speed, Flag(postInput), dataOutHold, Flag(inRising), Flag(outRising), Flag(idleHigh), Flag(outMsFirst));
  }
}
