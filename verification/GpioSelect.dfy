/** The function-select registers of the GPIO: ten pins to a word, three bits to a pin. */
module GpioSelect {

  /** A pin number that `Pin::get` admits: the compile-time check is `PIN < 53`. */
  const LIMIT: nat := 53
  const PER_WORD: nat := 10
  const WORDS: nat := 6

  datatype Mode = Input | Output | Alternate0 | Alternate1 | Alternate2 | Alternate3 | Alternate4 | Alternate5

  function ModeBits(m: Mode): bv32 {
    match m
    case Input => 0
    case Output => 1
    case Alternate0 => 4
    case Alternate1 => 5
    case Alternate2 => 6
    case Alternate3 => 7
    case Alternate4 => 3
    case Alternate5 => 2
  }

  /** What the hardware makes of a three-bit field. */
  function ModeOf(bits: bv32): Mode {
    if bits == 0 then Input else if bits == 1 then Output else if bits == 4 then Alternate0
    else if bits == 5 then Alternate1 else if bits == 6 then Alternate2 else if bits == 7 then Alternate3
    else if bits == 3 then Alternate4 else Alternate5
  }

  /** The shift of slot `i` of a word. */
  function Shift(i: nat): bv32
    requires i < PER_WORD
  {
    if i == 0 then 0 else if i == 1 then 3 else if i == 2 then 6 else if i == 3 then 9 else if i == 4 then 12
    else if i == 5 then 15 else if i == 6 then 18 else if i == 7 then 21 else if i == 8 then 24 else 27
  }

  function Field(word: bv32, shift: bv32): bv32
    requires shift <= 27
  {
    (word >> shift) & 7
  }

  function Insert(word: bv32, shift: bv32, bits: bv32): bv32
    requires shift <= 27
  {
    (word & !(7 << shift)) | (bits << shift)
  }

  predicate IsShift(s: bv32) {
    s == 0 || s == 3 || s == 6 || s == 9 || s == 12 || s == 15 || s == 18 || s == 21 || s == 24 || s == 27
  }

  lemma FieldIsMasked(word: bv32, t: bv32)
    requires IsShift(t)
    ensures (word >> t) & 7 == (word & (7 << t)) >> t
  {
  }

  lemma FieldsAreDisjoint(s: bv32, t: bv32)
    requires IsShift(s) && IsShift(t) && s != t
    ensures (7 << s) & (7 << t) == (0 as bv32)
  {
  }

  lemma BitsStayInField(bits: bv32, s: bv32)
    requires bits <= 7 && s <= 27
    ensures (bits << s) & !(7 << s) == 0
  {
  }

  lemma OtherMaskUnchanged(word: bv32, x: bv32, m: bv32, n: bv32)
    requires m & n == 0 && x & !m == 0
    ensures ((word & !m) | x) & n == word & n
  {
  }

  /** A field reads back as it was written. */
  lemma InsertedField(word: bv32, bits: bv32, s: bv32)
    requires bits <= 7 && s <= 27
    ensures Field(Insert(word, s, bits), s) == bits
  {
    assert (((word & !(7 << s)) | (bits << s)) >> s) & 7 == bits;
  }

  /** Writing one field leaves every other field of the word alone. */
  lemma OtherField(word: bv32, s: bv32, t: bv32, bits: bv32)
    requires IsShift(s) && IsShift(t) && s != t && bits <= 7
    ensures Field(Insert(word, s, bits), t) == Field(word, t)
  {
    var after := (word & !(7 << s)) | (bits << s);
    FieldsAreDisjoint(s, t);
    BitsStayInField(bits, s);
    OtherMaskUnchanged(word, bits << s, 7 << s, 7 << t);
    FieldIsMasked(after, t);
    FieldIsMasked(word, t);
  }

  /** Three bits a slot, in the order of the pins. */
  lemma ShiftIsPosition(i: nat)
    requires i < PER_WORD
    ensures Shift(i) as nat == 3 * i
  {
  }

  lemma Shifts(i: nat, j: nat)
    requires i < PER_WORD && j < PER_WORD
    ensures IsShift(Shift(i)) && Shift(i) <= 27 && (Shift(i) == Shift(j) <==> i == j)
  {
  }

  lemma ModeRoundTrip(m: Mode)
    ensures ModeOf(ModeBits(m)) == m && ModeBits(m) <= 7
  {
  }

  function Alternate(n: nat): Mode
    requires n <= 5
  {
    if n == 0 then Alternate0 else if n == 1 then Alternate1 else if n == 2 then Alternate2
    else if n == 3 then Alternate3 else if n == 4 then Alternate4 else Alternate5
  }

  /** The hardware's codes: alternate functions 0 to 3 count up from 0b100, and 4 and 5 down from 0b011. */
  lemma ModeCodes(n: nat)
    requires n <= 5
    ensures ModeOf(0) == Input && ModeOf(1) == Output
    ensures ModeBits(Alternate(n)) as nat == if n <= 3 then 4 + n else 7 - n
  {
  }

  // ---------------------------------------------------------------- the register array

  /** The mode that the registers give to pin `p`. */
  function PinMode(regs: seq<bv32>, p: nat): Mode
    requires |regs| == WORDS && p < WORDS * PER_WORD
  {
    ModeOf(FieldOf(regs, p))
  }

  /** Where the hardware looks for it: ten pins to a word, three bits to a pin. */
  function FieldOf(regs: seq<bv32>, p: nat): bv32
    requires |regs| == WORDS && p < WORDS * PER_WORD
  {
    Slot(regs[p / 10], p % 10)
  }

  /** The three bits of slot `i` of a word: the lowest ones, once three bits have been shifted out `i` times. */
  function Slot(word: bv32, i: nat): bv32
    decreases i
  {
    if i == 0 then word & 7 else Slot(word >> 3, i - 1)
  }

  lemma ShiftStep(i: nat)
    requires 0 < i < PER_WORD
    ensures Shift(i - 1) <= 24 && Shift(i) == Shift(i - 1) + 3
  {
  }

  lemma ShiftTwice(word: bv32, s: bv32)
    requires s <= 24
    ensures (word >> 3) >> s == word >> (s + 3)
  {
  }

  /** The shifts of the code select the slots of the hardware. */
  lemma {:induction false} FieldIsSlot(word: bv32, i: nat)
    requires i < PER_WORD
    ensures Shift(i) <= 27 && Slot(word, i) == Field(word, Shift(i))
    decreases i
  {
    if i == 0 {
      assert word >> 0 == word;
    } else {
      FieldIsSlot(word >> 3, i - 1);
      ShiftStep(i);
      ShiftTwice(word, Shift(i - 1));
    }
  }

  /** That is, shifted right by three times its number. */
  lemma SlotIsShifted(word: bv32, i: nat, s: bv32)
    requires i < PER_WORD && s as nat == 3 * i
    ensures Slot(word, i) == (word >> s) & 7
  {
    ShiftIsPosition(i);
    FieldIsSlot(word, i);
    assert s == Shift(i);
  }

  /** The registers after `Pin::get`. */
  function Selected(regs: seq<bv32>, p: nat, m: Mode): (r: seq<bv32>)
    requires |regs| == WORDS && p < LIMIT
    ensures |r| == WORDS
  {
    Shifts(p % PER_WORD, 0);
    var i := p / PER_WORD;
    regs[i := Insert(regs[i], Shift(p % PER_WORD), ModeBits(m))]
  }

  /** Getting a pin changes that pin's field to the mode asked for, and no other pin's field. */
  lemma SelectedField(regs: seq<bv32>, p: nat, m: Mode, q: nat)
    requires |regs| == WORDS && p < LIMIT && q < WORDS * PER_WORD
    ensures PinMode(Selected(regs, p, m), q) == if q == p then m else PinMode(regs, q)
    ensures q == p ==> FieldOf(Selected(regs, p, m), q) == ModeBits(m)
  {
    var i, s, t := p / PER_WORD, p % PER_WORD, q % PER_WORD;
    Shifts(s, t);
    Shifts(t, s);
    ModeRoundTrip(m);
    FieldIsSlot(regs[q / PER_WORD], t);
    FieldIsSlot(Selected(regs, p, m)[q / PER_WORD], t);
    if q / PER_WORD == i {
      if s == t {
        InsertedField(regs[i], ModeBits(m), Shift(s));
      } else {
        OtherField(regs[i], Shift(s), Shift(t), ModeBits(m));
      }
    }
  }

  datatype Request = Request(pin: nat, mode: Mode)

  /** A sequence of `Pin::get` calls. */
  function AllSelected(regs: seq<bv32>, requests: seq<Request>): (r: seq<bv32>)
    requires |regs| == WORDS && forall k :: 0 <= k < |requests| ==> requests[k].pin < LIMIT
    ensures |r| == WORDS
  {
    if requests == [] then regs
    else
      var last := |requests| - 1;
      Selected(AllSelected(regs, requests[..last]), requests[last].pin, requests[last].mode)
  }

  /** The mode last asked for a pin, or else what it was. */
  function LastMode(before: Mode, requests: seq<Request>, q: nat): Mode {
    if requests == [] then before
    else
      var last := |requests| - 1;
      if requests[last].pin == q then requests[last].mode else LastMode(before, requests[..last], q)
  }

  /** The packed registers refine the map from each pin to the mode last requested for it. */
  lemma {:induction false} RegistersHoldLastModes(regs: seq<bv32>, requests: seq<Request>, q: nat)
    requires |regs| == WORDS && q < WORDS * PER_WORD
    requires forall k :: 0 <= k < |requests| ==> requests[k].pin < LIMIT
    ensures PinMode(AllSelected(regs, requests), q) == LastMode(PinMode(regs, q), requests, q)
  {
    if requests != [] {
      var last := |requests| - 1;
      RegistersHoldLastModes(regs, requests[..last], q);
      SelectedField(AllSelected(regs, requests[..last]), requests[last].pin, requests[last].mode, q);
    }
  }

  /** `Pin::get`: a read-modify-write of one register, in a critical section. */
  method Get(regs: array<bv32>, pin: nat, mode: Mode)
    requires regs.Length == WORDS && pin < LIMIT
    modifies regs
    ensures regs[..] == Selected(old(regs[..]), pin, mode)
    ensures FieldOf(regs[..], pin) == ModeBits(mode)
    ensures forall q :: 0 <= q < WORDS * PER_WORD ==>
              PinMode(regs[..], q) == if q == pin then mode else PinMode(old(regs[..]), q)
  {
    Shifts(pin % PER_WORD, 0);
    var address, shift := pin / PER_WORD, Shift(pin % PER_WORD);
    var funcSel := regs[address];
    regs[address] := Insert(funcSel, shift, ModeBits(mode));
    assert regs[..] == Selected(old(regs[..]), pin, mode);
    SelectedField(old(regs[..]), pin, mode, pin);
    forall q | 0 <= q < WORDS * PER_WORD
      ensures PinMode(regs[..], q) == if q == pin then mode else PinMode(old(regs[..]), q)
    {
      SelectedField(old(regs[..]), pin, mode, q);
    }
  }
}
