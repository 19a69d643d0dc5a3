/**
 Hardware registers that only a few single bits matter of are modelled as the set of the numbers of
 their set bits.  This module relates that to the masks that the code uses on words.
 */
module Registers {
  type Bits = set<nat>

  /** The low four bits of a register word. */
  function BitsOf(word: bv32): Bits {
    (if word & 1 != 0 then {0} else {}) + (if word & 2 != 0 then {1} else {})
    + (if word & 4 != 0 then {2} else {}) + (if word & 8 != 0 then {3} else {})
  }

  /** All the other bits. */
  function HighBits(word: bv32): bv32 {
    word & 0xFFFF_FFF0
  }

  /** The two directions of the mini UART. */
  datatype Side = Rx | Tx

  /** The enable bit of a side. */
  function Bit(side: Side): nat {
    if side == Rx then 0 else 1
  }

  /** What a future ORs into the register: its bit, and bits 2 and 3 as the erratum asks. */
  function ArmBits(side: Side): Bits {
    if side == Rx then {0, 2, 3} else {1, 2, 3}
  }

  /** The words that the UART futures OR in to arm, 0b1101 and 0b1110, set exactly these bits. */
  lemma ReadArmWord(word: bv32)
    ensures BitsOf(word | 0xD) == BitsOf(word) + ArmBits(Rx) && ArmBits(Rx) == {0, 2, 3}
    ensures HighBits(word | 0xD) == HighBits(word)
  {
    assert (word | 0xD) & 1 != 0;
    assert (word | 0xD) & 2 == word & 2;
    assert (word | 0xD) & 4 != 0;
    assert (word | 0xD) & 8 != 0;
  }

  lemma WriteArmWord(word: bv32)
    ensures BitsOf(word | 0xE) == BitsOf(word) + ArmBits(Tx) && ArmBits(Tx) == {1, 2, 3}
    ensures HighBits(word | 0xE) == HighBits(word)
  {
    assert (word | 0xE) & 1 == word & 1;
    assert (word | 0xE) & 2 != 0;
    assert (word | 0xE) & 4 != 0;
    assert (word | 0xE) & 8 != 0;
  }

  lemma Masked0(word: bv32)
    ensures (word & !1) & 1 == 0 && (word & !1) & 2 == word & 2
    ensures (word & !1) & 4 == word & 4 && (word & !1) & 8 == word & 8
    ensures HighBits(word & !1) == HighBits(word)
  {
  }

  lemma Masked1(word: bv32)
    ensures (word & !2) & 1 == word & 1 && (word & !2) & 2 == 0
    ensures (word & !2) & 4 == word & 4 && (word & !2) & 8 == word & 8
    ensures HighBits(word & !2) == HighBits(word)
  {
  }

  /** The bits of a word that agrees with another one in all but the cleared bit. */
  lemma ClearedBits(word: bv32, cleared: bv32, bit: nat)
    requires bit <= 1
    requires cleared & 1 == (if bit == 0 then 0 else word & 1) && cleared & 2 == (if bit == 1 then 0 else word & 2)
    requires cleared & 4 == word & 4 && cleared & 8 == word & 8
    ensures BitsOf(cleared) == BitsOf(word) - {bit}
  {
  }

  /** Masking out 0b1 and 0b10, as the handlers and the drops do, clears exactly these bits. */
  lemma ClearBit0(word: bv32)
    ensures BitsOf(word & !1) == BitsOf(word) - {Bit(Rx)} && Bit(Rx) == 0 && HighBits(word & !1) == HighBits(word)
  {
    Masked0(word);
    ClearedBits(word, word & !1, 0);
  }

  lemma ClearBit1(word: bv32)
    ensures BitsOf(word & !2) == BitsOf(word) - {Bit(Tx)} && Bit(Tx) == 1 && HighBits(word & !2) == HighBits(word)
  {
    Masked1(word);
    ClearedBits(word, word & !2, 1);
  }

  /** The ownership test and the ownership bits of the extra control register. */
  lemma TestOwnership(word: bv32)
    ensures word & 3 != 0 <==> 0 in BitsOf(word) || 1 in BitsOf(word)
  {
    assert word & 3 == 0 <==> word & 1 == 0 && word & 2 == 0;
  }

  /** What the three constructors OR in: 0b11, 0b1 and 0b10. */
  lemma SetBothBits(word: bv32)
    ensures BitsOf(word | 3) == BitsOf(word) + {0, 1} && HighBits(word | 3) == HighBits(word)
  {
    assert (word | 3) & 1 != 0;
    assert (word | 3) & 2 != 0;
    assert (word | 3) & 4 == word & 4;
    assert (word | 3) & 8 == word & 8;
  }

  lemma SetBit0(word: bv32)
    ensures BitsOf(word | 1) == BitsOf(word) + {0} && HighBits(word | 1) == HighBits(word)
  {
    assert (word | 1) & 1 != 0;
    assert (word | 1) & 2 == word & 2;
    assert (word | 1) & 4 == word & 4;
    assert (word | 1) & 8 == word & 8;
  }

  lemma SetBit1(word: bv32)
    ensures BitsOf(word | 2) == BitsOf(word) + {1} && HighBits(word | 2) == HighBits(word)
  {
    assert (word | 2) & 1 == word & 1;
    assert (word | 2) & 2 != 0;
    assert (word | 2) & 4 == word & 4;
    assert (word | 2) & 8 == word & 8;
  }
}
