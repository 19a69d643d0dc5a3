/** How bytes are packed into the variable-length entries of the auxiliary SPI, and into entry streams. */
module SpiEntries {
  type Byte = bv8

  /** The two ports of the transmit FIFO: the last entry of a burst goes to Io, the others to TxHold. */
  datatype Port = Io | TxHold

  datatype Write = Write(port: Port, entry: Word)

  /**
   A 32-bit word as its four bytes, least significant first.  Everything the driver does to an entry
   moves whole bytes, so its shifts and masks are moves between these lanes.
   */
  datatype Word = Word(b0: Byte, b1: Byte, b2: Byte, b3: Byte)

  const ZERO: Word := Word(0, 0, 0, 0)

  function Or(x: Word, y: Word): Word {
    Word(x.b0 | y.b0, x.b1 | y.b1, x.b2 | y.b2, x.b3 | y.b3)
  }

  /** `(byte as u32) << (lane * 8)`. */
  function IntoLane(b: Byte, lane: nat): Word
    requires lane <= 3
  {
    if lane == 0 then ZERO.(b0 := b) else if lane == 1 then ZERO.(b1 := b)
    else if lane == 2 then ZERO.(b2 := b) else ZERO.(b3 := b)
  }

  /** `(entry >> (lane * 8)) as u8`. */
  function FromLane(entry: Word, lane: nat): Byte
    requires lane <= 3
  {
    if lane == 0 then entry.b0 else if lane == 1 then entry.b1 else if lane == 2 then entry.b2 else entry.b3
  }

  /** The words of the hardware. */
  function Bits32(w: Word): bv32 {
    (w.b0 as bv32) | ((w.b1 as bv32) << 8) | ((w.b2 as bv32) << 16) | ((w.b3 as bv32) << 24)
  }

  lemma OrIsBitwise(x: Word, y: Word)
    ensures Bits32(Or(x, y)) == Bits32(x) | Bits32(y)
  {
  }

  lemma IntoLaneShifts(b: Byte)
    ensures Bits32(IntoLane(b, 0)) == b as bv32 && Bits32(IntoLane(b, 1)) == (b as bv32) << 8
    ensures Bits32(IntoLane(b, 2)) == (b as bv32) << 16 && Bits32(IntoLane(b, 3)) == (b as bv32) << 24
  {
  }

  lemma FromLaneShifts(w: Word)
    ensures (FromLane(w, 1) as bv32) == (Bits32(w) >> 8) & 0xFF && (FromLane(w, 3) as bv32) == Bits32(w) >> 24
    ensures (FromLane(w, 0) as bv32) == Bits32(w) & 0xFF && (FromLane(w, 2) as bv32) == (Bits32(w) >> 16) & 0xFF
  {
  }

  /** The lane of byte `i` of `len`, in either bit order. */
  function Lane(i: nat, len: nat, msFirst: bool): (r: nat)
    requires i < len <= 3
    ensures r <= 3
  {
    if msFirst then len - i else i
  }

  /** A chunk length, in the top byte of an entry. */
  function LengthByte(len: nat): Byte
    requires len <= 3
  {
    if len == 0 then 0 else if len == 1 then 1 else if len == 2 then 2 else 3
  }

  /** The first `k` bytes of a chunk, shifted into place. */
  function Packed(chunk: seq<Byte>, k: nat, msFirst: bool): Word
    requires k <= |chunk| <= 3
  {
    if k == 0 then ZERO
    else Or(Packed(chunk, k - 1, msFirst), IntoLane(chunk[k - 1], Lane(k - 1, |chunk|, msFirst)))
  }

  function Entry(chunk: seq<Byte>, msFirst: bool): Word
    requires |chunk| <= 3
  {
    Or(Packed(chunk, |chunk|, msFirst), IntoLane(LengthByte(|chunk|), 3))
  }

  function ByteAt(entry: Word, i: nat, len: nat, msFirst: bool): Byte
    requires i < len <= 3
  {
    FromLane(entry, Lane(i, len, msFirst))
  }

  /** Of any entry, also one that no driver has made: the byte that is read is the one the shift brings down. */
  lemma ByteAtShifts(entry: Word, i: nat, len: nat, msFirst: bool)
    requires i < len <= 3
    ensures var lane := if msFirst then len - i else i;
            && lane <= 3
            && (lane == 0 ==> ByteAt(entry, i, len, msFirst) as bv32 == Bits32(entry) & 0xFF)
            && (lane == 1 ==> ByteAt(entry, i, len, msFirst) as bv32 == (Bits32(entry) >> 8) & 0xFF)
            && (lane == 2 ==> ByteAt(entry, i, len, msFirst) as bv32 == (Bits32(entry) >> 16) & 0xFF)
            && (lane == 3 ==> ByteAt(entry, i, len, msFirst) as bv32 == Bits32(entry) >> 24)
  {
    FromLaneShifts(entry);
  }

  /** What `from_entry` puts into a slice of `len` bytes. */
  function FromEntry(entry: Word, len: nat, msFirst: bool): (r: seq<Byte>)
    requires len <= 3
    ensures |r| == len
  {
    seq(len, i requires 0 <= i < len => ByteAt(entry, i, len, msFirst))
  }

  /** The loop of `to_entry`. */
  method ToEntry(slice: seq<Byte>, msFirst: bool) returns (entry: Word)
    requires |slice| <= 3
    ensures entry == Entry(slice, msFirst)
  {
    entry := ZERO;
    var i := 0;
    while i < |slice|
      invariant 0 <= i <= |slice|
      invariant entry == Packed(slice, i, msFirst)
    {
      if msFirst {
        entry := Or(entry, IntoLane(slice[i], |slice| - i));
      } else {
        entry := Or(entry, IntoLane(slice[i], i));
      }
      i := i + 1;
    }
    entry := Or(entry, IntoLane(LengthByte(|slice|), 3));
  }

  /** The loop of `from_entry`, on the `len` bytes of the buffer from `at`. */
  method FromEntryInto(words: array<Byte>, at: nat, len: nat, entry: Word, msFirst: bool)
    requires len <= 3 && at + len <= words.Length
    modifies words
    ensures words[at..at + len] == FromEntry(entry, len, msFirst)
    ensures words[..at] == old(words[..at]) && words[at + len..] == old(words[at + len..])
  {
    var i := 0;
    while i < len
      invariant 0 <= i <= len
      invariant words[at..at + i] == FromEntry(entry, len, msFirst)[..i]
      invariant words[..at] == old(words[..at]) && words[at + len..] == old(words[at + len..])
    {
      ghost var before := words[at..at + i];
      words[at + i] := ByteAt(entry, i, len, msFirst);
      assert words[at..at + (i + 1)] == before + [ByteAt(entry, i, len, msFirst)];
      i := i + 1;
    }
  }

  // ---------------------------------------------------------------- round trips

  /** The length that the hardware takes from an entry. */
  function LengthOf(entry: Word): Byte {
    FromLane(entry, 3)
  }

  lemma OrZero(w: Word)
    ensures Or(ZERO, w) == w
  {
  }

  /** A byte shifted into one lane changes no other lane. */
  lemma OrLane1(w: Word, b: Byte)
    ensures Or(w, IntoLane(b, 1)) == w.(b1 := w.b1 | b)
  {
  }

  lemma OrLane2(w: Word, b: Byte)
    ensures Or(w, IntoLane(b, 2)) == w.(b2 := w.b2 | b)
  {
  }

  lemma OrLane3(w: Word, b: Byte)
    ensures Or(w, IntoLane(b, 3)) == w.(b3 := w.b3 | b)
  {
  }

  lemma ZeroOr(b: Byte)
    ensures 0 | b == b
  {
  }

  lemma PackedStep(chunk: seq<Byte>, k: nat, msFirst: bool)
    requires k < |chunk| <= 3
    ensures Packed(chunk, k + 1, msFirst) ==
            Or(Packed(chunk, k, msFirst), IntoLane(chunk[k], Lane(k, |chunk|, msFirst)))
    ensures k == 0 ==> Packed(chunk, 1, msFirst) == IntoLane(chunk[0], Lane(0, |chunk|, msFirst))
  {
    if k == 0 { OrZero(IntoLane(chunk[0], Lane(0, |chunk|, msFirst))); }
  }

  lemma LsbEntry2(a: Byte, b: Byte)
    ensures Packed([a, b], 2, false) == Word(a, b, 0, 0)
  {
    PackedStep([a, b], 0, false);
    PackedStep([a, b], 1, false);
    OrLane1(Word(a, 0, 0, 0), b);
    ZeroOr(b);
  }

  lemma LsbEntry3(a: Byte, b: Byte, c: Byte)
    ensures Packed([a, b, c], 3, false) == Word(a, b, c, 0)
  {
    PackedStep([a, b, c], 0, false);
    PackedStep([a, b, c], 1, false);
    PackedStep([a, b, c], 2, false);
    OrLane1(Word(a, 0, 0, 0), b);
    ZeroOr(b);
    OrLane2(Word(a, b, 0, 0), c);
    ZeroOr(c);
  }

  /** The layout of an entry, least significant bit first. */
  lemma LsbEntry(chunk: seq<Byte>)
    requires |chunk| <= 3
    ensures Entry(chunk, false) ==
            Word(if 0 < |chunk| then chunk[0] else 0, if 1 < |chunk| then chunk[1] else 0,
                 if 2 < |chunk| then chunk[2] else 0, LengthByte(|chunk|))
  {
    if |chunk| == 1 {
      PackedStep(chunk, 0, false);
    } else if |chunk| == 2 {
      assert chunk == [chunk[0], chunk[1]];
      LsbEntry2(chunk[0], chunk[1]);
    } else if |chunk| == 3 {
      assert chunk == [chunk[0], chunk[1], chunk[2]];
      LsbEntry3(chunk[0], chunk[1], chunk[2]);
    }
    OrLane3(Packed(chunk, |chunk|, false), LengthByte(|chunk|));
    ZeroOr(LengthByte(|chunk|));
  }

  lemma MsbEntry2(a: Byte, b: Byte)
    ensures Packed([a, b], 2, true) == Word(0, b, a, 0)
  {
    PackedStep([a, b], 0, true);
    PackedStep([a, b], 1, true);
    OrLane1(Word(0, 0, a, 0), b);
    ZeroOr(b);
  }

  lemma MsbEntry3(a: Byte, b: Byte, c: Byte)
    ensures Packed([a, b, c], 3, true) == Word(0, c, b, a)
  {
    PackedStep([a, b, c], 0, true);
    PackedStep([a, b, c], 1, true);
    PackedStep([a, b, c], 2, true);
    OrLane2(Word(0, 0, 0, a), b);
    ZeroOr(b);
    OrLane1(Word(0, 0, b, a), c);
    ZeroOr(c);
  }

  /** The layout most significant bit first: the first of three bytes lands on the length. */
  lemma MsbEntry(chunk: seq<Byte>)
    requires |chunk| <= 3
    ensures Entry(chunk, true) ==
            if |chunk| == 0 then ZERO
            else if |chunk| == 1 then Word(0, chunk[0], 0, 1)
            else if |chunk| == 2 then Word(0, chunk[1], chunk[0], 2)
            else Word(0, chunk[2], chunk[1], chunk[0] | 3)
  {
    if |chunk| == 1 {
      PackedStep(chunk, 0, true);
    } else if |chunk| == 2 {
      assert chunk == [chunk[0], chunk[1]];
      MsbEntry2(chunk[0], chunk[1]);
    } else if |chunk| == 3 {
      assert chunk == [chunk[0], chunk[1], chunk[2]];
      MsbEntry3(chunk[0], chunk[1], chunk[2]);
    }
    OrLane3(Packed(chunk, |chunk|, true), LengthByte(|chunk|));
    ZeroOr(LengthByte(|chunk|));
  }

  /** Least significant bit first, the hardware sees the right length and unpacking gives the bytes back. */
  lemma LsbRoundTrip(chunk: seq<Byte>)
    requires |chunk| <= 3
    ensures LengthOf(Entry(chunk, false)) == LengthByte(|chunk|)
    ensures FromEntry(Entry(chunk, false), |chunk|, false) == chunk
  {
    LsbEntry(chunk);
  }

  /**
   Most significant bit first, the first byte of a three-byte chunk is shifted onto the length: the
   bytes come back exactly when the chunk is shorter or that byte has both low bits set, and the
   hardware sees the right length exactly when the chunk is shorter or that byte has no other bits.
   */
  lemma MsbRoundTripIff(chunk: seq<Byte>)
    requires |chunk| <= 3
    ensures FromEntry(Entry(chunk, true), |chunk|, true) == chunk <==> |chunk| < 3 || chunk[0] & 3 == 3
    ensures LengthOf(Entry(chunk, true)) == LengthByte(|chunk|) <==> |chunk| < 3 || chunk[0] & 0xFC == 0
  {
    MsbEntry(chunk);
    if |chunk| == 3 {
      var back := FromEntry(Entry(chunk, true), 3, true);
      assert back == [chunk[0] | 3, chunk[1], chunk[2]];
      assert chunk[0] | 3 == chunk[0] <==> chunk[0] & 3 == 3;
      assert chunk[0] | 3 == 3 <==> chunk[0] & 0xFC == 0;
      assert chunk[0] | 3 == chunk[0] <==> back == chunk by {
        if back == chunk { assert back[0] == chunk[0]; }
      }
    }
  }
}
