/** The translation table that the loops fill, and what it maps every address to. */
module MmuTable {
  import opened Options
  import opened Mmu

  const TABLE_SIZE: nat := 4096
  const STACK_SIZE: nat := 1
  const MMIO_START: nat := 512
  const MMIO_LEN: nat := 16

  const MEMORY: Attributes := Attributes(true, true, Normal(WriteBack, WriteBack, true))
  const MMIO: Attributes := Attributes(false, true, Device(true))

  /** `index as u16`. */
  function U16(index: nat): bv16
    requires index < TABLE_SIZE
  {
    (index as bv12) as bv16
  }

  /** What the loops put at each index. */
  function EntryAt(index: nat): bv32
    requires index < TABLE_SIZE
  {
    if index < MMIO_START - STACK_SIZE then Descriptor(Section(U16(index)), ReadWrite, MEMORY)
    else if MMIO_START <= index < MMIO_START + MMIO_LEN then Descriptor(Section(U16(index)), ReadWrite, MMIO)
    else if index == TABLE_SIZE - STACK_SIZE - 1 then
      Descriptor(Section(U16(index - (TABLE_SIZE - MMIO_START))), ReadWrite, MEMORY)
    else 0
  }

  /** One of the loops: the sections from `from` up to `to`, mapped to the sections `offset` below them. */
  method Fill(table: array<bv32>, from: nat, to: nat, offset: nat, a: Attributes)
    requires table.Length == TABLE_SIZE && offset <= from <= to <= TABLE_SIZE
    modifies table
    ensures forall i :: from <= i < to ==> table[i] == Descriptor(Section(U16(i - offset)), ReadWrite, a)
    ensures forall i :: 0 <= i < from || to <= i < TABLE_SIZE ==> table[i] == old(table[i])
  {
    var index := from;
    while index < to
      invariant from <= index <= to
      invariant forall i :: from <= i < index ==> table[i] == Descriptor(Section(U16(i - offset)), ReadWrite, a)
      invariant forall i :: 0 <= i < from || index <= i < TABLE_SIZE ==> table[i] == old(table[i])
    {
      table[index] := New(Section(U16(index - offset)), ReadWrite, a);
      index := index + 1;
    }
  }

  /** The address space as the processor sees it. */
  datatype Translation = Aborts | Reaches(physical: bv32, access: Access, attributes: Attributes)

  /** The section number of an address, and the offset in its section. */
  function Number(va: bv32): bv12 {
    (va >> 20) as bv12
  }

  function InSection(number: bv16, va: bv32): bv32 {
    ((number as bv32) << 20) | (va & 0xF_FFFF)
  }

  lemma NumberRoundTrip(n: bv12)
    ensures (n as nat) as bv12 == n
  {
  }

  lemma NumberIsIndex(n: bv12)
    ensures n as nat < TABLE_SIZE
  {
  }

  lemma Widened(i: nat, n: bv12)
    requires i < TABLE_SIZE && i as bv12 == n
    ensures U16(i) == n as bv16
  {
  }

  lemma IndexAsU16(n: bv12, i: nat)
    requires i == n as nat && i < TABLE_SIZE
    ensures U16(i) == n as bv16
  {
    NumberRoundTrip(n);
    Widened(i, n);
  }

  /** The walk for a section; the table has no supersections. */
  function Walk(table: seq<bv32>, va: bv32): Option<Translation>
    requires |table| == TABLE_SIZE
  {
    NumberIsIndex(Number(va));
    match Decode(table[Number(va) as nat])
    case Fault => Some(Aborts)
    case Mapped(Section(number), access, attributes) => Some(Reaches(InSection(number, va), access, attributes))
    case _ => None
  }

  /** What the table is meant to map. */
  function Intended(va: bv32): Translation {
    var memory := Attributes(true, true, Normal(WriteBack, WriteBack, true));
    var device := Attributes(false, true, Device(true));
    if va < 0x1FF0_0000 then Reaches(va, ReadWrite, memory)
    else if 0x2000_0000 <= va < 0x2100_0000 then Reaches(va, ReadWrite, device)
    else if 0xFFE0_0000 <= va < 0xFFF0_0000 then Reaches(va - 0xE000_0000, ReadWrite, memory)
    else Aborts
  }

  lemma Ranges(va: bv32)
    ensures Number(va) < 511 <==> va < 0x1FF0_0000
    ensures 512 <= Number(va) < 528 <==> 0x2000_0000 <= va < 0x2100_0000
    ensures Number(va) == 4094 <==> 0xFFE0_0000 <= va < 0xFFF0_0000
  {
  }

  lemma IndexRanges(n: bv12)
    ensures n as nat < 511 <==> n < 511
    ensures 512 <= n as nat < 528 <==> 512 <= n < 528
    ensures n as nat == 4094 <==> n == 4094
  {
  }

  lemma Identity(va: bv32)
    ensures InSection(Number(va) as bv16, va) == va
  {
  }

  lemma StackSection(va: bv32)
    requires Number(va) == 4094
    ensures InSection(510, va) == va - 0xE000_0000
  {
  }

  lemma SeenNumber(n: bv12)
    ensures Seen(Section(n as bv16)) == Section(n as bv16)
  {
  }

  /** A section of the table that leads to section `number` reaches that section's bytes. */
  lemma WalkReaches(table: seq<bv32>, va: bv32, number: bv16, a: Attributes)
    requires |table| == TABLE_SIZE && Number(va) as nat < TABLE_SIZE
    requires table[Number(va) as nat] == Descriptor(Section(number), ReadWrite, a)
    requires Seen(Section(number)) == Section(number)
    ensures Walk(table, va) == Some(Reaches(InSection(number, va), ReadWrite, a))
  {
    DecodesBack(Section(number), ReadWrite, a);
  }

  ghost predicate Built(table: seq<bv32>) {
    |table| == TABLE_SIZE && forall i :: 0 <= i < TABLE_SIZE ==> table[i] == EntryAt(i)
  }

  lemma MapsOneToOne(table: seq<bv32>, va: bv32, a: Attributes)
    requires Built(table)
    requires (Number(va) < 511 && a == MEMORY) || (512 <= Number(va) < 528 && a == MMIO)
    ensures Walk(table, va) == Some(Reaches(va, ReadWrite, a))
  {
    var n := Number(va);
    NumberIsIndex(n);
    IndexRanges(n);
    IndexAsU16(n, n as nat);
    SeenNumber(n);
    assert table[n as nat] == EntryAt(n as nat);
    WalkReaches(table, va, n as bv16, a);
    Identity(va);
  }

  lemma MapsStack(table: seq<bv32>, va: bv32)
    requires Built(table) && Number(va) == 4094
    ensures Walk(table, va) == Some(Reaches(va - 0xE000_0000, ReadWrite, MEMORY))
  {
    NumberIsIndex(Number(va));
    IndexRanges(Number(va));
    assert table[4094] == EntryAt(4094);
    StackNumber();
    WalkReaches(table, va, 510, MEMORY);
    StackSection(va);
  }

  lemma MapsNothing(table: seq<bv32>, va: bv32)
    requires Built(table) && !(Number(va) < 511) && !(512 <= Number(va) < 528) && Number(va) != 4094
    ensures Walk(table, va) == Some(Aborts)
  {
    NumberIsIndex(Number(va));
    IndexRanges(Number(va));
    assert table[Number(va) as nat] == EntryAt(Number(va) as nat) == 0;
  }

  /**
   Every 32-bit address: identity below 511 MB, identity as device memory in the MMIO window, section
   510 for the section below the top one, where the stack is, and a fault everywhere else.
   */
  lemma TableMapsAsIntended(table: seq<bv32>, va: bv32)
    requires Built(table)
    ensures Walk(table, va) == Some(Intended(va))
  {
    Ranges(va);
    if Number(va) < 511 {
      MapsOneToOne(table, va, MEMORY);
    } else if 512 <= Number(va) < 528 {
      MapsOneToOne(table, va, MMIO);
    } else if Number(va) == 4094 {
      MapsStack(table, va);
    } else {
      MapsNothing(table, va);
    }
  }

  /** The three loops: the walk of the table that they fill translates every address as intended. */
  method BuildTable() returns (table: array<bv32>)
    ensures fresh(table) && table.Length == TABLE_SIZE
    ensures forall i :: 0 <= i < TABLE_SIZE ==> table[i] == EntryAt(i)
    ensures forall va: bv32 :: Walk(table[..], va) == Some(Intended(va))
  {
    table := new bv32[TABLE_SIZE](_ => 0);
    Fill(table, 0, MMIO_START - STACK_SIZE, 0, MEMORY);
    Fill(table, MMIO_START, MMIO_START + MMIO_LEN, 0, MMIO);
    Fill(table, TABLE_SIZE - STACK_SIZE - 1, TABLE_SIZE - 1, TABLE_SIZE - MMIO_START, MEMORY);
    assert Built(table[..]);
    forall va: bv32
      ensures Walk(table[..], va) == Some(Intended(va))
    {
      TableMapsAsIntended(table[..], va);
    }
  }

  lemma MemoryFields(base: SectionBase)
    ensures FieldsOf(base, ReadWrite, MEMORY) == Fields(BaseBits(base), 0, 1, 0, 7, 3, 0, 1, 1)
    ensures FieldsOf(base, ReadWrite, MMIO) == Fields(BaseBits(base), 0, 1, 0, 0, 3, 1, 0, 1)
  {
  }

  lemma MemoryWord(base: bv32)
    ensures Pack(Fields(base, 0, 1, 0, 7, 3, 0, 1, 1)) == base | 0x1_7C0E
  {
  }

  lemma DeviceWord(base: bv32)
    ensures Pack(Fields(base, 0, 1, 0, 0, 3, 1, 0, 1)) == base | 0x1_0C16
  {
  }

  /** The words of the two kinds of entries, below their base: shareable write-back memory, and a shareable device. */
  lemma DescriptorWords(base: SectionBase)
    ensures Descriptor(base, ReadWrite, MEMORY) == BaseBits(base) | 0x1_7C0E
    ensures Descriptor(base, ReadWrite, MMIO) == BaseBits(base) | 0x1_0C16
  {
    MemoryFields(base);
    MemoryWord(BaseBits(base));
    DeviceWord(BaseBits(base));
  }

  lemma StackNumber()
    ensures U16(4094 - (TABLE_SIZE - MMIO_START)) == 510
    ensures Seen(Section(510)) == Section(510)
  {
  }

  /** The stack's section is also mapped where it physically is: two addresses reach each of its bytes. */
  lemma StackIsMappedTwice(va: bv32)
    requires 0xFFE0_0000 <= va < 0xFFF0_0000
    ensures Intended(va) == Intended(va - 0xE000_0000)
  {
  }
}
