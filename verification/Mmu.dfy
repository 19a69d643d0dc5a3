/**
 Section descriptors of the ARMv6 first-level translation table: their encoder, a decoder after
 sections B4.3.1, B4.4.1 and B4.7.4 of the ARMv6 Architecture Reference Manual, and the table.
 */
module Mmu {
  import opened Options

  datatype SectionBase = Section(addr: bv16) | SuperSection(superAddr: bv8)

  datatype Access =
    | NoAccess
    | ReadOnlyUserNone
    | ReadOnly
    | ReadWriteUserNone
    | ReadWriteUserReadOnly
    | ReadWrite

  datatype CachePolicy = NonCacheable | WriteThrough | WriteBack | WriteAllocate

  datatype MemoryType =
    | Normal(inner: CachePolicy, outer: CachePolicy, shareable: bool)
    | Device(shareable: bool)
    | StronglyOrdered

  datatype Attributes = Attributes(execute: bool, global: bool, memory: MemoryType)

  // ---------------------------------------------------------------- encoding

  function Flag(b: bool): bv32 {
    if b then 1 else 0
  }

  function BaseBits(base: SectionBase): bv32 {
    match base
    case Section(addr) => (addr as bv32) << 20
    case SuperSection(addr) => ((addr as bv32) << 24) | 0x4_0000
  }

  function Shareable(m: MemoryType): bool {
    match m
    case Normal(_, _, shareable) => shareable
    case Device(shareable) => shareable
    case StronglyOrdered => true
  }

  /** The APX bit and the AP bits. */
  function AccessBits(a: Access): (bv32, bv32) {
    match a
    case NoAccess => (0, 0)
    case ReadOnlyUserNone => (1, 1)
    case ReadOnly => (1, 2)
    case ReadWriteUserNone => (0, 1)
    case ReadWriteUserReadOnly => (0, 2)
    case ReadWrite => (0, 3)
  }

  /** The TEX bits, the C bit and the B bit. */
  function MemoryBits(m: MemoryType): (bv32, bv32, bv32) {
    match m
    case Normal(inner, outer, _) =>
      var tex: bv32 := match outer
        case NonCacheable => 4
        case WriteThrough => 6
        case WriteBack => 7
        case WriteAllocate => 5;
      var cb: (bv32, bv32) := match inner
        case NonCacheable => (0, 0)
        case WriteThrough => (1, 0)
        case WriteBack => (1, 1)
        case WriteAllocate => (0, 1);
      (tex, cb.0, cb.1)
    case Device(shareable) => if shareable then (0, 0, 1) else (2, 0, 0)
    case StronglyOrdered => (0, 0, 0)
  }

  /** The fields of a descriptor, each at the bottom of a word, except the base, which is in place. */
  datatype Fields = Fields(base: bv32, nG: bv32, s: bv32, apx: bv32, tex: bv32, ap: bv32, xn: bv32, c: bv32, b: bv32)

  function FieldsOf(base: SectionBase, access: Access, a: Attributes): Fields {
    var (apx, ap) := AccessBits(access);
    var (tex, c, b) := MemoryBits(a.memory);
    Fields(BaseBits(base), Flag(!a.global), Flag(Shareable(a.memory)), apx, tex, ap, Flag(!a.execute), c, b)
  }

  function Pack(f: Fields): bv32 {
    f.base | (f.nG << 17) | (f.s << 16) | (f.apx << 15) | (f.tex << 12) | (f.ap << 10)
    | (f.xn << 4) | (f.c << 3) | (f.b << 2) | 2
  }

  /** The accumulation of `SectionDescriptor::new`: one field after the other. */
  method Accumulate(f: Fields) returns (address: bv32)
    ensures address == Pack(f)
  {
    address := f.base;
    address := address | (f.nG << 17);
    address := address | (f.s << 16);
    address := address | (f.apx << 15);
    address := address | (f.tex << 12);
    address := address | (f.ap << 10);
    address := address | (f.xn << 4);
    address := address | (f.c << 3);
    address := address | (f.b << 2);
    address := address | 2;
  }

  function Descriptor(base: SectionBase, access: Access, a: Attributes): bv32 {
    Pack(FieldsOf(base, access, a))
  }

  /** `SectionDescriptor::new`. */
  method New(base: SectionBase, access: Access, a: Attributes) returns (address: bv32)
    ensures address == Descriptor(base, access, a)
    ensures Decode(address) == Mapped(Seen(base), access, a)
  {
    address := Accumulate(FieldsOf(base, access, a));
    DecodesBack(base, access, a);
  }

  // ---------------------------------------------------------------- decoding

  /** The fields that the hardware reads from a descriptor. */
  function Unpack(w: bv32): Fields {
    Fields(w & 0xFFF4_0000, (w >> 17) & 1, (w >> 16) & 1, (w >> 15) & 1, (w >> 12) & 7, (w >> 10) & 3,
           (w >> 4) & 1, (w >> 3) & 1, (w >> 2) & 1)
  }

  function DecodeBase(base: bv32): SectionBase {
    if base & 0x4_0000 != 0 then SuperSection((base >> 24) as bv8) else Section((base >> 20) as bv16)
  }

  function DecodeAccess(apx: bv32, ap: bv32): Option<Access> {
    if apx == 0 then
      (if ap == 0 then Some(NoAccess) else if ap == 1 then Some(ReadWriteUserNone)
       else if ap == 2 then Some(ReadWriteUserReadOnly) else Some(ReadWrite))
    else if ap == 1 then Some(ReadOnlyUserNone)
    else if ap == 2 then Some(ReadOnly)
    else None
  }

  function DecodePolicy(high: bool, low: bool): CachePolicy {
    if high then (if low then WriteBack else WriteThrough) else if low then WriteAllocate else NonCacheable
  }

  function DecodeMemory(tex: bv32, c: bv32, b: bv32, s: bv32): Option<MemoryType> {
    if tex & 4 != 0 then
      Some(Normal(DecodePolicy(c != 0, b != 0), DecodePolicy(tex & 2 != 0, tex & 1 != 0), s != 0))
    else if tex == 0 && c == 0 then Some(if b == 0 then StronglyOrdered else Device(true))
    else if tex == 2 && c == 0 && b == 0 then Some(Device(false))
    else None
  }

  datatype Mapping = Fault | Other | Mapped(base: SectionBase, access: Access, attributes: Attributes)

  /** The first-level walk: the two low bits say what kind of descriptor it is. */
  function Decode(w: bv32): Mapping {
    if w & 3 == 0 then Fault
    else if w & 3 != 2 then Other
    else
      var f := Unpack(w);
      match (DecodeAccess(f.apx, f.ap), DecodeMemory(f.tex, f.c, f.b, f.s))
      case (Some(access), Some(memory)) => Mapped(DecodeBase(f.base), access, Attributes(f.xn == 0, f.nG == 0, memory))
      case _ => Other
  }

  ghost predicate InRange(f: Fields) {
    && f.base & 0xB_FFFF == 0
    && f.nG <= 1 && f.s <= 1 && f.apx <= 1 && f.tex <= 7 && f.ap <= 3 && f.xn <= 1 && f.c <= 1 && f.b <= 1
  }

  /** No field of a descriptor overlaps another. */
  lemma UnpackPack(f: Fields)
    requires InRange(f)
    ensures Unpack(Pack(f)) == f && Pack(f) & 3 == 2
  {
  }

  /** A base as the hardware sees it: the upper four bits of a section number fall off the word. */
  function Seen(base: SectionBase): SectionBase {
    match base
    case Section(addr) => Section(addr & 0xFFF)
    case SuperSection(_) => base
  }

  lemma BaseRoundTrip(base: SectionBase)
    ensures BaseBits(base) & 0xB_FFFF == 0
    ensures DecodeBase(BaseBits(base)) == Seen(base)
  {
    match base
    case Section(addr) => SectionBits(addr);
    case SuperSection(addr) => SuperSectionBits(addr);
  }

  lemma SectionBits(addr: bv16)
    ensures ((addr as bv32) << 20) & 0xF_FFFF == 0 && ((addr as bv32) << 20) & 0xB_FFFF == 0
    ensures ((addr as bv32) << 20) & 0x4_0000 == 0
    ensures ((addr as bv32) << 20) >> 20 == (addr & 0xFFF) as bv32
  {
  }

  lemma SuperSectionBits(addr: bv8)
    ensures (((addr as bv32) << 24) | 0x4_0000) & 0xB_FFFF == 0
    ensures (((addr as bv32) << 24) | 0x4_0000) & 0x4_0000 != 0
    ensures (((addr as bv32) << 24) | 0x4_0000) >> 24 == addr as bv32
  {
  }

  lemma AccessRoundTrip(a: Access)
    ensures var (apx, ap) := AccessBits(a); apx <= 1 && ap <= 3 && DecodeAccess(apx, ap) == Some(a)
  {
  }

  lemma PackPositions(f: Fields)
    requires InRange(f)
    ensures Pack(f) & 0x4_0000 == f.base & 0x4_0000 && Pack(f) & 0x2_0000 == f.nG << 17
    ensures Pack(f) & 0x1_0000 == f.s << 16 && Pack(f) & 0x8000 == f.apx << 15 && Pack(f) & 0x10 == f.xn << 4
  {
  }

  /** Who may do what: privileged code and user code, reading and writing. */
  datatype Rights = Rights(read: bool, write: bool, userRead: bool, userWrite: bool)

  /** The rights that the names of the permissions promise. */
  function RightsOf(a: Access): Rights {
    match a
    case NoAccess => Rights(false, false, false, false)
    case ReadOnlyUserNone => Rights(true, false, false, false)
    case ReadOnly => Rights(true, false, true, false)
    case ReadWriteUserNone => Rights(true, true, false, false)
    case ReadWriteUserReadOnly => Rights(true, true, true, false)
    case ReadWrite => Rights(true, true, true, true)
  }

  /** The encoded bits grant these rights: AP not 0 reads, its upper bit lets users in, APX forbids all writes. */
  lemma AccessRights(a: Access)
    ensures var (apx, ap) := AccessBits(a);
            RightsOf(a) == Rights(ap != 0, ap != 0 && apx == 0, ap & 2 != 0, ap == 3 && apx == 0)
  {
  }

  /** The single bits of a descriptor, as the architecture numbers them. */
  lemma SingleBits(base: SectionBase, access: Access, a: Attributes)
    ensures var w, rights := Descriptor(base, access, a), RightsOf(access);
            && (w & 0x4_0000 != 0 <==> base.SuperSection?) && (w & 0x2_0000 != 0 <==> !a.global)
            && (w & 0x1_0000 != 0 <==> Shareable(a.memory)) && (w & 0x10 != 0 <==> !a.execute)
            && (w & 0x8000 != 0 <==> rights.read && !rights.write)
  {
    var f := FieldsOf(base, access, a);
    BaseRoundTrip(base);
    BaseKind(base);
    AccessRoundTrip(access);
    AccessRights(access);
    MemoryRoundTrip(a.memory);
    PackPositions(f);
    ShiftedFlag(f.nG);
    ShiftedFlag(f.s);
    ShiftedFlag(f.apx);
    ShiftedFlag(f.xn);
  }

  lemma ShiftedFlag(b: bv32)
    requires b <= 1
    ensures (b << 17 != 0 <==> b == 1) && (b << 16 != 0 <==> b == 1)
    ensures (b << 15 != 0 <==> b == 1) && (b << 4 != 0 <==> b == 1)
  {
  }

  lemma BaseKind(base: SectionBase)
    ensures BaseBits(base) & 0x4_0000 != 0 <==> base.SuperSection?
  {
    match base
    case Section(addr) => SectionBits(addr);
    case SuperSection(addr) => SuperSectionBits(addr);
  }

  /** The architecture's two-bit codes of the cache policies. */
  function PolicyCode(p: CachePolicy): bv32 {
    match p
    case NonCacheable => 0
    case WriteAllocate => 1
    case WriteThrough => 2
    case WriteBack => 3
  }

  /** Cached memory carries the outer policy below the top TEX bit, and the inner policy in C and B. */
  lemma MemoryCodes(inner: CachePolicy, outer: CachePolicy, shareable: bool)
    ensures var (tex, c, b) := MemoryBits(Normal(inner, outer, shareable));
            tex == 4 | PolicyCode(outer) && (c << 1) | b == PolicyCode(inner)
  {
  }

  lemma MemoryRoundTrip(m: MemoryType)
    ensures var (tex, c, b) := MemoryBits(m);
            && tex <= 7 && c <= 1 && b <= 1
            && DecodeMemory(tex, c, b, Flag(Shareable(m))) == Some(m)
  {
  }

  /**
   The hardware recovers from a descriptor exactly what it was made from, for every base, permission
   and memory type; of a section number it sees the low twelve bits.
   */
  lemma DecodesBack(base: SectionBase, access: Access, a: Attributes)
    ensures Decode(Descriptor(base, access, a)) == Mapped(Seen(base), access, a)
  {
    var f := FieldsOf(base, access, a);
    BaseRoundTrip(base);
    AccessRoundTrip(access);
    MemoryRoundTrip(a.memory);
    UnpackPack(f);
  }

  /** So a section decodes to itself exactly when its number is below 4096. */
  lemma SectionDecodesIff(addr: bv16, access: Access, a: Attributes)
    ensures Decode(Descriptor(Section(addr), access, a)) == Mapped(Section(addr), access, a) <==> addr < 4096
  {
    DecodesBack(Section(addr), access, a);
    assert addr & 0xFFF == addr <==> addr < 4096;
  }

  /** Descriptors are uniquely decodable: different settings never share a word. */
  lemma DescriptorsDiffer(base: SectionBase, access: Access, a: Attributes,
                          base': SectionBase, access': Access, a': Attributes)
    requires Descriptor(base, access, a) == Descriptor(base', access', a')
    ensures Seen(base) == Seen(base') && access == access' && a == a'
  {
    DecodesBack(base, access, a);
    DecodesBack(base', access', a');
  }
}
