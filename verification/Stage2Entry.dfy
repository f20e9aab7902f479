/** The VMSAv8-64 stage 2 descriptor as src/arch/aarch64/s2pt.rs reads and writes it.

    A descriptor is a 64-bit word, kept here as a natural number.  Bit `k` of `w` is `BitAt(w, k)`; the address
    field (bits 12..47) is cut out with division and remainder.  The `bitflags` types are sets: `MemFlags` is a set
    of flag names, a `DescriptorAttr` is a set of bit positions below `ATTR_BITS`. */
module Stage2Entry {

  type Word = w: nat | w < 0x1_0000_0000_0000_0000

  datatype MemFlag =
    READ | WRITE | EXECUTE | DMA | IO | COMMUNICATION | LOADABLE | ROOTSHARED | NO_HUGEPAGES | USER

  type MemFlags = set<MemFlag>

  type Attr = set<nat>

  const ATTR_BITS: nat := 11
  const VALID: nat := 0
  const NON_BLOCK: nat := 1
  const S2AP_R: nat := 6
  const S2AP_W: nat := 7
  const INNER: nat := 8
  const SHAREABLE: nat := 9
  const AF: nat := 10

  datatype MemType = Device | Normal

  /** A memory type field that is neither Device nor Normal makes the source panic. */
  datatype MemTypeResult = Known(memType: MemType) | InvalidIndexPanic

  predicate BitAt(w: nat, k: nat)
  {
    if k == 0 then w % 2 == 1 else BitAt(w / 2, k - 1)
  }

  /** The word whose bits `k..ATTR_BITS` are given by `a` and whose higher bits are `high`. */
  function Compose(a: Attr, k: nat, high: nat): nat
    requires k <= 11
    decreases 11 - k
  {
    if k == 11 then high
    else (if k in a then 1 else 0) + 2 * Compose(a, k + 1, high)
  }

  function AttrToBits(a: Attr): nat
  {
    Compose(a, 0, 0)
  }

  function FromBitsTruncate(w: nat): Attr
  {
    set k | 0 <= k < 11 && BitAt(w, k)
  }

  /** Bits 2..5 of the word, as `DescriptorAttr::mem_type` extracts them. */
  function AttrIndex(w: nat): nat
  {
    w / 4 % 16
  }

  function FromMemType(t: MemType): Attr
  {
    match t
    case Device => {2}
    case Normal => {2, 3, 4, 5, INNER, SHAREABLE}
  }

  function MemTypeOf(a: Attr): MemTypeResult
  {
    match AttrIndex(AttrToBits(a))
    case 1 => Known(Device)
    case 15 => Known(Normal)
    case _ => InvalidIndexPanic
  }

  function FlagsToAttr(flags: MemFlags): Attr
  {
    var base := if IO in flags then FromMemType(Device) else FromMemType(Normal);
    base + {VALID, AF}
    + (if READ in flags then {S2AP_R} else {})
    + (if WRITE in flags then {S2AP_W} else {})
  }

  datatype FlagsResult = Flags(flags: MemFlags) | FlagsPanic

  function AttrToFlags(a: Attr): FlagsResult
  {
    match MemTypeOf(a)
    case InvalidIndexPanic => FlagsPanic
    case Known(t) =>
      Flags((if VALID in a && S2AP_R in a then {READ} else {})
            + (if S2AP_W in a then {WRITE} else {})
            + (if t == Device then {IO} else {}))
  }

  // The operations of `GenericPTE` on the raw word.

  function Addr(w: nat): (p: nat)
    ensures p < 0x1_0000_0000_0000 && p % 0x1000 == 0
  {
    w / 0x1000 % 0x10_0000_0000 * 0x1000
  }

  function EntryFlags(w: nat): FlagsResult
  {
    AttrToFlags(FromBitsTruncate(w))
  }

  predicate IsUnused(w: nat)
  {
    w == 0
  }

  predicate IsPresent(w: nat)
  {
    BitAt(w, 0)
  }

  /** True of every word without the NON_BLOCK bit, the zero word included. */
  predicate IsHuge(w: nat)
  {
    !BitAt(w, 1)
  }

  lemma AddrBelow(w: nat)
    ensures Addr(w) <= w
  {
    var q := w / 0x1000;
    assert q % 0x10_0000_0000 <= q;
  }

  function SetAddr(w: Word, p: nat): (r: Word)
    requires w < 0x1_0000_0000_0000
  {
    AddrBelow(w);
    w - Addr(w) + Addr(p)
  }

  function SetFlagsAndMemType(w: Word, attr: Attr, t: MemType): (r: Word)
  {
    ComposeSplit(attr + FromMemType(t), 0, 0);
    AttrToBits(attr + FromMemType(t)) + Addr(w)
  }

  function SetFlags(w: Word, flags: MemFlags, isHuge: bool): (r: Word)
  {
    var t := if IO in flags then Device else Normal;
    var attr := FlagsToAttr(flags) + (if isHuge then {} else {NON_BLOCK});
    SetFlagsAndMemType(w, attr, t)
  }

  function SetTable(w: Word, p: nat): (r: Word)
    requires w < 0x1_0000_0000_0000
  {
    SetFlagsAndMemType(SetAddr(w, p), {VALID, NON_BLOCK}, Normal)
  }

  /** What `map_page` leaves in an unused entry. */
  function LeafWord(p: nat, flags: MemFlags, isHuge: bool): (w: Word)
  {
    SetFlags(SetAddr(0, p), flags, isHuge)
  }

  /** What `next_table_mut_or_create` leaves in an unused entry. */
  function TableWord(p: nat): (w: Word)
  {
    SetTable(0, p)
  }

  /** The part of a flag set that a descriptor can hold. */
  function Kept(flags: MemFlags): MemFlags
  {
    flags * {READ, WRITE, IO}
  }

  // Bit-level facts.

  lemma {:induction false} ComposeSplit(a: Attr, k: nat, high: nat)
    requires k <= 11
    ensures Compose(a, k, high) == Compose(a, k, 0) + PowerOfTwo(11 - k) * high
    ensures Compose(a, k, 0) < PowerOfTwo(11 - k)
    decreases 11 - k
  {
    if k < 11 {
      ComposeSplit(a, k + 1, high);
      var p := PowerOfTwo(11 - k - 1);
      assert PowerOfTwo(11 - k) == 2 * p;
      DoubleProduct(p, high);
    }
  }

  lemma DoubleProduct(p: nat, q: nat)
    ensures 2 * p * q == 2 * (p * q)
  {
  }

  function PowerOfTwo(n: nat): nat
  {
    if n == 0 then 1 else 2 * PowerOfTwo(n - 1)
  }

  lemma {:induction false} ComposeBit(a: Attr, k: nat, high: nat, j: nat)
    requires k <= j < 11
    ensures BitAt(Compose(a, k, high), j - k) <==> j in a
    decreases j - k
  {
    var w := Compose(a, k, high);
    assert w / 2 == Compose(a, k + 1, high);
    if k < j {
      ComposeBit(a, k + 1, high, j);
    }
  }

  predicate Defined(a: Attr)
  {
    forall k | k in a :: k < 11
  }

  /** Attribute bits stay below the address field. */
  lemma FieldsApart(bits: nat, p: nat)
    requires bits < 2048 && p < 0x1_0000_0000_0000 && p % 0x1000 == 0
    ensures bits + p < 0x1_0000_0000_0000 && Addr(bits + p) == p
  {
    var q := p / 0x1000;
    assert p == 0x1000 * q;
    assert (bits + p) / 0x1000 == q;
    assert q < 0x10_0000_0000;
  }

  /** The word that both entry constructors build: attribute bits below, an aligned address above. */
  lemma BuiltWord(a: Attr, p: nat)
    requires Defined(a)
    requires p < 0x1_0000_0000_0000 && p % 0x1000 == 0
    ensures AttrToBits(a) + p < 0x1_0000_0000_0000
    ensures Addr(AttrToBits(a) + p) == p
    ensures FromBitsTruncate(AttrToBits(a) + p) == a
  {
    var q := p / 0x1000;
    assert p == 0x1000 * q;
    ComposeSplit(a, 0, 2 * q);
    PowerOfTwoEleven();
    FieldsApart(AttrToBits(a), p);
    DecodedBits(a, 2 * q);
  }

  lemma DecodedBits(a: Attr, high: nat)
    requires Defined(a)
    ensures FromBitsTruncate(Compose(a, 0, high)) == a
  {
    forall k: nat | k < 11
      ensures BitAt(Compose(a, 0, high), k) <==> k in a
    {
      ComposeBit(a, 0, high, k);
    }
  }

  lemma PowerOfTwoEleven()
    ensures PowerOfTwo(ATTR_BITS) == 2048
  {
    assert PowerOfTwo(4) == 16;
    assert PowerOfTwo(8) == 256;
  }

  lemma MaskedAddr(p: nat)
    requires p < 0x1_0000_0000_0000 && p % 0x1000 == 0
    ensures Addr(p) == p
  {
  }

  /** An entry keeps 48 bits of the address it is given. */
  lemma OnlyLowBits(p: nat, flags: MemFlags, isHuge: bool)
    requires p % 0x1000 == 0
    ensures p % 0x1_0000_0000_0000 % 0x1000 == 0 &&
      LeafWord(p, flags, isHuge) == LeafWord(p % 0x1_0000_0000_0000, flags, isHuge)
  {
    var q := p / 0x1000;
    assert p == 0x1000 * q;
    assert p % 0x1_0000_0000_0000 == 0x1000 * (q % 0x10_0000_0000);
    assert Addr(p) == Addr(p % 0x1_0000_0000_0000);
  }

  /** The memory type index of an attribute set is read from bits 2..5 only. */
  lemma IndexOfAttr(a: Attr)
    ensures 2 in a && 3 in a && 4 in a && 5 in a ==> AttrIndex(AttrToBits(a)) == 15
    ensures 2 in a && 3 !in a && 4 !in a && 5 !in a ==> AttrIndex(AttrToBits(a)) == 1
  {
    var c := Compose(a, 6, 0);
    assert Compose(a, 4, 0) == (if 4 in a then 1 else 0) + 2 * (if 5 in a then 1 else 0) + 4 * c;
    assert Compose(a, 2, 0) == (if 2 in a then 1 else 0) + 2 * (if 3 in a then 1 else 0) + 4 * Compose(a, 4, 0);
    assert AttrToBits(a) / 4 == Compose(a, 2, 0);
  }

  /** PTE soundness for leaves: whatever the flags, the entry written for an aligned page is told apart from an
      unused entry and (by its NON_BLOCK bit) from a table entry at block levels, and decodes to the same address
      and to the READ, WRITE and IO part of the flags, so reading the flags back never hits the panic. */
  lemma LeafDecodes(p: nat, flags: MemFlags, isHuge: bool)
    requires p < 0x1_0000_0000_0000 && p % 0x1000 == 0
    ensures var w := LeafWord(p, flags, isHuge);
      && !IsUnused(w) && IsPresent(w) && (IsHuge(w) <==> isHuge)
      && Addr(w) == p
      && EntryFlags(w) == Flags(Kept(flags))
  {
    var a := LeafAttr(flags, isHuge);
    var w := LeafWord(p, flags, isHuge);
    MaskedAddr(p);
    LeafAttrBits(flags, isHuge);
    assert w == AttrToBits(a) + p;
    BuiltWord(a, p);
    BitsOfDecoded(w, a);
    AttrDecodes(a, flags);
  }

  function LeafAttr(flags: MemFlags, isHuge: bool): Attr
  {
    FlagsToAttr(flags) + (if isHuge then {} else {NON_BLOCK}) + FromMemType(if IO in flags then Device else Normal)
  }

  lemma LeafAttrBits(flags: MemFlags, isHuge: bool)
    ensures var a := LeafAttr(flags, isHuge);
      && Defined(a) && VALID in a && 2 in a
      && (NON_BLOCK in a <==> !isHuge)
      && (S2AP_R in a <==> READ in flags)
      && (S2AP_W in a <==> WRITE in flags)
      && (IO in flags ==> 3 !in a && 4 !in a && 5 !in a)
      && (IO !in flags ==> 3 in a && 4 in a && 5 in a)
  {
  }

  lemma AttrDecodes(a: Attr, flags: MemFlags)
    requires VALID in a && 2 in a
    requires S2AP_R in a <==> READ in flags
    requires S2AP_W in a <==> WRITE in flags
    requires IO in flags ==> 3 !in a && 4 !in a && 5 !in a
    requires IO !in flags ==> 3 in a && 4 in a && 5 in a
    ensures AttrToFlags(a) == Flags(Kept(flags))
  {
    IndexOfAttr(a);
    assert MemTypeOf(a) == Known(if IO in flags then Device else Normal);
  }

  lemma BitsOfDecoded(w: nat, a: Attr)
    requires FromBitsTruncate(w) == a
    ensures IsPresent(w) <==> VALID in a
    ensures IsHuge(w) <==> NON_BLOCK !in a
    ensures VALID in a ==> !IsUnused(w)
  {
    assert 0 in FromBitsTruncate(w) <==> BitAt(w, 0);
    assert 1 in FromBitsTruncate(w) <==> BitAt(w, 1);
  }

  /** PTE soundness for tables. */
  lemma TableDecodes(p: nat)
    requires p < 0x1_0000_0000_0000 && p % 0x1000 == 0
    ensures var w := TableWord(p);
      !IsUnused(w) && IsPresent(w) && !IsHuge(w) && Addr(w) == p
  {
    var a := {VALID, NON_BLOCK} + FromMemType(Normal);
    MaskedAddr(p);
    assert SetAddr(0, p) == p;
    assert TableWord(p) == AttrToBits(a) + p;
    BuiltWord(a, p);
    BitsOfDecoded(TableWord(p), a);
  }

  // The words themselves, bit by bit, as the hardware reads them.

  /** A stage 2 block or page descriptor: bit 0 valid, bit 1 page, bits 2..5 the memory attributes (0001 device, 1111
      normal), bits 6 and 7 read and write access, bits 8..9 the shareability (11 inner, 00 none), bit 10 the access
      flag, and the address above. */
  function Descriptor(p: nat, flags: MemFlags, block: bool): nat
  {
    p + 0x401
    + (if block then 0 else 0x002)
    + (if IO in flags then 0x004 else 0x33C)
    + (if READ in flags then 0x040 else 0)
    + (if WRITE in flags then 0x080 else 0)
  }

  function TableDescriptor(p: nat): nat
  {
    p + 0x33F
  }

  lemma {:induction false} ComposeValue(a: Attr, b: seq<nat>, k: nat)
    requires |b| == 11 && k <= 11 && forall j | 0 <= j < 11 :: b[j] == if j in a then 1 else 0
    ensures Compose(a, k, 0) == Weighted(b, k)
    decreases 11 - k
  {
    if k < 11 {
      ComposeValue(a, b, k + 1);
    }
  }

  function Weighted(b: seq<nat>, k: nat): nat
    requires |b| == 11 && k <= 11
    decreases 11 - k
  {
    if k == 11 then 0 else b[k] + 2 * Weighted(b, k + 1)
  }

  lemma WeightedIs(b: seq<nat>)
    requires |b| == 11
    ensures Weighted(b, 0) == b[0] + 2 * b[1] + 4 * b[2] + 8 * b[3] + 16 * b[4] + 32 * b[5] + 64 * b[6] + 128 * b[7]
                              + 256 * b[8] + 512 * b[9] + 1024 * b[10]
  {
    assert Weighted(b, 8) == b[8] + 2 * b[9] + 4 * b[10] by {
      assert Weighted(b, 10) == b[10];
      assert Weighted(b, 9) == b[9] + 2 * b[10];
    }
    assert Weighted(b, 4) == b[4] + 2 * b[5] + 4 * b[6] + 8 * b[7] + 16 * Weighted(b, 8) by {
      assert Weighted(b, 6) == b[6] + 2 * b[7] + 4 * Weighted(b, 8);
    }
    assert Weighted(b, 2) == b[2] + 2 * b[3] + 4 * Weighted(b, 4);
  }

  /** The eleven bits of a leaf, in order. */
  function LeafBits(flags: MemFlags, isHuge: bool): (b: seq<nat>)
    ensures |b| == 11
  {
    var normal := if IO in flags then 0 else 1;
    [1, if isHuge then 0 else 1, 1, normal, normal, normal, if READ in flags then 1 else 0,
     if WRITE in flags then 1 else 0, normal, normal, 1]
  }

  lemma LeafAttrIs(flags: MemFlags, isHuge: bool)
    ensures forall j | 0 <= j < 11 :: LeafBits(flags, isHuge)[j] == if j in LeafAttr(flags, isHuge) then 1 else 0
  {
  }

  lemma LeafSum(p: nat, flags: MemFlags, isHuge: bool)
    requires p < 0x1_0000_0000_0000 && p % 0x1000 == 0
    ensures LeafWord(p, flags, isHuge) == AttrToBits(LeafAttr(flags, isHuge)) + p
  {
    MaskedAddr(p);
  }

  /** The word of a leaf, for every flag set and page size. */
  lemma LeafIsDescriptor(p: nat, flags: MemFlags, isHuge: bool)
    requires p < 0x1_0000_0000_0000 && p % 0x1000 == 0
    ensures LeafWord(p, flags, isHuge) == Descriptor(p, flags, isHuge)
  {
    LeafSum(p, flags, isHuge);
    LeafAttrIs(flags, isHuge);
    ComposeValue(LeafAttr(flags, isHuge), LeafBits(flags, isHuge), 0);
    DescriptorSum(p, flags, isHuge);
  }

  lemma DescriptorSum(p: nat, flags: MemFlags, isHuge: bool)
    ensures Weighted(LeafBits(flags, isHuge), 0) + p == Descriptor(p, flags, isHuge)
  {
    WeightedIs(LeafBits(flags, isHuge));
  }

  /** And the word of a reference to a table. */
  lemma TableIsDescriptor(p: nat)
    requires p < 0x1_0000_0000_0000 && p % 0x1000 == 0
    ensures TableWord(p) == TableDescriptor(p)
  {
    var a := {VALID, NON_BLOCK} + FromMemType(Normal);
    var b := [1, 1, 1, 1, 1, 1, 0, 0, 1, 1, 0];
    MaskedAddr(p);
    assert SetAddr(0, p) == p;
    ComposeValue(a, b, 0);
    WeightedIs(b);
  }
}
