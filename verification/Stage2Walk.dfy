/** What the memory management unit makes of the tables: the stage 2 translation table walk of the Armv8-A architecture
    (4 KB granule), written over physical memory alone, and the proof that for a table in use it translates every guest
    address exactly as the leaves of `PageTables` say. */
module Stage2Walk {
  import opened Stage2Entry
  import opened PageTree
  import opened PageTables

  /** A fault, or the output address with the permissions, the memory attributes (1 device, 15 normal) and the
      shareability (0 none, 3 inner). */
  datatype Mmu = Fault | Output(paddr: nat, read: bool, write: bool, memAttr: nat, shareability: nat)

  /** The guest bytes that one entry of a table at level `l` translates; level 1 is the last. */
  function Span(l: nat): nat
  {
    if l <= 1 then 0x1000 else if l == 2 then 0x20_0000 else if l == 3 then 0x4000_0000 else 0x80_0000_0000
  }

  /** A page or block descriptor: without the access flag (bit 10) its use faults. */
  function Translated(w: nat, l: nat, v: nat): Mmu
  {
    var low := w % 0x1000;
    if low / 0x400 % 2 == 0 then Fault
    else
      Output(w % 0x1_0000_0000_0000 / Span(l) * Span(l) + v % Span(l), low / 0x40 % 2 == 1, low / 0x80 % 2 == 1,
             low / 4 % 16, low / 0x100 % 4)
  }

  /** The walk for `v` from the table at this frame and level on. */
  function MmuWalk(mem: map<nat, seq<Word>>, frame: nat, l: nat, v: nat): Mmu
    decreases l
  {
    if l == 0 || frame !in mem || |mem[frame]| != 512 then Fault
    else
      var w := mem[frame][v / Span(l) % 512];
      if w % 0x1000 % 2 == 0 then Fault
      else if w % 0x1000 / 2 % 2 == 1 then
        if l == 1 then Translated(w, l, v) else MmuWalk(mem, w % 0x1_0000_0000_0000 / 0x1000 * 0x1000, l - 1, v)
      else if l == 2 || l == 3 then Translated(w, l, v)
      else Fault
  }

  /** The low bits of a descriptor for a frame-aligned address are its attributes. */
  lemma Fields(p: nat, low: nat)
    requires FrameOk(p) && low < 0x800
    ensures (p + low) % 0x1000 == low && (p + low) % 0x1_0000_0000_0000 == p + low
  {
    var q := p / 0x1000;
    assert p == 0x1000 * q;
    assert q < 0x10_0000_0000;
  }

  lemma WholeSpans(p: nat, low: nat, l: nat)
    requires FrameOk(p) && low < 0x800 && 1 <= l <= 3 && OnUnit(p, l)
    ensures (p + low) / Span(l) * Span(l) == p
  {
    var q := p / Span(l);
    assert p == Span(l) * q;
    assert (p + low) / Span(l) == q;
  }

  /** A leaf's descriptor, read by the hardware. */
  lemma LeafTranslates(leaf: Leaf, l: nat, v: nat)
    requires FrameOk(leaf.paddr) && 1 <= l <= 3 && OnUnit(leaf.paddr, l)
    ensures var w := Descriptor(leaf.paddr, leaf.flags, l > 1);
            && w % 0x1000 % 2 == 1 && w % 0x1000 / 2 % 2 == (if l > 1 then 0 else 1)
            && Translated(w, l, v) == LeafSays(leaf, l, v)
  {
    var low := Descriptor(0, leaf.flags, l > 1);
    assert low < 0x800;
    assert Descriptor(leaf.paddr, leaf.flags, l > 1) == leaf.paddr + low;
    Fields(leaf.paddr, low);
    WholeSpans(leaf.paddr, low, l);
    LowFields(leaf.flags, l > 1);
  }

  lemma LowFields(flags: MemFlags, block: bool)
    ensures var low := Descriptor(0, flags, block);
            && low % 2 == 1 && low / 2 % 2 == (if block then 0 else 1)
            && low / 4 % 16 == (if IO in flags then 1 else 15)
            && (low / 0x40 % 2 == 1 <==> READ in flags) && (low / 0x80 % 2 == 1 <==> WRITE in flags)
            && low / 0x100 % 4 == (if IO in flags then 0 else 3) && low / 0x400 % 2 == 1
  {
  }

  lemma TableLeadsOn(f: nat)
    requires FrameOk(f)
    ensures var w := TableDescriptor(f);
            w % 0x1000 % 2 == 1 && w % 0x1000 / 2 % 2 == 1 && w % 0x1_0000_0000_0000 / 0x1000 * 0x1000 == f
  {
    Fields(f, 0x33F);
    WholeSpans(f, 0x33F, 1);
  }

  lemma SpanIsNum(l: nat, v: nat)
    ensures v / Span(l) == Num(l, v)
  {
  }

  /** What the leaves say about an address. */
  ghost function Says(leaves: Leaves, v: nat): Mmu
  {
    if s: PageSize :| Covers(leaves, s, v) then LeafSays(LeafAt(leaves, s, v), LevelOf(s), v) else Fault
  }

  /** What the leaf says about an address in it. */
  function LeafSays(leaf: Leaf, l: nat, v: nat): Mmu
  {
    Output(leaf.paddr + v % Span(l), READ in leaf.flags, WRITE in leaf.flags,
           if IO in leaf.flags then 1 else 15, if IO in leaf.flags then 0 else 3)
  }

  lemma AtLeaf(mem: map<nat, seq<Word>>, frame: nat, l: nat, v: nat, leaf: Leaf)
    requires frame in mem && |mem[frame]| == 512 && 1 <= l <= 3 && FrameOk(leaf.paddr) && OnUnit(leaf.paddr, l)
    requires mem[frame][Num(l, v) % 512] == Descriptor(leaf.paddr, leaf.flags, l > 1)
    ensures MmuWalk(mem, frame, l, v) == LeafSays(leaf, l, v)
  {
    SpanIsNum(l, v);
    LeafTranslates(leaf, l, v);
  }

  lemma AtTable(mem: map<nat, seq<Word>>, frame: nat, l: nat, v: nat, f: nat)
    requires frame in mem && |mem[frame]| == 512 && l > 1 && FrameOk(f)
    requires mem[frame][Num(l, v) % 512] == TableDescriptor(f)
    ensures MmuWalk(mem, frame, l, v) == MmuWalk(mem, f, l - 1, v)
  {
    SpanIsNum(l, v);
    TableLeadsOn(f);
  }

  lemma AtNothing(mem: map<nat, seq<Word>>, frame: nat, l: nat, v: nat)
    requires frame in mem && |mem[frame]| == 512 && mem[frame][Num(l, v) % 512] == 0
    ensures MmuWalk(mem, frame, l, v) == Fault
  {
    SpanIsNum(l, v);
  }

  /** From every table on the way, the hardware finds the leaf over the address, or faults when there is none. */
  lemma {:induction false} WalkAgrees(t: Tree, leaves: Leaves, l: nat, v: nat)
    requires Wf(t, leaves) && 1 <= l <= t.level && HasSlot(t, l, Num(l, v))
    ensures MmuWalk(t.mem, t.dir[Spot(l, Num(l, v) / 512)], l, v) == Says(leaves, v)
    decreases l
  {
    var k := Num(l, v);
    var frame := t.dir[Spot(l, k / 512)];
    assert SlotOk(t, leaves, l, k);
    if IsTableSlot(t, l, k) {
      assert LinkOk(t, Spot(l - 1, k));
      AtTable(t.mem, frame, l, v, t.dir[Spot(l - 1, k)]);
      NextNumber(v, l - 1);
      WalkAgrees(t, leaves, l - 1, v);
    } else {
      WalkStops(t, leaves, l, v);
      if Spot(l, k) in leaves {
        AtLeaf(t.mem, frame, l, v, leaves[Spot(l, k)]);
      } else {
        AtNothing(t.mem, frame, l, v);
      }
    }
  }

  /** A slot without a table below decides what the leaves say. */
  lemma WalkStops(t: Tree, leaves: Leaves, l: nat, v: nat)
    requires Wf(t, leaves) && 1 <= l <= t.level && HasSlot(t, l, Num(l, v)) && !IsTableSlot(t, l, Num(l, v))
    ensures Spot(l, Num(l, v)) !in leaves ==> Says(leaves, v) == Fault
    ensures Spot(l, Num(l, v)) in leaves ==>
              1 <= l <= 3 && Says(leaves, v) == LeafSays(leaves[Spot(l, Num(l, v))], l, v)
  {
    forall s: PageSize | LevelOf(s) != l
      ensures !Covers(leaves, s, v)
    {
      WalkEnd(t, leaves, v, l, LevelOf(s));
    }
    assert SlotOk(t, leaves, l, Num(l, v));
    if Spot(l, Num(l, v)) in leaves {
      var s := if l == 1 then Size4K else if l == 2 then Size2M else Size1G;
      assert Covers(leaves, s, v);
    }
  }

  /** The hardware's view of a page table: every guest address translates as its leaf says, with that leaf's permissions
      and memory attributes, and faults when no leaf covers it. */
  lemma MmuAgrees(pt: PageTable, v: nat)
    requires pt.Valid() && v < Limit(pt.level)
    ensures MmuWalk(pt.mem, pt.root, pt.level, v) == Says(pt.leaves, v)
  {
    RootNumber(pt.level, v);
    WalkAgrees(pt.T(), pt.leaves, pt.level, v);
  }
}
