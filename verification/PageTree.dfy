/** The table tree behind `HvPageTable` (src/arch/aarch64/paging.rs), as a value.

    Physical memory maps a frame address to the 512 words of that frame.  The ghost directory `dir` says which frame
    is the table for which part of the guest address space: table `Spot(l, n)` is the level-`l` table whose slots have
    numbers `512 * n .. 512 * n + 511`, and slot `Spot(l, k)` translates the guest addresses `v` with `Num(l, v) == k`.
    The slot's sub-table, if it has one, is table `Spot(l - 1, k)`.  The abstract value of a tree is `leaves`: the
    mapped pages and blocks with what their words decode to. */
module PageTree {
  import opened Stage2Entry

  datatype PageSize = Size4K | Size2M | Size1G

  function Bytes(s: PageSize): nat
  {
    match s
    case Size4K => 0x1000
    case Size2M => 0x20_0000
    case Size1G => 0x4000_0000
  }

  function LevelOf(s: PageSize): nat
  {
    match s
    case Size4K => 1
    case Size2M => 2
    case Size1G => 3
  }

  /** The number of the level-`l` slot over guest address `v`. */
  function Num(l: nat, v: nat): nat
  {
    if l <= 1 then v / 0x1000
    else if l == 2 then v / 0x20_0000
    else if l == 3 then v / 0x4000_0000
    else v / 0x80_0000_0000
  }

  datatype Spot = Spot(level: nat, num: nat)

  datatype Leaf = Leaf(paddr: nat, flags: MemFlags)

  type Leaves = map<Spot, Leaf>

  datatype Tree = Tree(mem: map<nat, seq<Word>>, level: nat, dir: map<Spot, nat>)

  predicate FrameOk(f: nat)
  {
    f % 0x1000 == 0 && f < 0x1_0000_0000_0000
  }

  ghost predicate Shape(t: Tree)
  {
    && (t.level == 3 || t.level == 4)
    && forall s | s in t.dir ::
         && 1 <= s.level <= t.level
         && (s.level == t.level ==> s.num == 0)
         && t.dir[s] in t.mem
         && |t.mem[t.dir[s]]| == 512
  }

  ghost predicate HasSlot(t: Tree, l: nat, k: nat)
  {
    Spot(l, k / 512) in t.dir
  }

  /** The word in a slot; a slot without a table reads as unused. */
  ghost function Slot(t: Tree, l: nat, k: nat): Word
    requires Shape(t)
  {
    if HasSlot(t, l, k) then t.mem[t.dir[Spot(l, k / 512)]][k % 512] else 0
  }

  ghost predicate IsTableSlot(t: Tree, l: nat, k: nat)
  {
    l > 1 && Spot(l - 1, k) in t.dir
  }

  /** `w` is the descriptor of the table in frame `f`, and is read as such by the walker. */
  ghost predicate PointsTo(w: Word, f: nat)
  {
    !IsUnused(w) && IsPresent(w) && !IsHuge(w) && Addr(w) == f && w == TableDescriptor(f)
  }

  /** `w` is the descriptor of the page or block `leaf` at level `l`, and is read as such by the walker. */
  ghost predicate Encodes(l: nat, w: Word, leaf: Leaf)
  {
    && 1 <= l <= 3
    && w == Descriptor(leaf.paddr, leaf.flags, l > 1) && OnUnit(leaf.paddr, l) && FrameOk(leaf.paddr)
    && !IsUnused(w) && IsPresent(w)
    && (l > 1 ==> IsHuge(w))
    && Addr(w) == leaf.paddr
    && EntryFlags(w) == Flags(leaf.flags)
  }

  /** The address is a multiple of the bytes that a level-`l` slot translates. */
  predicate OnUnit(a: nat, l: nat)
  {
    if l <= 1 then a % 0x1000 == 0 else if l == 2 then a % 0x20_0000 == 0 else a % 0x4000_0000 == 0
  }

  /** Two tables never share a frame. */
  ghost predicate Injective(t: Tree)
  {
    forall s, s' | s in t.dir && s' in t.dir && t.dir[s] == t.dir[s'] :: s == s'
  }

  /** A table other than the root is reached through the slot above it. */
  ghost predicate LinkOk(t: Tree, s: Spot)
    requires Shape(t)
  {
    s in t.dir && s.level < t.level ==>
      HasSlot(t, s.level + 1, s.num) && PointsTo(Slot(t, s.level + 1, s.num), t.dir[s])
  }

  /** A slot holds a leaf, or is unused, or has a table below it. */
  ghost predicate SlotOk(t: Tree, leaves: Leaves, l: nat, k: nat)
    requires Shape(t)
  {
    if Spot(l, k) in leaves then
      HasSlot(t, l, k) && !IsTableSlot(t, l, k) && Encodes(l, Slot(t, l, k), leaves[Spot(l, k)])
    else
      Slot(t, l, k) != 0 ==> IsTableSlot(t, l, k)
  }

  ghost predicate Wf(t: Tree, leaves: Leaves)
  {
    && Shape(t)
    && Spot(t.level, 0) in t.dir
    && Injective(t)
    && (forall s :: LinkOk(t, s))
    && (forall l, k :: SlotOk(t, leaves, l, k))
  }

  // Walking up.

  /** A slot's table hangs below a table slot one level up. */
  lemma Up(t: Tree, leaves: Leaves, l: nat, k: nat)
    requires Wf(t, leaves) && HasSlot(t, l, k) && l < t.level
    ensures HasSlot(t, l + 1, k / 512) && IsTableSlot(t, l + 1, k / 512)
  {
    assert LinkOk(t, Spot(l, k / 512));
  }

  lemma NextNumber(v: nat, l: nat)
    requires 1 <= l <= 3
    ensures Num(l + 1, v) == Num(l, v) / 512
  {
  }

  lemma {:induction false} AncestorIsTable(t: Tree, leaves: Leaves, v: nat, l: nat, l': nat)
    requires Wf(t, leaves)
    requires 1 <= l < l' <= t.level
    requires HasSlot(t, l, Num(l, v))
    ensures IsTableSlot(t, l', Num(l', v))
    decreases l' - l
  {
    NextNumber(v, l);
    Up(t, leaves, l, Num(l, v));
    if l + 1 < l' {
      AncestorIsTable(t, leaves, v, l + 1, l');
    }
  }

  /** The walk of `v` that stops at a slot without a sub-table has found the only leaf that could cover `v`. */
  lemma WalkEnd(t: Tree, leaves: Leaves, v: nat, l: nat, l': nat)
    requires Wf(t, leaves)
    requires 1 <= l <= t.level && 1 <= l' && l' != l
    requires HasSlot(t, l, Num(l, v)) && !IsTableSlot(t, l, Num(l, v))
    ensures Spot(l', Num(l', v)) !in leaves
  {
    if Spot(l', Num(l', v)) in leaves {
      assert SlotOk(t, leaves, l', Num(l', v));
      if l < l' {
        AncestorIsTable(t, leaves, v, l, l');
      } else {
        AncestorIsTable(t, leaves, v, l', l);
      }
    }
  }

  /** Leaves never overlap: at most one covers an address. */
  lemma LeavesApart(t: Tree, leaves: Leaves, v: nat, l: nat, l': nat)
    requires Wf(t, leaves)
    requires Spot(l, Num(l, v)) in leaves && Spot(l', Num(l', v)) in leaves
    ensures l == l'
  {
    assert SlotOk(t, leaves, l, Num(l, v));
    assert SlotOk(t, leaves, l', Num(l', v));
    if l != l' {
      assert Spot(l, Num(l, v) / 512) in t.dir;
      WalkEnd(t, leaves, v, l, l');
    }
  }

  // Writing.

  function ZeroTable(): (z: seq<Word>)
    ensures |z| == 512 && forall i | 0 <= i < 512 :: z[i] == 0
  {
    seq(512, i => 0)
  }

  ghost function WriteSlot(t: Tree, l: nat, k: nat, w: Word): Tree
    requires Shape(t) && HasSlot(t, l, k)
  {
    var f := t.dir[Spot(l, k / 512)];
    var entries: seq<Word> := t.mem[f][k % 512 := w];
    t.(mem := t.mem[f := entries])
  }

  lemma WriteSlotElsewhere(t: Tree, l: nat, k: nat, w: Word, l': nat, k': nat)
    requires Shape(t) && Injective(t) && HasSlot(t, l, k)
    ensures Shape(WriteSlot(t, l, k, w))
    ensures Slot(WriteSlot(t, l, k, w), l', k') == if l' == l && k' == k then w else Slot(t, l', k')
  {
    if HasSlot(t, l', k') && t.dir[Spot(l', k' / 512)] == t.dir[Spot(l, k / 512)] {
      assert l' == l && k' / 512 == k / 512;
      assert k' % 512 == k % 512 ==> k' == k;
    }
  }

  lemma WriteSlotLinks(t: Tree, leaves: Leaves, l: nat, k: nat, w: Word, s: Spot)
    requires Wf(t, leaves) && HasSlot(t, l, k) && !IsTableSlot(t, l, k)
    requires Shape(WriteSlot(t, l, k, w))
    ensures LinkOk(WriteSlot(t, l, k, w), s)
  {
    assert LinkOk(t, s);
    WriteSlotElsewhere(t, l, k, w, s.level + 1, s.num);
  }

  /** Writing a leaf into an unused slot adds that leaf and disturbs nothing else. */
  lemma MapLeaf(t: Tree, leaves: Leaves, l: nat, k: nat, w: Word, leaf: Leaf)
    requires Wf(t, leaves)
    requires HasSlot(t, l, k) && Slot(t, l, k) == 0 && Encodes(l, w, leaf)
    ensures Wf(WriteSlot(t, l, k, w), leaves[Spot(l, k) := leaf])
  {
    var t' := WriteSlot(t, l, k, w);
    var leaves' := leaves[Spot(l, k) := leaf];
    NoSubTable(t, leaves, l, k);
    WriteSlotElsewhere(t, l, k, w, l, k);
    forall s
      ensures LinkOk(t', s)
    {
      WriteSlotLinks(t, leaves, l, k, w, s);
    }
    forall l', k'
      ensures SlotOk(t', leaves', l', k')
    {
      WriteSlotElsewhere(t, l, k, w, l', k');
      assert SlotOk(t, leaves, l', k');
    }
  }

  /** Clearing a leaf removes it and disturbs nothing else; tables stay in place. */
  lemma UnmapLeaf(t: Tree, leaves: Leaves, l: nat, k: nat)
    requires Wf(t, leaves) && Spot(l, k) in leaves
    ensures HasSlot(t, l, k)
    ensures Wf(WriteSlot(t, l, k, 0), leaves - {Spot(l, k)})
  {
    assert SlotOk(t, leaves, l, k);
    var t' := WriteSlot(t, l, k, 0);
    var leaves' := leaves - {Spot(l, k)};
    WriteSlotElsewhere(t, l, k, 0, l, k);
    forall s
      ensures LinkOk(t', s)
    {
      WriteSlotLinks(t, leaves, l, k, 0, s);
    }
    forall l', k'
      ensures SlotOk(t', leaves', l', k')
    {
      WriteSlotElsewhere(t, l, k, 0, l', k');
      assert SlotOk(t, leaves, l', k');
    }
  }

  lemma NoSubTable(t: Tree, leaves: Leaves, l: nat, k: nat)
    requires Wf(t, leaves) && HasSlot(t, l, k) && Slot(t, l, k) == 0
    ensures !IsTableSlot(t, l, k) && Spot(l, k) !in leaves
  {
    assert SlotOk(t, leaves, l, k);
    assert l > 1 ==> LinkOk(t, Spot(l - 1, k));
  }

  /** Writing `w` into a slot and taking the zeroed frame `f` as the table below it. */
  ghost function AddTable(t: Tree, l: nat, k: nat, f: nat, w: Word): Tree
    requires Shape(t) && HasSlot(t, l, k) && l > 1
  {
    var t1 := WriteSlot(t, l, k, w);
    t1.(mem := t1.mem[f := ZeroTable()], dir := t1.dir[Spot(l - 1, k) := f])
  }

  ghost predicate Fresh(t: Tree, f: nat)
  {
    forall s | s in t.dir :: t.dir[s] != f
  }

  ghost predicate CanAddTable(t: Tree, leaves: Leaves, l: nat, k: nat, f: nat, w: Word)
  {
    Wf(t, leaves) && HasSlot(t, l, k) && l > 1 && Slot(t, l, k) == 0 && Fresh(t, f) && PointsTo(w, f)
  }

  lemma AddTableSlot(t: Tree, leaves: Leaves, l: nat, k: nat, f: nat, w: Word, l': nat, k': nat)
    requires CanAddTable(t, leaves, l, k, f, w)
    ensures Shape(AddTable(t, l, k, f, w))
    ensures Slot(AddTable(t, l, k, f, w), l', k') == if l' == l && k' == k then w else Slot(t, l', k')
  {
    var t1 := WriteSlot(t, l, k, w);
    WriteSlotElsewhere(t, l, k, w, l', k');
    NoSubTable(t, leaves, l, k);
    var t2 := AddTable(t, l, k, f, w);
    if Spot(l', k' / 512) != Spot(l - 1, k) {
      assert Slot(t2, l', k') == Slot(t1, l', k');
    }
  }

  lemma AddTableLink(t: Tree, leaves: Leaves, l: nat, k: nat, f: nat, w: Word, s: Spot)
    requires CanAddTable(t, leaves, l, k, f, w)
    requires Shape(AddTable(t, l, k, f, w))
    ensures LinkOk(AddTable(t, l, k, f, w), s)
  {
    assert LinkOk(t, s);
    NoSubTable(t, leaves, l, k);
    AddTableSlot(t, leaves, l, k, f, w, s.level + 1, s.num);
  }

  /** Hanging a fresh zeroed frame below an unused slot: a new empty table, and no leaf changes. */
  lemma TableAdded(t: Tree, leaves: Leaves, l: nat, k: nat, f: nat, w: Word)
    requires CanAddTable(t, leaves, l, k, f, w)
    ensures Wf(AddTable(t, l, k, f, w), leaves)
  {
    var t' := AddTable(t, l, k, f, w);
    NoSubTable(t, leaves, l, k);
    AddTableSlot(t, leaves, l, k, f, w, l, k);
    forall s
      ensures LinkOk(t', s)
    {
      AddTableLink(t, leaves, l, k, f, w, s);
    }
    forall l', k'
      ensures SlotOk(t', leaves, l', k')
    {
      AddTableSlot(t, leaves, l, k, f, w, l', k');
      assert SlotOk(t, leaves, l', k');
    }
  }
}
