/** `HvPageTableImmut` and `HvPageTableUnlocked` of src/arch/aarch64/paging.rs: operations on single entries. */
module PageTables {
  import opened Stage2Entry
  import opened PageTree

  datatype PagingError = NoMemory | NotMapped | AlreadyMapped | MappedToHugePage

  datatype PagingResult<+T> = Ok(value: T) | Err(error: PagingError)

  /** A mutable reference to one entry: the table frame and the index in it. */
  datatype Loc = Loc(frame: nat, index: nat)

  datatype Found = Found(loc: Loc, size: PageSize)

  /** What `query` returns; `flags` is `FlagsPanic` where the source panics on the memory type. */
  datatype Translation = Translation(paddr: nat, flags: FlagsResult, size: PageSize)

  function PageOffset(s: PageSize, a: nat): nat
  {
    match s
    case Size4K => a % 0x1000
    case Size2M => a % 0x20_0000
    case Size1G => a % 0x4000_0000
  }

  function AlignDown(s: PageSize, a: nat): (r: nat)
    ensures r <= a && r % 0x1000 == 0
  {
    assert a - a % 0x20_0000 == 0x1000 * (512 * (a / 0x20_0000));
    assert a - a % 0x4000_0000 == 0x1000 * (262144 * (a / 0x4000_0000));
    a - PageOffset(s, a)
  }

  lemma AlignedUnit(s: PageSize, a: nat)
    ensures OnUnit(AlignDown(s, a) % 0x1_0000_0000_0000, LevelOf(s))
  {
    match s
    case Size4K =>
      assert AlignDown(s, a) == 0x1000 * (a / 0x1000);
      LowMultiple4K(a / 0x1000);
    case Size2M =>
      assert AlignDown(s, a) == 0x20_0000 * (a / 0x20_0000);
      LowMultiple2M(a / 0x20_0000);
    case Size1G =>
      assert AlignDown(s, a) == 0x4000_0000 * (a / 0x4000_0000);
      LowMultiple1G(a / 0x4000_0000);
  }

  lemma LowMultiple4K(k: nat)
    ensures 0x1000 * k % 0x1_0000_0000_0000 % 0x1000 == 0
  {
    var q, r := k / 0x10_0000_0000, k % 0x10_0000_0000;
    assert 0x1000 * k == 0x1_0000_0000_0000 * q + 0x1000 * r;
    assert 0x1000 * k % 0x1_0000_0000_0000 == 0x1000 * r;
  }

  lemma LowMultiple2M(k: nat)
    ensures 0x20_0000 * k % 0x1_0000_0000_0000 % 0x20_0000 == 0
  {
    var q, r := k / 0x800_0000, k % 0x800_0000;
    assert 0x20_0000 * k == 0x1_0000_0000_0000 * q + 0x20_0000 * r;
    assert 0x20_0000 * k % 0x1_0000_0000_0000 == 0x20_0000 * r;
  }

  lemma LowMultiple1G(k: nat)
    ensures 0x4000_0000 * k % 0x1_0000_0000_0000 % 0x4000_0000 == 0
  {
    var q, r := k / 0x4_0000, k % 0x4_0000;
    assert 0x4000_0000 * k == 0x1_0000_0000_0000 * q + 0x4000_0000 * r;
    assert 0x4000_0000 * k % 0x1_0000_0000_0000 == 0x4000_0000 * r;
  }

  predicate IsHugeSize(s: PageSize)
  {
    s != Size4K
  }

  /** `p1_index` .. `p4_index`. */
  function Index(l: nat, v: nat): nat
  {
    Num(l, v) % 512
  }

  /** The guest addresses a table of this depth tells apart. */
  function Limit(level: nat): nat
  {
    if level == 3 then 0x80_0000_0000 else 0x1_0000_0000_0000
  }

  /** The address that the table takes `v` for: the indices are masked, so higher address bits are not seen. */
  function Seen(level: nat, v: nat): (x: nat)
    ensures x < Limit(level) && (v < Limit(level) ==> x == v)
  {
    v % Limit(level)
  }

  lemma Alike1(v: nat, x: nat, k: nat)
    requires v == 0x20_0000 * k + x
    ensures Index(1, v) == Index(1, x) && PageOffset(Size4K, v) == PageOffset(Size4K, x)
  {
    assert v / 0x1000 == 512 * k + x / 0x1000;
  }

  lemma Alike2(v: nat, x: nat, k: nat)
    requires v == 0x4000_0000 * k + x
    ensures Index(2, v) == Index(2, x) && PageOffset(Size2M, v) == PageOffset(Size2M, x)
  {
    assert v / 0x20_0000 == 512 * k + x / 0x20_0000;
  }

  lemma Alike3(v: nat, x: nat, k: nat)
    requires v == 0x80_0000_0000 * k + x
    ensures Index(3, v) == Index(3, x) && PageOffset(Size1G, v) == PageOffset(Size1G, x)
  {
    assert v / 0x4000_0000 == 512 * k + x / 0x4000_0000;
  }

  lemma Alike4(v: nat, x: nat, k: nat)
    requires v == 0x1_0000_0000_0000 * k + x
    ensures Index(4, v) == Index(4, x)
  {
    assert v / 0x80_0000_0000 == 512 * k + x / 0x80_0000_0000;
  }

  lemma SeenAlike(level: nat, v: nat)
    requires level == 3 || level == 4
    ensures forall l | 1 <= l <= level :: Index(l, Seen(level, v)) == Index(l, v)
    ensures forall s: PageSize :: PageOffset(s, Seen(level, v)) == PageOffset(s, v)
  {
    var x, q := Seen(level, v), v / Limit(level);
    var k := if level == 3 then q else 512 * q;
    assert v == 0x80_0000_0000 * k + x;
    Alike1(v, x, 262144 * k);
    Alike2(v, x, 512 * k);
    Alike3(v, x, k);
    if level == 4 {
      Alike4(v, x, q);
    }
  }

  /** Memory after a write through an entry reference. */
  function Stored(mem: map<nat, seq<Word>>, loc: Loc, w: Word): map<nat, seq<Word>>
    requires loc.frame in mem && loc.index < |mem[loc.frame]|
  {
    var entries: seq<Word> := mem[loc.frame][loc.index := w];
    mem[loc.frame := entries]
  }

  lemma StoreOtherFrame(mem: map<nat, seq<Word>>, loc: Loc, w: Word, f: nat)
    requires loc.frame in mem && loc.index < |mem[loc.frame]| && f != loc.frame
    ensures Stored(mem[f := ZeroTable()], loc, w) == Stored(mem, loc, w)[f := ZeroTable()]
  {
  }

  /** `next_table_mut`. */
  function NextTable(w: Word): PagingResult<nat>
  {
    if !IsPresent(w) then Err(NotMapped)
    else if IsHuge(w) then Err(MappedToHugePage)
    else Ok(Addr(w))
  }

  /** How `query` turns the entry it stopped at into an answer. */
  function Answer(w: Word, size: PageSize, v: nat): PagingResult<Translation>
  {
    if IsUnused(w) then Err(NotMapped)
    else Ok(Translation(Addr(w) + PageOffset(size, v), EntryFlags(w), size))
  }

  /** There is a leaf of size `s` over `v`. */
  ghost predicate Covers(leaves: Leaves, s: PageSize, v: nat)
  {
    Spot(LevelOf(s), Num(LevelOf(s), v)) in leaves
  }

  ghost predicate Uncovered(leaves: Leaves, v: nat)
  {
    forall s: PageSize :: !Covers(leaves, s, v)
  }

  ghost function LeafAt(leaves: Leaves, s: PageSize, v: nat): Leaf
    requires Covers(leaves, s, v)
  {
    leaves[Spot(LevelOf(s), Num(LevelOf(s), v))]
  }

  /** What the leaf over an address says about it. */
  ghost function LeafTranslation(leaves: Leaves, s: PageSize, v: nat): Translation
    requires Covers(leaves, s, v)
  {
    var leaf := LeafAt(leaves, s, v);
    Translation(leaf.paddr + PageOffset(s, v), Flags(leaf.flags), s)
  }

  /** Tables are only added: none moves or disappears. */
  ghost predicate Grown(dir: map<Spot, nat>, dir': map<Spot, nat>)
  {
    forall s | s in dir :: s in dir' && dir'[s] == dir[s]
  }

  ghost predicate Distinct(fs: seq<nat>)
  {
    forall i, j | 0 <= i < j < |fs| :: fs[i] != fs[j]
  }

  /** The frames in `intrm` are the tables other than the root, each once. */
  ghost predicate Tracked(dir: map<Spot, nat>, level: nat, root: nat, intrm: seq<nat>)
  {
    && (forall s | s in dir && s != Spot(level, 0) :: dir[s] in intrm)
    && (forall i | 0 <= i < |intrm| :: intrm[i] in dir.Values && intrm[i] != root)
    && Distinct(intrm)
  }

  ghost predicate PoolOk(dir: map<Spot, nat>, pool: seq<nat>)
  {
    && Distinct(pool)
    && (forall i | 0 <= i < |pool| :: FrameOk(pool[i]) && pool[i] !in dir.Values)
  }

  /** The table-tree invariant: a well-formed tree with the given leaves, its frames tracked, fresh frames to add. */
  ghost predicate TableOk(t: Tree, root: nat, leaves: Leaves, intrm: seq<nat>, pool: seq<nat>)
  {
    && Wf(t, leaves)
    && t.dir[Spot(t.level, 0)] == root
    && Tracked(t.dir, t.level, root, intrm)
    && PoolOk(t.dir, pool)
  }

  /** The tables there are, and how many frames are left for more. */
  datatype Stock = Stock(tables: set<Spot>, free: nat)

  /** A table from earlier mappings sits where this block would go. */
  ghost predicate InTheWay(tables: set<Spot>, size: PageSize, v: nat)
  {
    LevelOf(size) > 1 && Spot(LevelOf(size) - 1, Num(LevelOf(size), v)) in tables
  }

  /** The table at level `l` for `v` is there, or is created, or cannot be. */
  ghost function TableFate(k: Stock, l: nat, v: nat): PagingResult<Stock>
  {
    if Spot(l, Num(l + 1, v)) in k.tables then Ok(k)
    else if k.free == 0 then Err(NoMemory)
    else Ok(Stock(k.tables + {Spot(l, Num(l + 1, v))}, k.free - 1))
  }

  /** The tables between the root and an entry of this size over `v`, one after the other. */
  ghost function WalkFate(k: Stock, level: nat, size: PageSize, v: nat): PagingResult<Stock>
  {
    var k3 := if level == 4 then TableFate(k, 3, v) else Ok(k);
    if k3.Ok? then LowerFate(k3.value, size, v) else k3
  }

  ghost function LowerFate(k: Stock, size: PageSize, v: nat): PagingResult<Stock>
  {
    var k2 := if size != Size1G then TableFate(k, 2, v) else Ok(k);
    if k2.Ok? && size == Size4K then TableFate(k2.value, 1, v) else k2
  }

  /** How `map_page` ends over an address that no leaf covers. */
  ghost function PageFate(k: Stock, level: nat, size: PageSize, v: nat): PagingResult<Stock>
  {
    match WalkFate(k, level, size, v)
    case Ok(k') => if InTheWay(k'.tables, size, v) then Err(AlreadyMapped) else Ok(k')
    case Err(e) => Err(e)
  }

  lemma ValuesGrow(dir: map<Spot, nat>, s: Spot, f: nat)
    requires s !in dir
    ensures dir[s := f].Values == dir.Values + {f}
  {
    var dir' := dir[s := f];
    assert dir'[s] == f;
    forall x | x in dir.Values
      ensures x in dir'.Values
    {
      var s' :| s' in dir && dir[s'] == x;
      assert dir'[s'] == x;
    }
  }

  lemma KeysGrow(dir: map<Spot, nat>, s: Spot, f: nat)
    ensures dir[s := f].Keys == dir.Keys + {s}
  {
  }

  lemma FrameTaken(dir: map<Spot, nat>, level: nat, root: nat, intrm: seq<nat>, pool: seq<nat>, s: Spot)
    requires Tracked(dir, level, root, intrm) && PoolOk(dir, pool)
    requires s !in dir && pool != [] && root in dir.Values
    ensures Tracked(dir[s := pool[0]], level, root, intrm + [pool[0]])
    ensures PoolOk(dir[s := pool[0]], pool[1..])
  {
    ValuesGrow(dir, s, pool[0]);
  }

  /** Each frame in `intrm` is the table of exactly one entry of the tree. */
  lemma ReachedOnce(t: Tree, root: nat, leaves: Leaves, intrm: seq<nat>, pool: seq<nat>, f: nat)
    returns (l: nat, k: nat)
    requires TableOk(t, root, leaves, intrm, pool) && f in intrm
    ensures HasSlot(t, l, k) && IsTableSlot(t, l, k) && PointsTo(Slot(t, l, k), f)
    ensures forall l': nat, k': nat | HasSlot(t, l', k') && IsTableSlot(t, l', k') && PointsTo(Slot(t, l', k'), f) ::
      l' == l && k' == k
  {
    var s :| s in t.dir && t.dir[s] == f;
    assert s != Spot(t.level, 0);
    l, k := s.level + 1, s.num;
    assert LinkOk(t, s);
    forall l': nat, k': nat | HasSlot(t, l', k') && IsTableSlot(t, l', k') && PointsTo(Slot(t, l', k'), f)
      ensures l' == l && k' == k
    {
      assert LinkOk(t, Spot(l' - 1, k'));
    }
  }

  /** And every table an entry refers to is in `intrm`. */
  lemma ReachedIsTracked(t: Tree, root: nat, leaves: Leaves, intrm: seq<nat>, pool: seq<nat>, l: nat, k: nat)
    requires TableOk(t, root, leaves, intrm, pool) && HasSlot(t, l, k) && Slot(t, l, k) != 0 && Spot(l, k) !in leaves
    ensures IsTableSlot(t, l, k) && PointsTo(Slot(t, l, k), t.dir[Spot(l - 1, k)])
    ensures Addr(Slot(t, l, k)) in intrm
  {
    assert SlotOk(t, leaves, l, k);
    assert IsTableSlot(t, l, k);
    assert Spot(l, k / 512) in t.dir;
    assert LinkOk(t, Spot(l - 1, k));
  }

  lemma RootNumber(level: nat, v: nat)
    requires (level == 3 || level == 4) && v < Limit(level)
    ensures Num(level, v) / 512 == 0
  {
  }

  class PageTable {
    const level: nat
    const root: nat
    var mem: map<nat, seq<Word>>
    /** The frames of all tables but the root. */
    var intrm: seq<nat>
    /** Frames the allocator can still hand out. */
    var pool: seq<nat>
    ghost var dir: map<Spot, nat>
    ghost var leaves: Leaves

    ghost function T(): Tree
      reads this
    {
      Tree(mem, level, dir)
    }

    ghost predicate Valid()
      reads this
    {
      TableOk(T(), root, leaves, intrm, pool)
    }

    ghost function Supply(): Stock
      reads this
    {
      Stock(dir.Keys, |pool|)
    }

    /** `new`: the root frame comes from the allocator, and running out of frames there is a panic. */
    constructor (level: nat, pool: seq<nat>)
      requires level == 3 || level == 4
      requires |pool| > 0 && Distinct(pool) && forall f | f in pool :: FrameOk(f)
      ensures Valid() && this.level == level && leaves == map[] && intrm == []
      ensures this.root == pool[0] && this.pool == pool[1..]
    {
      this.level := level;
      this.root := pool[0];
      this.pool := pool[1..];
      mem := map[pool[0] := ZeroTable()];
      intrm := [];
      dir := map[Spot(level, 0) := pool[0]];
      leaves := map[];
      new;
      forall s ensures LinkOk(T(), s) {}
      forall l, k ensures SlotOk(T(), leaves, l, k) {}
    }

    // Reading entries.

    function Load(loc: Loc): Word
      requires loc.frame in mem && loc.index < |mem[loc.frame]|
      reads this
    {
      mem[loc.frame][loc.index]
    }

    ghost predicate At(loc: Loc, l: nat, k: nat)
      reads this
    {
      HasSlot(T(), l, k) && loc == Loc(dir[Spot(l, k / 512)], k % 512)
    }

    predicate HugeAt(loc: Loc)
      reads this
    {
      loc.frame in mem && loc.index < |mem[loc.frame]| && IsHuge(Load(loc))
    }

    lemma LoadIsSlot(loc: Loc, l: nat, k: nat)
      requires Valid() && At(loc, l, k)
      ensures loc.frame in mem && loc.index < |mem[loc.frame]|
      ensures Load(loc) == Slot(T(), l, k)
    {
      assert Spot(l, k / 512) in dir;
    }

    /** What the bits of an entry tell the walker: unused, a leaf, or a reference to the table below. */
    lemma SlotKinds(loc: Loc, l: nat, k: nat)
      requires Valid() && At(loc, l, k)
      ensures loc.frame in mem && loc.index < |mem[loc.frame]|
      ensures Load(loc) == 0 ==> !IsTableSlot(T(), l, k) && Spot(l, k) !in leaves
      ensures Spot(l, k) in leaves ==> !IsTableSlot(T(), l, k) && Encodes(l, Load(loc), leaves[Spot(l, k)])
      ensures IsTableSlot(T(), l, k) ==> PointsTo(Load(loc), dir[Spot(l - 1, k)])
      ensures Load(loc) != 0 ==> IsTableSlot(T(), l, k) || Spot(l, k) in leaves
    {
      LoadIsSlot(loc, l, k);
      assert SlotOk(T(), leaves, l, k);
      assert l > 1 ==> LinkOk(T(), Spot(l - 1, k));
    }

    lemma BelowTable(l: nat, v: nat)
      requires Valid() && 2 <= l <= level && IsTableSlot(T(), l, Num(l, v))
      ensures At(Loc(dir[Spot(l - 1, Num(l, v))], Index(l - 1, v)), l - 1, Num(l - 1, v))
    {
      NextNumber(v, l - 1);
    }

    lemma AtRoot(v: nat)
      requires Valid() && v < Limit(level)
      ensures At(Loc(root, Index(level, v)), level, Num(level, v))
    {
      RootNumber(level, v);
    }

    lemma NothingBelow(l: nat, v: nat)
      requires Valid() && 1 <= l <= level
      requires HasSlot(T(), l, Num(l, v)) && Slot(T(), l, Num(l, v)) == 0
      ensures Uncovered(leaves, v)
    {
      NoSubTable(T(), leaves, l, Num(l, v));
      forall s: PageSize | LevelOf(s) != l
        ensures !Covers(leaves, s, v)
      {
        WalkEnd(T(), leaves, v, l, LevelOf(s));
      }
    }

    /** `next_table_mut` on the entry for `v` at level `l`. */
    method NextTableMut(loc: Loc, ghost l: nat, ghost v: nat) returns (r: PagingResult<nat>)
      requires Valid() && 2 <= l <= level && At(loc, l, Num(l, v))
      ensures r.Ok? ==> At(Loc(r.value, Index(l - 1, v)), l - 1, Num(l - 1, v))
      ensures r.Err? ==> (r.error == NotMapped && Uncovered(leaves, v)) || (r.error == MappedToHugePage && HugeAt(loc))
      ensures r.Err? && l == 4 ==> r.error == NotMapped
    {
      LoadIsSlot(loc, l, Num(l, v));
      SlotKinds(loc, l, Num(l, v));
      r := NextTable(Load(loc));
      if r.Ok? {
        BelowTable(l, v);
      } else if Load(loc) == 0 {
        NothingBelow(l, v);
      }
    }

    ghost predicate Stopped(found: Found, v: nat)
      reads this
    {
      var l := LevelOf(found.size);
      At(found.loc, l, Num(l, v)) && !IsTableSlot(T(), l, Num(l, v))
    }

    /** `get_entry_mut`.  A zero entry counts as huge, so the walk of an unmapped address ends early at it. */
    method GetEntryMut(v: nat) returns (r: PagingResult<Found>)
      requires Valid()
      ensures r.Err? ==> r == Err(NotMapped) && Uncovered(leaves, Seen(level, v))
      ensures r.Ok? ==> Stopped(r.value, Seen(level, v))
    {
      ghost var x := Seen(level, v);
      SeenAlike(level, v);
      var p3 := root;
      AtRoot(x);
      if level == 4 {
        var next := NextTableMut(Loc(root, Index(4, v)), 4, x);
        if next.Err? {
          return Err(next.error);
        }
        p3 := next.value;
      }
      var p3e := Loc(p3, Index(3, v));
      SlotKinds(p3e, 3, Num(3, x));
      if IsHuge(Load(p3e)) {
        return Ok(Found(p3e, Size1G));
      }
      var p2 := NextTableMut(p3e, 3, x);
      if p2.Err? {
        return Err(p2.error);
      }
      var p2e := Loc(p2.value, Index(2, v));
      SlotKinds(p2e, 2, Num(2, x));
      if IsHuge(Load(p2e)) {
        return Ok(Found(p2e, Size2M));
      }
      var p1 := NextTableMut(p2e, 2, x);
      if p1.Err? {
        return Err(p1.error);
      }
      return Ok(Found(Loc(p1.value, Index(1, v)), Size4K));
    }

    lemma StoppedLeaf(found: Found, v: nat)
      requires Valid() && Stopped(found, v)
      ensures found.loc.frame in mem && found.loc.index < |mem[found.loc.frame]|
      ensures forall s: PageSize | Covers(leaves, s, v) :: s == found.size
      ensures Load(found.loc) == 0 <==> !Covers(leaves, found.size, v)
      ensures Load(found.loc) != 0 ==> Encodes(LevelOf(found.size), Load(found.loc), LeafAt(leaves, found.size, v))
    {
      var l := LevelOf(found.size);
      SlotKinds(found.loc, l, Num(l, v));
      forall s: PageSize | s != found.size
        ensures !Covers(leaves, s, v)
      {
        WalkEnd(T(), leaves, v, l, LevelOf(s));
      }
    }

    /** `query`: the answer is the one leaf over `v`, or NotMapped when there is none.  The memory type panic is never
        reached. */
    method Query(v: nat) returns (r: PagingResult<Translation>)
      requires Valid()
      ensures forall s: PageSize | Covers(leaves, s, Seen(level, v)) ::
        r == Ok(LeafTranslation(leaves, s, Seen(level, v)))
      ensures Uncovered(leaves, Seen(level, v)) ==> r == Err(NotMapped)
    {
      var e := GetEntryMut(v);
      if e.Err? {
        return Err(e.error);
      }
      StoppedLeaf(e.value, Seen(level, v));
      SeenAlike(level, v);
      return Answer(Load(e.value.loc), e.value.size, v);
    }

    // Changing entries.

    /** `unmap_page`: removes the one leaf over `v` and reports its size. */
    method UnmapPage(v: nat) returns (r: PagingResult<(nat, PageSize)>)
      requires Valid()
      modifies this`mem, this`leaves
      ensures Valid()
      ensures r.Err? ==> r == Err(NotMapped) && leaves == old(leaves) && mem == old(mem)
      ensures r.Err? <==> Uncovered(old(leaves), Seen(level, v))
      ensures r.Ok? ==>
        && Covers(old(leaves), r.value.1, Seen(level, v))
        && r.value.0 == LeafAt(old(leaves), r.value.1, Seen(level, v)).paddr
        && leaves == old(leaves) - {Spot(LevelOf(r.value.1), Num(LevelOf(r.value.1), Seen(level, v)))}
    {
      var e := GetEntryMut(v);
      if e.Err? {
        return Err(e.error);
      }
      StoppedLeaf(e.value, Seen(level, v));
      var w := Load(e.value.loc);
      if IsUnused(w) {
        return Err(NotMapped);
      }
      ClearLeaf(e.value.loc, LevelOf(e.value.size), Num(LevelOf(e.value.size), Seen(level, v)));
      return Ok((Addr(w), e.value.size));
    }

    method ClearLeaf(loc: Loc, ghost l: nat, ghost k: nat)
      requires Valid() && At(loc, l, k) && Spot(l, k) in leaves
      modifies this`mem, this`leaves
      ensures Valid() && leaves == old(leaves) - {Spot(l, k)}
    {
      LoadIsSlot(loc, l, k);
      UnmapLeaf(T(), leaves, l, k);
      ghost var t' := WriteSlot(T(), l, k, 0);
      mem := Stored(mem, loc, 0);
      leaves := leaves - {Spot(l, k)};
      assert T() == t';
    }

    /** `next_table_mut_or_create`: a missing table is taken from the allocator and hung below the entry. */
    method NextTableMutOrCreate(loc: Loc, ghost l: nat, ghost v: nat) returns (r: PagingResult<nat>)
      requires Valid() && 2 <= l <= level && At(loc, l, Num(l, v))
      modifies this`mem, this`intrm, this`pool, this`dir
      ensures Valid() && Grown(old(dir), dir)
      ensures r.Ok? ==> At(Loc(r.value, Index(l - 1, v)), l - 1, Num(l - 1, v))
      ensures l == 4 || Spot(l, Num(l, v)) !in leaves ==>
        match TableFate(old(Supply()), l - 1, v)
        case Ok(k) => r.Ok? && Supply() == k
        case Err(e) => r == Err(e)
      ensures r.Err? ==> T() == old(T()) && intrm == old(intrm) && pool == old(pool)
      ensures r.Err? ==>
        || (r.error == NoMemory && pool == [])
        || (r.error == MappedToHugePage && Spot(l, Num(l, v)) in leaves && l <= 3)
    {
      SlotKinds(loc, l, Num(l, v));
      if IsUnused(Load(loc)) {
        if pool == [] {
          return Err(NoMemory);
        }
        var f := CreateTable(loc, l, Num(l, v));
        BelowTable(l, v);
        return Ok(f);
      }
      r := NextTable(Load(loc));
      if r.Ok? {
        BelowTable(l, v);
      }
    }

    /** `alloc_intrm_table`, then `set_table` on the entry. */
    method CreateTable(loc: Loc, ghost l: nat, ghost k: nat) returns (f: nat)
      requires Valid() && 2 <= l <= level && At(loc, l, k) && Slot(T(), l, k) == 0
      requires pool != []
      modifies this`mem, this`intrm, this`pool, this`dir
      ensures Valid() && Grown(old(dir), dir)
      ensures IsTableSlot(T(), l, k) && f == dir[Spot(l - 1, k)]
      ensures Supply() == Stock(old(dir).Keys + {Spot(l - 1, k)}, |old(pool)| - 1) && Spot(l - 1, k) !in old(dir)
    {
      f := pool[0];
      var w := TableWord(f);
      TableDecodes(f);
      TableIsDescriptor(f);
      CreatedTree(loc, l, k, f, w);
      KeysGrow(dir, Spot(l - 1, k), f);
      ghost var t' := Tree(Stored(mem[f := ZeroTable()], loc, w), level, dir[Spot(l - 1, k) := f]);
      mem, intrm, pool := Stored(mem[f := ZeroTable()], loc, w), intrm + [f], pool[1..];
      dir := dir[Spot(l - 1, k) := f];
      assert T() == t';
    }

    lemma CreatedTree(loc: Loc, l: nat, k: nat, f: nat, w: Word)
      requires Valid() && 2 <= l <= level && At(loc, l, k) && Slot(T(), l, k) == 0
      requires pool != [] && f == pool[0] && PointsTo(w, f)
      ensures Spot(l - 1, k) !in dir
      ensures loc.frame in mem && loc.index < |mem[loc.frame]| && loc.frame != f
      ensures TableOk(Tree(Stored(mem[f := ZeroTable()], loc, w), level, dir[Spot(l - 1, k) := f]),
                      root, leaves, intrm + [f], pool[1..])
    {
      var t := T();
      LoadIsSlot(loc, l, k);
      NoSubTable(t, leaves, l, k);
      assert loc.frame in dir.Values;
      assert dir[Spot(level, 0)] in dir.Values;
      assert Fresh(t, f);
      TableAdded(t, leaves, l, k, f, w);
      StoreOtherFrame(mem, loc, w, f);
      FrameTaken(dir, level, root, intrm, pool, Spot(l - 1, k));
      assert AddTable(t, l, k, f, w) == Tree(Stored(mem[f := ZeroTable()], loc, w), level, dir[Spot(l - 1, k) := f]);
    }

    /** A creation step stops only for want of frames or at a block that already covers `v`. */
    ghost predicate CreateError(e: PagingError, size: PageSize, v: nat)
      reads this
    {
      || (e == NoMemory && pool == [])
      || (e == MappedToHugePage && exists s: PageSize :: LevelOf(s) > LevelOf(size) && Covers(leaves, s, v))
    }

    /** `get_entry_mut_or_create`: on every exit, the failing ones included, no leaf has changed and no table has
        moved. */
    method GetEntryMutOrCreate(v: nat, size: PageSize) returns (r: PagingResult<Loc>)
      requires Valid()
      modifies this`mem, this`intrm, this`pool, this`dir
      ensures Valid() && Grown(old(dir), dir)
      ensures r.Ok? ==> At(r.value, LevelOf(size), Num(LevelOf(size), Seen(level, v)))
      ensures r.Err? ==> CreateError(r.error, size, Seen(level, v))
      ensures Uncovered(leaves, Seen(level, v)) ==>
        match WalkFate(old(Supply()), level, size, Seen(level, v))
        case Ok(k) => r.Ok? && Supply() == k
        case Err(e) => r == Err(e)
    {
      ghost var x := Seen(level, v);
      SeenAlike(level, v);
      var p3 := root;
      AtRoot(x);
      if level == 4 {
        var next := NextTableMutOrCreate(Loc(root, Index(4, v)), 4, x);
        if next.Err? {
          return Err(next.error);
        }
        p3 := next.value;
      }
      r := LowerEntry(Loc(p3, Index(3, v)), v, size, x);
    }

    /** From the entry at level 3 on. */
    method LowerEntry(p3e: Loc, v: nat, size: PageSize, ghost x: nat) returns (r: PagingResult<Loc>)
      requires Valid() && At(p3e, 3, Num(3, x)) && Index(2, v) == Index(2, x) && Index(1, v) == Index(1, x)
      modifies this`mem, this`intrm, this`pool, this`dir
      ensures Valid() && Grown(old(dir), dir)
      ensures r.Ok? ==> At(r.value, LevelOf(size), Num(LevelOf(size), x))
      ensures r.Err? ==> CreateError(r.error, size, x)
      ensures Uncovered(leaves, x) ==>
        match LowerFate(old(Supply()), size, x)
        case Ok(k) => r.Ok? && Supply() == k
        case Err(e) => r == Err(e)
    {
      assert Uncovered(leaves, x) ==> !Covers(leaves, Size1G, x) && !Covers(leaves, Size2M, x);
      if size == Size1G {
        return Ok(p3e);
      }
      var p2 := NextTableMutOrCreate(p3e, 3, x);
      if p2.Err? {
        assert p2.error == MappedToHugePage ==> Covers(leaves, Size1G, x);
        return Err(p2.error);
      }
      var p2e := Loc(p2.value, Index(2, v));
      if size == Size2M {
        return Ok(p2e);
      }
      var p1 := NextTableMutOrCreate(p2e, 2, x);
      if p1.Err? {
        assert p1.error == MappedToHugePage ==> Covers(leaves, Size2M, x);
        return Err(p1.error);
      }
      return Ok(Loc(p1.value, Index(1, v)));
    }

    /** Why `map_page` refuses: a creation error, a leaf already there, or a table kept below the slot. */
    ghost predicate MapError(e: PagingError, size: PageSize, v: nat)
      reads this
    {
      || CreateError(e, size, v)
      || (e == AlreadyMapped && (Covers(leaves, size, v) || IsTableSlot(T(), LevelOf(size), Num(LevelOf(size), v))))
    }

    /** `map_page`: adds exactly one leaf, or changes no leaf at all.  The entry holds 48 bits of the host address. */
    method MapPage(v: nat, size: PageSize, paddr: Word, flags: MemFlags) returns (r: PagingResult<()>)
      requires Valid()
      modifies this`mem, this`intrm, this`pool, this`dir, this`leaves
      ensures Valid() && Grown(old(dir), dir)
      ensures r.Err? ==> leaves == old(leaves) && MapError(r.error, size, Seen(level, v))
      ensures r.Ok? ==> !Covers(old(leaves), size, Seen(level, v))
      ensures Uncovered(old(leaves), Seen(level, v)) ==>
        match PageFate(old(Supply()), level, size, Seen(level, v))
        case Ok(k) => r.Ok? && Supply() == k
        case Err(e) => r == Err(e)
      ensures r.Ok? ==> leaves == old(leaves)[Spot(LevelOf(size), Num(LevelOf(size), Seen(level, v))) :=
                                                Leaf(AlignDown(size, paddr) % 0x1_0000_0000_0000, Kept(flags))]
    {
      var e := GetEntryMutOrCreate(v, size);
      if e.Err? {
        return Err(e.error);
      }
      SlotKinds(e.value, LevelOf(size), Num(LevelOf(size), Seen(level, v)));
      if !IsUnused(Load(e.value)) {
        return Err(AlreadyMapped);
      }
      SetLeaf(e.value, size, Num(LevelOf(size), Seen(level, v)), paddr, flags);
      return Ok(());
    }

    /** `set_addr` and `set_flags` on an unused entry. */
    method SetLeaf(loc: Loc, size: PageSize, ghost k: nat, paddr: Word, flags: MemFlags)
      requires Valid() && At(loc, LevelOf(size), k) && Slot(T(), LevelOf(size), k) == 0
      modifies this`mem, this`leaves
      ensures Valid()
      ensures leaves == old(leaves)[Spot(LevelOf(size), k) :=
                                      Leaf(AlignDown(size, paddr) % 0x1_0000_0000_0000, Kept(flags))]
    {
      ghost var l := LevelOf(size);
      var w := LeafWord(AlignDown(size, paddr), flags, IsHugeSize(size));
      ghost var p := AlignDown(size, paddr) % 0x1_0000_0000_0000;
      ghost var leaf := Leaf(p, Kept(flags));
      OnlyLowBits(AlignDown(size, paddr), flags, IsHugeSize(size));
      LeafDecodes(p, flags, IsHugeSize(size));
      LeafIsDescriptor(p, flags, IsHugeSize(size));
      AlignedUnit(size, paddr);
      LoadIsSlot(loc, l, k);
      MapLeaf(T(), leaves, l, k, w, leaf);
      ghost var t' := WriteSlot(T(), l, k, w);
      mem := Stored(mem, loc, w);
      leaves := leaves[Spot(l, k) := leaf];
      assert T() == t';
    }
  }
}
