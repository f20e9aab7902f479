/** `MemorySet` of src/memory/mm.rs: the region list beside the page table that must agree with it. */
module MemorySets {
  import opened Options
  import opened Stage2Entry
  import opened PageTree
  import opened PageTables
  import opened Regions
  import opened Mapping
  import opened MapFate
  import opened Stage2Walk

  type RegionMap = map<nat, Region>

  predicate Contains(r: Region, v: nat)
  {
    r.start <= v < r.start + r.size
  }

  /** `is_overlap_with`. */
  predicate Overlaps(r: Region, o: Region)
  {
    !(r.start + r.size <= o.start || r.start >= o.start + o.size)
  }

  /** Disjoint non-empty regions, each filed under its start. */
  ghost predicate Disjoint(regions: RegionMap)
  {
    && (forall k | k in regions :: regions[k].start == k && regions[k].size > 0)
    && (forall j, k | j in regions && k in regions && j < k :: j + regions[j].size <= k)
  }

  ghost predicate RegionsOk(regions: RegionMap, level: nat)
  {
    Disjoint(regions) && forall k | k in regions :: Aligned(regions[k]) && Fits(regions[k], level)
  }

  // The neighbour test.

  ghost predicate IsLastBelow(regions: RegionMap, start: nat, b: Option<Region>)
  {
    match b
    case None => forall k | k in regions :: k >= start
    case Some(r) => r.start in regions && regions[r.start] == r && r.start < start
                    && forall k | k in regions && k < start :: k <= r.start
  }

  ghost predicate IsFirstFrom(regions: RegionMap, start: nat, b: Option<Region>)
  {
    match b
    case None => forall k | k in regions :: k < start
    case Some(r) => r.start in regions && regions[r.start] == r && start <= r.start
                    && forall k | k in regions && start <= k :: r.start <= k
  }

  /** Testing the nearest region below and the nearest at or above is as good as testing them all. */
  lemma NeighboursSuffice(regions: RegionMap, r: Region, below: Option<Region>, above: Option<Region>)
    requires Disjoint(regions) && r.size > 0
    requires IsLastBelow(regions, r.start, below) && IsFirstFrom(regions, r.start, above)
    ensures (below.Some? && Overlaps(below.value, r)) || (above.Some? && Overlaps(above.value, r))
       <==> exists k :: k in regions && Overlaps(regions[k], r)
  {
    forall k | k in regions && Overlaps(regions[k], r)
      ensures (below.Some? && Overlaps(below.value, r)) || (above.Some? && Overlaps(above.value, r))
    {
      if k < r.start {
        assert k <= below.value.start;
      } else {
        assert above.value.start <= k;
      }
    }
  }

  /** `regions.range(..start).last()`. */
  method LastBelow(regions: RegionMap, start: nat) returns (b: Option<Region>)
    requires forall k | k in regions :: regions[k].start == k
    ensures IsLastBelow(regions, start, b)
  {
    b := None;
    var keys := regions.Keys;
    while keys != {}
      invariant keys <= regions.Keys
      invariant b.Some? ==> b.value.start in regions && regions[b.value.start] == b.value && b.value.start < start
      invariant forall k | k in regions && k !in keys && k < start :: b.Some? && k <= b.value.start
      decreases |keys|
    {
      var k :| k in keys;
      keys := keys - {k};
      if k < start && (b.None? || b.value.start < k) {
        b := Some(regions[k]);
      }
    }
  }

  /** `regions.range(start..).next()`. */
  method FirstFrom(regions: RegionMap, start: nat) returns (b: Option<Region>)
    requires forall k | k in regions :: regions[k].start == k
    ensures IsFirstFrom(regions, start, b)
  {
    b := None;
    var keys := regions.Keys;
    while keys != {}
      invariant keys <= regions.Keys
      invariant b.Some? ==> b.value.start in regions && regions[b.value.start] == b.value && start <= b.value.start
      invariant forall k | k in regions && k !in keys && start <= k :: b.Some? && b.value.start <= k
      decreases |keys|
    {
      var k :| k in keys;
      keys := keys - {k};
      if start <= k && (b.None? || k < b.value.start) {
        b := Some(regions[k]);
      }
    }
  }

  /** `test_free_area`. */
  method TestFreeArea(regions: RegionMap, r: Region) returns (free: bool)
    requires Disjoint(regions) && r.size > 0
    ensures free <==> forall k | k in regions :: !Overlaps(regions[k], r)
  {
    var below := LastBelow(regions, r.start);
    var above := FirstFrom(regions, r.start);
    NeighboursSuffice(regions, r, below, above);
    if below.Some? && Overlaps(below.value, r) {
      return false;
    }
    if above.Some? && Overlaps(above.value, r) {
      return false;
    }
    return true;
  }

  // What the page table holds for a region list.

  /** Every recorded region is fully and correctly mapped; the leaves beyond those are the `stale` ones that failed
      insertions left behind. */
  ghost predicate Agrees(regions: RegionMap, leaves: Leaves, stale: set<Spot>)
  {
    && (forall k | k in regions :: Mapped(leaves, regions[k]))
    && stale <= leaves.Keys
    && (forall k | k in regions :: stale !! PlanOf(regions[k]).Keys)
    && (forall s | s in leaves :: s in stale || Planned(regions, s))
  }

  ghost predicate Planned(regions: RegionMap, s: Spot)
  {
    exists k :: k in regions && s in PlanOf(regions[k])
  }

  lemma MappedKeys(leaves: Leaves, r: Region)
    requires Mapped(leaves, r)
    ensures PlanOf(r).Keys <= leaves.Keys
  {
    forall s | s in PlanOf(r)
      ensures s in leaves
    {
      assert Filled(leaves, r, PlanOf(r), s);
    }
  }

  lemma MappedKept(leaves: Leaves, leaves': Leaves, r: Region)
    requires Mapped(leaves, r)
    requires forall s | s in PlanOf(r) && s in leaves :: s in leaves' && leaves'[s] == leaves[s]
    ensures Mapped(leaves', r)
  {
    var plan := PlanOf(r);
    forall s
      ensures Filled(leaves', r, plan, s)
    {
      assert Filled(leaves, r, plan, s);
    }
  }

  lemma PlansApart(r: Region, o: Region)
    requires Aligned(r) && Aligned(o) && !Overlaps(r, o)
    ensures PlanOf(r).Keys !! PlanOf(o).Keys
  {
    forall s | s in PlanOf(r) && s in PlanOf(o)
      ensures false
    {
      PlanInside(r.start / 0x1000, Phys(r) / 0x1000, r.size / 0x1000, MayBeHuge(r), s);
      PlanInside(o.start / 0x1000, Phys(o) / 0x1000, o.size / 0x1000, MayBeHuge(o), s);
    }
  }

  lemma InsertedAgrees(regions: RegionMap, leaves: Leaves, stale: set<Spot>, r: Region, leaves': Leaves,
                       added: set<Spot>)
    requires Agrees(regions, leaves, stale) && r.start !in regions
    requires Added(leaves, leaves', r, PlanOf(r), added) && added == PlanOf(r).Keys
    ensures Agrees(regions[r.start := r], leaves', stale)
  {
    var regions' := regions[r.start := r];
    forall k | k in regions
      ensures Mapped(leaves', regions[k])
    {
      MappedKept(leaves, leaves', regions[k]);
    }
    forall s
      ensures Filled(leaves', r, PlanOf(r), s)
    {
    }
    forall s | s in leaves'
      ensures s in stale || Planned(regions', s)
    {
      if s in leaves {
        if s !in stale {
          var k :| k in regions && s in PlanOf(regions[k]);
          assert k in regions' && regions'[k] == regions[k];
        }
      } else {
        assert regions'[r.start] == r;
      }
    }
  }

  lemma FailedInsertAgrees(regions: RegionMap, leaves: Leaves, stale: set<Spot>, r: Region, leaves': Leaves,
                           added: set<Spot>)
    requires Agrees(regions, leaves, stale)
    requires Added(leaves, leaves', r, PlanOf(r), added)
    ensures Agrees(regions, leaves', stale + added)
  {
    forall k | k in regions
      ensures Mapped(leaves', regions[k]) && stale + added !! PlanOf(regions[k]).Keys
    {
      MappedKept(leaves, leaves', regions[k]);
      MappedKeys(leaves, regions[k]);
    }
  }

  lemma DeletedAgrees(regions: RegionMap, level: nat, leaves: Leaves, stale: set<Spot>, start: nat)
    requires RegionsOk(regions, level) && Agrees(regions, leaves, stale) && start in regions
    ensures RegionsOk(regions - {start}, level)
    ensures Agrees(regions - {start}, leaves - PlanOf(regions[start]).Keys, stale)
  {
    var regions', r := regions - {start}, regions[start];
    var leaves' := leaves - PlanOf(r).Keys;
    forall k | k in regions'
      ensures Mapped(leaves', regions'[k])
    {
      PlansApart(r, regions[k]);
      MappedKept(leaves, leaves', regions[k]);
    }
    forall s | s in leaves'
      ensures s in stale || Planned(regions', s)
    {
      if s !in stale {
        var k :| k in regions && s in PlanOf(regions[k]);
        assert k != start;
        assert k in regions' && regions'[k] == regions[k];
      }
    }
  }

  lemma LeafOverRegion(r: Region, v: nat, s: PageSize)
    requires Aligned(r) && SpotAt(v, s) in PlanOf(r)
    ensures Contains(r, v)
  {
    PlanInside(r.start / 0x1000, Phys(r) / 0x1000, r.size / 0x1000, MayBeHuge(r), SpotAt(v, s));
    PageUnits(v);
  }

  ghost predicate StaleAt(stale: set<Spot>, v: nat)
  {
    exists s: PageSize :: SpotAt(v, s) in stale
  }

  /** Outside the recorded regions only leaves left by failed insertions translate anything. */
  lemma NoRegionNoLeaf(regions: RegionMap, level: nat, leaves: Leaves, stale: set<Spot>, v: nat)
    requires RegionsOk(regions, level) && Agrees(regions, leaves, stale)
    requires !StaleAt(stale, v) && forall k | k in regions :: !Contains(regions[k], v)
    ensures Uncovered(leaves, v)
  {
    forall s: PageSize
      ensures !Covers(leaves, s, v)
    {
      if Covers(leaves, s, v) {
        assert SpotAt(v, s) !in stale;
        assert Planned(regions, SpotAt(v, s));
        var k :| k in regions && SpotAt(v, s) in PlanOf(regions[k]);
        LeafOverRegion(regions[k], v, s);
      }
    }
  }

  /** With nothing stale, no leaf covers an address of a region that overlaps none of the recorded ones. */
  lemma RefusedByTable(regions: RegionMap, level: nat, leaves: Leaves, stale: set<Spot>, r: Region, at: nat)
    requires RegionsOk(regions, level) && Agrees(regions, leaves, stale)
    requires Contains(r, at) && forall k | k in regions :: !Overlaps(regions[k], r)
    ensures stale == {} ==> Uncovered(leaves, at)
  {
    if stale == {} {
      NoRegionNoLeaf(regions, level, leaves, stale, at);
    }
  }

  /** So the whole region is clear. */
  lemma ClearOfRegions(regions: RegionMap, level: nat, leaves: Leaves, stale: set<Spot>, r: Region)
    requires RegionsOk(regions, level) && Agrees(regions, leaves, stale)
    requires forall k | k in regions :: !Overlaps(regions[k], r)
    ensures stale == {} ==> Clear(leaves, r)
  {
    forall x | r.start <= x < r.start + r.size
      ensures stale == {} ==> Uncovered(leaves, x)
    {
      RefusedByTable(regions, level, leaves, stale, r, x);
    }
  }

  class MemorySet {
    const pt: PageTable
    /** The regions by start address (a BTreeMap). */
    var regions: RegionMap
    /** Leaf slots that failed insertions left mapped. */
    ghost var stale: set<Spot>

    ghost predicate Valid()
      reads this, pt
    {
      && pt.Valid()
      && RegionsOk(regions, pt.level)
      && Agrees(regions, pt.leaves, stale)
    }

    constructor (level: nat, pool: seq<nat>)
      requires level == 3 || level == 4
      requires |pool| > 0 && Distinct(pool) && forall f | f in pool :: FrameOk(f)
      ensures Valid() && fresh(pt) && pt.level == level && regions == map[] && stale == {}
    {
      pt := new PageTable(level, pool);
      regions := map[];
      stale := {};
    }

    /** `insert`. */
    method Insert(r: Region) returns (res: Outcome)
      requires Valid() && Fits(r, pt.level)
      modifies this, pt
      ensures Valid() && Grown(old(pt.dir), pt.dir)
      ensures res == Panicked <==> !Aligned(r)
      ensures res == Failed(EINVAL) <==>
        Aligned(r) && r.size > 0 && exists k :: k in old(regions) && Overlaps(old(regions)[k], r)
      ensures res == Done || res == Panicked || res.Failed?
      ensures regions == if res == Done && r.size > 0 then old(regions)[r.start := r] else old(regions)
      ensures old(stale) <= stale
      ensures res != Failed(ENOMEM) && res != Failed(EFAULT) ==> stale == old(stale)
      ensures res == Failed(ENOMEM) ==> pt.pool == []
      ensures res == Failed(EFAULT) && old(stale) == {} ==> MayBeHuge(r)
      ensures old(stale) == {} && res != Panicked && res != Failed(EINVAL) ==>
        var k := old(pt.Supply()); res == Foreseen(k, TablesFor(k.tables, pt.level, r), SomeBlocked(k.tables, r))
    {
      FateExact(pt.Supply(), pt.level, r);
      if !Aligned(r) {
        return Panicked;
      }
      if r.size == 0 {
        return Done;
      }
      var free := TestFreeArea(regions, r);
      if !free {
        return Failed(EINVAL);
      }
      res := MapNew(r);
    }

    /** The part of `insert` behind the checks: `map`, and the new entry of the list. */
    method MapNew(r: Region) returns (res: Outcome)
      requires Valid() && Fits(r, pt.level) && Aligned(r) && r.size > 0
      requires forall k | k in regions :: !Overlaps(regions[k], r)
      modifies this`regions, this`stale, pt
      ensures Valid() && Grown(old(pt.dir), pt.dir)
      ensures res == Done || res == Failed(ENOMEM) || res == Failed(EFAULT)
      ensures regions == if res == Done then old(regions)[r.start := r] else old(regions)
      ensures old(stale) <= stale && (res == Done ==> stale == old(stale))
      ensures res == Failed(ENOMEM) ==> pt.pool == []
      ensures res == Failed(EFAULT) && old(stale) == {} ==> MayBeHuge(r)
      ensures old(stale) == {} ==> res == WalkEnds(old(pt.Supply()), pt.level, StartWalk(r))
    {
      ghost var before := pt.leaves;
      ClearOfRegions(regions, pt.level, before, stale, r);
      ghost var added: set<Spot>, at: nat;
      res, added, at := MapRegion(pt, r);
      if res != Done {
        FailedInsertAgrees(regions, before, stale, r, pt.leaves, added);
        stale := stale + added;
        return;
      }
      InsertedAgrees(regions, before, stale, r, pt.leaves, added);
      regions := regions[r.start := r];
    }

    /** `unmap` of one of the regions that the page table still agrees with. */
    method UnmapRecorded(r: Region, ghost left: RegionMap) returns (res: Outcome)
      requires pt.Valid() && RegionsOk(left, pt.level) && Agrees(left, pt.leaves, stale)
      requires r.start in left && left[r.start] == r
      modifies pt`mem, pt`leaves
      ensures res == Done && pt.Valid() && pt.leaves == old(pt.leaves) - PlanOf(r).Keys
      ensures RegionsOk(left - {r.start}, pt.level) && Agrees(left - {r.start}, pt.leaves, stale)
    {
      DeletedAgrees(left, pt.level, pt.leaves, stale, r.start);
      ghost var gone: set<Spot>;
      res, gone := UnmapRegion(pt, r);
    }

    /** `delete`: always succeeds on a recorded region, and takes away that region's pages and no others. */
    method Delete(start: nat) returns (res: Outcome)
      requires Valid()
      modifies this`regions, pt`mem, pt`leaves
      ensures Valid()
      ensures res == if start in old(regions) then Done else Failed(EINVAL)
      ensures regions == old(regions) - {start}
      ensures start in old(regions) ==> pt.leaves == old(pt.leaves) - PlanOf(old(regions)[start]).Keys
      ensures start !in old(regions) ==> pt.leaves == old(pt.leaves)
    {
      if start !in regions {
        return Failed(EINVAL);
      }
      res := UnmapRecorded(regions[start], regions);
      regions := regions - {start};
    }

    /** `clear` has still to unmap the regions with these starts. */
    ghost predicate Clearing(keys: set<nat>, left: RegionMap)
      reads this, pt
    {
      && pt.Valid()
      && left.Keys == keys && keys <= regions.Keys && (forall k | k in left :: left[k] == regions[k])
      && RegionsOk(left, pt.level) && Agrees(left, pt.leaves, stale)
    }

    method ClearOne(start: nat, ghost keys: set<nat>, ghost left: RegionMap) returns (res: Outcome)
      requires start in keys && Clearing(keys, left)
      modifies pt`mem, pt`leaves
      ensures res == Done && Clearing(keys - {start}, left - {start})
    {
      res := UnmapRecorded(regions[start], left);
    }

    /** `clear`: unmaps every region, then forgets them all; the `unwrap` on each never panics. */
    method Clear() returns (panicked: bool)
      requires Valid()
      modifies this`regions, pt`mem, pt`leaves
      ensures Valid()
      ensures !panicked && regions == map[]
    {
      panicked := false;
      var keys := regions.Keys;
      ghost var left := regions;
      while keys != {}
        invariant Clearing(keys, left) && !panicked
        decreases |keys|
      {
        var start :| start in keys;
        var res := ClearOne(start, keys, left);
        panicked := panicked || res != Done;
        keys, left := keys - {start}, left - {start};
      }
      assert left == map[];
      regions := map[];
    }

    /** `page_table_query`.  Inside a recorded region the answer is the region's own arithmetic and flags, whatever mix
        of page sizes holds it; elsewhere the address is not mapped, up to pages that failed insertions left.  Addresses
        beyond the table's limit are taken for the ones below it that they agree with in the bits the table sees. */
    method PageTableQuery(v: nat) returns (r: PagingResult<Translation>)
      requires Valid()
      ensures var x := Seen(pt.level, v);
        forall k | k in regions && Contains(regions[k], x) ::
          r.Ok? && r.value.paddr == Backing(regions[k], x) && r.value.flags == Flags(Kept(regions[k].flags))
      ensures var x := Seen(pt.level, v);
        (forall k | k in regions :: !Contains(regions[k], x)) && !StaleAt(stale, x) ==> r == Err(NotMapped)
    {
      ghost var x := Seen(pt.level, v);
      r := pt.Query(v);
      if forall k | k in regions :: !Contains(regions[k], x) {
        if !StaleAt(stale, x) {
          NoRegionNoLeaf(regions, pt.level, pt.leaves, stale, x);
        }
      } else {
        forall k | k in regions && Contains(regions[k], x)
          ensures r.Ok? && r.value.paddr == Backing(regions[k], x) && r.value.flags == Flags(Kept(regions[k].flags))
        {
          var s, first := MappedLeaf(pt.leaves, regions[k], x);
          BackingInPage(regions[k].start, Phys(regions[k]), x, s, first);
        }
      }
    }
  }

  // Whole runs.

  datatype Op = InsertOp(region: Region) | DeleteOp(start: nat) | ClearOp

  /** What one operation does to the region list alone, given how it ended. */
  function Effect(regions: RegionMap, op: Op, end: Outcome): RegionMap
  {
    match op
    case InsertOp(r) => if end == Done && r.size > 0 then regions[r.start := r] else regions
    case DeleteOp(start) => regions - {start}
    case ClearOp => map[]
  }

  /** What a list of operations does to the region list alone, given how each of them ended. */
  function Replay(regions: RegionMap, ops: seq<Op>, ends: seq<Outcome>): RegionMap
    requires |ops| == |ends|
  {
    if ops == [] then regions
    else
      Effect(Replay(regions, ops[..|ops| - 1], ends[..|ends| - 1]), ops[|ops| - 1], ends[|ends| - 1])
  }

  /** An insertion that failed after `map` had started. */
  predicate FailedMidway(op: Op, end: Outcome)
  {
    op.InsertOp? && (end == Failed(ENOMEM) || end == Failed(EFAULT))
  }

  method Apply(ms: MemorySet, op: Op) returns (end: Outcome)
    requires ms.Valid() && (op.InsertOp? ==> Fits(op.region, ms.pt.level))
    modifies ms, ms.pt
    ensures ms.Valid() && ms.regions == Effect(old(ms.regions), op, end)
    ensures !FailedMidway(op, end) ==> ms.stale == old(ms.stale)
    ensures !op.InsertOp? ==> end == Done || end == Failed(EINVAL)
  {
    if op.InsertOp? {
      end := ms.Insert(op.region);
    } else if op.DeleteOp? {
      end := ms.Delete(op.start);
    } else {
      var _ := ms.Clear();
      end := Done;
    }
  }

  /** Any run of operations: the set stays valid, so page tables and regions agree; the regions are the plain replay of
      the run; and unless an insertion failed midway nothing is mapped besides them. */
  method Run(ms: MemorySet, ops: seq<Op>) returns (ends: seq<Outcome>)
    requires ms.Valid()
    requires forall i | 0 <= i < |ops| && ops[i].InsertOp? :: Fits(ops[i].region, ms.pt.level)
    modifies ms, ms.pt
    ensures ms.Valid() && |ends| == |ops|
    ensures ms.regions == Replay(old(ms.regions), ops, ends)
    ensures (forall i | 0 <= i < |ops| :: !FailedMidway(ops[i], ends[i])) ==> ms.stale == old(ms.stale)
    ensures forall i | 0 <= i < |ops| && !ops[i].InsertOp? :: ends[i] == Done || ends[i] == Failed(EINVAL)
  {
    ends := [];
    ghost var clean := true;
    while |ends| < |ops|
      invariant ms.Valid() && |ends| <= |ops|
      invariant ms.regions == Replay(old(ms.regions), ops[..|ends|], ends)
      invariant clean ==> ms.stale == old(ms.stale)
      invariant !clean ==> exists i :: 0 <= i < |ends| && FailedMidway(ops[i], ends[i])
      invariant forall i | 0 <= i < |ends| && !ops[i].InsertOp? :: ends[i] == Done || ends[i] == Failed(EINVAL)
    {
      var op := ops[|ends|];
      var end := Apply(ms, op);
      ReplayStep(old(ms.regions), ops, ends, end);
      clean := clean && !FailedMidway(op, end);
      ends := ends + [end];
    }
    assert ops[..|ends|] == ops;
  }

  lemma ReplayStep(regions: RegionMap, ops: seq<Op>, ends: seq<Outcome>, end: Outcome)
    requires |ends| < |ops|
    ensures Replay(regions, ops[..|ends| + 1], ends + [end])
         == Effect(Replay(regions, ops[..|ends|], ends), ops[|ends|], end)
  {
    var ops', ends' := ops[..|ends| + 1], ends + [end];
    assert ops'[..|ops'| - 1] == ops[..|ends|] && ends'[..|ends'| - 1] == ends;
  }

  /** Translation is exact precisely when the host start is page aligned, which `insert` does not check. */
  lemma ExactWhenAligned(r: Region, x: nat)
    requires Contains(r, x)
    ensures Backing(r, x) == Phys(r) + (x - r.start) <==> PageAligned(Phys(r))
  {
  }

  /** What the hardware makes of an address of the region: the region's byte and permissions, device or normal
      memory. */
  function RegionSays(r: Region, v: nat): Mmu
    requires r.start <= v
  {
    Output(Backing(r, v), READ in r.flags, WRITE in r.flags,
           if IO in r.flags then 1 else 15, if IO in r.flags then 0 else 3)
  }

  lemma LeafSaysRegion(leaves: Leaves, t: Tree, r: Region, v: nat)
    requires Wf(t, leaves) && Mapped(leaves, r) && Aligned(r) && Contains(r, v)
    ensures Says(leaves, v) == RegionSays(r, v)
  {
    var s, first := MappedLeaf(leaves, r, v);
    BackingInPage(r.start, Phys(r), v, s, first);
    OnlyLeaf(t, leaves, v, s);
  }

  /** The guest's view of a memory set, through the hardware walk of its tables: in a recorded region the region's own
      byte with the region's permissions; elsewhere a fault, up to pages of failed inserts. */
  lemma MmuTranslates(ms: MemorySet, v: nat)
    requires ms.Valid() && v < Limit(ms.pt.level)
    ensures forall k | k in ms.regions && Contains(ms.regions[k], v) ::
      MmuWalk(ms.pt.mem, ms.pt.root, ms.pt.level, v) == RegionSays(ms.regions[k], v)
    ensures (forall k | k in ms.regions :: !Contains(ms.regions[k], v)) && !StaleAt(ms.stale, v) ==>
      MmuWalk(ms.pt.mem, ms.pt.root, ms.pt.level, v) == Fault
  {
    MmuAgrees(ms.pt, v);
    forall k | k in ms.regions && Contains(ms.regions[k], v)
      ensures Says(ms.pt.leaves, v) == RegionSays(ms.regions[k], v)
    {
      LeafSaysRegion(ms.pt.leaves, ms.pt.T(), ms.regions[k], v);
    }
    if (forall k | k in ms.regions :: !Contains(ms.regions[k], v)) && !StaleAt(ms.stale, v) {
      NoRegionNoLeaf(ms.regions, ms.pt.level, ms.pt.leaves, ms.stale, v);
    }
  }

  lemma MmuInRegion(ms: MemorySet, k: nat, v: nat)
    requires ms.Valid() && v < Limit(ms.pt.level) && k in ms.regions && Contains(ms.regions[k], v)
    ensures MmuWalk(ms.pt.mem, ms.pt.root, ms.pt.level, v) == RegionSays(ms.regions[k], v)
  {
    MmuTranslates(ms, v);
  }
}
