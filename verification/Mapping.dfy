/** `HvPageTable::map` and `HvPageTable::unmap` of src/arch/aarch64/paging.rs: whole regions. */
module Mapping {
  import opened Stage2Entry
  import opened PageTree
  import opened PageTables
  import opened Regions

  datatype Errno = ENOMEM | EFAULT | EINVAL

  /** How a call ends: normally, with an error, in a failed assertion, or in the spin loop of `unmap`. */
  datatype Outcome = Done | Failed(errno: Errno) | Panicked | Spinning

  /** `From<PagingError> for HvError`. */
  function ToErrno(e: PagingError): Errno
  {
    if e == NoMemory then ENOMEM else EFAULT
  }

  predicate Aligned(r: Region)
  {
    PageAligned(r.start) && PageAligned(r.size)
  }

  /** `leaves'` is `leaves` plus the planned leaves in `added`, none of which was there before. */
  ghost predicate Added(leaves: Leaves, leaves': Leaves, r: Region, plan: map<Spot, nat>, added: set<Spot>)
  {
    && leaves'.Keys == leaves.Keys + added
    && added !! leaves.Keys
    && added <= plan.Keys
    && (forall s | s in leaves :: leaves'[s] == leaves[s])
    && (forall s | s in added :: leaves'[s] == PlannedLeaf(r, plan, s))
  }

  ghost function SpotAt(v: nat, s: PageSize): Spot
  {
    Spot(LevelOf(s), Num(LevelOf(s), v))
  }

  /** A round of `map` in bytes and in pages: the same choice, the same slot, the same host page. */
  lemma RoundInPages(v: nat, p: nat, n: nat, flags: MemFlags, a: nat, b: nat, m: nat)
    requires v == 0x1000 * a && n == 0x1000 * m && p / 0x1000 == b
    ensures var s := ChooseSize(v, p, n, flags);
      && s == ChoosePages(a, b, m, PageAligned(p) && NO_HUGEPAGES !in flags)
      && Bytes(s) == 0x1000 * Pages(s)
      && SpotAt(v, s) == PageSpot(a, s)
      && PageOffset(s, v) == 0
      && AlignDown(s, p) == 0x1000 * b
  {
    var s := ChooseSize(v, p, n, flags);
    ChooseInPages(v, p, n, flags);
    SpotInPages(v, s);
    PageUnits(v);
    PageUnits(p);
  }

  datatype WalkState = WalkState(a: nat, b: nat, m: nat, huge: bool, rest: map<Spot, nat>)

  /** Where a walk over a region stands: `m` pages left, from guest page `a` and host page `b` on, and their plan. */
  type Walk = w: WalkState | w.rest == Plan(w.a, w.b, w.m, w.huge)
    ghost witness WalkState(0, 0, 0, false, map[])

  ghost function StartWalk(r: Region): Walk
  {
    WalkState(r.start / 0x1000, Phys(r) / 0x1000, r.size / 0x1000, MayBeHuge(r), PlanOf(r))
  }

  ghost predicate WalkAt(w: Walk, r: Region, v: nat, n: nat)
  {
    && v == 0x1000 * w.a && n == 0x1000 * w.m
    && r.start <= v && v + n == r.start + r.size
    && w.b == Phys(r) / 0x1000 + (w.a - r.start / 0x1000)
    && w.huge == MayBeHuge(r)
  }

  lemma Advance(w: Walk, s: PageSize) returns (w': Walk)
    requires w.m > 0 && s == ChoosePages(w.a, w.b, w.m, w.huge)
    ensures w'.a == w.a + Pages(s) && w'.b == w.b + Pages(s) && w'.m == w.m - Pages(s) && w'.huge == w.huge
    ensures PageSpot(w.a, s) !in w'.rest && w.rest == w'.rest[PageSpot(w.a, s) := w.b]
  {
    var rest := PlanStep(w.a, w.b, w.m, w.huge, s);
    w' := WalkState(w.a + Pages(s), w.b + Pages(s), w.m - Pages(s), w.huge, rest);
  }

  /** `done` and `rest` split the plan. */
  ghost predicate Remaining(plan: map<Spot, nat>, done: set<Spot>, rest: map<Spot, nat>)
  {
    && done !! rest.Keys
    && plan.Keys == done + rest.Keys
    && (forall s | s in rest :: plan[s] == rest[s])
  }

  lemma PageAdded(leaves0: Leaves, before: Leaves, after: Leaves, r: Region, plan: map<Spot, nat>, added: set<Spot>,
                  spot: Spot, b: nat, rest: map<Spot, nat>)
    requires Added(leaves0, before, r, plan, added)
    requires spot !in rest && Remaining(plan, added, rest[spot := b])
    requires spot !in before && after == before[spot := Leaf(0x1000 * b, Kept(r.flags))]
    ensures Added(leaves0, after, r, plan, added + {spot})
    ensures Remaining(plan, added + {spot}, rest)
  {
    assert spot in rest[spot := b];
    assert plan[spot] == b;
  }

  /** How `map` ends over pages that no leaf covers: from `m` pages on, with this stock of tables and frames. */
  ghost function RegionFate(k: Stock, level: nat, a: nat, b: nat, m: nat, huge: bool): Outcome
    decreases m
  {
    if m == 0 then Done
    else
      var s := ChoosePages(a, b, m, huge);
      match PageFate(k, level, s, 0x1000 * a)
      case Ok(k') => RegionFate(k', level, a + Pages(s), b + Pages(s), m - Pages(s), huge)
      case Err(e) => Failed(ToErrno(e))
  }

  ghost function WalkEnds(k: Stock, level: nat, w: Walk): Outcome
  {
    RegionFate(k, level, w.a, w.b, w.m, w.huge)
  }

  ghost predicate Clear(leaves: Leaves, r: Region)
  {
    forall x | r.start <= x < r.start + r.size :: Uncovered(leaves, x)
  }

  /** Why a round of `map` at `v` refuses: no frame is left, a leaf already covers `v`, or a table kept from earlier
      mappings sits where a block would go. */
  ghost predicate Refused(t: Tree, leaves: Leaves, pool: seq<nat>, huge: bool, e: Errno, v: nat)
  {
    || (e == ENOMEM && pool == [])
    || (e == EFAULT && !Uncovered(leaves, v))
    || (e == EFAULT && huge && exists s: PageSize :: IsTableSlot(t, LevelOf(s), Num(LevelOf(s), v)))
  }

  /** One round of `map`'s loop: the size of the page it mapped, or the error it stops with. */
  method MapNext(pt: PageTable, r: Region, v: nat, n: nat, ghost a: nat, ghost b: nat, ghost m: nat)
    returns (res: PagingResult<PageSize>)
    requires pt.Valid() && Fits(r, pt.level)
    requires v == 0x1000 * a && n == 0x1000 * m && m > 0 && r.start <= v && v + n == r.start + r.size
    requires PageAligned(r.start) && b == Phys(r) / 0x1000 + (a - r.start / 0x1000)
    modifies pt
    ensures pt.Valid() && Grown(old(pt.dir), pt.dir)
    ensures res.Err? ==> pt.leaves == old(pt.leaves)
    ensures res.Err? ==> Refused(pt.T(), pt.leaves, pt.pool, MayBeHuge(r), ToErrno(res.error), v)
    ensures Uncovered(old(pt.leaves), v) ==>
      match PageFate(old(pt.Supply()), pt.level, ChoosePages(a, b, m, MayBeHuge(r)), v)
      case Ok(k) => res.Ok? && pt.Supply() == k
      case Err(e) => res == Err(e)
    ensures res.Ok? ==>
      var s := res.value;
      && s == ChoosePages(a, b, m, MayBeHuge(r))
      && Bytes(s) == 0x1000 * Pages(s)
      && PageSpot(a, s) !in old(pt.leaves)
      && pt.leaves == old(pt.leaves)[PageSpot(a, s) := Leaf(0x1000 * b, Kept(r.flags))]
  {
    var paddr := MapFn(r, v);
    MapFnShifts(r, v);
    HostPage(Phys(r), r.start, v, a);
    var s := ChooseSize(v, paddr, n, r.flags);
    RoundInPages(v, paddr, n, r.flags, a, b, m);
    assert Seen(pt.level, v) == v && paddr < 0x1_0000_0000_0000;
    assert AlignDown(s, paddr) % 0x1_0000_0000_0000 == 0x1000 * b;
    var page := pt.MapPage(v, s, paddr, r.flags);
    if page.Err? {
      return Err(page.error);
    }
    return Ok(s);
  }

  lemma HostPage(p0: nat, start: nat, v: nat, a: nat)
    requires PageAligned(start) && v == 0x1000 * a && start <= v
    ensures (p0 + (v - start)) / 0x1000 == p0 / 0x1000 + (a - start / 0x1000)
    ensures PageAligned(p0 + (v - start)) <==> PageAligned(p0)
  {
  }

  /** The pages mapped so far end before page `a`, so a leaf over page `a` was there from the start. */
  lemma CoveredBefore(leaves0: Leaves, leaves: Leaves, added: set<Spot>, a: nat, v: nat)
    requires v == 0x1000 * a && leaves.Keys == leaves0.Keys + added
    requires forall s | s in added :: EndPage(s) <= a
    ensures Uncovered(leaves0, v) ==> Uncovered(leaves, v)
  {
    if Uncovered(leaves0, v) {
      forall s: PageSize
        ensures !Covers(leaves, s, v)
      {
        assert !Covers(leaves0, s, v);
        SpotInPages(v, s);
      }
    }
  }

  /** Between two rounds: the pages before `v` are mapped and the walk has the rest. */
  ghost predicate Progress(leaves0: Leaves, leaves: Leaves, r: Region, added: set<Spot>, w: Walk, v: nat, n: nat)
  {
    && WalkAt(w, r, v, n)
    && Added(leaves0, leaves, r, PlanOf(r), added)
    && Remaining(PlanOf(r), added, w.rest)
    && forall s | s in added :: EndPage(s) <= w.a
  }

  /** Nothing has changed how the walk will end. */
  ghost predicate OnCourse(leaves0: Leaves, r: Region, level: nat, k0: Stock, k: Stock, w: Walk)
  {
    Clear(leaves0, r) ==> WalkEnds(k0, level, StartWalk(r)) == WalkEnds(k, level, w)
  }

  /** A round that has mapped its page. */
  lemma RoundDone(leaves0: Leaves, before: Leaves, after: Leaves, r: Region, added: set<Spot>, w: Walk, v: nat, n: nat,
                  s: PageSize)
    returns (w': Walk)
    requires Progress(leaves0, before, r, added, w, v, n) && n > 0
    requires s == ChoosePages(w.a, w.b, w.m, w.huge) && Bytes(s) == 0x1000 * Pages(s) && PageSpot(w.a, s) !in before
    requires after == before[PageSpot(w.a, s) := Leaf(0x1000 * w.b, Kept(r.flags))]
    ensures Bytes(s) <= n && Progress(leaves0, after, r, added + {PageSpot(w.a, s)}, w', v + Bytes(s), n - Bytes(s))
    ensures w'.a == w.a + Pages(s) && w'.b == w.b + Pages(s) && w'.m == w.m - Pages(s) && w'.huge == w.huge
  {
    w' := Advance(w, s);
    PageInside(w.a, s);
    PageAdded(leaves0, before, after, r, PlanOf(r), added, PageSpot(w.a, s), w.b, w'.rest);
  }

  lemma StaysOnCourse(leaves0: Leaves, r: Region, level: nat, k0: Stock, k: Stock, k': Stock, w: Walk, w': Walk,
                      s: PageSize)
    requires OnCourse(leaves0, r, level, k0, k, w) && w.m > 0 && s == ChoosePages(w.a, w.b, w.m, w.huge)
    requires Clear(leaves0, r) ==> PageFate(k, level, s, 0x1000 * w.a) == Ok(k')
    requires w'.a == w.a + Pages(s) && w'.b == w.b + Pages(s) && w'.m == w.m - Pages(s) && w'.huge == w.huge
    ensures OnCourse(leaves0, r, level, k0, k', w')
  {
  }

  /** The page at which a round stops or goes on is covered only if it was from the start. */
  lemma StillClear(leaves0: Leaves, leaves: Leaves, r: Region, added: set<Spot>, w: Walk, v: nat, n: nat)
    requires Progress(leaves0, leaves, r, added, w, v, n) && n > 0
    ensures Uncovered(leaves0, v) ==> Uncovered(leaves, v)
    ensures Clear(leaves0, r) ==> Uncovered(leaves, v)
    ensures r.start <= v < r.start + r.size
  {
    CoveredBefore(leaves0, leaves, added, w.a, v);
  }

  /** A round of the loop, with where the walk stands after it. */
  method MapRound(pt: PageTable, r: Region, v: nat, n: nat, ghost leaves0: Leaves, ghost stock: Stock,
                  ghost added: set<Spot>, ghost w: Walk)
    returns (res: PagingResult<PageSize>, ghost added': set<Spot>, ghost w': Walk)
    requires pt.Valid() && Fits(r, pt.level) && Aligned(r) && n > 0
    requires Progress(leaves0, pt.leaves, r, added, w, v, n)
    requires OnCourse(leaves0, r, pt.level, stock, pt.Supply(), w)
    modifies pt
    ensures pt.Valid() && Grown(old(pt.dir), pt.dir)
    ensures res.Ok? ==> 0 < Bytes(res.value) <= n
    ensures res.Ok? ==> Progress(leaves0, pt.leaves, r, added', w', v + Bytes(res.value), n - Bytes(res.value))
    ensures res.Ok? ==> OnCourse(leaves0, r, pt.level, stock, pt.Supply(), w')
    ensures res.Err? ==> pt.leaves == old(pt.leaves) && added' == added
    ensures res.Err? ==>
      && r.start <= v < r.start + r.size
      && Refused(pt.T(), leaves0, pt.pool, MayBeHuge(r), ToErrno(res.error), v)
    ensures res.Err? && Clear(leaves0, r) ==> WalkEnds(stock, pt.level, StartWalk(r)) == Failed(ToErrno(res.error))
  {
    ghost var before, k := pt.leaves, pt.Supply();
    StillClear(leaves0, pt.leaves, r, added, w, v, n);
    res := MapNext(pt, r, v, n, w.a, w.b, w.m);
    added', w' := added, w;
    if res.Ok? {
      w' := RoundDone(leaves0, before, pt.leaves, r, added, w, v, n, res.value);
      StaysOnCourse(leaves0, r, pt.level, stock, k, pt.Supply(), w, w', res.value);
      added' := added + {PageSpot(w.a, res.value)};
    }
  }

  /** `map`.  Success maps the whole region and nothing else; an error leaves some of its pages mapped and every other
      leaf as it was. */
  method MapRegion(pt: PageTable, r: Region) returns (res: Outcome, ghost added: set<Spot>, ghost at: nat)
    requires pt.Valid() && Fits(r, pt.level)
    modifies pt
    ensures pt.Valid() && Grown(old(pt.dir), pt.dir)
    ensures Added(old(pt.leaves), pt.leaves, r, PlanOf(r), added)
    ensures res == Panicked <==> !Aligned(r)
    ensures res == Panicked ==> added == {}
    ensures res == Done ==> added == PlanOf(r).Keys
    ensures res == Done || res == Panicked || res == Failed(ENOMEM) || res == Failed(EFAULT)
    ensures res.Failed? ==>
      && r.start <= at < r.start + r.size
      && Refused(pt.T(), old(pt.leaves), pt.pool, MayBeHuge(r), res.errno, at)
    ensures Aligned(r) && Clear(old(pt.leaves), r) ==> res == WalkEnds(old(pt.Supply()), pt.level, StartWalk(r))
  {
    if !Aligned(r) {
      return Panicked, {}, r.start;
    }
    res, added, at := MapPages(pt, r);
  }

  /** The loop of `map`, behind its assertions. */
  method MapPages(pt: PageTable, r: Region) returns (res: Outcome, ghost added: set<Spot>, ghost at: nat)
    requires pt.Valid() && Fits(r, pt.level) && Aligned(r)
    modifies pt
    ensures pt.Valid() && Grown(old(pt.dir), pt.dir)
    ensures Added(old(pt.leaves), pt.leaves, r, PlanOf(r), added)
    ensures res == Done ==> added == PlanOf(r).Keys
    ensures res == Done || res == Failed(ENOMEM) || res == Failed(EFAULT)
    ensures res.Failed? ==>
      && r.start <= at < r.start + r.size
      && Refused(pt.T(), old(pt.leaves), pt.pool, MayBeHuge(r), res.errno, at)
    ensures Clear(old(pt.leaves), r) ==> res == WalkEnds(old(pt.Supply()), pt.level, StartWalk(r))
  {
    added, at := {}, r.start;
    var v: nat, n: nat := r.start, r.size;
    ghost var w, stock, before := StartWalk(r), pt.Supply(), pt.leaves;
    while n > 0
      invariant pt.Valid() && Grown(old(pt.dir), pt.dir)
      invariant Progress(before, pt.leaves, r, added, w, v, n)
      invariant OnCourse(before, r, pt.level, stock, pt.Supply(), w)
      decreases n
    {
      var next: PagingResult<PageSize>;
      next, added, w := MapRound(pt, r, v, n, before, stock, added, w);
      if next.Err? {
        return Failed(ToErrno(next.error)), added, v;
      }
      v, n := v + Bytes(next.value), n - Bytes(next.value);
    }
    WalkDone(before, pt.leaves, r, pt.level, stock, pt.Supply(), added, w, v);
    return Done, added, at;
  }

  lemma WalkDone(leaves0: Leaves, leaves: Leaves, r: Region, level: nat, k0: Stock, k: Stock, added: set<Spot>, w: Walk,
                 v: nat)
    requires Progress(leaves0, leaves, r, added, w, v, 0) && OnCourse(leaves0, r, level, k0, k, w)
    ensures Added(leaves0, leaves, r, PlanOf(r), added) && added == PlanOf(r).Keys
    ensures Clear(leaves0, r) ==> WalkEnds(k0, level, StartWalk(r)) == Done
  {
  }

  /** The next round of `unmap` on a mapped region: the only leaf over `v` has the size that `map` chose. */
  lemma UnmapRound(t: Tree, leaves0: Leaves, leaves: Leaves, r: Region, w: Walk, gone: set<Spot>, v: nat, n: nat)
    returns (s: PageSize, w': Walk)
    requires Wf(t, leaves) && Mapped(leaves0, r) && leaves == leaves0 - gone
    requires WalkAt(w, r, v, n) && n > 0 && Remaining(PlanOf(r), gone, w.rest)
    ensures Covers(leaves, s, v) && forall s' | Covers(leaves, s', v) :: s' == s
    ensures PageOffset(s, v) == 0 && Bytes(s) <= n
    ensures WalkAt(w', r, v + Bytes(s), n - Bytes(s))
    ensures Remaining(PlanOf(r), gone + {SpotAt(v, s)}, w'.rest)
  {
    s := ChoosePages(w.a, w.b, w.m, w.huge);
    w' := Advance(w, s);
    var spot := PageSpot(w.a, s);
    assert spot in w.rest;
    assert Filled(leaves0, r, PlanOf(r), spot);
    SpotInPages(v, s);
    PageUnits(v);
    OnlyLeaf(t, leaves, v, s);
  }

  lemma OnlyLeaf(t: Tree, leaves: Leaves, v: nat, s: PageSize)
    requires Wf(t, leaves) && Covers(leaves, s, v)
    ensures forall s' | Covers(leaves, s', v) :: s' == s
  {
    forall s' | Covers(leaves, s', v)
      ensures s' == s
    {
      LeavesApart(t, leaves, v, LevelOf(s), LevelOf(s'));
    }
  }

  /** `unmap`.  On a fully mapped region it meets exactly the page sizes that `map` chose, so neither its spin loop nor
      its assertions are reached, and it removes exactly the region's leaves.  On any other region it never adds or
      changes a leaf. */
  method UnmapRegion(pt: PageTable, r: Region) returns (res: Outcome, ghost gone: set<Spot>)
    requires pt.Valid() && r.start + r.size <= Limit(pt.level)
    modifies pt`mem, pt`leaves
    ensures pt.Valid()
    ensures old(Mapped(pt.leaves, r)) && Aligned(r) ==> res == Done && gone == PlanOf(r).Keys
    ensures pt.leaves == old(pt.leaves) - gone
  {
    var v: nat, n: nat := r.start, r.size;
    ghost var mapped := Mapped(pt.leaves, r) && Aligned(r);
    ghost var w: Walk := StartWalk(r);
    gone := {};
    while n > 0
      invariant pt.Valid() && v + n == r.start + r.size
      invariant pt.leaves == old(pt.leaves) - gone
      invariant mapped ==> WalkAt(w, r, v, n) && Remaining(PlanOf(r), gone, w.rest)
    {
      ghost var s: PageSize := Size4K;
      if mapped {
        s, w := UnmapRound(pt.T(), old(pt.leaves), pt.leaves, r, w, gone, v, n);
      }
      var page := pt.UnmapPage(v);
      if page.Err? {
        return Failed(ToErrno(page.error)), gone;
      }
      var size := page.value.1;
      gone := gone + {SpotAt(v, size)};
      if PageOffset(size, v) != 0 {
        return Spinning, gone;
      }
      if Bytes(size) > n {
        return Panicked, gone;
      }
      v, n := v + Bytes(size), n - Bytes(size);
    }
    return Done, gone;
  }
}
