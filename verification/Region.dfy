/** Memory regions, the offset mapper (src/memory/mapper.rs) and the pages `map` chooses for a region. */
module Regions {
  import opened Stage2Entry
  import opened PageTree
  import opened PageTables

  datatype Region = Region(start: nat, size: nat, flags: MemFlags, offset: Word)

  function WrappingSub(a: nat, b: nat): (r: Word)
    requires b < 0x1_0000_0000_0000_0000
  {
    (a + (0x1_0000_0000_0000_0000 - b)) % 0x1_0000_0000_0000_0000
  }

  /** `Mapper::Offset(off)` applied to a guest address. */
  function MapFn(r: Region, v: nat): Word
  {
    WrappingSub(v, r.offset)
  }

  function NewWithOffsetMapper(start: nat, paddr: Word, size: nat, flags: MemFlags): (r: Region)
    ensures start < 0x1_0000_0000_0000_0000 ==> MapFn(r, start) == paddr
  {
    Region(start, size, flags, WrappingSub(start, paddr))
  }

  /** The host physical address that backs the first guest address. */
  function Phys(r: Region): nat
  {
    MapFn(r, r.start)
  }

  /** The wrapping offset behaves as a plain displacement inside the region, whichever of the two sides is higher. */
  lemma MapFnShifts(r: Region, v: nat)
    requires r.start <= v && Phys(r) + (v - r.start) < 0x1_0000_0000_0000_0000
    ensures MapFn(r, v) == Phys(r) + (v - r.start)
  {
    var a := r.start + (0x1_0000_0000_0000_0000 - r.offset);
    var d := v - r.start;
    assert Phys(r) == a % 0x1_0000_0000_0000_0000;
    assert (a + d) % 0x1_0000_0000_0000_0000 == (a % 0x1_0000_0000_0000_0000 + d) % 0x1_0000_0000_0000_0000;
  }

  predicate PageAligned(a: nat)
  {
    a % 0x1000 == 0
  }

  /** What the code relies on and does not check: both address ranges are within what the tables can express. */
  predicate Fits(r: Region, level: nat)
  {
    r.start + r.size <= Limit(level) && Phys(r) + r.size <= 0x1_0000_0000_0000
  }

  /** That is exactly the case when the table sees every address of the region as it is and an entry can hold its host
      address. */
  lemma FitsExact(r: Region, level: nat)
    requires r.size > 0
    ensures Fits(r, level) <==>
            forall x: nat | r.start <= x < r.start + r.size :: Seen(level, x) == x && MapFn(r, x) < 0x1_0000_0000_0000
  {
    if Fits(r, level) {
      forall x: nat | r.start <= x < r.start + r.size
        ensures Seen(level, x) == x && MapFn(r, x) < 0x1_0000_0000_0000
      {
        MapFnShifts(r, x);
      }
    } else if r.start + r.size > Limit(level) {
      assert Seen(level, r.start + r.size - 1) != r.start + r.size - 1;
    } else {
      var x := if Phys(r) >= 0x1_0000_0000_0000 then r.start else r.start + (0x1_0000_0000_0000 - Phys(r));
      MapFnShifts(r, x);
      assert r.start <= x < r.start + r.size && MapFn(r, x) >= 0x1_0000_0000_0000;
    }
  }

  /** The page size `map` takes for the next step. */
  function ChooseSize(v: nat, p: nat, n: nat, flags: MemFlags): PageSize
  {
    if PageOffset(Size1G, v) == 0 && PageOffset(Size1G, p) == 0 && n >= 0x4000_0000 && NO_HUGEPAGES !in flags then
      Size1G
    else if PageOffset(Size2M, v) == 0 && PageOffset(Size2M, p) == 0 && n >= 0x20_0000 && NO_HUGEPAGES !in flags then
      Size2M
    else Size4K
  }

  // The plan counts in 4K pages: page `a` is guest address 0x1000 * a.

  function Pages(s: PageSize): (n: nat)
    ensures n > 0
  {
    match s
    case Size4K => 1
    case Size2M => 512
    case Size1G => 262144
  }

  predicate OnBoundary(a: nat, s: PageSize)
  {
    match s
    case Size4K => true
    case Size2M => a % 512 == 0
    case Size1G => a % 262144 == 0
  }

  function ChoosePages(a: nat, b: nat, n: nat, huge: bool): (s: PageSize)
    ensures n > 0 ==> Pages(s) <= n
    ensures OnBoundary(a, s) && OnBoundary(b, s)
  {
    if huge && OnBoundary(a, Size1G) && OnBoundary(b, Size1G) && n >= 262144 then Size1G
    else if huge && OnBoundary(a, Size2M) && OnBoundary(b, Size2M) && n >= 512 then Size2M
    else Size4K
  }

  ghost function PageSpot(a: nat, s: PageSize): Spot
  {
    match s
    case Size4K => Spot(1, a)
    case Size2M => Spot(2, a / 512)
    case Size1G => Spot(3, a / 262144)
  }

  /** The leaf slots that mapping `n` pages from guest page `a` to host page `b` fills, each with its host page. */
  ghost function Plan(a: nat, b: nat, n: nat, huge: bool): map<Spot, nat>
    decreases n
  {
    if n == 0 then map[]
    else
      var s := ChoosePages(a, b, n, huge);
      Plan(a + Pages(s), b + Pages(s), n - Pages(s), huge)[PageSpot(a, s) := b]
  }

  ghost function FirstPage(spot: Spot): nat
  {
    if spot.level <= 1 then spot.num else if spot.level == 2 then spot.num * 512 else spot.num * 262144
  }

  ghost function EndPage(spot: Spot): nat
  {
    FirstPage(spot) + if spot.level <= 1 then 1 else if spot.level == 2 then 512 else 262144
  }

  /** The pages of a leaf slot lie in `lo .. hi`. */
  ghost predicate Inside(spot: Spot, lo: nat, hi: nat)
  {
    1 <= spot.level <= 3 && lo <= FirstPage(spot) && EndPage(spot) <= hi
  }

  lemma PageInside(a: nat, s: PageSize)
    requires OnBoundary(a, s)
    ensures Inside(PageSpot(a, s), a, a + Pages(s))
  {
  }

  lemma {:induction false} PlanInside(a: nat, b: nat, n: nat, huge: bool, spot: Spot)
    requires spot in Plan(a, b, n, huge)
    ensures Inside(spot, a, a + n)
    decreases n
  {
    var s := ChoosePages(a, b, n, huge);
    PageInside(a, s);
    if spot != PageSpot(a, s) {
      PlanInside(a + Pages(s), b + Pages(s), n - Pages(s), huge, spot);
    }
  }

  /** The first page of a plan is not mapped again further on. */
  lemma PlanStep(a: nat, b: nat, n: nat, huge: bool, s: PageSize) returns (rest: map<Spot, nat>)
    requires n > 0 && s == ChoosePages(a, b, n, huge)
    ensures rest == Plan(a + Pages(s), b + Pages(s), n - Pages(s), huge)
    ensures PageSpot(a, s) !in rest && Plan(a, b, n, huge) == rest[PageSpot(a, s) := b]
  {
    rest := Plan(a + Pages(s), b + Pages(s), n - Pages(s), huge);
    PageInside(a, s);
    if PageSpot(a, s) in rest {
      PlanInside(a + Pages(s), b + Pages(s), n - Pages(s), huge, PageSpot(a, s));
    }
  }

  /** The leaf over a page of the planned range: its place and its word, whatever mix of sizes was chosen. */
  lemma {:induction false} PlanCovers(a: nat, b: nat, n: nat, huge: bool, x: nat)
    returns (s: PageSize, first: nat)
    requires a <= x < a + n
    ensures a <= first <= x < first + Pages(s) && OnBoundary(first, s)
    ensures PageSpot(first, s) in Plan(a, b, n, huge)
    ensures Plan(a, b, n, huge)[PageSpot(first, s)] == b + (first - a)
    decreases n
  {
    s, first := ChoosePages(a, b, n, huge), a;
    if x >= a + Pages(s) {
      var skip := s;
      var rest := PlanStep(a, b, n, huge, skip);
      s, first := PlanCovers(a + Pages(skip), b + Pages(skip), n - Pages(skip), huge, x);
    }
  }

  // Back to byte addresses.

  /** Huge pages are possible only if the host start is page aligned and the region does not forbid them. */
  predicate MayBeHuge(r: Region)
  {
    PageAligned(Phys(r)) && NO_HUGEPAGES !in r.flags
  }

  lemma PageUnits(x: nat)
    ensures x / 0x1000 % 512 == 0 && x % 0x1000 == 0 <==> x % 0x20_0000 == 0
    ensures x / 0x1000 % 262144 == 0 && x % 0x1000 == 0 <==> x % 0x4000_0000 == 0
    ensures x / 0x20_0000 == x / 0x1000 / 512
    ensures x / 0x4000_0000 == x / 0x1000 / 262144
  {
  }

  /** `map`'s byte-level choice is the page-level one. */
  lemma ChooseInPages(v: nat, p: nat, n: nat, flags: MemFlags)
    requires PageAligned(v) && PageAligned(n)
    ensures ChooseSize(v, p, n, flags)
         == ChoosePages(v / 0x1000, p / 0x1000, n / 0x1000, PageAligned(p) && NO_HUGEPAGES !in flags)
  {
    PageUnits(v);
    PageUnits(p);
  }

  lemma SpotInPages(v: nat, s: PageSize)
    ensures Spot(LevelOf(s), Num(LevelOf(s), v)) == PageSpot(v / 0x1000, s)
  {
    PageUnits(v);
  }

  /** The slots a region fills, each with its host page. */
  ghost function PlanOf(r: Region): map<Spot, nat>
  {
    Plan(r.start / 0x1000, Phys(r) / 0x1000, r.size / 0x1000, MayBeHuge(r))
  }

  ghost function PlannedLeaf(r: Region, plan: map<Spot, nat>, s: Spot): Leaf
    requires s in plan
  {
    Leaf(0x1000 * plan[s], Kept(r.flags))
  }

  /** A slot of the region holds exactly what was planned for it. */
  ghost predicate Filled(leaves: Leaves, r: Region, plan: map<Spot, nat>, s: Spot)
  {
    s in plan ==> s in leaves && leaves[s] == PlannedLeaf(r, plan, s)
  }

  /** Every page of the region is mapped the way the region says. */
  ghost predicate Mapped(leaves: Leaves, r: Region)
  {
    var plan := PlanOf(r);
    forall s :: Filled(leaves, r, plan, s)
  }

  /** Where a guest address of the region is backed: at the same distance from the page that holds `Phys(r)`. */
  function Backing(r: Region, x: nat): nat
    requires r.start <= x
  {
    AlignDown(Size4K, Phys(r)) + (x - r.start)
  }

  lemma OffsetInPage(first: nat, x: nat, s: PageSize)
    requires OnBoundary(first, s) && first <= x / 0x1000 < first + Pages(s)
    ensures PageSpot(x / 0x1000, s) == PageSpot(first, s)
    ensures PageOffset(s, x) == x - 0x1000 * first
  {
    PageUnits(x);
  }

  /** A mapped region is translated as a whole: over each address lies one leaf, at the region's own distance and with
      its flags. */
  lemma MappedLeaf(leaves: Leaves, r: Region, x: nat) returns (s: PageSize, first: nat)
    requires Mapped(leaves, r) && PageAligned(r.start) && PageAligned(r.size)
    requires r.start <= x < r.start + r.size
    ensures r.start / 0x1000 <= first <= x / 0x1000 < first + Pages(s) && OnBoundary(first, s)
    ensures Covers(leaves, s, x)
    ensures LeafAt(leaves, s, x) == Leaf(0x1000 * (Phys(r) / 0x1000 + (first - r.start / 0x1000)), Kept(r.flags))
  {
    var a, b, n := r.start / 0x1000, Phys(r) / 0x1000, r.size / 0x1000;
    s, first := PlanCovers(a, b, n, MayBeHuge(r), x / 0x1000);
    assert Filled(leaves, r, PlanOf(r), PageSpot(first, s));
    OffsetInPage(first, x, s);
    SpotInPages(x, s);
  }

  /** The leaf's address and the offset in its page add up to the byte behind the guest address: for a region from
      `start` on that is backed from `p` on. */
  lemma BackingInPage(start: nat, p: nat, x: nat, s: PageSize, first: nat)
    requires PageAligned(start) && start <= x && start / 0x1000 <= first
    requires OnBoundary(first, s) && first <= x / 0x1000 < first + Pages(s)
    ensures 0x1000 * (p / 0x1000 + (first - start / 0x1000)) + PageOffset(s, x) == AlignDown(Size4K, p) + (x - start)
  {
    OffsetInPage(first, x, s);
  }
}
