/** How `map` of a region ends, in closed form: which of its blocks meets a table from earlier mappings, and how many
    table frames it takes to get there. */
module MapFate {
  import opened Options
  import opened Stage2Entry
  import opened PageTree
  import opened PageTables
  import opened Regions
  import opened Mapping

  /** The tables below the root on the way to a page of this size. */
  ghost function Path(level: nat, s: PageSize, a: nat): set<Spot>
  {
    Upper(level, a) + (Middle(s, a) + Lower(s, a))
  }

  /** A table sits where this block would go. */
  ghost predicate Blocked(tables: set<Spot>, spot: Spot)
  {
    spot.level > 1 && Spot(spot.level - 1, spot.num) in tables
  }

  lemma NumbersOfPage(a: nat)
    ensures Num(2, 0x1000 * a) == a / 0x200 && Num(3, 0x1000 * a) == a / 0x4_0000 &&
      Num(4, 0x1000 * a) == a / 0x800_0000
  {
  }

  /** The tables of a path exist afterwards, one frame taken for each that did not; or there are too few frames. */
  ghost predicate Ends(k: Stock, path: set<Spot>, r: PagingResult<Stock>)
  {
    var n := |path - k.tables|;
    r == if k.free < n then Err(NoMemory) else Ok(Stock(k.tables + path, k.free - n))
  }

  lemma OneTable(k: Stock, l: nat, v: nat)
    ensures Ends(k, {Spot(l, Num(l + 1, v))}, TableFate(k, l, v))
  {
    var spot := Spot(l, Num(l + 1, v));
    if spot in k.tables {
      assert {spot} - k.tables == {};
      assert k.tables + {spot} == k.tables;
    } else {
      assert {spot} - k.tables == {spot};
    }
  }

  lemma NoTable(k: Stock)
    ensures Ends(k, {}, Ok(k))
  {
    assert {} - k.tables == {} && k.tables + {} == k.tables;
  }

  /** One path after the other. */
  lemma TwoPaths(k: Stock, p: set<Spot>, q: set<Spot>, first: PagingResult<Stock>, last: PagingResult<Stock>)
    requires Ends(k, p, first)
    requires if first.Ok? then Ends(first.value, q, last) else last == first
    ensures Ends(k, p + q, last)
  {
    TwoParts(p, q, k.tables);
    assert k.tables + (p + q) == k.tables + p + q;
  }

  ghost function Upper(level: nat, a: nat): set<Spot>
  {
    if level == 4 then {Spot(3, a / 0x800_0000)} else {}
  }

  ghost function Middle(s: PageSize, a: nat): set<Spot>
  {
    if s != Size1G then {Spot(2, a / 0x4_0000)} else {}
  }

  ghost function Lower(s: PageSize, a: nat): set<Spot>
  {
    if s == Size4K then {Spot(1, a / 0x200)} else {}
  }

  lemma LowerFateEnds(k: Stock, s: PageSize, a: nat)
    ensures Ends(k, Middle(s, a) + Lower(s, a), LowerFate(k, s, 0x1000 * a))
  {
    NumbersOfPage(a);
    var v := 0x1000 * a;
    var k2 := if s != Size1G then TableFate(k, 2, v) else Ok(k);
    if s != Size1G {
      OneTable(k, 2, v);
    } else {
      NoTable(k);
    }
    if k2.Ok? {
      if s == Size4K {
        OneTable(k2.value, 1, v);
      } else {
        NoTable(k2.value);
      }
    }
    TwoPaths(k, Middle(s, a), Lower(s, a), k2, LowerFate(k, s, v));
  }

  lemma WalkFateEnds(k: Stock, level: nat, s: PageSize, a: nat)
    requires level == 3 || level == 4
    ensures Ends(k, Path(level, s, a), WalkFate(k, level, s, 0x1000 * a))
  {
    NumbersOfPage(a);
    var v := 0x1000 * a;
    var k3 := if level == 4 then TableFate(k, 3, v) else Ok(k);
    if level == 4 {
      OneTable(k, 3, v);
    } else {
      NoTable(k);
    }
    if k3.Ok? {
      LowerFateEnds(k3.value, s, a);
    }
    TwoPaths(k, Upper(level, a), Middle(s, a) + Lower(s, a), k3, WalkFate(k, level, s, v));
  }

  // A list of pages, each with its path and, for a block, the table that would be in its way.

  datatype Item = Item(path: set<Spot>, rival: Option<Spot>)

  ghost predicate Stopped(tables: set<Spot>, it: Item)
  {
    it.rival.Some? && it.rival.value in tables
  }

  ghost function After(k: Stock, path: set<Spot>): Stock
    requires k.free >= |path - k.tables|
  {
    Stock(k.tables + path, k.free - |path - k.tables|)
  }

  ghost function ItemFate(k: Stock, it: Item): PagingResult<Stock>
  {
    if k.free < |it.path - k.tables| then Err(NoMemory)
    else if Stopped(k.tables, it) then Err(AlreadyMapped)
    else Ok(After(k, it.path))
  }

  ghost function ListFate(k: Stock, items: seq<Item>): Outcome
    decreases |items|
  {
    if items == [] then Done
    else
      match ItemFate(k, items[0])
      case Ok(k') => ListFate(k', items[1..])
      case Err(e) => Failed(ToErrno(e))
  }

  /** The tables that the items need up to the first one that is stopped, or all of them. */
  ghost function Needed(tables: set<Spot>, items: seq<Item>): set<Spot>
    decreases |items|
  {
    if items == [] then {}
    else items[0].path + (if Stopped(tables, items[0]) then {} else Needed(tables, items[1..]))
  }

  ghost predicate SomeStopped(tables: set<Spot>, items: seq<Item>)
  {
    exists i :: 0 <= i < |items| && Stopped(tables, items[i])
  }

  /** These tables are in nobody's way. */
  ghost predicate Harmless(more: set<Spot>, items: seq<Item>)
  {
    forall i | 0 <= i < |items| :: !Stopped(more, items[i])
  }

  /** No item creates a table in the way of a later one. */
  ghost predicate Sound(items: seq<Item>)
    decreases |items|
  {
    items == [] || (Harmless(items[0].path, items[1..]) && Sound(items[1..]))
  }

  lemma {:induction false} SameNeeded(tables: set<Spot>, more: set<Spot>, items: seq<Item>)
    requires Harmless(more, items)
    ensures Needed(tables + more, items) == Needed(tables, items)
    decreases |items|
  {
    if items != [] {
      assert Stopped(tables + more, items[0]) == Stopped(tables, items[0]);
      SameNeeded(tables, more, items[1..]);
    }
  }

  lemma SameStopped(tables: set<Spot>, more: set<Spot>, items: seq<Item>)
    requires Harmless(more, items)
    ensures SomeStopped(tables + more, items) <==> SomeStopped(tables, items)
  {
    forall i | 0 <= i < |items|
      ensures Stopped(tables + more, items[i]) == Stopped(tables, items[i])
    {
    }
  }

  lemma StoppedStep(tables: set<Spot>, items: seq<Item>)
    requires items != []
    ensures SomeStopped(tables, items) <==> Stopped(tables, items[0]) || SomeStopped(tables, items[1..])
  {
    if SomeStopped(tables, items) && !Stopped(tables, items[0]) {
      var i :| 0 <= i < |items| && Stopped(tables, items[i]);
      assert Stopped(tables, items[1..][i - 1]);
    }
    if SomeStopped(tables, items[1..]) {
      var i :| 0 <= i < |items[1..]| && Stopped(tables, items[1..][i]);
      assert Stopped(tables, items[i + 1]);
    }
  }

  ghost function Foreseen(k: Stock, needed: set<Spot>, stopped: bool): Outcome
  {
    if k.free < |needed - k.tables| then Failed(ENOMEM) else if stopped then Failed(EFAULT) else Done
  }

  lemma {:induction false} ListFateExact(k: Stock, items: seq<Item>)
    requires Sound(items)
    ensures ListFate(k, items) == Foreseen(k, Needed(k.tables, items), SomeStopped(k.tables, items))
    decreases |items|
  {
    if items == [] {
      assert {} - k.tables == {};
    } else {
      var path, rest := items[0].path, items[1..];
      StoppedStep(k.tables, items);
      if Stopped(k.tables, items[0]) {
        assert path + {} == path;
      } else {
        TwoParts(path, Needed(k.tables, rest), k.tables);
        if k.free >= |path - k.tables| {
          SameNeeded(k.tables, path, rest);
          SameStopped(k.tables, path, rest);
          ListFateExact(After(k, path), rest);
        }
      }
    }
  }

  // The pages of a region as such a list.

  ghost function ItemOf(level: nat, s: PageSize, a: nat): Item
  {
    Item(Path(level, s, a), if s == Size4K then None else Some(Spot(LevelOf(s) - 1, PageSpot(a, s).num)))
  }

  ghost function ItemsOf(level: nat, a: nat, b: nat, m: nat, huge: bool): seq<Item>
    decreases m
  {
    if m == 0 then []
    else
      var s := ChoosePages(a, b, m, huge);
      [ItemOf(level, s, a)] + ItemsOf(level, a + Pages(s), b + Pages(s), m - Pages(s), huge)
  }

  lemma WalkThenCheck(k: Stock, it: Item, walk: PagingResult<Stock>, page: PagingResult<Stock>)
    requires Ends(k, it.path, walk) && !Stopped(it.path, it)
    requires page == if walk.Ok? && Stopped(walk.value.tables, it) then Err(AlreadyMapped) else walk
    ensures page == ItemFate(k, it)
  {
  }

  /** A page's own path has no table below its slot. */
  lemma PathAbove(level: nat, s: PageSize, a: nat)
    ensures !Stopped(Path(level, s, a), ItemOf(level, s, a))
  {
  }

  lemma RivalInTheWay(tables: set<Spot>, level: nat, s: PageSize, a: nat)
    ensures InTheWay(tables, s, 0x1000 * a) <==> Stopped(tables, ItemOf(level, s, a))
  {
    SpotInPages(0x1000 * a, s);
  }

  lemma PageIsItem(k: Stock, level: nat, s: PageSize, a: nat)
    requires level == 3 || level == 4
    ensures PageFate(k, level, s, 0x1000 * a) == ItemFate(k, ItemOf(level, s, a))
  {
    var walk := WalkFate(k, level, s, 0x1000 * a);
    WalkFateEnds(k, level, s, a);
    PathAbove(level, s, a);
    if walk.Ok? {
      RivalInTheWay(walk.value.tables, level, s, a);
    }
    WalkThenCheck(k, ItemOf(level, s, a), walk, PageFate(k, level, s, 0x1000 * a));
  }

  /** The first page of the walk, and where the walk goes on. */
  lemma Unroll(level: nat, a: nat, b: nat, m: nat, huge: bool)
    returns (s: PageSize, a': nat, b': nat, m': nat, it: Item, rest: seq<Item>)
    requires m > 0
    ensures s == ChoosePages(a, b, m, huge) && OnBoundary(a, s)
    ensures a' == a + Pages(s) && b' == b + Pages(s) && m' == m - Pages(s) && m' < m
    ensures it == ItemOf(level, s, a) && rest == ItemsOf(level, a', b', m', huge)
    ensures ItemsOf(level, a, b, m, huge) == [it] + rest
  {
    s := ChoosePages(a, b, m, huge);
    a', b', m' := a + Pages(s), b + Pages(s), m - Pages(s);
    it, rest := ItemOf(level, s, a), ItemsOf(level, a', b', m', huge);
  }

  lemma ListStep(k: Stock, it: Item, rest: seq<Item>)
    ensures var next := ItemFate(k, it);
            ListFate(k, [it] + rest) == if next.Ok? then ListFate(next.value, rest) else Failed(ToErrno(next.error))
  {
    assert ([it] + rest)[0] == it && ([it] + rest)[1..] == rest;
  }

  lemma FateStep(k: Stock, level: nat, a: nat, b: nat, m: nat, huge: bool, s: PageSize, a': nat, b': nat, m': nat,
                 page: PagingResult<Stock>)
    requires m > 0 && s == ChoosePages(a, b, m, huge) && page == PageFate(k, level, s, 0x1000 * a)
    requires a' == a + Pages(s) && b' == b + Pages(s) && m' == m - Pages(s)
    ensures RegionFate(k, level, a, b, m, huge) ==
            if page.Ok? then RegionFate(page.value, level, a', b', m', huge) else Failed(ToErrno(page.error))
  {
  }

  lemma {:induction false} RegionIsList(k: Stock, level: nat, a: nat, b: nat, m: nat, huge: bool, items: seq<Item>)
    requires (level == 3 || level == 4) && items == ItemsOf(level, a, b, m, huge)
    ensures RegionFate(k, level, a, b, m, huge) == ListFate(k, items)
    decreases m
  {
    if m > 0 {
      var s, a', b', m', it, rest := Unroll(level, a, b, m, huge);
      PageIsItem(k, level, s, a);
      FateStep(k, level, a, b, m, huge, s, a', b', m', ItemFate(k, it));
      ListStep(k, it, rest);
      if ItemFate(k, it).Ok? {
        RegionIsList(ItemFate(k, it).value, level, a', b', m', huge, rest);
      }
    }
  }

  /** Every item is a page of the region on its boundary. */
  lemma {:induction false} ItemIsPage(level: nat, a: nat, b: nat, m: nat, huge: bool, items: seq<Item>, i: nat)
    returns (x: nat, t: PageSize)
    requires items == ItemsOf(level, a, b, m, huge) && i < |items|
    ensures a <= x && OnBoundary(x, t) && items[i] == ItemOf(level, t, x)
    ensures PageSpot(x, t) in Plan(a, b, m, huge)
    decreases m
  {
    var s, a', b', m', it, rest := Unroll(level, a, b, m, huge);
    var plan := PlanStep(a, b, m, huge, s);
    if i == 0 {
      return a, s;
    }
    x, t := ItemIsPage(level, a', b', m', huge, rest, i - 1);
    assert PageSpot(x, t) in plan;
  }

  lemma {:induction false} PageIsAnItem(level: nat, a: nat, b: nat, m: nat, huge: bool, items: seq<Item>, spot: Spot)
    returns (x: nat, t: PageSize, i: nat)
    requires items == ItemsOf(level, a, b, m, huge) && spot in Plan(a, b, m, huge)
    ensures i < |items| && items[i] == ItemOf(level, t, x) && spot == PageSpot(x, t)
    decreases m
  {
    var s, a', b', m', it, rest := Unroll(level, a, b, m, huge);
    var plan := PlanStep(a, b, m, huge, s);
    if spot == PageSpot(a, s) {
      return a, s, 0;
    }
    x, t, i := PageIsAnItem(level, a', b', m', huge, rest, spot);
    i := i + 1;
  }

  /** The tables on the way to a page lie before the blocks further on, or above them. */
  lemma PathHarmless(level: nat, s: PageSize, a: nat, t: PageSize, x: nat)
    requires OnBoundary(a, s) && OnBoundary(x, t) && x >= a + Pages(s)
    ensures !Stopped(Path(level, s, a), ItemOf(level, t, x))
  {
  }

  lemma {:induction false} ItemsSound(level: nat, a: nat, b: nat, m: nat, huge: bool, items: seq<Item>)
    requires items == ItemsOf(level, a, b, m, huge)
    ensures Sound(items)
    decreases m
  {
    if m > 0 {
      var s, a', b', m', it, rest := Unroll(level, a, b, m, huge);
      assert items[0] == it && items[1..] == rest;
      forall i | 0 <= i < |rest|
        ensures !Stopped(it.path, rest[i])
      {
        var x, t := ItemIsPage(level, a', b', m', huge, rest, i);
        PathHarmless(level, s, a, t, x);
      }
      ItemsSound(level, a', b', m', huge, rest);
    }
  }

  /** Some block of the plan has a table where it would go. */
  ghost predicate SomeBlocked(tables: set<Spot>, r: Region)
  {
    exists spot :: spot in PlanOf(r) && Blocked(tables, spot)
  }

  /** The tables that `map` needs for the region, up to the first block that has a table in its way. */
  ghost function TablesFor(tables: set<Spot>, level: nat, r: Region): set<Spot>
  {
    Needed(tables, ItemsOf(level, r.start / 0x1000, Phys(r) / 0x1000, r.size / 0x1000, MayBeHuge(r)))
  }

  /** `map` of a region that no leaf covers: it runs out of frames exactly when the tables it needs and does not have
      are more than the frames left; otherwise it meets a table in the place of a block exactly when there was one
      from the start; otherwise it succeeds. */
  lemma FateExact(k: Stock, level: nat, r: Region)
    requires level == 3 || level == 4
    ensures WalkEnds(k, level, StartWalk(r)) == Foreseen(k, TablesFor(k.tables, level, r), SomeBlocked(k.tables, r))
  {
    var a, b, m, huge := r.start / 0x1000, Phys(r) / 0x1000, r.size / 0x1000, MayBeHuge(r);
    var items := ItemsOf(level, a, b, m, huge);
    RegionIsList(k, level, a, b, m, huge, items);
    ItemsSound(level, a, b, m, huge, items);
    ListFateExact(k, items);
    StoppedIsBlocked(k.tables, level, a, b, m, huge, items);
  }

  lemma StoppedIsBlocked(tables: set<Spot>, level: nat, a: nat, b: nat, m: nat, huge: bool, items: seq<Item>)
    requires items == ItemsOf(level, a, b, m, huge)
    ensures SomeStopped(tables, items) <==> exists spot :: spot in Plan(a, b, m, huge) && Blocked(tables, spot)
  {
    if SomeStopped(tables, items) {
      var i: nat :| i < |items| && Stopped(tables, items[i]);
      var x, s := ItemIsPage(level, a, b, m, huge, items, i);
      RivalIsBlocked(tables, level, s, x);
    }
    if spot :| spot in Plan(a, b, m, huge) && Blocked(tables, spot) {
      var x, s, i := PageIsAnItem(level, a, b, m, huge, items, spot);
      RivalIsBlocked(tables, level, s, x);
    }
  }

  lemma RivalIsBlocked(tables: set<Spot>, level: nat, s: PageSize, a: nat)
    ensures Stopped(tables, ItemOf(level, s, a)) <==> Blocked(tables, PageSpot(a, s))
  {
  }

  lemma TwoParts(p: set<Spot>, q: set<Spot>, t: set<Spot>)
    ensures |(p + q) - t| == |p - t| + |q - (t + p)|
  {
    assert (p + q) - t == (p - t) + (q - (t + p));
    assert (p - t) !! (q - (t + p));
  }
}
