/** Shared memory between zones (src/ivc.rs): the records of `insert_ivc_record` and the windows that `Zone::ivc_init`
    maps into each zone's guest memory.  A window is a section that every peer may write, followed by one output section
    per peer. */
module Ivc {
  import opened Stage2Entry
  import opened PageTables
  import opened Regions
  import opened Mapping
  import opened Stage2Walk
  import opened MemorySets

  /** `HvIvcConfig`; the sizes and `maxPeers` are 32-bit. */
  datatype Config = Config(id: nat, peer: nat, ipa: nat, rw: nat, out: nat, maxPeers: nat)

  // The window.

  /** The offset of output section `i`: the sum is taken section by section. */
  function OutOffset(c: Config, i: nat): nat
  {
    if i == 0 then c.rw else OutOffset(c, i - 1) + c.out
  }

  function Total(c: Config): nat
  {
    OutOffset(c, c.maxPeers)
  }

  /** The same in closed form, as the source computes it. */
  lemma {:induction false} OutOffsetIs(c: Config, i: nat)
    ensures OutOffset(c, i) == c.rw + i * c.out
  {
    if i > 0 {
      OutOffsetIs(c, i - 1);
      assert (i - 1) * c.out + c.out == i * c.out;
    }
  }

  function RwRegion(c: Config, base: Word): Region
  {
    NewWithOffsetMapper(c.ipa, base, c.rw, {READ, WRITE})
  }

  function OutRegion(c: Config, base: nat, i: nat): Region
    requires base + OutOffset(c, i) < 0x1_0000_0000_0000_0000
  {
    NewWithOffsetMapper(c.ipa + OutOffset(c, i), base + OutOffset(c, i), c.out,
                        if i == c.peer then {READ, WRITE} else {READ})
  }

  /** The window lies within what the tables can express. */
  predicate WindowFits(c: Config, base: nat, level: nat)
  {
    c.ipa + Total(c) <= Limit(level) && base + Total(c) <= 0x1_0000_0000_0000
  }

  lemma {:induction false} OutApart(c: Config, i: nat, j: nat)
    requires i < j
    ensures OutOffset(c, i) + c.out <= OutOffset(c, j)
    decreases j
  {
    if i < j - 1 {
      OutApart(c, i, j - 1);
    }
  }

  lemma OutInside(c: Config, i: nat)
    requires i < c.maxPeers
    ensures OutOffset(c, i) + c.out <= Total(c)
  {
    OutApart(c, i, c.maxPeers);
  }

  lemma SectionsFit(c: Config, base: nat, level: nat, i: nat)
    requires WindowFits(c, base, level) && i < c.maxPeers
    ensures base + OutOffset(c, i) < 0x1_0000_0000_0000_0000 && Fits(OutRegion(c, base, i), level)
  {
    OutInside(c, i);
  }

  lemma RwFits(c: Config, base: nat, level: nat)
    requires WindowFits(c, base, level)
    ensures Fits(RwRegion(c, base), level)
  {
    if c.maxPeers > 0 {
      OutApart(c, 0, c.maxPeers);
    }
  }

  ghost predicate Recorded(regions: RegionMap, r: Region)
  {
    r.size > 0 ==> r.start in regions && regions[r.start] == r
  }

  /** Every section of the window is a recorded region. */
  ghost predicate WindowRecorded(regions: RegionMap, c: Config, base: nat)
    requires base + Total(c) <= 0x1_0000_0000_0000
  {
    Recorded(regions, RwRegion(c, base)) && OutsRecorded(regions, c, base, c.maxPeers)
  }

  ghost predicate OutsRecorded(regions: RegionMap, c: Config, base: nat, n: nat)
    requires base + Total(c) <= 0x1_0000_0000_0000 && n <= c.maxPeers
  {
    forall i: nat | i < n :: OutRecorded(regions, c, base, i)
  }

  ghost predicate OutRecorded(regions: RegionMap, c: Config, base: nat, i: nat)
    requires base + Total(c) <= 0x1_0000_0000_0000 && i < c.maxPeers
  {
    OutInside(c, i);
    Recorded(regions, OutRegion(c, base, i))
  }

  /** Nothing that was recorded is lost or changed. */
  ghost predicate Keeps(before: RegionMap, after: RegionMap)
  {
    forall k | k in before :: k in after && after[k] == before[k]
  }

  method InsertSection(ms: MemorySet, r: Region) returns (ok: bool)
    requires ms.Valid() && Fits(r, ms.pt.level)
    modifies ms, ms.pt
    ensures ms.Valid() && Keeps(old(ms.regions), ms.regions)
    ensures ms.regions == if ok && r.size > 0 then old(ms.regions)[r.start := r] else old(ms.regions)
  {
    var res := ms.Insert(r);
    ok := res == Done;
    assert ok && r.size > 0 && r.start in old(ms.regions) ==> Overlaps(old(ms.regions)[r.start], r);
  }

  /** The part of `ivc_init` that maps one window; false when an `unwrap` panics. */
  method MapWindow(ms: MemorySet, c: Config, base: nat) returns (ok: bool)
    requires ms.Valid() && WindowFits(c, base, ms.pt.level)
    modifies ms, ms.pt
    ensures ms.Valid() && Keeps(old(ms.regions), ms.regions)
    ensures ok ==> WindowRecorded(ms.regions, c, base)
  {
    RwFits(c, base, ms.pt.level);
    ok := InsertSection(ms, RwRegion(c, base));
    var i := 0;
    while i < c.maxPeers && ok
      invariant 0 <= i <= c.maxPeers
      invariant ms.Valid() && Keeps(old(ms.regions), ms.regions)
      invariant ok ==> Recorded(ms.regions, RwRegion(c, base)) && OutsRecorded(ms.regions, c, base, i)
    {
      ghost var before := ms.regions;
      SectionsFit(c, base, ms.pt.level, i);
      ok := InsertSection(ms, OutRegion(c, base, i));
      if ok {
        OneMoreRecorded(before, ms.regions, c, base, i);
      }
      i := i + 1;
    }
  }

  lemma OneMoreRecorded(before: RegionMap, after: RegionMap, c: Config, base: nat, i: nat)
    requires base + Total(c) <= 0x1_0000_0000_0000 && i < c.maxPeers
    requires base + OutOffset(c, i) < 0x1_0000_0000_0000_0000
    requires Recorded(before, RwRegion(c, base)) && OutsRecorded(before, c, base, i)
    requires var r := OutRegion(c, base, i); after == if r.size > 0 then before[r.start := r] else before
    ensures Recorded(after, RwRegion(c, base)) && OutsRecorded(after, c, base, i + 1)
  {
    forall j: nat | j < i + 1
      ensures OutRecorded(after, c, base, j)
    {
      if j < i {
        assert OutRecorded(before, c, base, j);
        OutApart(c, j, i);
      }
    }
  }

  // What a zone sees in its window.

  lemma {:induction false} FindOut(c: Config, n: nat, d: nat) returns (i: nat)
    requires c.rw <= d < OutOffset(c, n)
    ensures i < n && OutOffset(c, i) <= d < OutOffset(c, i) + c.out
  {
    i := n - 1;
    if d < OutOffset(c, i) {
      i := FindOut(c, n - 1, d);
    }
  }

  /** Offset `d` lies in output section `i`. */
  predicate InOut(c: Config, i: nat, d: nat)
  {
    OutOffset(c, i) <= d < OutOffset(c, i) + c.out
  }

  predicate MayWrite(c: Config, d: nat)
  {
    d < c.rw || InOut(c, c.peer, d)
  }

  lemma OutUnique(c: Config, i: nat, j: nat, d: nat)
    requires InOut(c, i, d) && InOut(c, j, d)
    ensures i == j
  {
    if i < j {
      OutApart(c, i, j);
    } else if j < i {
      OutApart(c, j, i);
    }
  }

  /** A recorded section at offset `o` of the window backs offset `d`. */
  lemma SectionBacked(regions: RegionMap, ipa: nat, base: nat, o: nat, size: nat, flags: MemFlags, d: nat)
    requires ipa + o < 0x1_0000_0000_0000_0000 && base + o < 0x1_0000_0000_0000_0000
    requires PageAligned(base) && PageAligned(o) && o <= d < o + size
    requires Recorded(regions, NewWithOffsetMapper(ipa + o, base + o, size, flags))
    ensures ipa + o in regions && Contains(regions[ipa + o], ipa + d)
    ensures Backing(regions[ipa + o], ipa + d) == base + d && regions[ipa + o].flags == flags
  {
  }

  /** Some recorded region backs offset `d` with byte `base + d`, writable exactly where the peer may write. */
  ghost predicate BackedAt(regions: RegionMap, c: Config, base: nat, d: nat)
  {
    exists k :: k in regions && Contains(regions[k], c.ipa + d) && BackedBy(regions[k], c, base, d)
  }

  ghost predicate BackedBy(r: Region, c: Config, base: nat, d: nat)
    requires r.start <= c.ipa + d
  {
    Backing(r, c.ipa + d) == base + d && Kept(r.flags) == if MayWrite(c, d) then {READ, WRITE} else {READ}
  }

  lemma WindowBacked(regions: RegionMap, c: Config, base: nat, level: nat, d: nat)
    requires WindowFits(c, base, level) && PageAligned(base) && PageAligned(c.rw) && PageAligned(c.out)
    requires WindowRecorded(regions, c, base) && d < Total(c)
    ensures BackedAt(regions, c, base, d)
  {
    if d < c.rw {
      CommonBacked(regions, c, base, level, d);
    } else {
      OwnBacked(regions, c, base, level, d);
    }
  }

  lemma CommonBacked(regions: RegionMap, c: Config, base: nat, level: nat, d: nat)
    requires WindowFits(c, base, level) && PageAligned(base) && WindowRecorded(regions, c, base) && d < c.rw
    ensures BackedAt(regions, c, base, d)
  {
    RwFits(c, base, level);
    SectionBacked(regions, c.ipa, base, 0, c.rw, {READ, WRITE}, d);
    assert c.ipa in regions && BackedBy(regions[c.ipa], c, base, d);
  }

  lemma OwnBacked(regions: RegionMap, c: Config, base: nat, level: nat, d: nat)
    requires WindowFits(c, base, level) && PageAligned(base) && PageAligned(c.rw) && PageAligned(c.out)
    requires WindowRecorded(regions, c, base) && c.rw <= d < Total(c)
    ensures BackedAt(regions, c, base, d)
  {
    var i := FindOut(c, c.maxPeers, d);
    var o := OutOffset(c, i);
    SectionsFit(c, base, level, i);
    OutOffsetAligned(c, i);
    WritesOwnSection(c, i, d);
    assert OutRecorded(regions, c, base, i);
    SectionBacked(regions, c.ipa, base, o, c.out, if i == c.peer then {READ, WRITE} else {READ}, d);
    assert c.ipa + o in regions && BackedBy(regions[c.ipa + o], c, base, d);
  }

  lemma {:induction false} OutOffsetAligned(c: Config, i: nat)
    requires PageAligned(c.rw) && PageAligned(c.out)
    ensures PageAligned(OutOffset(c, i))
  {
    if i > 0 {
      OutOffsetAligned(c, i - 1);
    }
  }

  /** A query anywhere in a zone's window, through its page tables: the byte of the shared frames at the same offset,
      for reading, and for writing exactly in the common section and the zone's own output section. */
  method QueryWindow(ms: MemorySet, c: Config, base: nat, d: nat) returns (r: PagingResult<Translation>)
    requires ms.Valid() && WindowFits(c, base, ms.pt.level)
    requires PageAligned(base) && PageAligned(c.rw) && PageAligned(c.out)
    requires WindowRecorded(ms.regions, c, base) && d < Total(c)
    ensures r.Ok? && r.value.paddr == base + d
    ensures r.value.flags == Flags(if MayWrite(c, d) then {READ, WRITE} else {READ})
  {
    WindowBacked(ms.regions, c, base, ms.pt.level, d);
    r := ms.PageTableQuery(c.ipa + d);
  }

  /** The same in the hardware's view. */
  lemma WindowMmu(ms: MemorySet, c: Config, base: nat, d: nat)
    requires ms.Valid() && WindowFits(c, base, ms.pt.level)
    requires PageAligned(base) && PageAligned(c.rw) && PageAligned(c.out)
    requires WindowRecorded(ms.regions, c, base) && d < Total(c)
    ensures MmuWalk(ms.pt.mem, ms.pt.root, ms.pt.level, c.ipa + d) == Output(base + d, true, MayWrite(c, d), 15, 3)
  {
    WindowBacked(ms.regions, c, base, ms.pt.level, d);
    InWindow(c, base, ms.pt.level, d);
    BackedMmu(ms, c, base, d);
  }

  lemma InWindow(c: Config, base: nat, level: nat, d: nat)
    requires WindowFits(c, base, level) && d < Total(c)
    ensures c.ipa + d < Limit(level)
  {
  }

  lemma BackedMmu(ms: MemorySet, c: Config, base: nat, d: nat)
    requires ms.Valid() && c.ipa + d < Limit(ms.pt.level) && BackedAt(ms.regions, c, base, d)
    ensures MmuWalk(ms.pt.mem, ms.pt.root, ms.pt.level, c.ipa + d) == Output(base + d, true, MayWrite(c, d), 15, 3)
  {
    var k :| k in ms.regions && Contains(ms.regions[k], c.ipa + d) && BackedBy(ms.regions[k], c, base, d);
    MmuInRegion(ms, k, c.ipa + d);
    RegionSaysKept(ms.regions[k], c.ipa + d, MayWrite(c, d));
  }

  lemma RegionSaysKept(r: Region, v: nat, write: bool)
    requires r.start <= v && Kept(r.flags) == if write then {READ, WRITE} else {READ}
    ensures RegionSays(r, v) == Output(Backing(r, v), true, write, 15, 3)
  {
    assert READ in Kept(r.flags) && (WRITE in Kept(r.flags) <==> write) && IO !in Kept(r.flags);
  }

  // The records.

  datatype Record = Record(maxPeers: nat, rw: nat, out: nat, peers: set<nat>, base: nat)

  type Records = map<nat, Record>

  datatype Joined = Refused | Joined(base: nat)

  /** `insert_ivc_record`; `frames` is where newly allocated frames would start. */
  function Join(recs: Records, c: Config, frames: nat): (r: (Records, Joined))
  {
    if c.id in recs then
      var rec := recs[c.id];
      if rec.maxPeers != c.maxPeers || rec.rw != c.rw || rec.out != c.out then (recs, Refused)
      else if |rec.peers| == rec.maxPeers then (recs, Refused)
      else (recs[c.id := rec.(peers := rec.peers + {c.peer})], Joined(rec.base))
    else if !PageAligned(c.rw) || !PageAligned(c.out) then (recs, Refused)
    else (recs[c.id := Record(c.maxPeers, c.rw, c.out, {c.peer}, frames)], Joined(frames))
  }

  /** The frames that a new record allocates: the sum is taken in 32 bits. */
  function FrameCount(c: Config): nat
  {
    Total(c) % 0x1_0000_0000 / 0x1000
  }

  /** The frames hold the whole window exactly when the 32-bit sum does not overflow, which nothing checks. */
  lemma FramesCoverExact(c: Config)
    requires PageAligned(c.rw) && PageAligned(c.out)
    ensures FrameCount(c) * 0x1000 == Total(c) <==> Total(c) < 0x1_0000_0000
  {
    OutOffsetAligned(c, c.maxPeers);
  }

  /** One attempt to join: by a zone with this configuration, when frames would start here. */
  datatype Attempt = Attempt(config: Config, frames: nat)

  function After(attempts: seq<Attempt>): Records
  {
    if attempts == [] then map[]
    else
      var n := |attempts| - 1;
      Join(After(attempts[..n]), attempts[n].config, attempts[n].frames).0
  }

  /** What the attempt at place `k` of the run was told. */
  function JoinAnswer(attempts: seq<Attempt>, k: nat): Joined
    requires k < |attempts|
  {
    Join(After(attempts[..k]), attempts[k].config, attempts[k].frames).1
  }

  ghost predicate FramesAligned(attempts: seq<Attempt>)
  {
    forall i | 0 <= i < |attempts| :: PageAligned(attempts[i].frames)
  }

  /** `IVC_RECORDS`, with the attempts to join that led to it as history. */
  class IvcRecords {
    var recs: Records
    ghost var attempts: seq<Attempt>

    ghost predicate Valid()
      reads this
    {
      recs == After(attempts) && FramesAligned(attempts)
    }

    constructor ()
      ensures Valid() && attempts == []
    {
      recs := map[];
      attempts := [];
    }

    /** The allocator hands out page-aligned frames. */
    method InsertIvcRecord(c: Config, frames: nat) returns (r: Joined)
      requires Valid() && PageAligned(frames)
      modifies this
      ensures Valid() && attempts == old(attempts) + [Attempt(c, frames)]
      ensures (recs, r) == Join(old(recs), c, frames)
      ensures r == JoinAnswer(attempts, |old(attempts)|)
      ensures r.Joined? <==> LetIn(attempts, |old(attempts)|)
      ensures RecordIs(attempts, Ins(attempts, c.id), recs, c.id)
    {
      RecordExact(attempts + [Attempt(c, frames)], c.id);
      JoinExact(attempts + [Attempt(c, frames)], |attempts|, 0);
      assert (attempts + [Attempt(c, frames)])[..|attempts|] == attempts;
      attempts := attempts + [Attempt(c, frames)];
      if c.id in recs {
        var rec := recs[c.id];
        if rec.maxPeers != c.maxPeers || rec.rw != c.rw || rec.out != c.out {
          return Refused;
        }
        if |rec.peers| == rec.maxPeers {
          return Refused;
        }
        recs := recs[c.id := rec.(peers := rec.peers + {c.peer})];
        return Joined(rec.base);
      }
      if !PageAligned(c.rw) || !PageAligned(c.out) {
        return Refused;
      }
      var rec := Record(c.maxPeers, c.rw, c.out, {}, frames);
      rec := rec.(peers := rec.peers + {c.peer});
      assert rec.peers == {c.peer};
      recs := recs[c.id := rec];
      return Joined(frames);
    }
  }

  /** One round of `ivc_init`: joins the record and, if that was not refused, maps the window; false when an `unwrap`
      panics. */
  method JoinWindow(ms: MemorySet, recs: IvcRecords, c: Config, frames: nat) returns (r: Joined, ok: bool)
    requires ms.Valid() && recs.Valid() && PageAligned(frames)
    requires var j := Join(recs.recs, c, frames).1; j.Joined? ==> WindowFits(c, j.base, ms.pt.level)
    modifies ms, ms.pt, recs
    ensures ms.Valid() && Keeps(old(ms.regions), ms.regions)
    ensures recs.Valid() && recs.attempts == old(recs.attempts) + [Attempt(c, frames)]
    ensures r == JoinAnswer(recs.attempts, |old(recs.attempts)|)
    ensures r.Refused? ==> ok && ms.regions == old(ms.regions)
    ensures r.Joined? && ok ==> ZoneJoined(ms.regions, ms.pt.level, recs.attempts, |old(recs.attempts)|)
  {
    r := recs.InsertIvcRecord(c, frames);
    ok := true;
    if r.Joined? {
      ok := MapWindow(ms, c, r.base);
    }
  }

  // Who is let in.

  /** Attempt `j` came before `k`, for the same id, and was let in. */
  ghost predicate InBefore(attempts: seq<Attempt>, j: nat, k: nat)
    requires j < k < |attempts|
    decreases k, 0
  {
    attempts[j].config.id == attempts[k].config.id && LetIn(attempts, j)
  }

  predicate SameSizes(c: Config, d: Config)
  {
    c.maxPeers == d.maxPeers && c.rw == d.rw && c.out == d.out
  }

  /** The first attempt for an id is let in when its sections are page aligned; a later one when its sizes are those of
      the ones before it and the peer ids let in so far are not exactly as many as there may be. */
  ghost predicate LetIn(attempts: seq<Attempt>, k: nat)
    requires k < |attempts|
    decreases k, 2
  {
    var c := attempts[k].config;
    if forall j: nat | j < k :: !InBefore(attempts, j, k) then PageAligned(c.rw) && PageAligned(c.out)
    else
      && (forall j: nat | j < k && InBefore(attempts, j, k) :: SameSizes(c, attempts[j].config))
      && |PeersBefore(attempts, k)| != c.maxPeers
  }

  ghost function PeersBefore(attempts: seq<Attempt>, k: nat): set<nat>
    requires k < |attempts|
    decreases k, 1
  {
    set j: nat | j < k && InBefore(attempts, j, k) :: attempts[j].config.peer
  }

  /** The attempts of a run that were let in for an id. */
  ghost function Ins(attempts: seq<Attempt>, id: nat): set<nat>
  {
    set j: nat | j < |attempts| && attempts[j].config.id == id && LetIn(attempts, j)
  }

  ghost function PeersOf(attempts: seq<Attempt>, ins: set<nat>): set<nat>
    requires forall j | j in ins :: j < |attempts|
  {
    set j | j in ins :: attempts[j].config.peer
  }

  ghost predicate IsLeast(ins: set<nat>, j: nat)
  {
    j in ins && forall i | i in ins :: j <= i
  }

  lemma {:induction false} LetInPrefix(attempts: seq<Attempt>, m: nat, k: nat)
    requires k < m <= |attempts|
    ensures LetIn(attempts, k) <==> LetIn(attempts[..m], k)
    decreases k
  {
    forall j: nat | j < k
      ensures InBefore(attempts, j, k) <==> InBefore(attempts[..m], j, k)
    {
      LetInPrefix(attempts, m, j);
    }
    assert PeersBefore(attempts, k) == PeersBefore(attempts[..m], k);
  }

  /** The record of an id, in terms of the attempts that were let in. */
  ghost predicate RecordIs(attempts: seq<Attempt>, ins: set<nat>, recs: Records, id: nat)
  {
    && (forall j | j in ins :: j < |attempts|)
    && (id in recs <==> ins != {})
    && (id in recs ==>
          && recs[id].peers == PeersOf(attempts, ins)
          && (forall j | j in ins :: Matches(recs[id], attempts[j].config, recs[id].base))
          && (forall j: nat | IsLeast(ins, j) :: recs[id].base == attempts[j].frames))
  }

  predicate Matches(rec: Record, c: Config, base: nat)
  {
    rec.maxPeers == c.maxPeers && rec.rw == c.rw && rec.out == c.out && rec.base == base
  }

  lemma InsStep(attempts: seq<Attempt>, id: nat)
    requires attempts != []
    ensures var n := |attempts| - 1;
            Ins(attempts, id) == Ins(attempts[..n], id) +
                                 (if attempts[n].config.id == id && LetIn(attempts, n) then {n} else {})
  {
    var n := |attempts| - 1;
    forall j: nat | j < n
      ensures j in Ins(attempts, id) <==> j in Ins(attempts[..n], id)
    {
      LetInPrefix(attempts, n, j);
    }
  }

  /** The condition on the last attempt, in terms of those that were let in before it. */
  ghost predicate Admits(attempts: seq<Attempt>, ins: set<nat>, c: Config)
    requires forall j | j in ins :: j < |attempts|
  {
    if ins == {} then PageAligned(c.rw) && PageAligned(c.out)
    else (forall j | j in ins :: SameSizes(c, attempts[j].config)) && |PeersOf(attempts, ins)| != c.maxPeers
  }

  lemma LastLetIn(attempts: seq<Attempt>)
    requires attempts != []
    ensures var n := |attempts| - 1;
            LetIn(attempts, n) <==>
            Admits(attempts, Ins(attempts[..n], attempts[n].config.id), attempts[n].config)
  {
    var n := |attempts| - 1;
    var id := attempts[n].config.id;
    var ins := Ins(attempts[..n], id);
    forall j: nat | j < n
      ensures InBefore(attempts, j, n) <==> j in ins
    {
      LetInPrefix(attempts, n, j);
    }
    assert PeersBefore(attempts, n) == PeersOf(attempts, ins);
    if j :| j in ins {
      assert InBefore(attempts, j, n);
    }
  }

  /** The answer to a configuration, and the record after it, when the record before is known. */
  lemma JoinIs(attempts: seq<Attempt>, ins: set<nat>, recs: Records, a: Attempt)
    requires RecordIs(attempts, ins, recs, a.config.id)
    ensures Join(recs, a.config, a.frames).1 ==
            if !Admits(attempts, ins, a.config) then Refused
            else Joined(if ins == {} then a.frames else recs[a.config.id].base)
    ensures !Admits(attempts, ins, a.config) ==> Join(recs, a.config, a.frames).0 == recs
    ensures Admits(attempts, ins, a.config) ==>
              var recs', c := Join(recs, a.config, a.frames).0, a.config;
              && c.id in recs'
              && recs'[c.id] == if ins == {} then Record(c.maxPeers, c.rw, c.out, {c.peer}, a.frames)
                                else recs[c.id].(peers := recs[c.id].peers + {c.peer})
  {
    if ins != {} {
      var j :| j in ins;
      assert Matches(recs[a.config.id], attempts[j].config, recs[a.config.id].base);
    }
  }

  lemma PeersGrow(attempts: seq<Attempt>, ins: set<nat>, a: Attempt)
    requires forall j | j in ins :: j < |attempts|
    ensures PeersOf(attempts + [a], ins) == PeersOf(attempts, ins)
    ensures PeersOf(attempts + [a], ins + {|attempts|}) == PeersOf(attempts, ins) + {a.config.peer}
  {
    var n, all := |attempts|, attempts + [a];
    assert all[n] == a;
    assert forall j | j in ins :: all[j] == attempts[j];
    assert forall x :: x in PeersOf(all, ins + {n}) <==> x in PeersOf(all, ins) || x == all[n].config.peer;
    assert forall x :: x in PeersOf(all, ins) <==> x in PeersOf(attempts, ins);
  }

  lemma RecordStays(attempts: seq<Attempt>, ins: set<nat>, recs: Records, recs': Records, id: nat, a: Attempt)
    requires RecordIs(attempts, ins, recs, id)
    requires (id in recs' <==> id in recs) && (id in recs ==> recs'[id] == recs[id])
    ensures RecordIs(attempts + [a], ins, recs', id)
  {
    PeersGrow(attempts, ins, a);
    assert forall j | j in ins :: (attempts + [a])[j] == attempts[j];
  }

  lemma RecordJoined(attempts: seq<Attempt>, ins: set<nat>, recs: Records, recs': Records, id: nat, a: Attempt)
    requires RecordIs(attempts, ins, recs, id) && ins != {} && id in recs'
    requires SameSizes(a.config, attempts[AnyOf(ins)].config)
    requires recs'[id] == recs[id].(peers := recs[id].peers + {a.config.peer})
    ensures RecordIs(attempts + [a], ins + {|attempts|}, recs', id)
  {
    PeersGrow(attempts, ins, a);
    var all := attempts + [a];
    assert all[|attempts|] == a;
    assert forall j | j in ins :: all[j] == attempts[j];
    assert Matches(recs[id], attempts[AnyOf(ins)].config, recs[id].base);
    forall j: nat | IsLeast(ins + {|attempts|}, j)
      ensures IsLeast(ins, j)
    {
      assert AnyOf(ins) in ins + {|attempts|};
    }
  }

  ghost function AnyOf(ins: set<nat>): (j: nat)
    requires ins != {}
    ensures j in ins
  {
    var j :| j in ins; j
  }

  lemma RecordMade(attempts: seq<Attempt>, ins: set<nat>, recs: Records, recs': Records, id: nat, a: Attempt)
    requires RecordIs(attempts, ins, recs, id) && ins == {} && id in recs'
    requires recs'[id] == Record(a.config.maxPeers, a.config.rw, a.config.out, {a.config.peer}, a.frames)
    ensures RecordIs(attempts + [a], ins + {|attempts|}, recs', id)
  {
    PeersGrow(attempts, ins, a);
    assert PeersOf(attempts, {}) == {};
    assert (attempts + [a])[|attempts|] == a;
  }

  lemma RecordStep(attempts: seq<Attempt>, ins: set<nat>, recs: Records, id: nat, a: Attempt)
    requires RecordIs(attempts, ins, recs, id)
    ensures var added := if a.config.id == id && Admits(attempts, ins, a.config) then {|attempts|} else {};
            RecordIs(attempts + [a], ins + added, Join(recs, a.config, a.frames).0, id)
  {
    var recs' := Join(recs, a.config, a.frames).0;
    if a.config.id != id {
      assert ins + {} == ins;
      RecordStays(attempts, ins, recs, recs', id, a);
    } else {
      JoinIs(attempts, ins, recs, a);
      if !Admits(attempts, ins, a.config) {
        assert ins + {} == ins;
        RecordStays(attempts, ins, recs, recs', id, a);
      } else if ins == {} {
        RecordMade(attempts, ins, recs, recs', id, a);
      } else {
        RecordJoined(attempts, ins, recs, recs', id, a);
      }
    }
  }

  /** In every run: an id has a record exactly when an attempt was let in; its peers are the peer ids let in, its sizes
      are those of all of them, and its frames those of the first. */
  lemma {:induction false} RecordExact(attempts: seq<Attempt>, id: nat)
    ensures RecordIs(attempts, Ins(attempts, id), After(attempts), id)
  {
    if attempts != [] {
      var n := |attempts| - 1;
      var before, a := attempts[..n], attempts[n];
      RecordExact(before, id);
      InsStep(attempts, id);
      RecordStep(before, Ins(before, id), After(before), id, a);
      assert before + [a] == attempts;
      if a.config.id == id {
        LastLetIn(attempts);
        AdmitsPrefix(attempts, Ins(before, id), n, a.config);
      }
    }
  }

  lemma AdmitsPrefix(attempts: seq<Attempt>, ins: set<nat>, n: nat, c: Config)
    requires n <= |attempts| && forall j | j in ins :: j < n
    ensures Admits(attempts, ins, c) <==> Admits(attempts[..n], ins, c)
  {
    assert forall j | j in ins :: attempts[..n][j] == attempts[j];
    assert PeersOf(attempts, ins) == PeersOf(attempts[..n], ins);
  }

  lemma JoinLast(run: seq<Attempt>, k: nat, j: nat)
    requires |run| == k + 1
    ensures JoinAnswer(run, k).Joined? <==> LetIn(run, k)
    ensures LetIn(run, k) && IsLeast(Ins(run, run[k].config.id), j) ==>
              j <= k && JoinAnswer(run, k) == Joined(run[j].frames)
  {
    var before, a := run[..k], run[k];
    var ins := Ins(before, a.config.id);
    RecordExact(before, a.config.id);
    JoinIs(before, ins, After(before), a);
    LastLetIn(run);
    AdmitsPrefix(run, ins, k, a.config);
    InsStep(run, a.config.id);
    if LetIn(run, k) && IsLeast(Ins(run, a.config.id), j) {
      LeastOf(ins, k, j);
      assert j < k ==> before[j] == run[j];
    }
  }

  /** Who is told what: attempt `k` of a run is let in exactly as `LetIn` says, and gets the frames of the first attempt
      that was let in for its id. */
  lemma JoinExact(attempts: seq<Attempt>, k: nat, j: nat)
    requires k < |attempts|
    ensures JoinAnswer(attempts, k).Joined? <==> LetIn(attempts, k)
    ensures LetIn(attempts, k) && IsLeast(Ins(attempts[..k + 1], attempts[k].config.id), j) ==>
              j <= k && JoinAnswer(attempts, k) == Joined(attempts[j].frames)
  {
    var run := attempts[..k + 1];
    assert run[..k] == attempts[..k] && run[k] == attempts[k];
    assert j <= k ==> run[j] == attempts[j];
    JoinLast(run, k, j);
    LetInPrefix(attempts, k + 1, k);
  }

  lemma LeastOf(ins: set<nat>, k: nat, j: nat)
    requires IsLeast(ins + {k}, j) && forall i | i in ins :: i < k
    ensures if ins == {} then j == k else j < k && IsLeast(ins, j)
  {
    if ins != {} {
      assert AnyOf(ins) in ins + {k};
    }
  }

  /** No join changes sizes or frames of a record. */
  lemma JoinMatches(recs: Records, a: Attempt, id: nat, c: Config, base: nat)
    requires id in recs && Matches(recs[id], c, base)
    ensures var recs' := Join(recs, a.config, a.frames).0; id in recs' && Matches(recs'[id], c, base)
  {
  }

  lemma {:induction false} AnswerStays(attempts: seq<Attempt>, k: nat)
    requires k < |attempts| && JoinAnswer(attempts, k).Joined?
    ensures attempts[k].config.id in After(attempts)
    ensures Matches(After(attempts)[attempts[k].config.id], attempts[k].config, JoinAnswer(attempts, k).base)
  {
    var n := |attempts| - 1;
    if k < n {
      assert attempts[..n][..k] == attempts[..k];
      AnswerStays(attempts[..n], k);
      JoinMatches(After(attempts[..n]), attempts[n], attempts[k].config.id, attempts[k].config,
                  JoinAnswer(attempts, k).base);
    }
  }

  /** Frames and sections of a record are page aligned: its creator is checked, and the others must match it. */
  lemma {:induction false} RecordsAligned(attempts: seq<Attempt>, id: nat)
    requires FramesAligned(attempts) && id in After(attempts)
    ensures var rec := After(attempts)[id]; PageAligned(rec.base) && PageAligned(rec.rw) && PageAligned(rec.out)
  {
    var n := |attempts| - 1;
    if id in After(attempts[..n]) {
      RecordsAligned(attempts[..n], id);
    }
  }

  lemma JoinAligned(attempts: seq<Attempt>, k: nat)
    requires FramesAligned(attempts) && k < |attempts| && JoinAnswer(attempts, k).Joined?
    ensures var c := attempts[k].config;
            PageAligned(JoinAnswer(attempts, k).base) && PageAligned(c.rw) && PageAligned(c.out)
  {
    AnswerStays(attempts, k);
    RecordsAligned(attempts, attempts[k].config.id);
  }

  /** In every run of attempts, all zones that joined one id got the same frames and the same sections; so an offset is
      the same physical byte for all of them, and an output section is writable for two of them only if they gave the
      same peer id, which nothing checks. */
  lemma JoinedShare(attempts: seq<Attempt>, j: nat, k: nat, d: nat, i: nat)
    requires j < |attempts| && k < |attempts| && JoinAnswer(attempts, j).Joined? && JoinAnswer(attempts, k).Joined?
    requires attempts[j].config.id == attempts[k].config.id
    ensures var a, b := attempts[j].config, attempts[k].config;
            && JoinAnswer(attempts, j).base == JoinAnswer(attempts, k).base
            && Total(a) == Total(b) && a.rw == b.rw && a.out == b.out
            && (InOut(a, i, d) ==>
                  && (MayWrite(a, d) <==> a.peer == i)
                  && (MayWrite(a, d) && MayWrite(b, d) <==> a.peer == i && b.peer == i))
  {
    AnswerStays(attempts, j);
    AnswerStays(attempts, k);
    var a, b := attempts[j].config, attempts[k].config;
    SameOffsets(a, b, a.maxPeers);
    SameOffsets(a, b, i);
    if InOut(a, i, d) {
      WritesOwnSection(a, i, d);
      WritesOwnSection(b, i, d);
    }
  }

  /** The zone with these regions made attempt `k`, was let in, and has its window mapped. */
  ghost predicate ZoneJoined(regions: RegionMap, level: nat, attempts: seq<Attempt>, k: nat)
  {
    && k < |attempts| && JoinAnswer(attempts, k).Joined?
    && WindowFits(attempts[k].config, JoinAnswer(attempts, k).base, level)
    && WindowRecorded(regions, attempts[k].config, JoinAnswer(attempts, k).base)
  }

  /** Later attempts, and regions inserted later, take nothing away. */
  lemma StaysJoined(regions: RegionMap, regions': RegionMap, level: nat, attempts: seq<Attempt>, more: seq<Attempt>,
                    k: nat)
    requires ZoneJoined(regions, level, attempts, k) && Keeps(regions, regions')
    ensures ZoneJoined(regions', level, attempts + more, k)
    ensures JoinAnswer(attempts + more, k) == JoinAnswer(attempts, k)
  {
    assert (attempts + more)[..k] == attempts[..k];
    var c, base := attempts[k].config, JoinAnswer(attempts, k).base;
    forall i: nat | i < c.maxPeers
      ensures OutRecorded(regions', c, base, i)
    {
      assert OutRecorded(regions, c, base, i);
    }
  }

  /** Two zones that joined one id, in any run of attempts, and any offset of the window: both page tables lead to the
      same byte; every zone reads it; and in the output section of peer `i` exactly the zones that gave peer id `i` may
      write, so with distinct peer ids at most one of the two. */
  method SharedByte(a: MemorySet, b: MemorySet, attempts: seq<Attempt>, j: nat, k: nat, d: nat)
    returns (ra: PagingResult<Translation>, rb: PagingResult<Translation>)
    requires a.Valid() && b.Valid() && FramesAligned(attempts)
    requires ZoneJoined(a.regions, a.pt.level, attempts, j) && ZoneJoined(b.regions, b.pt.level, attempts, k)
    requires attempts[j].config.id == attempts[k].config.id && d < Total(attempts[j].config)
    ensures ra.Ok? && rb.Ok? && ra.value.paddr == rb.value.paddr == JoinAnswer(attempts, j).base + d
    ensures MayRead(ra) && MayRead(rb)
    ensures d < attempts[j].config.rw ==> Writable(ra) && Writable(rb)
    ensures forall i: nat | InOut(attempts[j].config, i, d) ::
      (Writable(ra) <==> attempts[j].config.peer == i) && (Writable(rb) <==> attempts[k].config.peer == i)
    ensures d >= attempts[j].config.rw && attempts[j].config.peer != attempts[k].config.peer ==>
      !(Writable(ra) && Writable(rb))
  {
    JoinAligned(attempts, j);
    JoinAligned(attempts, k);
    JoinedShare(attempts, j, k, d, 0);
    ra := QueryWindow(a, attempts[j].config, JoinAnswer(attempts, j).base, d);
    rb := QueryWindow(b, attempts[k].config, JoinAnswer(attempts, k).base, d);
    forall i: nat | InOut(attempts[j].config, i, d)
      ensures (Writable(ra) <==> attempts[j].config.peer == i) && (Writable(rb) <==> attempts[k].config.peer == i)
    {
      SameOffsets(attempts[j].config, attempts[k].config, i);
      WritesOwnSection(attempts[j].config, i, d);
      WritesOwnSection(attempts[k].config, i, d);
    }
    if d >= attempts[j].config.rw {
      var i := FindOut(attempts[j].config, attempts[j].config.maxPeers, d);
      assert InOut(attempts[j].config, i, d);
    }
  }

  lemma JoinedMmu(ms: MemorySet, attempts: seq<Attempt>, j: nat, d: nat)
    requires ms.Valid() && FramesAligned(attempts) && ZoneJoined(ms.regions, ms.pt.level, attempts, j)
    requires d < Total(attempts[j].config)
    ensures MmuWalk(ms.pt.mem, ms.pt.root, ms.pt.level, attempts[j].config.ipa + d)
         == Output(JoinAnswer(attempts, j).base + d, true, MayWrite(attempts[j].config, d), 15, 3)
  {
    JoinAligned(attempts, j);
    WindowMmu(ms, attempts[j].config, JoinAnswer(attempts, j).base, d);
  }

  lemma SharedRights(attempts: seq<Attempt>, j: nat, k: nat, d: nat, i: nat)
    requires j < |attempts| && k < |attempts| && JoinAnswer(attempts, j).Joined? && JoinAnswer(attempts, k).Joined?
    requires attempts[j].config.id == attempts[k].config.id
    ensures var c, c' := attempts[j].config, attempts[k].config;
            && JoinAnswer(attempts, j).base == JoinAnswer(attempts, k).base && Total(c) == Total(c')
            && (d < c.rw ==> MayWrite(c, d) && MayWrite(c', d))
            && (InOut(c, i, d) ==> (MayWrite(c, d) <==> c.peer == i) && (MayWrite(c', d) <==> c'.peer == i))
  {
    JoinedShare(attempts, j, k, d, i);
    if InOut(attempts[j].config, i, d) {
      SameOffsets(attempts[j].config, attempts[k].config, i);
      WritesOwnSection(attempts[k].config, i, d);
    }
  }

  /** The same in the hardware's view of both zones: one byte, read by both, normal memory, and written in the output
      section of peer `i` exactly by the zones that gave peer id `i`. */
  lemma SharedMmu(a: MemorySet, b: MemorySet, attempts: seq<Attempt>, j: nat, k: nat, d: nat, i: nat)
    requires a.Valid() && b.Valid() && FramesAligned(attempts)
    requires ZoneJoined(a.regions, a.pt.level, attempts, j) && ZoneJoined(b.regions, b.pt.level, attempts, k)
    requires attempts[j].config.id == attempts[k].config.id && d < Total(attempts[j].config)
    ensures var c, byte := attempts[j].config, JoinAnswer(attempts, j).base + d;
            var wa, wb := MayWrite(c, d), MayWrite(attempts[k].config, d);
            && MmuWalk(a.pt.mem, a.pt.root, a.pt.level, c.ipa + d) == Output(byte, true, wa, 15, 3)
            && MmuWalk(b.pt.mem, b.pt.root, b.pt.level, attempts[k].config.ipa + d) == Output(byte, true, wb, 15, 3)
            && (d < c.rw ==> wa && wb)
            && (InOut(c, i, d) ==> (wa <==> c.peer == i) && (wb <==> attempts[k].config.peer == i))
  {
    SharedRights(attempts, j, k, d, i);
    JoinedMmu(a, attempts, j, d);
    JoinedMmu(b, attempts, k, d);
  }

  predicate MayRead(r: PagingResult<Translation>)
  {
    r.Ok? && r.value.flags.Flags? && READ in r.value.flags.flags
  }

  predicate Writable(r: PagingResult<Translation>)
  {
    r.Ok? && r.value.flags.Flags? && WRITE in r.value.flags.flags
  }

  lemma {:induction false} SameOffsets(a: Config, b: Config, i: nat)
    requires a.rw == b.rw && a.out == b.out
    ensures OutOffset(a, i) == OutOffset(b, i)
  {
    if i > 0 {
      SameOffsets(a, b, i - 1);
    }
  }

  lemma WritesOwnSection(c: Config, i: nat, d: nat)
    requires InOut(c, i, d)
    ensures MayWrite(c, d) <==> c.peer == i
  {
    if i > 0 {
      OutApart(c, 0, i);
    }
    if InOut(c, c.peer, d) {
      OutUnique(c, i, c.peer, d);
    }
  }
}
