/** The SMP boot protocol of `rust_main` (src/main.rs) and `setup_parange` (src/arch/aarch64/mm.rs), for any number of
    CPUs and any interleaving.  Each atomic access is one step; a spin wait is a step that is enabled only when its
    condition holds. */
module Boot {
  import opened Options

  /** Program points.  `Dead` is a failed assertion or an index out of range. */
  datatype Pc =
    | Off
    | LoadMaster
    | StoreMaster
    | NewPerCpu
    | Wake(next: nat)
    | IncEntered
    | WaitEntered
    | CheckEntered
    | SetNcpu
    | MinRange
    | IncRangeOk
    | WaitRangeOk
    | InitEarly
    | StoreEarlyOk
    | WaitEarlyOk
    | PerCpuInit
    | IncInited
    | WaitInited
    | InitLate
    | StoreLateOk
    | WaitLateOk
    | RunVm
    | Dead

  /** How far a program point is; points that only the primary or only a secondary passes share a number.  `Dead` comes
      after early initialisation, the only place where it is ever reached. */
  function Rank(pc: Pc): nat
  {
    match pc
    case Off => 0
    case LoadMaster => 1
    case StoreMaster => 2
    case NewPerCpu => 3
    case Wake(_) => 4
    case IncEntered => 5
    case WaitEntered => 6
    case CheckEntered => 7
    case SetNcpu => 8
    case MinRange => 9
    case IncRangeOk => 10
    case WaitRangeOk => 11
    case InitEarly => 12
    case WaitEarlyOk => 12
    case Dead => 13
    case StoreEarlyOk => 14
    case PerCpuInit => 15
    case IncInited => 16
    case WaitInited => 17
    case InitLate => 18
    case WaitLateOk => 18
    case StoreLateOk => 19
    case RunVm => 20
  }

  datatype State = State(
    pc: seq<Pc>,
    isPrimary: seq<bool>,
    /** Whether the CPU's `PerCpu` record has its zone set. */
    zone: seq<bool>,
    master: Option<nat>,
    entered: nat,
    ncpu: nat,
    minRange: nat,
    rangeOk: nat,
    earlyOk: bool,
    inited: nat,
    lateOk: bool,
    /** The PARANGE with which the root zone's page table depth was chosen. */
    used: Option<nat>)

  /** The machine: CPU count, the CPU that starts first, each CPU's physical address range field, and the CPUs that the
      root zone's configuration names. */
  datatype Machine = Machine(n: nat, first: nat, range: seq<nat>, root: set<nat>)

  predicate MachineOk(m: Machine)
  {
    m.first < m.n && |m.range| == m.n
  }

  const RANGE_TABLE: seq<nat> := [32, 36, 40, 42, 44, 48]

  function Initial(m: Machine): State
    requires MachineOk(m)
  {
    State(seq(m.n, c => if c == m.first then LoadMaster else Off), seq(m.n, c => false), seq(m.n, c => false),
          None, 0, 0, 7, 0, false, 0, false, None)
  }

  predicate Shape(m: Machine, s: State)
  {
    MachineOk(m) && |s.pc| == |s.isPrimary| == |s.zone| == m.n
  }

  function Goto(s: State, c: nat, pc: Pc): State
    requires c < |s.pc|
  {
    s.(pc := s.pc[c := pc])
  }

  function Min(a: nat, b: nat): nat
  {
    if a < b then a else b
  }

  /** Steps up to the entered-count barrier. */
  function StepEnter(m: Machine, s: State, c: nat): (r: Option<State>)
    requires Shape(m, s) && c < m.n
    ensures r.Some? ==> Shape(m, r.value)
  {
    match s.pc[c]
    case LoadMaster => Some(Goto(s, c, if s.master.None? then StoreMaster else NewPerCpu))
    case StoreMaster => Some(Goto(s.(master := Some(c), isPrimary := s.isPrimary[c := true]), c, NewPerCpu))
    case NewPerCpu => Some(Goto(s.(zone := s.zone[c := false]), c, if s.isPrimary[c] then Wake(0) else IncEntered))
    case Wake(_) => Some(Woken(m, s, c))
    case IncEntered => Some(Goto(s.(entered := s.entered + 1), c, WaitEntered))
    case WaitEntered => if s.entered < m.n then None else Some(Goto(s, c, CheckEntered))
    case CheckEntered => Some(Goto(s, c, if s.entered == m.n then SetNcpu else Dead))
    case _ => None
  }

  /** `setup_parange`. */
  function StepRange(m: Machine, s: State, c: nat): (r: Option<State>)
    requires Shape(m, s) && c < m.n
    ensures r.Some? ==> Shape(m, r.value)
  {
    match s.pc[c]
    case SetNcpu => Some(Goto(s.(ncpu := m.n), c, MinRange))
    case MinRange => Some(Goto(s.(minRange := Min(s.minRange, m.range[c])), c, IncRangeOk))
    case IncRangeOk => Some(Goto(s.(rangeOk := s.rangeOk + 1), c, WaitRangeOk))
    case WaitRangeOk =>
      if s.rangeOk < s.ncpu then None else Some(Goto(s, c, if s.isPrimary[c] then InitEarly else WaitEarlyOk))
    case _ => None
  }

  /** The page table depth comes from the PARANGE; the CPUs of the root zone get their zone. */
  function RootZoneCreated(m: Machine, s: State): State
    requires Shape(m, s)
  {
    s.(used := Some(s.minRange), zone := seq(m.n, i requires 0 <= i < m.n => i in m.root || s.zone[i]))
  }

  /** Early initialisation, where the root zone is created, and the per-CPU part. */
  function StepInit(m: Machine, s: State, c: nat): (r: Option<State>)
    requires Shape(m, s) && c < m.n
    ensures r.Some? ==> Shape(m, r.value)
  {
    match s.pc[c]
    case InitEarly =>
      if s.rangeOk == s.ncpu && s.minRange < |RANGE_TABLE|
      then Some(Goto(RootZoneCreated(m, s), c, StoreEarlyOk))
      else Some(Goto(s, c, Dead))
    case StoreEarlyOk => Some(Goto(s.(earlyOk := true), c, PerCpuInit))
    case WaitEarlyOk => if s.earlyOk then Some(Goto(s, c, PerCpuInit)) else None
    case PerCpuInit => Some(Goto(s, c, IncInited))
    case _ => None
  }

  /** From the initialised-count barrier to the guest. */
  function StepLate(m: Machine, s: State, c: nat): (r: Option<State>)
    requires Shape(m, s) && c < m.n
    ensures r.Some? ==> Shape(m, r.value)
  {
    match s.pc[c]
    case IncInited => Some(Goto(s.(inited := s.inited + 1), c, WaitInited))
    case WaitInited =>
      if s.inited < m.n then None else Some(Goto(s, c, if s.isPrimary[c] then InitLate else WaitLateOk))
    case InitLate => Some(Goto(s, c, StoreLateOk))
    case StoreLateOk => Some(Goto(s.(lateOk := true), c, RunVm))
    case WaitLateOk => if s.lateOk then Some(Goto(s, c, RunVm)) else None
    case _ => None
  }

  /** One step of CPU `c`; `None` when it is off, waiting, or done. */
  function Step(m: Machine, s: State, c: nat): (r: Option<State>)
    requires Shape(m, s) && c < m.n
    ensures r.Some? ==> Shape(m, r.value)
  {
    var r := Rank(s.pc[c]);
    if r <= 7 then StepEnter(m, s, c)
    else if r <= 11 then StepRange(m, s, c)
    else if r <= 15 then StepInit(m, s, c)
    else StepLate(m, s, c)
  }

  // Counting.

  ghost function Past(s: State, r: nat): set<nat>
  {
    set c: nat | c < |s.pc| && Rank(s.pc[c]) > r
  }

  lemma PastBound(s: State, r: nat)
    ensures |Past(s, r)| <= |s.pc|
    ensures |Past(s, r)| == |s.pc| ==> forall c: nat | c < |s.pc| :: Rank(s.pc[c]) > r
  {
    var past, all := Past(s, r), Below(|s.pc|);
    SubsetCount(past, all);
    if |past| == |s.pc| {
      forall c: nat | c < |s.pc|
        ensures Rank(s.pc[c]) > r
      {
        assert c in past;
      }
    }
  }

  ghost function Below(n: nat): (all: set<nat>)
    ensures |all| == n && forall c: nat :: c in all <==> c < n
  {
    if n == 0 then {} else Below(n - 1) + {n - 1}
  }

  lemma SubsetCount(a: set<nat>, b: set<nat>)
    requires a <= b
    ensures |a| <= |b| && (|a| == |b| ==> a == b)
  {
    assert b == a + (b - a);
    assert |b| == |a| + |b - a|;
  }

  /** Moving one CPU counts it once when it passes the mark. */
  lemma PastMoves(s: State, s': State, c: nat, r: nat)
    requires c < |s.pc| && |s'.pc| == |s.pc| && Rank(s'.pc[c]) >= Rank(s.pc[c])
    requires forall d: nat | d < |s.pc| && d != c :: Rank(s'.pc[d]) > r <==> Rank(s.pc[d]) > r
    ensures |Past(s', r)| == |Past(s, r)| + if Rank(s.pc[c]) <= r < Rank(s'.pc[c]) then 1 else 0
  {
    if Rank(s.pc[c]) <= r < Rank(s'.pc[c]) {
      assert Past(s', r) == Past(s, r) + {c};
    } else {
      assert Past(s', r) == Past(s, r);
    }
  }

  lemma AllPast(s: State, r: nat)
    requires forall c: nat | c < |s.pc| :: Rank(s.pc[c]) > r
    ensures |Past(s, r)| == |s.pc|
  {
    assert Past(s, r) == Below(|s.pc|);
  }

  // The invariant.

  /** Some CPU reports a physical address range that the table knows. */
  ghost predicate RangeKnown(m: Machine)
  {
    exists c: nat :: c < |m.range| && m.range[c] < 6
  }

  predicate PrimaryOnly(pc: Pc)
  {
    pc.StoreMaster? || pc.Wake? || pc.InitEarly? || pc.StoreEarlyOk? || pc.InitLate? || pc.StoreLateOk?
    || pc.Dead?
  }

  predicate SecondaryOnly(pc: Pc)
  {
    pc.Off? || pc.WaitEarlyOk? || pc.WaitLateOk?
  }

  /** Roles: only the first CPU ever takes the primary's path, and it wakes all the others on the way; it alone can
      panic, and only if no CPU reports a range the table knows. */
  ghost predicate Roles(m: Machine, s: State)
    requires Shape(m, s)
  {
    var p := s.pc[m.first];
    && (forall c: nat | c < m.n && c != m.first :: !s.isPrimary[c] && !PrimaryOnly(s.pc[c]))
    && !SecondaryOnly(p)
    && (s.isPrimary[m.first] <==> Rank(p) >= 3)
    && s.master == (if Rank(p) <= 2 then None else Some(m.first))
    && (forall c: nat | c < m.n && c != m.first && Rank(p) < 4 :: s.pc[c] == Off)
    && (forall c: nat | c < m.n && c != m.first && p.Wake? && c < p.next :: s.pc[c] != Off)
    && (forall c: nat | c < m.n && Rank(p) >= 5 :: s.pc[c] != Off)
    && (s.pc[m.first] == Dead ==> !RangeKnown(m))
  }

  /** Nobody is at rank `after` or beyond before everybody has passed `mark`. */
  ghost predicate Barrier(s: State, after: nat, mark: nat)
  {
    forall c: nat | c < |s.pc| && Rank(s.pc[c]) >= after :: |Past(s, mark)| == |s.pc|
  }

  ghost predicate Counters(s: State)
  {
    && s.entered == |Past(s, 5)|
    && s.rangeOk == |Past(s, 10)|
    && s.inited == |Past(s, 16)|
    && Barrier(s, 7, 5)
    && Barrier(s, 12, 10)
    && Barrier(s, 18, 16)
  }

  ghost predicate Ranges(m: Machine, s: State)
    requires Shape(m, s)
  {
    && (forall c: nat | c < m.n && Rank(s.pc[c]) > 8 :: s.ncpu == m.n)
    && (forall c: nat | c < m.n && Rank(s.pc[c]) > 9 :: s.minRange <= m.range[c])
    && s.minRange <= 7
    && (s.minRange == 7 || exists c: nat :: c < m.n && m.range[c] == s.minRange)
    && (Rank(s.pc[m.first]) < 14 ==> s.used == None && forall c: nat | c < m.n :: !s.zone[c])
    && (Rank(s.pc[m.first]) >= 14 ==>
          s.used == Some(s.minRange) && s.minRange < 6 && forall c: nat | c < m.n :: s.zone[c] <==> c in m.root)
  }

  ghost predicate Gates(m: Machine, s: State)
    requires Shape(m, s)
  {
    && (forall c: nat | c < m.n && Rank(s.pc[c]) >= 15 :: s.earlyOk)
    && (s.earlyOk ==> Rank(s.pc[m.first]) >= 15)
    && (forall c: nat | c < m.n && Rank(s.pc[c]) >= 20 :: s.lateOk)
    && (s.lateOk ==> Rank(s.pc[m.first]) >= 20)
  }

  ghost predicate Inv(m: Machine, s: State)
  {
    Shape(m, s) && Roles(m, s) && Counters(s) && Ranges(m, s) && Gates(m, s)
  }

  lemma InitialHolds(m: Machine)
    requires MachineOk(m)
    ensures Inv(m, Initial(m))
  {
    var s := Initial(m);
    assert Past(s, 5) == {} && Past(s, 10) == {} && Past(s, 16) == {};
  }

  // One CPU moves: what each part of the invariant needs.

  ghost predicate Moved(s: State, s': State, c: nat)
  {
    && c < |s.pc| && |s'.pc| == |s.pc|
    && s'.pc == s.pc[c := s'.pc[c]]
    && Rank(s.pc[c]) <= Rank(s'.pc[c])
  }

  /** Whether going from `a` to `b` passes the mark `r`. */
  function Passes(a: Pc, b: Pc, r: nat): nat
  {
    if Rank(a) <= r < Rank(b) then 1 else 0
  }

  lemma BarrierMove(s: State, s': State, c: nat, after: nat, mark: nat)
    requires Barrier(s, after, mark) && Moved(s, s', c) && mark < after
    requires Rank(s.pc[c]) < after <= Rank(s'.pc[c]) ==> |Past(s, mark)| == |s.pc|
    ensures Barrier(s', after, mark)
  {
    PastMoves(s, s', c, mark);
    PastBound(s, mark);
    PastBound(s', mark);
  }

  /** What a barrier is for. */
  lemma BarrierHolds(s: State, after: nat, mark: nat, c: nat)
    requires Barrier(s, after, mark) && c < |s.pc| && Rank(s.pc[c]) >= after
    ensures forall d: nat | d < |s.pc| :: Rank(s.pc[d]) > mark
  {
    PastBound(s, mark);
  }

  lemma CountersMove(s: State, s': State, c: nat)
    requires Counters(s) && Moved(s, s', c)
    requires s'.entered == s.entered + Passes(s.pc[c], s'.pc[c], 5)
    requires s'.rangeOk == s.rangeOk + Passes(s.pc[c], s'.pc[c], 10)
    requires s'.inited == s.inited + Passes(s.pc[c], s'.pc[c], 16)
    requires Passes(s.pc[c], s'.pc[c], 6) == 1 ==> s.entered >= |s.pc|
    requires Passes(s.pc[c], s'.pc[c], 11) == 1 ==> s.rangeOk >= |s.pc|
    requires Passes(s.pc[c], s'.pc[c], 17) == 1 ==> s.inited >= |s.pc|
    ensures Counters(s')
  {
    PastMoves(s, s', c, 5);
    PastMoves(s, s', c, 10);
    PastMoves(s, s', c, 16);
    PastBound(s, 5);
    PastBound(s, 10);
    PastBound(s, 16);
    BarrierMove(s, s', c, 7, 5);
    BarrierMove(s, s', c, 12, 10);
    BarrierMove(s, s', c, 18, 16);
  }

  /** After waking the others no role changes any more. */
  lemma RolesMove(m: Machine, s: State, s': State, c: nat)
    requires Shape(m, s) && Shape(m, s') && Roles(m, s) && Moved(s, s', c)
    requires s'.isPrimary == s.isPrimary && s'.master == s.master
    requires Rank(s.pc[c]) >= 5
    requires c != m.first ==> !PrimaryOnly(s'.pc[c])
    requires c == m.first ==> !SecondaryOnly(s'.pc[c])
    requires s'.pc[c] == Dead ==> !RangeKnown(m)
    ensures Roles(m, s')
  {
  }

  ghost predicate SameRanges(s: State, s': State)
  {
    s'.minRange == s.minRange && s'.ncpu == s.ncpu && s'.used == s.used && s'.zone == s.zone
  }

  lemma RangesMove(m: Machine, s: State, s': State, c: nat)
    requires Shape(m, s) && Shape(m, s') && Ranges(m, s) && Moved(s, s', c) && SameRanges(s, s')
    requires Passes(s.pc[c], s'.pc[c], 8) == 0 && Passes(s.pc[c], s'.pc[c], 9) == 0
    requires c == m.first ==> Passes(s.pc[c], s'.pc[c], 13) == 0
    ensures Ranges(m, s')
  {
  }

  lemma GatesMove(m: Machine, s: State, s': State, c: nat)
    requires Shape(m, s) && Shape(m, s') && Gates(m, s) && Moved(s, s', c)
    requires s'.earlyOk == s.earlyOk && s'.lateOk == s.lateOk
    requires Passes(s.pc[c], s'.pc[c], 14) == 1 ==> s.earlyOk
    requires Passes(s.pc[c], s'.pc[c], 19) == 1 ==> s.lateOk
    ensures Gates(m, s')
  {
  }

  lemma LoadMasterKeeps(m: Machine, s: State, c: nat)
    requires Inv(m, s) && c < m.n && s.pc[c].LoadMaster?
    ensures Inv(m, StepEnter(m, s, c).value)
  {
    var s' := Goto(s, c, if s.master.None? then StoreMaster else NewPerCpu);
    CountersMove(s, s', c);
    RangesMove(m, s, s', c);
    GatesMove(m, s, s', c);
    LoadMasterRoles(m, s, c);
  }

  lemma LoadMasterRoles(m: Machine, s: State, c: nat)
    requires Shape(m, s) && Roles(m, s) && c < m.n && s.pc[c].LoadMaster?
    ensures Roles(m, Goto(s, c, if s.master.None? then StoreMaster else NewPerCpu))
  {
  }

  lemma StoreMasterKeeps(m: Machine, s: State, c: nat)
    requires Inv(m, s) && c < m.n && s.pc[c].StoreMaster?
    ensures Inv(m, StepEnter(m, s, c).value)
  {
    var s' := StepEnter(m, s, c).value;
    CountersMove(s, s', c);
    RangesMove(m, s, s', c);
    GatesMove(m, s, s', c);
    assert Roles(m, s');
  }

  /** A `PerCpu` record is reset only before the root zone is created. */
  lemma NewPerCpuKeeps(m: Machine, s: State, c: nat)
    requires Inv(m, s) && c < m.n && s.pc[c].NewPerCpu?
    ensures Inv(m, StepEnter(m, s, c).value)
  {
    var s' := StepEnter(m, s, c).value;
    CountersMove(s, s', c);
    GatesMove(m, s, s', c);
    if Rank(s.pc[m.first]) >= 12 {
      BarrierHolds(s, 12, 10, m.first);
    }
    assert Ranges(m, s');
    NewPerCpuRoles(m, s, c);
  }

  lemma NewPerCpuRoles(m: Machine, s: State, c: nat)
    requires Shape(m, s) && Roles(m, s) && c < m.n && s.pc[c].NewPerCpu?
    ensures Roles(m, Goto(s, c, if s.isPrimary[c] then Wake(0) else IncEntered))
  {
  }

  lemma WakeOneKeeps(m: Machine, s: State, k: nat)
    requires Inv(m, s) && k < m.n && s.pc[k] == Off && Rank(s.pc[m.first]) == 4
    ensures Inv(m, Goto(s, k, LoadMaster))
  {
    var s' := Goto(s, k, LoadMaster);
    CountersMove(s, s', k);
    RangesMove(m, s, s', k);
    GatesMove(m, s, s', k);
    assert Roles(m, s');
  }

  lemma WakeNextRoles(m: Machine, s: State, c: nat, pc: Pc)
    requires Shape(m, s) && Roles(m, s) && c < m.n && s.pc[c].Wake?
    requires s.pc[c].next < m.n ==> pc == Wake(s.pc[c].next + 1) && (s.pc[c].next != c ==> s.pc[s.pc[c].next] != Off)
    requires s.pc[c].next >= m.n ==> pc == IncEntered
    ensures Roles(m, Goto(s, c, pc))
  {
  }

  lemma WakeNextKeeps(m: Machine, s: State, s': State, c: nat)
    requires Inv(m, s) && c < m.n && s.pc[c].Wake?
    requires s.pc[c].next < m.n ==> s.pc[c].next == c || s.pc[s.pc[c].next] != Off
    requires s' == Woken(m, s, c)
    ensures Inv(m, s')
  {
    CountersMove(s, s', c);
    WakeNextRoles(m, s, c, s'.pc[c]);
    RangesMove(m, s, s', c);
    GatesMove(m, s, s', c);
  }

  lemma WakeKeeps(m: Machine, s: State, s': State, c: nat)
    requires Inv(m, s) && c < m.n && s.pc[c].Wake? && s' == Woken(m, s, c)
    ensures Inv(m, s')
  {
    var k := s.pc[c].next;
    if k < m.n && k != c && s.pc[k] == Off {
      WakeOneKeeps(m, s, k);
      WakeNextKeeps(m, Goto(s, k, LoadMaster), s', c);
    } else {
      WakeNextKeeps(m, s, s', c);
    }
  }

  /** One turn of `wakeup_secondary_cpus`. */
  function Woken(m: Machine, s: State, c: nat): (s': State)
    requires Shape(m, s) && c < m.n && s.pc[c].Wake?
    ensures Shape(m, s')
  {
    var k := s.pc[c].next;
    if k >= m.n then Goto(s, c, IncEntered)
    else if k != c && s.pc[k] == Off then Goto(Goto(s, k, LoadMaster), c, Wake(k + 1))
    else Goto(s, c, Wake(k + 1))
  }

  lemma IncEnteredKeeps(m: Machine, s: State, c: nat)
    requires Inv(m, s) && c < m.n && s.pc[c].IncEntered?
    ensures Inv(m, StepEnter(m, s, c).value)
  {
    PlainKeeps(m, s, s.(entered := s.entered + 1, pc := s.pc[c := WaitEntered]), c);
  }

  /** The entered-count barrier: the count is exact, so the assertion holds. */
  lemma EnteredKeeps(m: Machine, s: State, c: nat)
    requires Inv(m, s) && c < m.n && 6 <= Rank(s.pc[c]) <= 7 && StepEnter(m, s, c).Some?
    ensures Inv(m, StepEnter(m, s, c).value)
  {
    PlainKeeps(m, s, Goto(s, c, if s.pc[c].CheckEntered? then SetNcpu else CheckEntered), c);
  }

  /** A step that changes nothing but the counters it must. */
  lemma PlainKeeps(m: Machine, s: State, s': State, c: nat)
    requires Inv(m, s) && Shape(m, s') && Moved(s, s', c) && Rank(s.pc[c]) >= 5 && s'.pc[c] != Dead
    requires s'.isPrimary == s.isPrimary && s'.master == s.master && SameRanges(s, s')
    requires s'.earlyOk == s.earlyOk && s'.lateOk == s.lateOk
    requires c != m.first ==> !PrimaryOnly(s'.pc[c])
    requires c == m.first ==> !SecondaryOnly(s'.pc[c])
    requires s'.entered == s.entered + Passes(s.pc[c], s'.pc[c], 5)
    requires s'.rangeOk == s.rangeOk + Passes(s.pc[c], s'.pc[c], 10)
    requires s'.inited == s.inited + Passes(s.pc[c], s'.pc[c], 16)
    requires Passes(s.pc[c], s'.pc[c], 6) == 1 ==> s.entered >= m.n
    requires Passes(s.pc[c], s'.pc[c], 11) == 1 ==> s.rangeOk >= m.n
    requires Passes(s.pc[c], s'.pc[c], 17) == 1 ==> s.inited >= m.n
    requires Passes(s.pc[c], s'.pc[c], 8) == 0 && Passes(s.pc[c], s'.pc[c], 9) == 0
    requires c == m.first ==> Passes(s.pc[c], s'.pc[c], 13) == 0
    requires Passes(s.pc[c], s'.pc[c], 14) == 1 ==> s.earlyOk
    requires Passes(s.pc[c], s'.pc[c], 19) == 1 ==> s.lateOk
    ensures Inv(m, s')
  {
    CountersMove(s, s', c);
    RangesMove(m, s, s', c);
    GatesMove(m, s, s', c);
    RolesMove(m, s, s', c);
  }

  lemma IncRangeOkKeeps(m: Machine, s: State, c: nat)
    requires Inv(m, s) && c < m.n && s.pc[c].IncRangeOk?
    ensures Inv(m, StepRange(m, s, c).value)
  {
    var s' := Goto(s.(rangeOk := s.rangeOk + 1), c, WaitRangeOk);
    assert StepRange(m, s, c) == Some(s');
    PlainKeeps(m, s, s', c);
  }

  lemma WaitRangeOkKeeps(m: Machine, s: State, c: nat)
    requires Inv(m, s) && c < m.n && s.pc[c].WaitRangeOk? && StepRange(m, s, c).Some?
    ensures Inv(m, StepRange(m, s, c).value)
  {
    PlainKeeps(m, s, Goto(s, c, if c == m.first then InitEarly else WaitEarlyOk), c);
  }

  lemma RangeWriteKeeps(m: Machine, s: State, c: nat)
    requires Inv(m, s) && c < m.n && (s.pc[c].SetNcpu? || s.pc[c].MinRange?)
    ensures Inv(m, StepRange(m, s, c).value)
  {
    var s' := StepRange(m, s, c).value;
    CountersMove(s, s', c);
    GatesMove(m, s, s', c);
    RolesMove(m, s, s', c);
    RangeWritten(m, s, c);
  }

  lemma RangeWritten(m: Machine, s: State, c: nat)
    requires Inv(m, s) && c < m.n && (s.pc[c].SetNcpu? || s.pc[c].MinRange?)
    ensures Ranges(m, StepRange(m, s, c).value)
  {
    var s' := StepRange(m, s, c).value;
    if Rank(s.pc[m.first]) >= 12 {
      BarrierHolds(s, 12, 10, m.first);
    }
    if s'.minRange != s.minRange {
      assert m.range[c] == s'.minRange;
    }
  }

  /** Early initialisation reads the PARANGE after every CPU has contributed to it, and panics only if the table knows
      none of their ranges. */
  lemma InitEarlyKeeps(m: Machine, s: State, c: nat)
    requires Inv(m, s) && c < m.n && s.pc[c].InitEarly?
    ensures Inv(m, StepInit(m, s, c).value)
  {
    EarlyInitReads(m, s, c);
    if s.minRange < 6 {
      var s' := Goto(RootZoneCreated(m, s), c, StoreEarlyOk);
      CountersMove(s, s', c);
      RolesMove(m, s, s', c);
      GatesMove(m, s, s', c);
      assert Ranges(m, s');
    } else {
      var s' := Goto(s, c, Dead);
      CountersMove(s, s', c);
      RolesMove(m, s, s', c);
      RangesMove(m, s, s', c);
      GatesMove(m, s, s', c);
    }
  }

  lemma StoreEarlyKeeps(m: Machine, s: State, c: nat)
    requires Inv(m, s) && c < m.n && s.pc[c].StoreEarlyOk?
    ensures Inv(m, StepInit(m, s, c).value)
  {
    var s' := Goto(s.(earlyOk := true), c, PerCpuInit);
    CountersMove(s, s', c);
    RolesMove(m, s, s', c);
    RangesMove(m, s, s', c);
    assert Gates(m, s');
  }

  lemma PerCpuKeeps(m: Machine, s: State, c: nat)
    requires Inv(m, s) && c < m.n && (s.pc[c].WaitEarlyOk? || s.pc[c].PerCpuInit?) && StepInit(m, s, c).Some?
    ensures Inv(m, StepInit(m, s, c).value)
  {
    PlainKeeps(m, s, Goto(s, c, if s.pc[c].PerCpuInit? then IncInited else PerCpuInit), c);
  }

  lemma EarlyInitReads(m: Machine, s: State, c: nat)
    requires Inv(m, s) && c < m.n && s.pc[c].InitEarly?
    ensures c == m.first && s.rangeOk == s.ncpu == m.n
    ensures forall d: nat | d < m.n :: s.minRange <= m.range[d]
    ensures s.minRange < 6 <==> RangeKnown(m)
  {
    BarrierHolds(s, 12, 10, c);
    if RangeKnown(m) {
      var d: nat :| d < |m.range| && m.range[d] < 6;
    }
  }

  lemma StoreLateKeeps(m: Machine, s: State, c: nat)
    requires Inv(m, s) && c < m.n && s.pc[c].StoreLateOk?
    ensures Inv(m, StepLate(m, s, c).value)
  {
    var s' := Goto(s.(lateOk := true), c, RunVm);
    CountersMove(s, s', c);
    RolesMove(m, s, s', c);
    RangesMove(m, s, s', c);
    assert Gates(m, s');
  }

  lemma IncInitedKeeps(m: Machine, s: State, c: nat)
    requires Inv(m, s) && c < m.n && s.pc[c].IncInited?
    ensures Inv(m, StepLate(m, s, c).value)
  {
    var s' := Goto(s.(inited := s.inited + 1), c, WaitInited);
    assert StepLate(m, s, c) == Some(s');
    PlainKeeps(m, s, s', c);
  }

  lemma WaitInitedKeeps(m: Machine, s: State, c: nat)
    requires Inv(m, s) && c < m.n && s.pc[c].WaitInited? && StepLate(m, s, c).Some?
    ensures Inv(m, StepLate(m, s, c).value)
  {
    PlainKeeps(m, s, Goto(s, c, if c == m.first then InitLate else WaitLateOk), c);
  }

  lemma LateKeeps(m: Machine, s: State, c: nat)
    requires Inv(m, s) && c < m.n && Rank(s.pc[c]) >= 18 && StepLate(m, s, c).Some?
    ensures Inv(m, StepLate(m, s, c).value)
  {
    match s.pc[c]
    case InitLate => PlainKeeps(m, s, Goto(s, c, StoreLateOk), c);
    case StoreLateOk => StoreLateKeeps(m, s, c);
    case WaitLateOk => PlainKeeps(m, s, Goto(s, c, RunVm), c);
  }

  /** Every step of every CPU keeps the invariant. */
  lemma StepKeeps(m: Machine, s: State, c: nat)
    requires Inv(m, s) && c < m.n && Step(m, s, c).Some?
    ensures Inv(m, Step(m, s, c).value)
  {
    var pc := s.pc[c];
    if pc.LoadMaster? {
      LoadMasterKeeps(m, s, c);
    } else if pc.StoreMaster? {
      StoreMasterKeeps(m, s, c);
    } else if pc.NewPerCpu? {
      NewPerCpuKeeps(m, s, c);
    } else if pc.Wake? {
      WakeKeeps(m, s, Woken(m, s, c), c);
    } else if pc.IncEntered? {
      IncEnteredKeeps(m, s, c);
    } else if Rank(pc) <= 7 {
      EnteredKeeps(m, s, c);
    } else {
      LaterStepKeeps(m, s, c);
    }
  }

  lemma LaterStepKeeps(m: Machine, s: State, c: nat)
    requires Inv(m, s) && c < m.n && Rank(s.pc[c]) > 7 && Step(m, s, c).Some?
    ensures Inv(m, Step(m, s, c).value)
  {
    var pc := s.pc[c];
    if pc.SetNcpu? || pc.MinRange? {
      RangeWriteKeeps(m, s, c);
    } else if pc.IncRangeOk? {
      IncRangeOkKeeps(m, s, c);
    } else if pc.WaitRangeOk? {
      WaitRangeOkKeeps(m, s, c);
    } else if pc.InitEarly? {
      InitEarlyKeeps(m, s, c);
    } else if pc.StoreEarlyOk? {
      StoreEarlyKeeps(m, s, c);
    } else if Rank(pc) <= 15 {
      PerCpuKeeps(m, s, c);
    } else if pc.IncInited? {
      IncInitedKeeps(m, s, c);
    } else if pc.WaitInited? {
      WaitInitedKeeps(m, s, c);
    } else {
      LateKeeps(m, s, c);
    }
  }

  // Whole runs.

  /** The state after a schedule: the CPUs listed move in turn, and one that has to wait spins in place. */
  function After(m: Machine, schedule: seq<nat>): (s: State)
    requires MachineOk(m)
    ensures Shape(m, s)
  {
    if schedule == [] then Initial(m)
    else
      var s, c := After(m, schedule[..|schedule| - 1]), schedule[|schedule| - 1];
      if c < m.n && Step(m, s, c).Some? then Step(m, s, c).value else s
  }

  lemma {:induction false} RunKeeps(m: Machine, schedule: seq<nat>)
    requires MachineOk(m)
    ensures Inv(m, After(m, schedule))
  {
    if schedule == [] {
      InitialHolds(m);
    } else {
      var s, c := After(m, schedule[..|schedule| - 1]), schedule[|schedule| - 1];
      RunKeeps(m, schedule[..|schedule| - 1]);
      if c < m.n && Step(m, s, c).Some? {
        StepKeeps(m, s, c);
      }
    }
  }

  ghost predicate IsLeastRange(m: Machine, v: nat)
  {
    && (forall c: nat | c < |m.range| :: v <= m.range[c])
    && exists c: nat :: c < |m.range| && m.range[c] == v
  }

  /** What the boot must never break, seen from CPU `c`. */
  ghost predicate Safe(m: Machine, s: State, c: nat)
    requires Shape(m, s) && c < m.n
  {
    && (s.pc[c] == Dead ==> c == m.first && !RangeKnown(m))
    && (s.isPrimary[c] ==> c == m.first)
    && (Rank(s.pc[c]) >= Rank(PerCpuInit) ==> s.earlyOk && s.used.Some?)
    && (s.zone[c] <==> s.used.Some? && c in m.root)
    && (s.pc[c] == RunVm ==> s.lateOk && s.used.Some?)
    && (s.pc[c] == RunVm ==> forall d: nat | d < m.n :: Rank(s.pc[d]) > Rank(IncInited))
  }

  /** Safety of the boot, in every state of every run of every machine: no assertion fails, and the table lookup only on
      the primary of a machine without a known range; only the CPU that started first is ever primary; the per-CPU part
      starts only after early initialisation has ended, and the guest only after every CPU is initialised and late
      initialisation has ended; from the creation of the root zone on exactly the CPUs of its configuration have a zone,
      and before that none; and the PARANGE that chose the page table depth is the least over all CPUs, and known. */
  lemma BootIsSafe(m: Machine, schedule: seq<nat>, c: nat)
    requires MachineOk(m) && c < m.n
    ensures Safe(m, After(m, schedule), c)
    ensures After(m, schedule).used.Some? ==>
      IsLeastRange(m, After(m, schedule).used.value) && After(m, schedule).used.value < 6
  {
    RunKeeps(m, schedule);
    var s := After(m, schedule);
    InvIsSafe(m, s, c);
    if s.used.Some? {
      UsedIsLeast(m, s);
    }
  }

  lemma InvIsSafe(m: Machine, s: State, c: nat)
    requires Inv(m, s) && c < m.n
    ensures Safe(m, s, c)
  {
    AllInited(m, s, c);
    assert Rank(s.pc[c]) >= 15 ==> s.earlyOk;
    assert s.zone[c] <==> s.used.Some? && c in m.root;
  }

  lemma AllInited(m: Machine, s: State, c: nat)
    requires Inv(m, s) && c < m.n
    ensures s.pc[c] == RunVm ==> forall d: nat | d < m.n :: Rank(s.pc[d]) > 16
  {
    if s.pc[c] == RunVm {
      BarrierHolds(s, 18, 16, c);
    }
  }

  lemma UsedIsLeast(m: Machine, s: State)
    requires Inv(m, s) && s.used.Some?
    ensures IsLeastRange(m, s.used.value) && s.used.value < 6
  {
    BarrierHolds(s, 12, 10, m.first);
  }

  // Progress.

  ghost predicate CanMove(m: Machine, s: State)
    requires Shape(m, s)
  {
    exists c: nat :: c < m.n && Step(m, s, c).Some?
  }

  lemma NotAllPast(s: State, r: nat) returns (c: nat)
    requires |Past(s, r)| < |s.pc|
    ensures c < |s.pc| && Rank(s.pc[c]) <= r
  {
    if forall d: nat | d < |s.pc| :: Rank(s.pc[d]) > r {
      AllPast(s, r);
    }
    c :| c < |s.pc| && Rank(s.pc[c]) <= r;
  }

  /** A CPU that has not passed the barrier the primary waits at can move. */
  lemma LaggardMoves(m: Machine, s: State)
    requires Inv(m, s) && Step(m, s, m.first).None? && s.pc[m.first] != RunVm && s.pc[m.first] != Dead
    ensures CanMove(m, s)
  {
    var p := s.pc[m.first];
    if p.WaitEntered? {
      var d := NotAllPast(s, 5);
      assert Step(m, s, d).Some?;
    } else if p.WaitRangeOk? {
      var d := NotAllPast(s, 10);
      BarrierHolds(s, 7, 5, m.first);
      assert Step(m, s, d).Some?;
    } else {
      var d := NotAllPast(s, 16);
      BarrierHolds(s, 12, 10, m.first);
      assert Step(m, s, d).Some?;
    }
  }

  /** No deadlock: until the primary has panicked or every CPU runs its guest, some CPU can move. */
  lemma SomeCpuMoves(m: Machine, s: State, c: nat)
    requires Inv(m, s) && c < m.n && s.pc[c] != RunVm && s.pc[m.first] != Dead
    ensures CanMove(m, s)
  {
    if s.pc[m.first] != RunVm {
      if Step(m, s, m.first).None? {
        LaggardMoves(m, s);
      }
    } else {
      BarrierHolds(s, 18, 16, m.first);
      assert Step(m, s, c).Some?;
    }
  }

  function Left(m: Machine, pc: Pc): (k: nat)
  {
    (20 - Rank(pc)) * (m.n + 2) - match pc { case Wake(k) => Min(k, m.n) case _ => 0 }
  }

  function LeftUpTo(m: Machine, pcs: seq<Pc>): (k: nat)
  {
    if pcs == [] then 0 else LeftUpTo(m, pcs[..|pcs| - 1]) + Left(m, pcs[|pcs| - 1])
  }

  lemma {:induction false} LeftMoves(m: Machine, pcs: seq<Pc>, c: nat, pc: Pc)
    requires c < |pcs|
    ensures LeftUpTo(m, pcs[c := pc]) == LeftUpTo(m, pcs) + Left(m, pc) - Left(m, pcs[c])
  {
    var n := |pcs| - 1;
    if c < n {
      LeftMoves(m, pcs[..n], c, pc);
      assert pcs[c := pc][..n] == pcs[..n][c := pc];
    } else {
      assert pcs[c := pc][..n] == pcs[..n];
    }
  }

  /** Every program point is left for one with less to do. */
  lemma PointMoves(m: Machine, a: Pc, b: Pc)
    requires Rank(a) < Rank(b) || (a.Wake? && a.next < m.n && b == Wake(a.next + 1))
    ensures Left(m, b) < Left(m, a)
  {
    if Rank(a) < Rank(b) {
      var w := m.n + 2;
      assert (20 - Rank(a)) * w == (20 - Rank(b)) * w + (Rank(b) - Rank(a)) * w;
      assert (Rank(b) - Rank(a)) * w >= w;
    }
  }

  lemma StepShape(m: Machine, s: State, c: nat)
    requires Shape(m, s) && c < m.n && Step(m, s, c).Some? && !s.pc[c].Wake?
    ensures var pcs := Step(m, s, c).value.pc;
            pcs == s.pc[c := pcs[c]] && Rank(s.pc[c]) < Rank(pcs[c])
  {
    var r := Rank(s.pc[c]);
    if r <= 7 {
      EnterShape(m, s, c);
    } else if 11 < r <= 15 {
      InitShape(m, s, c);
    }
  }

  lemma EnterShape(m: Machine, s: State, c: nat)
    requires Shape(m, s) && c < m.n && StepEnter(m, s, c).Some? && !s.pc[c].Wake?
    ensures var pcs := StepEnter(m, s, c).value.pc;
            pcs == s.pc[c := pcs[c]] && Rank(s.pc[c]) < Rank(pcs[c])
  {
  }

  lemma InitShape(m: Machine, s: State, c: nat)
    requires Shape(m, s) && c < m.n && StepInit(m, s, c).Some?
    ensures var pcs := StepInit(m, s, c).value.pc;
            pcs == s.pc[c := pcs[c]] && Rank(s.pc[c]) < Rank(pcs[c])
  {
  }

  lemma StepLeavesLess(m: Machine, s: State, c: nat)
    requires Shape(m, s) && c < m.n && Step(m, s, c).Some?
    ensures LeftUpTo(m, Step(m, s, c).value.pc) < LeftUpTo(m, s.pc)
  {
    var pcs := Step(m, s, c).value.pc;
    PointMoves(m, Off, LoadMaster);
    if s.pc[c].Wake? {
      var k := s.pc[c].next;
      var before := if k < m.n && k != c && s.pc[k] == Off then s.pc[k := LoadMaster] else s.pc;
      if before != s.pc {
        LeftMoves(m, s.pc, k, LoadMaster);
      }
      PointMoves(m, s.pc[c], pcs[c]);
      LeftMoves(m, before, c, pcs[c]);
    } else {
      StepShape(m, s, c);
      PointMoves(m, s.pc[c], pcs[c]);
      LeftMoves(m, s.pc, c, pcs[c]);
    }
  }

  /** A schedule in which every listed CPU really moves. */
  predicate Strict(m: Machine, schedule: seq<nat>)
    requires MachineOk(m)
  {
    schedule == [] ||
    var before, c := schedule[..|schedule| - 1], schedule[|schedule| - 1];
    Strict(m, before) && c < m.n && Step(m, After(m, before), c).Some?
  }

  lemma {:induction false} StrictRunsShort(m: Machine, schedule: seq<nat>)
    requires MachineOk(m) && Strict(m, schedule)
    ensures |schedule| + LeftUpTo(m, After(m, schedule).pc) <= LeftUpTo(m, Initial(m).pc)
  {
    if schedule != [] {
      var before, c := schedule[..|schedule| - 1], schedule[|schedule| - 1];
      StrictRunsShort(m, before);
      StepLeavesLess(m, After(m, before), c);
    }
  }

  lemma {:induction false} LeftBound(m: Machine, pcs: seq<Pc>)
    ensures LeftUpTo(m, pcs) <= |pcs| * Left(m, Off)
  {
    if pcs != [] {
      var n := |pcs| - 1;
      LeftBound(m, pcs[..n]);
      if Rank(pcs[n]) > 0 {
        PointMoves(m, Off, pcs[n]);
      }
      Distributes(n, Left(m, Off));
    }
  }

  lemma Distributes(n: nat, w: nat)
    ensures n * w + w == (n + 1) * w
  {
  }

  /** The boot ends: no run makes more than 20n(n + 2) moves, and when no CPU can move any more all of them run their
      guests, or the primary has panicked because the table knows no range of the machine.  (With `BootIsSafe`: whatever
      the interleaving, every barrier opens.) */
  lemma BootCompletes(m: Machine, schedule: seq<nat>, c: nat)
    requires MachineOk(m) && Strict(m, schedule) && c < m.n
    ensures |schedule| <= m.n * Left(m, Off) && Left(m, Off) == 20 * (m.n + 2)
    ensures !CanMove(m, After(m, schedule)) ==>
      if RangeKnown(m) then After(m, schedule).pc[c] == RunVm else After(m, schedule).pc[m.first] == Dead
  {
    RunKeeps(m, schedule);
    StrictRunsShort(m, schedule);
    LeftBound(m, Initial(m).pc);
    var s := After(m, schedule);
    if !CanMove(m, s) && s.pc[m.first] != Dead {
      if s.pc[c] != RunVm {
        SomeCpuMoves(m, s, c);
      }
      if s.pc[m.first] != RunVm {
        SomeCpuMoves(m, s, m.first);
      }
      BarrierHolds(s, 12, 10, m.first);
      assert s.minRange < 6;
    }
  }

  /** Every run can be carried on until no CPU can move. */
  lemma {:induction false} RunsToTheEnd(m: Machine, schedule: seq<nat>) returns (longer: seq<nat>)
    requires MachineOk(m) && Strict(m, schedule)
    ensures Strict(m, longer) && !CanMove(m, After(m, longer))
    decreases LeftUpTo(m, After(m, schedule).pc)
  {
    if CanMove(m, After(m, schedule)) {
      var c: nat :| c < m.n && Step(m, After(m, schedule), c).Some?;
      var next := schedule + [c];
      assert next[..|next| - 1] == schedule;
      StepLeavesLess(m, After(m, schedule), c);
      longer := RunsToTheEnd(m, next);
    } else {
      longer := schedule;
    }
  }

  ghost predicate CanPanic(m: Machine)
    requires MachineOk(m)
  {
    exists schedule: seq<nat>, c: nat :: c < m.n && After(m, schedule).pc[c] == Dead
  }

  /** Some schedule of a machine panics if and only if none of its CPUs reports a range that the table knows: a machine
      on which all CPUs report 52 bits (or a reserved value). */
  lemma PanicExact(m: Machine)
    requires MachineOk(m)
    ensures CanPanic(m) <==> !RangeKnown(m)
  {
    if CanPanic(m) {
      var schedule: seq<nat>, c: nat :| c < m.n && After(m, schedule).pc[c] == Dead;
      BootIsSafe(m, schedule, c);
    }
    if !RangeKnown(m) {
      var schedule := RunsToTheEnd(m, []);
      BootCompletes(m, schedule, m.first);
    }
  }

  /** The page table depth follows from the least PARANGE alone: three levels up to 42 bits, four for 44 and 48. */
  lemma DepthOfLeastRange(m: Machine, schedule: seq<nat>)
    requires MachineOk(m) && After(m, schedule).used.Some?
    ensures var v := After(m, schedule).used.value;
            v < 6 && (Levels(v) == 3 <==> exists c: nat :: c < m.n && m.range[c] < 4)
  {
    RunKeeps(m, schedule);
    UsedIsLeast(m, After(m, schedule));
  }

  /** `new_s2_memory_set`. */
  function Levels(range: nat): nat
    requires range < 6
  {
    if RANGE_TABLE[range] < 44 then 3 else 4
  }
}
