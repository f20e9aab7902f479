/** The SMMUv3 command queue (src/arch/aarch64/iommu.rs): 32-bit producer and consumer registers with a wrap bit above
    the index, as in section 3.5.1 of Arm IHI 0070. */
module CommandQueue {

  const ENTRY_SIZE: nat := 16
  const MAX_SHIFT: nat := 8

  /** The number of entries for a shift. */
  function Entries(n: nat): (size: nat)
    ensures size > 0
    ensures n <= 8 ==> size == [1, 2, 4, 8, 16, 32, 64, 128, 256][n]
  {
    if n == 0 then 1 else 2 * Entries(n - 1)
  }

  /** Bit 31 lies above the wrap bit of every queue. */
  lemma EntriesDivide(n: nat)
    requires n <= 8
    ensures 0x8000_0000 % (2 * Entries(n)) == 0
  {
    assert Entries(n) in {1, 2, 4, 8, 16, 32, 64, 128, 256};
  }

  // Registers.

  function Idx(size: nat, reg: nat): nat
    requires size > 0
  {
    reg % size
  }

  function Wrap(size: nat, reg: nat): nat
    requires size > 0
  {
    reg / size % 2 * size
  }

  function Overflow(reg: nat): nat
  {
    reg / 0x8000_0000 % 2 * 0x8000_0000
  }

  predicate Empty(size: nat, prod: nat, cons: nat)
    requires size > 0
  {
    Idx(size, prod) == Idx(size, cons) && Wrap(size, prod) == Wrap(size, cons)
  }

  predicate Full(size: nat, prod: nat, cons: nat)
    requires size > 0
  {
    Idx(size, prod) == Idx(size, cons) && Wrap(size, prod) != Wrap(size, cons)
  }

  /** `inc_prod`.  The three parts have no bit in common, so `|` is a sum. */
  function Inc(size: nat, reg: nat): nat
    requires size > 0
  {
    var next := Wrap(size, reg) + Idx(size, reg) + 1;
    Overflow(reg) + Wrap(size, next) + Idx(size, next)
  }

  // Arithmetic of the wrap bit.

  lemma Multiples(d: int, m: nat)
    ensures d >= 1 ==> d * m >= m
    ensures d <= -1 ==> d * m + m <= 0
  {
  }

  /** Division with remainder is unique. */
  lemma DivMod(x: nat, m: nat, q: nat, r: nat)
    requires m > 0 && x == q * m + r && r < m
    ensures x / m == q && x % m == r
  {
    assert (x / m - q) * m == r - x % m;
    Multiples(x / m - q, m);
  }

  lemma ModAdd(c: nat, e: nat, m: nat)
    requires e < m
    ensures (c + e) % m == if c % m + e < m then c % m + e else c % m + e - m
  {
    var q, r := c / m, c % m;
    if r + e < m {
      DivMod(c + e, m, q, r + e);
    } else {
      assert c + e == (q + 1) * m + (r + e - m);
      DivMod(c + e, m, q + 1, r + e - m);
    }
  }

  lemma Regroup(q: nat, size: nat)
    ensures q * (2 * size) == 2 * q * size && (2 * q + 1) * size == 2 * q * size + size
  {
  }

  lemma Halves(size: nat, reg: nat, q: nat, low: nat)
    requires size > 0 && low < 2 * size && reg == q * (2 * size) + low
    ensures reg / size == 2 * q + (if low < size then 0 else 1)
    ensures reg % size == if low < size then low else low - size
  {
    Regroup(q, size);
    if low < size {
      DivMod(reg, size, 2 * q, low);
    } else {
      DivMod(reg, size, 2 * q + 1, low - size);
    }
  }

  /** Index and wrap bit are the two parts of the register modulo twice the size. */
  lemma Parts(size: nat, reg: nat)
    requires size > 0
    ensures var low := reg % (2 * size);
            && Idx(size, reg) == (if low < size then low else low - size)
            && Wrap(size, reg) == (if low < size then 0 else size)
  {
    var q, low := DivideBy(reg, 2 * size);
    Halves(size, reg, q, low);
    WrapOf(size, reg / size, q);
  }

  lemma DivideBy(x: nat, m: nat) returns (q: nat, r: nat)
    requires m > 0
    ensures x == q * m + r && r < m && r == x % m
  {
    q, r := x / m, x % m;
  }

  lemma WrapOf(size: nat, k: nat, q: nat)
    requires k == 2 * q || k == 2 * q + 1
    ensures k % 2 * size == if k == 2 * q then 0 else size
  {
  }

  /** Two absolute counts at most one queue length apart: the registers are equal exactly when the counts are, and show
      a full queue exactly when the counts are one queue length apart. */
  lemma EmptyFullExact(size: nat, prod: nat, cons: nat, p: nat, c: nat)
    requires size > 0 && c <= p <= c + size
    requires prod % (2 * size) == p % (2 * size) && cons % (2 * size) == c % (2 * size)
    ensures Empty(size, prod, cons) <==> p == c
    ensures Full(size, prod, cons) <==> p == c + size
  {
    Parts(size, prod);
    Parts(size, cons);
    ModAdd(c, p - c, 2 * size);
  }

  lemma IncParts(size: nat, reg: nat)
    requires 0 < size <= 256
    ensures var low := reg % (2 * size);
            Inc(size, reg) == Overflow(reg) + if low + 1 < 2 * size then low + 1 else 0
  {
    var low := reg % (2 * size);
    Parts(size, reg);
    Parts(size, low + 1);
    ModAdd(low, 1, 2 * size);
    DivMod(low, 2 * size, 0, low);
  }

  lemma DropMultiple(k: nat, low: nat, m: nat)
    requires low < m && k % m == 0
    ensures (k + low) % m == low
  {
    DivMod(k + low, m, k / m, low);
  }

  /** Incrementing counts one further modulo twice the size, and keeps bit 31. */
  lemma IncCounts(n: nat, reg: nat, p: nat)
    requires n <= 8 && reg % (2 * Entries(n)) == p % (2 * Entries(n))
    ensures Inc(Entries(n), reg) % (2 * Entries(n)) == (p + 1) % (2 * Entries(n))
    ensures Overflow(Inc(Entries(n), reg)) == Overflow(reg) && Inc(Entries(n), reg) < 0x1_0000_0000
  {
    var size := Entries(n);
    var low := reg % (2 * size);
    var next := if low + 1 < 2 * size then low + 1 else 0;
    IncParts(size, reg);
    ModAdd(p, 1, 2 * size);
    assert Overflow(reg) % (2 * size) == 0 by {
      EntriesDivide(n);
      assert Overflow(reg) == 0 || Overflow(reg) == 0x8000_0000;
    }
    DropMultiple(Overflow(reg), next, 2 * size);
    OverflowOfSum(Overflow(reg), next);
  }

  lemma OverflowOfSum(k: nat, low: nat)
    requires (k == 0 || k == 0x8000_0000) && low < 512
    ensures Overflow(k + low) == k
  {
  }

  // The driver and the device.

  type Cmd = (nat, nat)

  /** Where `cmd_insert` stands. */
  datatype Pc = Idle | WaitRoom(cmd: Cmd) | Put(cmd: Cmd) | Publish(cmd: Cmd) | WaitEmpty

  /** `prod` and `cons` are the driver's copies, `prodReg` and `consReg` the registers, `mem` the frame of the
      queue.  The last three fields are history: the commands that were published, the commands that the device took,
      and how many of them `cons` accounts for. */
  datatype State = State(
    n: nat,
    prod: nat, cons: nat, prodReg: nat, consReg: nat,
    mem: seq<Cmd>,
    pc: Pc,
    given: seq<Cmd>, taken: seq<Cmd>, seen: nat)

  datatype Action = Call(cmd: Cmd) | Go | Device

  predicate Shape(s: State)
  {
    s.n <= 8 && |s.mem| == 256
  }

  /** `init_cmdq`: the queue never outgrows one frame. */
  function Initial(hardwareShift: nat): (s: State)
    ensures Shape(s)
  {
    State(if hardwareShift > MAX_SHIFT then MAX_SHIFT else hardwareShift, 0, 0, 0, 0, seq(256, _ => (0, 0)), Idle,
          [], [], 0)
  }

  function Step(s: State, a: Action): (s': State)
    requires Shape(s)
    ensures Shape(s')
  {
    var size := Entries(s.n);
    match a
    case Call(cmd) => if s.pc == Idle then s.(pc := WaitRoom(cmd)) else s
    case Device =>
      if Empty(size, s.prodReg, s.consReg) then s
      else s.(consReg := Inc(size, s.consReg), taken := s.taken + [s.mem[Idx(size, s.consReg)]])
    case Go =>
      match s.pc
      case Idle => s
      case WaitRoom(cmd) =>
        if Full(size, s.prod, s.cons) then s.(cons := s.consReg, seen := |s.taken|) else s.(pc := Put(cmd))
      case Put(cmd) => s.(mem := s.mem[Idx(size, s.prod) := cmd], pc := Publish(cmd))
      case Publish(cmd) =>
        var prod := Inc(size, s.prod);
        s.(prod := prod, prodReg := prod, given := s.given + [cmd], pc := WaitEmpty)
      case WaitEmpty =>
        if Empty(size, s.prod, s.cons) then s.(pc := Idle) else s.(cons := s.consReg, seen := |s.taken|)
  }

  /** The registers are the absolute counts modulo twice the size. */
  predicate Counted(s: State)
    requires Shape(s)
  {
    var m := 2 * Entries(s.n);
    && s.prod % m == |s.given| % m
    && s.prodReg == s.prod
    && s.consReg % m == |s.taken| % m
    && s.cons % m == s.seen % m
  }

  /** The commands between the device and the driver are in their slots. */
  predicate Stored(s: State)
    requires Shape(s)
  {
    forall k: nat | |s.taken| <= k < |s.given| :: SlotHolds(s, k)
  }

  predicate SlotHolds(s: State, k: nat)
    requires Shape(s) && k < |s.given|
  {
    s.mem[k % Entries(s.n)] == s.given[k]
  }

  predicate Inv(s: State)
  {
    && Shape(s) && Counted(s)
    && s.seen <= |s.taken| <= |s.given| <= s.seen + Entries(s.n)
    && s.taken == s.given[..|s.taken|]
    && Stored(s)
    && ((s.pc.Put? || s.pc.Publish?) ==> |s.given| < s.seen + Entries(s.n))
    && (s.pc.Publish? ==> s.mem[|s.given| % Entries(s.n)] == s.pc.cmd)
    && (s.pc.Idle? ==> s.seen == |s.given|)
  }

  /** Equal registers modulo twice the size have equal indices. */
  lemma SameIdx(size: nat, reg: nat, p: nat)
    requires size > 0 && reg % (2 * size) == p % (2 * size)
    ensures Idx(size, reg) == p % size
  {
    Parts(size, reg);
    Parts(size, p);
  }

  /** Different counts less than one queue length apart use different slots. */
  lemma SlotsApart(size: nat, k: nat, p: nat)
    requires k < p < k + size
    ensures k % size != p % size
  {
    ModAdd(k, p - k, size);
  }

  lemma PutKeeps(s: State)
    requires Inv(s) && s.pc.Put?
    ensures Inv(Step(s, Go))
  {
    var s', size := Step(s, Go), Entries(s.n);
    SameIdx(size, s.prod, |s.given|);
    forall k: nat | |s'.taken| <= k < |s'.given|
      ensures SlotHolds(s', k)
    {
      assert SlotHolds(s, k);
      SlotsApart(size, k, |s.given|);
    }
  }

  lemma PublishKeeps(s: State)
    requires Inv(s) && s.pc.Publish?
    ensures Inv(Step(s, Go))
  {
    var s', size := Step(s, Go), Entries(s.n);
    IncCounts(s.n, s.prod, |s.given|);
    forall k: nat | |s'.taken| <= k < |s'.given|
      ensures SlotHolds(s', k)
    {
      if k < |s.given| {
        assert SlotHolds(s, k);
      }
    }
  }

  lemma WaitKeeps(s: State)
    requires Inv(s) && (s.pc.WaitRoom? || s.pc.WaitEmpty?)
    ensures Inv(Step(s, Go))
  {
    var s' := Step(s, Go);
    EmptyFullExact(Entries(s.n), s.prod, s.cons, |s.given|, s.seen);
    forall k: nat | |s'.taken| <= k < |s'.given|
      ensures SlotHolds(s', k)
    {
      assert SlotHolds(s, k);
    }
  }

  lemma DeviceKeeps(s: State)
    requires Inv(s)
    ensures Inv(Step(s, Device))
  {
    var s', size := Step(s, Device), Entries(s.n);
    EmptyFullExact(size, s.prodReg, s.consReg, |s.given|, |s.taken|);
    if |s.taken| < |s.given| {
      IncCounts(s.n, s.consReg, |s.taken|);
      SameIdx(size, s.consReg, |s.taken|);
      assert SlotHolds(s, |s.taken|);
    }
    forall k: nat | |s'.taken| <= k < |s'.given|
      ensures SlotHolds(s', k)
    {
      assert SlotHolds(s, k);
    }
  }

  lemma StepKeeps(s: State, a: Action)
    requires Inv(s)
    ensures Inv(Step(s, a))
  {
    if a.Device? {
      DeviceKeeps(s);
    } else if a.Go? && s.pc.Put? {
      PutKeeps(s);
    } else if a.Go? && s.pc.Publish? {
      PublishKeeps(s);
    } else if a.Go? && !s.pc.Idle? {
      WaitKeeps(s);
    } else {
      forall k: nat | |s.taken| <= k < |s.given|
        ensures SlotHolds(Step(s, a), k)
      {
        assert SlotHolds(s, k);
      }
    }
  }

  function Exec(s: State, actions: seq<Action>): (s': State)
    requires Shape(s)
    ensures Shape(s')
    decreases |actions|
  {
    if actions == [] then s else Exec(Step(s, actions[0]), actions[1..])
  }

  lemma {:induction false} RunKeeps(s: State, actions: seq<Action>)
    requires Inv(s)
    ensures Inv(Exec(s, actions))
    decreases |actions|
  {
    if actions != [] {
      StepKeeps(s, actions[0]);
      RunKeeps(Step(s, actions[0]), actions[1..]);
    }
  }

  /** In every run, whatever size the hardware reports: the device takes exactly the published commands in their order,
      it has taken all of them whenever `cmd_insert` has returned, at most a queue length of them is waiting, and the
      entry about to be written lies in the frame and holds no command that still waits. */
  lemma DeviceTakesWhatWasGiven(hardwareShift: nat, actions: seq<Action>)
    ensures var s := Exec(Initial(hardwareShift), actions); var size := Entries(s.n);
            && |s.taken| <= |s.given| <= |s.taken| + size
            && s.taken == s.given[..|s.taken|]
            && (s.pc.Idle? ==> s.taken == s.given)
            && Idx(size, s.prod) * ENTRY_SIZE + ENTRY_SIZE <= 0x1000
            && (s.pc.Put? ==> forall k: nat | |s.taken| <= k < |s.given| :: k % size != Idx(size, s.prod))
  {
    var s := Exec(Initial(hardwareShift), actions);
    var size := Entries(s.n);
    RunKeeps(Initial(hardwareShift), actions);
    SameIdx(size, s.prod, |s.given|);
    if s.pc.Put? {
      forall k: nat | |s.taken| <= k < |s.given|
        ensures k % size != Idx(size, s.prod)
      {
        SlotsApart(size, k, |s.given|);
      }
    }
  }

  // What is given, and that a call ends.

  /** The commands of the calls that were made while `cmd_insert` was not running. */
  function Calls(s: State, actions: seq<Action>): seq<Cmd>
    requires Shape(s)
    decreases |actions|
  {
    if actions == [] then []
    else
      (if actions[0].Call? && s.pc == Idle then [actions[0].cmd] else []) +
      Calls(Step(s, actions[0]), actions[1..])
  }

  /** The command that `cmd_insert` has still to publish. */
  function InHand(s: State): seq<Cmd>
  {
    if s.pc.WaitRoom? || s.pc.Put? || s.pc.Publish? then [s.pc.cmd] else []
  }

  lemma StepGives(s: State, a: Action)
    requires Shape(s)
    ensures Step(s, a).given + InHand(Step(s, a)) ==
      s.given + InHand(s) + if a.Call? && s.pc == Idle then [a.cmd] else []
  {
  }

  /** Nothing is published but the commands of the calls, in their order. */
  lemma {:induction false} GivenIsCalled(s: State, actions: seq<Action>)
    requires Shape(s)
    ensures Exec(s, actions).given + InHand(Exec(s, actions)) == s.given + InHand(s) + Calls(s, actions)
    decreases |actions|
  {
    if actions != [] {
      StepGives(s, actions[0]);
      GivenIsCalled(Step(s, actions[0]), actions[1..]);
    }
  }

  /** So whenever `cmd_insert` has returned, the device has taken the commands of all calls so far, in their order. */
  lemma DeviceTakesWhatWasCalled(hardwareShift: nat, actions: seq<Action>)
    ensures var s := Exec(Initial(hardwareShift), actions);
            && s.taken <= Calls(Initial(hardwareShift), actions)
            && (s.pc == Idle ==> s.taken == Calls(Initial(hardwareShift), actions))
  {
    DeviceTakesWhatWasGiven(hardwareShift, actions);
    GivenIsCalled(Initial(hardwareShift), actions);
    var s, calls := Exec(Initial(hardwareShift), actions), Calls(Initial(hardwareShift), actions);
    assert s.given + InHand(s) == calls;
    assert calls[..|s.taken|] == s.taken;
  }

  lemma ExecCons(s: State, a: Action, rest: seq<Action>)
    requires Shape(s)
    ensures Exec(s, [a] + rest) == Exec(Step(s, a), rest)
  {
    assert ([a] + rest)[1..] == rest;
  }

  lemma ExecThree(s: State, a: Action, b: Action, c: Action)
    requires Shape(s)
    ensures Exec(s, [a, b, c]) == Step(Step(Step(s, a), b), c)
  {
    assert [a, b, c] == [a] + [b, c] && [b, c] == [b] + [c] && [c] == [c] + [];
    ExecCons(s, a, [b, c]);
    ExecCons(Step(s, a), b, [c]);
    ExecCons(Step(Step(s, a), b), c, []);
  }

  /** A call with a device that answers at once: it finds room, is published, and returns with the command taken. */
  lemma CallCompletes(s: State, cmd: Cmd)
    requires Inv(s) && s.pc == Idle
    ensures var s' := Exec(Exec(s, [Call(cmd), Go, Go]), [Go]);
            s'.pc == WaitEmpty && s'.given == s.given + [cmd] && s'.taken == s.taken
    ensures var s' := Exec(Exec(Exec(s, [Call(cmd), Go, Go]), [Go]), [Device, Go, Go]);
            s'.pc == Idle && s'.given == s.given + [cmd] == s'.taken
  {
    assert s.taken == s.given;
    var s1 := Step(s, Call(cmd));
    StepKeeps(s, Call(cmd));
    EmptyFullExact(Entries(s.n), s1.prod, s1.cons, |s.given|, s.seen);
    var s2 := Step(s1, Go);
    StepKeeps(s1, Go);
    assert s2.pc == Put(cmd);
    var s3 := Step(s2, Go);
    StepKeeps(s2, Go);
    ExecThree(s, Call(cmd), Go, Go);
    var s4 := Step(s3, Go);
    StepKeeps(s3, Go);
    assert [Go] == [Go] + [];
    ExecCons(s3, Go, []);
    TakenAndDone(s4, cmd);
  }

  lemma TakenAndDone(s: State, cmd: Cmd)
    requires Inv(s) && s.pc == WaitEmpty && s.given == s.taken + [cmd]
    ensures var s' := Exec(s, [Device, Go, Go]); s'.pc == Idle && s'.taken == s.given && s'.given == s.given
  {
    var size := Entries(s.n);
    EmptyFullExact(size, s.prodReg, s.consReg, |s.given|, |s.taken|);
    var s1 := Step(s, Device);
    StepKeeps(s, Device);
    assert s1.taken == s.given;
    EmptyFullExact(size, s.prod, s.cons, |s.given|, s.seen);
    var s2 := Step(s1, Go);
    StepKeeps(s1, Go);
    EmptyFullExact(size, s2.prod, s2.cons, |s.given|, |s.given|);
    ExecThree(s, Device, Go, Go);
  }
}
