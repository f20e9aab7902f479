/** The hand-off of virtio interrupts from the root zone to the CPUs of other zones: `hv_virtio_inject_irq` and
    `hv_zone_shutdown` (src/hypercall/mod.rs), `handle_virtio_irq` (src/device/virtio_trampoline.rs) and the event
    queues (src/event.rs), for any number of CPUs and any interleaving.  The lock of `VIRTIO_IRQS` and every access made
    under it are steps of their own, because the event queues have locks of their own and the CPUs read them at any
    time. */
module VirtioHandoff {
  import opened Options

  const MAX_DEVS: nat := 4

  datatype Event = Inject | Shutdown | Other

  /** What a CPU is doing: `H…` in `handle_virtio_irq`, `D…` in `hv_virtio_inject_irq`, `S…` in `hv_zone_shutdown` (with
      the CPUs of the zone, the first `k` of which have been visited), `Z…` in an MMIO trap that waits for the lock of
      its zone or has it.  `Dead` is a failed assertion or `unwrap`. */
  datatype Pc =
    | Guest
    | HLock
    | HInject(at: nat)
    | HZero
    | DLock
    | DNext
    | DCheck(target: nat, irq: nat)
    | DSend(target: nat)
    | SLock(cpus: seq<nat>)
    | SZone(cpus: seq<nat>)
    | SSend(cpus: seq<nat>, k: nat)
    | SZero(cpus: seq<nat>, k: nat)
    | SWait(cpus: seq<nat>)
    | SClear(cpus: seq<nat>, k: nat)
    | ZWait
    | ZHold
    | Dead

  /** One CPU with its event queue and its entry of `VIRTIO_IRQS` (element 0 is the length).  The last three fields are
      history: the interrupts that were put in the list, that were injected, and that a shutdown discarded. */
  datatype Cpu = Cpu(
    pc: Pc,
    events: seq<Event>,
    list: Option<seq<nat>>,
    accepted: multiset<nat>,
    injected: multiset<nat>,
    dropped: multiset<nat>)

  datatype State = State(cpus: seq<Cpu>, lock: Option<nat>)

  function Initial(n: nat): State
  {
    State(seq(n, _ => Cpu(Guest, [], None, multiset{}, multiset{}, multiset{})), None)
  }

  /** The interrupts an entry lists. */
  function Listed(l: seq<nat>): seq<nat>
    requires |l| == MAX_DEVS + 1 && l[0] <= MAX_DEVS
  {
    l[1..l[0] + 1]
  }

  predicate ListShape(l: Option<seq<nat>>)
  {
    l.Some? ==> |l.value| == 5 && l.value[0] <= 3
  }

  predicate Shape(s: State)
  {
    forall c: nat | c < |s.cpus| :: ListShape(s.cpus[c].list)
  }

  function Goto(s: State, c: nat, pc: Pc): State
    requires c < |s.cpus|
  {
    s.(cpus := s.cpus[c := s.cpus[c].(pc := pc)])
  }

  // Steps of one CPU on one target.

  /** `add_event`: a shutdown discards what was queued. */
  function AddEvent(t: Cpu, e: Event): Cpu
  {
    t.(events := if e == Shutdown then [e] else t.events + [e])
  }

  function EntryOf(t: Cpu): seq<nat>
  {
    if t.list.Some? then t.list.value else [0, 0, 0, 0, 0]
  }

  /** Whether a response for `irq` has to be put in the list. */
  predicate IsNew(t: Cpu, irq: nat)
    requires ListShape(t.list)
  {
    irq !in Listed(EntryOf(t))
  }

  predicate HasRoom(t: Cpu)
    requires ListShape(t.list)
  {
    EntryOf(t)[0] + 1 < MAX_DEVS
  }

  function Append(t: Cpu, irq: nat): (r: Cpu)
    requires ListShape(t.list) && HasRoom(t)
    ensures ListShape(r.list)
  {
    var l := EntryOf(t);
    t.(list := Some(l[l[0] + 1 := irq][0 := l[0] + 1]), accepted := t.accepted + multiset{irq})
  }

  function Reset(t: Cpu): (r: Cpu)
    requires ListShape(t.list)
    ensures ListShape(r.list)
  {
    if t.list.None? then t
    else t.(list := Some(t.list.value[0 := 0]), dropped := t.dropped + multiset(Listed(t.list.value)))
  }

  // Steps of the system.

  datatype Action =
    /** A CPU takes the next event of its queue. */
    | Fetch(c: nat)
    /** Another part of the hypervisor queues an event that is neither an injection nor a shutdown. */
    | Send(to: nat)
    /** The root zone calls `hv_virtio_inject_irq` (after `hv_virtio_init`), `hv_zone_shutdown` (for a zone with these
        CPUs). */
    | CallInject(c: nat)
    | CallShutdown(c: nat, cpus: seq<nat>)
    /** The guest on the CPU accesses an emulated device.  (The source takes the lock of the zone twice for the lookup
        of the device; that is two of these in a row.) */
    | CallTrap(c: nat)
    /** The response list shows a response for the zone whose first CPU is `target`, a response for no zone, or
        nothing. */
    | Respond(c: nat, target: nat, irq: nat)
    | RespondNobody(c: nat)
    | RespondEnd(c: nat)
    /** The wait for the zone's CPUs ends; `arch_irqchip_reset` clears their event queues on RISC-V and nowhere else. */
    | WaitEnd(c: nat, clears: bool)
    /** The next step of a CPU inside the hypervisor. */
    | Go(c: nat)

  predicate Valid(s: State, a: Action)
  {
    match a
    case Send(to) => to < |s.cpus|
    case Respond(c, target, irq) => c < |s.cpus| && target < |s.cpus|
    case CallShutdown(c, cpus) => c < |s.cpus| && forall i: nat | i < |cpus| :: cpus[i] < |s.cpus|
    case _ => a.c < |s.cpus|
  }

  /** `handle_virtio_irq`. */
  function GoHandler(s: State, c: nat): (r: Option<State>)
    requires Shape(s) && c < |s.cpus|
    ensures r.Some? ==> Shape(r.value)
  {
    var me := s.cpus[c];
    match me.pc
    case HLock =>
      if s.lock.Some? then None
      else if me.list.None? then Some(Goto(s.(lock := Some(c)), c, Dead))
      else Some(Goto(s.(lock := Some(c)), c, HInject(1)))
    case HInject(i) =>
      if me.list.None? || i == 0 || i > me.list.value[0] then Some(Goto(s, c, HZero))
      else
        Some(s.(cpus := s.cpus[c := me.(pc := HInject(i + 1), injected := me.injected + multiset{me.list.value[i]})]))
    case HZero =>
      if me.list.None? then None
      else Some(State(s.cpus[c := me.(pc := Guest, list := Some(me.list.value[0 := 0]))], None))
    case _ => None
  }

  /** `hv_virtio_inject_irq`. */
  function GoDrain(s: State, c: nat): (r: Option<State>)
    requires Shape(s) && c < |s.cpus|
    ensures r.Some? ==> Shape(r.value)
  {
    match s.cpus[c].pc
    case DLock => if s.lock.Some? then None else Some(Goto(s.(lock := Some(c)), c, DNext))
    case DCheck(t, irq) =>
      if t >= |s.cpus| then None
      else
        var target := s.cpus[t];
        if !IsNew(target, irq) then
          Some(Goto(s.(cpus := s.cpus[t := target.(list := Some(EntryOf(target)))]), c, DNext))
        else if HasRoom(target) then Some(Goto(s.(cpus := s.cpus[t := Append(target, irq)]), c, DSend(t)))
        else Some(Goto(s, c, Dead))
    case DSend(t) =>
      if t >= |s.cpus| then None
      else Some(Goto(s.(cpus := s.cpus[t := AddEvent(s.cpus[t], Inject)]), c, DNext))
    case _ => None
  }

  /** A shutdown has the lock of the zone of `c`. */
  predicate ZoneTaken(s: State, c: nat)
  {
    exists d: nat :: d < |s.cpus| && HasZone(s.cpus[d].pc, c)
  }

  predicate HasZone(pc: Pc, c: nat)
  {
    (pc.SSend? || pc.SZero? || pc.SWait? || pc.SClear?) && c in pc.cpus
  }

  /** A trap on one of these CPUs has the lock of their zone. */
  predicate ZoneInUse(s: State, cpus: seq<nat>)
  {
    exists c: nat :: c < |s.cpus| && c in cpus && s.cpus[c].pc == ZHold
  }

  /** `hv_zone_shutdown`, and the traps that meet it at the lock of the zone. */
  function GoShutdown(s: State, c: nat): (r: Option<State>)
    requires Shape(s) && c < |s.cpus|
    ensures r.Some? ==> Shape(r.value)
  {
    match s.cpus[c].pc
    case ZWait => if ZoneTaken(s, c) then None else Some(Goto(s, c, ZHold))
    case ZHold => Some(Goto(s, c, Guest))
    case SLock(cpus) => if s.lock.Some? then None else Some(Goto(s.(lock := Some(c)), c, SZone(cpus)))
    case SZone(cpus) => if ZoneInUse(s, cpus) then None else Some(Goto(s, c, SSend(cpus, 0)))
    case SSend(cpus, k) =>
      if k >= |cpus| then Some(Goto(s, c, SWait(cpus)))
      else if cpus[k] >= |s.cpus| then None
      else
        var s1 := Goto(s, c, SZero(cpus, k));
        Some(s1.(cpus := s1.cpus[cpus[k] := AddEvent(s1.cpus[cpus[k]], Shutdown)]))
    case SZero(cpus, k) =>
      if k >= |cpus| || cpus[k] >= |s.cpus| then None
      else Some(Goto(s.(cpus := s.cpus[cpus[k] := Reset(s.cpus[cpus[k]])]), c, SSend(cpus, k + 1)))
    case SClear(cpus, k) =>
      if k >= |cpus| then Some(Goto(s.(lock := None), c, Guest))
      else if cpus[k] >= |s.cpus| then None
      else Some(Goto(s.(cpus := s.cpus[cpus[k] := s.cpus[cpus[k]].(events := [])]), c, SClear(cpus, k + 1)))
    case _ => None
  }

  /** `None` when the step is not possible in this state. */
  function Step(s: State, a: Action): (r: Option<State>)
    requires Shape(s) && Valid(s, a)
    ensures r.Some? ==> Shape(r.value)
  {
    match a
    case Send(to) => Some(s.(cpus := s.cpus[to := AddEvent(s.cpus[to], Other)]))
    case Fetch(c) =>
      var me := s.cpus[c];
      if me.pc != Guest || me.events == [] then None
      else
        var pc := if me.events[0] == Inject then HLock else Guest;
        Some(s.(cpus := s.cpus[c := me.(events := me.events[1..], pc := pc)]))
    case CallInject(c) => if s.cpus[c].pc == Guest then Some(Goto(s, c, DLock)) else None
    case CallShutdown(c, cpus) => if s.cpus[c].pc == Guest then Some(Goto(s, c, SLock(cpus))) else None
    case CallTrap(c) => if s.cpus[c].pc == Guest then Some(Goto(s, c, ZWait)) else None
    case Respond(c, target, irq) => if s.cpus[c].pc == DNext then Some(Goto(s, c, DCheck(target, irq))) else None
    case RespondNobody(c) => if s.cpus[c].pc == DNext then Some(s) else None
    case RespondEnd(c) => if s.cpus[c].pc == DNext then Some(Goto(s.(lock := None), c, Guest)) else None
    case WaitEnd(c, clears) =>
      if !s.cpus[c].pc.SWait? then None
      else if clears then Some(Goto(s, c, SClear(s.cpus[c].pc.cpus, 0)))
      else Some(Goto(s.(lock := None), c, Guest))
    case Go(c) =>
      if s.cpus[c].pc.HLock? || s.cpus[c].pc.HInject? || s.cpus[c].pc.HZero? then GoHandler(s, c)
      else if s.cpus[c].pc.DLock? || s.cpus[c].pc.DCheck? || s.cpus[c].pc.DSend? then GoDrain(s, c)
      else GoShutdown(s, c)
  }

  // The invariant.

  predicate InFlight(pc: Pc)
  {
    pc.HLock? || pc.HInject? || pc.HZero?
  }

  /** A CPU that fails the assertion never gives the lock back. */
  predicate Holding(pc: Pc)
  {
    || pc.HInject? || pc.HZero?
    || pc.DNext? || pc.DCheck? || pc.DSend?
    || pc.SZone? || pc.SSend? || pc.SZero? || pc.SWait? || pc.SClear?
    || pc.Dead?
  }

  /** The lock holder is between its two steps on the list and the event queue of `c`. */
  predicate Serving(pc: Pc, c: nat)
  {
    (pc.DSend? && pc.target == c) || (pc.SZero? && pc.k < |pc.cpus| && pc.cpus[pc.k] == c)
  }

  predicate NoDup(s: seq<nat>)
  {
    forall i: nat, j: nat | i < j < |s| :: s[i] != s[j]
  }

  /** The listed interrupts that are still to be injected. */
  function Rest(cpu: Cpu): seq<nat>
    requires ListShape(cpu.list)
  {
    if cpu.list.None? then []
    else if cpu.pc.HZero? then []
    else if cpu.pc.HInject? && 1 <= cpu.pc.at <= cpu.list.value[0] + 1 then
      cpu.list.value[cpu.pc.at..cpu.list.value[0] + 1]
    else Listed(cpu.list.value)
  }

  ghost predicate CpuOk(cpu: Cpu)
  {
    && ListShape(cpu.list)
    && (cpu.list.Some? ==> NoDup(Listed(cpu.list.value)))
    && (InFlight(cpu.pc) || Inject in cpu.events ==> cpu.list.Some?)
    && (cpu.pc.HInject? && cpu.list.Some? ==> 1 <= cpu.pc.at <= cpu.list.value[0] + 1)
    && cpu.accepted == cpu.injected + cpu.dropped + multiset(Rest(cpu))
  }

  predicate Pending(cpu: Cpu)
    requires ListShape(cpu.list)
  {
    cpu.list.Some? && cpu.list.value[0] > 0
  }

  /** Somebody will still look at the list of `c`. */
  predicate Covered(s: State, c: nat)
    requires c < |s.cpus|
  {
    || Inject in s.cpus[c].events
    || InFlight(s.cpus[c].pc)
    || (s.lock.Some? && s.lock.value < |s.cpus| && Serving(s.cpus[s.lock.value].pc, c))
  }

  /** The CPUs of the zone being shut down exist, and the first `k` of them have nothing listed any more. */
  predicate Emptied(s: State, cpus: seq<nat>, k: nat)
    requires Shape(s)
  {
    && k <= |cpus|
    && (forall i: nat | i < |cpus| :: cpus[i] < |s.cpus|)
    && (forall i: nat | i < k :: !Pending(s.cpus[cpus[i]]))
  }

  /** A CPU's program point refers to existing CPUs. */
  predicate PcOk(s: State, pc: Pc)
    requires Shape(s)
  {
    match pc
    case DCheck(t, _) => t < |s.cpus|
    case DSend(t) => t < |s.cpus| && s.cpus[t].list.Some?
    case SLock(cpus) => Emptied(s, cpus, 0)
    case SZone(cpus) => Emptied(s, cpus, 0)
    case SSend(cpus, k) => Emptied(s, cpus, k)
    case SZero(cpus, k) => Emptied(s, cpus, k) && k < |cpus|
    case SWait(cpus) => Emptied(s, cpus, |cpus|)
    case SClear(cpus, k) => Emptied(s, cpus, |cpus|) && k <= |cpus|
    case _ => true
  }

  ghost predicate Inv(s: State)
  {
    && (forall c: nat | c < |s.cpus| :: CpuOk(s.cpus[c]))
    && (forall c: nat | c < |s.cpus| :: PcOk(s, s.cpus[c].pc))
    && (forall c: nat | c < |s.cpus| :: Holding(s.cpus[c].pc) <==> s.lock == Some(c))
    && (s.lock.Some? ==> s.lock.value < |s.cpus|)
    && (forall c: nat | c < |s.cpus| && Pending(s.cpus[c]) :: Covered(s, c))
  }

  lemma InitialHolds(n: nat)
    ensures Inv(Initial(n))
  {
  }

  /** The lock holder has done both of its steps. */
  predicate Served(s: State, pc: Pc)
    requires Shape(s)
  {
    match pc
    case DSend(t) => t < |s.cpus| && Inject in s.cpus[t].events
    case SZero(cpus, k) => k < |cpus| && cpus[k] < |s.cpus| && !Pending(s.cpus[cpus[k]])
    case _ => true
  }

  predicate LockMove(s: State, s': State, c: nat)
  {
    s'.lock == s.lock || (s.lock == None && s'.lock == Some(c)) || (s.lock == Some(c) && s'.lock == None)
  }

  ghost predicate OneChanges(s: State, s': State, c: nat)
  {
    && c < |s.cpus| == |s'.cpus|
    && (forall d: nat | d < |s.cpus| && d != c :: s'.cpus[d] == s.cpus[d])
    && LockMove(s, s', c)
  }

  /** A change to one CPU's record. */
  lemma ChangeKeeps(s: State, s': State, c: nat)
    requires Inv(s) && OneChanges(s, s', c)
    requires CpuOk(s'.cpus[c]) && PcOk(s', s'.cpus[c].pc)
    requires s.cpus[c].list.Some? ==> s'.cpus[c].list.Some?
    requires Holding(s'.cpus[c].pc) <==> s'.lock == Some(c)
    requires s'.cpus[c].pc != s.cpus[c].pc ==> Served(s, s.cpus[c].pc)
    requires Pending(s'.cpus[c]) ==> Covered(s', c)
    requires Pending(s'.cpus[c]) ==> Pending(s.cpus[c]) || (s.lock.Some? && s.cpus[s.lock.value].pc.DSend?)
    ensures Inv(s')
  {
    forall d: nat | d < |s'.cpus|
      ensures CpuOk(s'.cpus[d])
    {
      assert d != c ==> s'.cpus[d] == s.cpus[d];
    }
    forall d: nat | d < |s'.cpus|
      ensures PcOk(s', s'.cpus[d].pc)
    {
      if d != c {
        assert Emptying(s.cpus[d].pc) ==> s.lock == Some(d);
        PcStillOk(s, s', c, s.cpus[d].pc);
      }
    }
    forall d: nat | d < |s'.cpus| && Pending(s'.cpus[d])
      ensures Covered(s', d)
    {
      StillCovered(s, s', c, d);
    }
  }

  /** The CPU is past the start of a shutdown. */
  predicate Emptying(pc: Pc)
  {
    pc.SSend? || pc.SZero? || pc.SWait? || pc.SClear?
  }

  lemma PcStillOk(s: State, s': State, c: nat, pc: Pc)
    requires Shape(s) && Shape(s') && OneChanges(s, s', c) && PcOk(s, pc)
    requires s.cpus[c].list.Some? ==> s'.cpus[c].list.Some?
    requires Pending(s'.cpus[c]) ==> Pending(s.cpus[c]) || !Emptying(pc)
    ensures PcOk(s', pc)
  {
  }

  lemma StillCovered(s: State, s': State, c: nat, d: nat)
    requires Inv(s) && OneChanges(s, s', c) && d < |s.cpus|
    requires ListShape(s'.cpus[d].list) && Pending(s'.cpus[d])
    requires Holding(s'.cpus[c].pc) <==> s'.lock == Some(c)
    requires s'.cpus[c].pc != s.cpus[c].pc ==> Served(s, s.cpus[c].pc)
    requires d == c ==> Covered(s', c)
    ensures Covered(s', d)
  {
    if d != c {
      assert Covered(s, d);
      assert s'.cpus[d] == s.cpus[d];
    }
  }

  lemma GotoKeeps(s: State, s': State, c: nat, pc: Pc)
    requires Inv(s) && c < |s.cpus| && s'.cpus == s.cpus[c := s.cpus[c].(pc := pc)] && LockMove(s, s', c)
    requires PcOk(s, pc)
    requires Holding(pc) <==> s'.lock == Some(c)
    requires Served(s, s.cpus[c].pc)
    requires InFlight(s.cpus[c].pc) <==> InFlight(pc)
    requires InFlight(pc) ==> s.cpus[c].pc == HLock && pc == HInject(1)
    ensures Inv(s')
  {
    var me := s'.cpus[c];
    assert Rest(me) == Rest(s.cpus[c]);
    assert PcOk(s', pc);
    if Pending(me) {
      assert Covered(s, c);
      assert Covered(s', c);
    }
    ChangeKeeps(s, s', c);
  }

  // Each step keeps the invariant.

  lemma InjectOk(me: Cpu, me': Cpu)
    requires CpuOk(me) && me.pc.HInject? && me.pc.at <= me.list.value[0]
    requires me' == me.(pc := HInject(me.pc.at + 1), injected := me.injected + multiset{me.list.value[me.pc.at]})
    ensures CpuOk(me')
  {
    assert Rest(me) == [me.list.value[me.pc.at]] + Rest(me');
    assert me.accepted == me'.injected + me'.dropped + multiset(Rest(me'));
  }

  lemma ZeroedOk(me: Cpu)
    requires CpuOk(me) && me.pc.HZero?
    ensures CpuOk(me.(pc := Guest, list := Some(me.list.value[0 := 0])))
  {
  }

  lemma InjectKeeps(s: State, c: nat)
    requires Inv(s) && c < |s.cpus| && s.cpus[c].pc.HInject?
    ensures GoHandler(s, c).Some? && Inv(GoHandler(s, c).value)
  {
    var me, s' := s.cpus[c], GoHandler(s, c).value;
    if me.pc.at <= me.list.value[0] {
      InjectOk(me, s'.cpus[c]);
    }
    assert CpuOk(s'.cpus[c]);
    ChangeKeeps(s, s', c);
  }

  lemma ZeroedKeeps(s: State, c: nat)
    requires Inv(s) && c < |s.cpus| && s.cpus[c].pc.HZero?
    ensures GoHandler(s, c).Some? && Inv(GoHandler(s, c).value)
  {
    ZeroedOk(s.cpus[c]);
    ChangeKeeps(s, GoHandler(s, c).value, c);
  }

  lemma HandlerKeeps(s: State, c: nat)
    requires Inv(s) && c < |s.cpus| && GoHandler(s, c).Some?
    ensures Inv(GoHandler(s, c).value)
  {
    if s.cpus[c].pc.HLock? {
      GotoKeeps(s, GoHandler(s, c).value, c, HInject(1));
    } else if s.cpus[c].pc.HInject? {
      InjectKeeps(s, c);
    } else {
      ZeroedKeeps(s, c);
    }
  }

  lemma ListedAppend(t: Cpu, irq: nat)
    requires ListShape(t.list) && HasRoom(t)
    ensures Listed(Append(t, irq).list.value) == Listed(EntryOf(t)) + [irq]
  {
    var l, l' := EntryOf(t), Append(t, irq).list.value;
    assert forall i: nat | 1 <= i <= l[0] :: l'[i] == l[i];
  }

  lemma AppendOk(t: Cpu, irq: nat)
    requires CpuOk(t) && HasRoom(t) && IsNew(t, irq) && !t.pc.HInject? && !t.pc.HZero?
    ensures CpuOk(Append(t, irq))
  {
    ListedAppend(t, irq);
    assert Rest(Append(t, irq)) == Rest(t) + [irq];
  }

  /** `entry(…).or_insert(…)`. */
  lemma EntryKeeps(s: State, s': State, t: nat)
    requires Inv(s) && t < |s.cpus| && s' == s.(cpus := s.cpus[t := s.cpus[t].(list := Some(EntryOf(s.cpus[t])))])
    ensures Inv(s')
  {
    if s.cpus[t].list.Some? {
      assert s' == s;
    } else {
      assert Listed(EntryOf(s.cpus[t])) == [];
      ChangeKeeps(s, s', t);
    }
  }

  lemma CheckNewKeeps(s: State, s': State, c: nat)
    requires Inv(s) && c < |s.cpus| && s.cpus[c].pc.DCheck?
    requires var pc := s.cpus[c].pc;
             && IsNew(s.cpus[pc.target], pc.irq) && HasRoom(s.cpus[pc.target])
             && s' == Goto(s.(cpus := s.cpus[pc.target := Append(s.cpus[pc.target], pc.irq)]), c, DSend(pc.target))
    ensures Inv(s')
  {
    var t, irq := s.cpus[c].pc.target, s.cpus[c].pc.irq;
    var s1 := s.(cpus := s.cpus[t := s.cpus[t].(list := Some(EntryOf(s.cpus[t])))]);
    EntryKeeps(s, s1, t);
    var s2 := Goto(s1, c, DSend(t));
    GotoKeeps(s1, s2, c, DSend(t));
    AppendOk(s2.cpus[t], irq);
    assert s'.cpus[t] == Append(s2.cpus[t], irq);
    ChangeKeeps(s2, s', t);
  }

  lemma SendKeeps(s: State, s': State, t: nat, e: Event)
    requires Inv(s) && t < |s.cpus| && s' == s.(cpus := s.cpus[t := AddEvent(s.cpus[t], e)])
    requires e == Inject ==> s.cpus[t].list.Some?
    requires e == Shutdown ==> s.lock.Some? && Serving(s.cpus[s.lock.value].pc, t)
    ensures Inv(s')
  {
    SendOk(s.cpus[t], e);
    if Pending(s'.cpus[t]) {
      assert Covered(s, t);
    }
    ChangeKeeps(s, s', t);
  }

  lemma SendOk(t: Cpu, e: Event)
    requires CpuOk(t) && (e == Inject ==> t.list.Some?)
    ensures CpuOk(AddEvent(t, e))
  {
    assert Rest(AddEvent(t, e)) == Rest(t);
  }

  lemma DrainKeeps(s: State, c: nat)
    requires Inv(s) && c < |s.cpus| && GoDrain(s, c).Some?
    ensures Inv(GoDrain(s, c).value)
  {
    var s' := GoDrain(s, c).value;
    match s.cpus[c].pc
    case DLock => GotoKeeps(s, s', c, DNext);
    case DCheck(t, irq) =>
      if IsNew(s.cpus[t], irq) {
        if HasRoom(s.cpus[t]) {
          CheckNewKeeps(s, s', c);
        } else {
          GotoKeeps(s, s', c, Dead);
        }
      } else {
        var s1 := s.(cpus := s.cpus[t := s.cpus[t].(list := Some(EntryOf(s.cpus[t])))]);
        EntryKeeps(s, s1, t);
        GotoKeeps(s1, s', c, DNext);
      }
    case DSend(t) =>
      var s1 := s.(cpus := s.cpus[t := AddEvent(s.cpus[t], Inject)]);
      SendKeeps(s, s1, t, Inject);
      GotoKeeps(s1, s', c, DNext);
  }

  lemma ResetKeeps(s: State, s': State, t: nat)
    requires Inv(s) && t < |s.cpus| && s' == s.(cpus := s.cpus[t := Reset(s.cpus[t])])
    requires !s.cpus[t].pc.HInject? && !s.cpus[t].pc.HZero?
    ensures Inv(s')
  {
    ChangeKeeps(s, s', t);
  }

  lemma SendShutdownKeeps(s: State, c: nat)
    requires Inv(s) && c < |s.cpus| && s.cpus[c].pc.SSend? && s.cpus[c].pc.k < |s.cpus[c].pc.cpus|
    ensures GoShutdown(s, c).Some? && Inv(GoShutdown(s, c).value)
  {
    var cpus, k := s.cpus[c].pc.cpus, s.cpus[c].pc.k;
    var s1 := Goto(s, c, SZero(cpus, k));
    GotoKeeps(s, s1, c, SZero(cpus, k));
    var s2 := s1.(cpus := s1.cpus[cpus[k] := AddEvent(s1.cpus[cpus[k]], Shutdown)]);
    SendKeeps(s1, s2, cpus[k], Shutdown);
  }

  lemma OneMoreEmptied(s: State, s': State, cpus: seq<nat>, k: nat)
    requires Shape(s) && Emptied(s, cpus, k) && k < |cpus|
    requires s' == s.(cpus := s.cpus[cpus[k] := Reset(s.cpus[cpus[k]])])
    ensures Emptied(s', cpus, k + 1)
  {
    forall i: nat | i < k + 1
      ensures !Pending(s'.cpus[cpus[i]])
    {
      if cpus[i] != cpus[k] {
        assert s'.cpus[cpus[i]] == s.cpus[cpus[i]];
      }
    }
  }

  lemma ZeroKeeps(s: State, c: nat, cpus: seq<nat>, k: nat)
    requires Inv(s) && c < |s.cpus| && s.cpus[c].pc == SZero(cpus, k)
    ensures GoShutdown(s, c).Some? && Inv(GoShutdown(s, c).value)
  {
    assert PcOk(s, s.cpus[c].pc);
    var s1 := s.(cpus := s.cpus[cpus[k] := Reset(s.cpus[cpus[k]])]);
    assert GoShutdown(s, c) == Some(Goto(s1, c, SSend(cpus, k + 1)));
    assert Inv(s1) && Emptied(s1, cpus, k + 1) by {
      ResetKeeps(s, s1, cpus[k]);
      OneMoreEmptied(s, s1, cpus, k);
    }
    SendNext(s1, c, cpus, k);
  }

  /** On to the next CPU of the zone. */
  lemma SendNext(s: State, c: nat, cpus: seq<nat>, k: nat)
    requires Inv(s) && c < |s.cpus| && s.cpus[c].pc == SZero(cpus, k) && Emptied(s, cpus, k + 1)
    ensures Inv(Goto(s, c, SSend(cpus, k + 1)))
  {
    GotoKeeps(s, Goto(s, c, SSend(cpus, k + 1)), c, SSend(cpus, k + 1));
  }

  /** Clearing the event queue of a CPU with an empty list takes nothing away that is still needed. */
  lemma ClearKeeps(s: State, c: nat)
    requires Inv(s) && c < |s.cpus| && s.cpus[c].pc.SClear? && s.cpus[c].pc.k < |s.cpus[c].pc.cpus|
    ensures GoShutdown(s, c).Some? && Inv(GoShutdown(s, c).value)
  {
    var cpus, k := s.cpus[c].pc.cpus, s.cpus[c].pc.k;
    var s1 := s.(cpus := s.cpus[cpus[k] := s.cpus[cpus[k]].(events := [])]);
    assert PcOk(s, s.cpus[c].pc);
    QueueCleared(s, s1, cpus[k]);
    assert s1.cpus[c].pc == s.cpus[c].pc && PcOk(s1, s1.cpus[c].pc);
    GotoKeeps(s1, Goto(s1, c, SClear(cpus, k + 1)), c, SClear(cpus, k + 1));
    assert GoShutdown(s, c) == Some(Goto(s1, c, SClear(cpus, k + 1)));
  }

  lemma QueueCleared(s: State, s': State, t: nat)
    requires Inv(s) && t < |s.cpus| && !Pending(s.cpus[t]) && s' == s.(cpus := s.cpus[t := s.cpus[t].(events := [])])
    ensures Inv(s')
  {
    assert Rest(s'.cpus[t]) == Rest(s.cpus[t]);
    ChangeKeeps(s, s', t);
  }

  lemma ShutdownKeeps(s: State, c: nat)
    requires Inv(s) && c < |s.cpus| && GoShutdown(s, c).Some?
    ensures Inv(GoShutdown(s, c).value)
  {
    var s' := GoShutdown(s, c).value;
    match s.cpus[c].pc
    case ZWait => GotoKeeps(s, s', c, ZHold);
    case ZHold => GotoKeeps(s, s', c, Guest);
    case SLock(cpus) => GotoKeeps(s, s', c, SZone(cpus));
    case SZone(cpus) => GotoKeeps(s, s', c, SSend(cpus, 0));
    case SSend(cpus, k) =>
      if k < |cpus| {
        SendShutdownKeeps(s, c);
      } else {
        GotoKeeps(s, s', c, SWait(cpus));
      }
    case SZero(cpus, k) => ZeroKeeps(s, c, cpus, k);
    case SClear(cpus, k) =>
      if k < |cpus| {
        ClearKeeps(s, c);
      } else {
        GotoKeeps(s, s', c, Guest);
      }
  }

  lemma FetchKeeps(s: State, c: nat)
    requires Inv(s) && c < |s.cpus| && s.cpus[c].pc == Guest && s.cpus[c].events != []
    ensures Inv(Step(s, Fetch(c)).value)
  {
    var me, s' := s.cpus[c], Step(s, Fetch(c)).value;
    assert me.events == [me.events[0]] + me.events[1..];
    assert Rest(s'.cpus[c]) == Rest(me);
    ChangeKeeps(s, s', c);
  }

  lemma GoKeeps(s: State, c: nat)
    requires Inv(s) && c < |s.cpus| && Step(s, Go(c)).Some?
    ensures Inv(Step(s, Go(c)).value)
  {
    if InFlight(s.cpus[c].pc) {
      HandlerKeeps(s, c);
    } else if s.cpus[c].pc.DLock? || s.cpus[c].pc.DCheck? || s.cpus[c].pc.DSend? {
      DrainKeeps(s, c);
    } else {
      ShutdownKeeps(s, c);
    }
  }

  lemma StepKeeps(s: State, a: Action)
    requires Inv(s) && Valid(s, a) && Step(s, a).Some?
    ensures Inv(Step(s, a).value)
  {
    var s' := Step(s, a).value;
    match a
    case Send(to) => SendKeeps(s, s', to, Other);
    case Fetch(c) => FetchKeeps(s, c);
    case Go(c) => GoKeeps(s, c);
    case RespondNobody(_) =>
    case CallInject(c) => GotoKeeps(s, s', c, DLock);
    case CallShutdown(c, cpus) => GotoKeeps(s, s', c, SLock(cpus));
    case CallTrap(c) => GotoKeeps(s, s', c, ZWait);
    case Respond(c, target, irq) => GotoKeeps(s, s', c, DCheck(target, irq));
    case _ => EndKeeps(s, a);
  }

  lemma EndKeeps(s: State, a: Action)
    requires Inv(s) && (a.RespondEnd? || a.WaitEnd?) && Valid(s, a) && Step(s, a).Some?
    ensures Inv(Step(s, a).value)
  {
    if a.WaitEnd? && a.clears {
      GotoKeeps(s, Step(s, a).value, a.c, SClear(s.cpus[a.c].pc.cpus, 0));
    } else {
      GotoKeeps(s, Step(s, a).value, a.c, Guest);
    }
  }

  // Whole runs.

  /** The state after one more action; one that is not possible in this state changes nothing. */
  function Next(s: State, a: Action): (s': State)
    requires Shape(s)
    ensures Shape(s')
  {
    if Valid(s, a) && Step(s, a).Some? then Step(s, a).value else s
  }

  function Exec(s: State, actions: seq<Action>): (s': State)
    requires Shape(s)
    ensures Shape(s')
    decreases |actions|
  {
    if actions == [] then s else Exec(Next(s, actions[0]), actions[1..])
  }

  lemma {:induction false} RunKeeps(s: State, actions: seq<Action>)
    requires Inv(s)
    ensures Inv(Exec(s, actions)) && |Exec(s, actions).cpus| == |s.cpus|
    decreases |actions|
  {
    if actions != [] {
      if Valid(s, actions[0]) && Step(s, actions[0]).Some? {
        StepKeeps(s, actions[0]);
        SameCpus(s, actions[0]);
      }
      RunKeeps(Next(s, actions[0]), actions[1..]);
    }
  }

  lemma SameCpus(s: State, a: Action)
    requires Shape(s) && Valid(s, a) && Step(s, a).Some?
    ensures |Step(s, a).value.cpus| == |s.cpus|
  {
  }

  /** What the hand-off promises about CPU `c` of a state. */
  ghost predicate Promised(s: State, c: nat)
    requires Shape(s) && c < |s.cpus|
  {
    var cpu := s.cpus[c];
    && (cpu.list.Some? ==> NoDup(Listed(cpu.list.value)))
    && (Pending(cpu) ==> Covered(s, c))
    && (Pending(cpu) && s.lock.None? ==> Inject in cpu.events || cpu.pc == HLock)
    && cpu.accepted == cpu.injected + cpu.dropped + multiset(Rest(cpu))
  }

  /** In every state of every run, for any number of devices and any responses: the lists have no duplicates; a CPU with
      a listed interrupt has an injection queued, or its handler on the way, or the CPU that listed it is about to queue
      one (while nobody holds the lock, one of the first two); and every interrupt that was accepted has been injected,
      was discarded by a shutdown, or is still listed, each exactly once. */
  lemma HandoffHolds(n: nat, actions: seq<Action>, c: nat)
    requires c < n
    ensures |Exec(Initial(n), actions).cpus| == n
    ensures Promised(Exec(Initial(n), actions), c)
  {
    InitialHolds(n);
    RunKeeps(Initial(n), actions);
  }

  // The length assertion.

  /** The CPU is about to look at a response for an interrupt that is not listed while three others are. */
  predicate Overfull(s: State, pc: Pc)
    requires Shape(s)
  {
    pc.DCheck? && pc.target < |s.cpus| && IsNew(s.cpus[pc.target], pc.irq) && |Listed(EntryOf(s.cpus[pc.target]))| == 3
  }

  /** A step fails the length assertion or the handler's `unwrap` if and only if it is the length test of a fourth
      outstanding interrupt: the `unwrap` never fails. */
  lemma StepDies(s: State, a: Action, c: nat)
    requires Inv(s) && Valid(s, a) && Step(s, a).Some? && c < |s.cpus| && s.cpus[c].pc != Dead
    ensures |Step(s, a).value.cpus| == |s.cpus|
    ensures Step(s, a).value.cpus[c].pc == Dead <==> a == Go(c) && Overfull(s, s.cpus[c].pc)
  {
    SameCpus(s, a);
    if a.Go? {
      if InFlight(s.cpus[a.c].pc) {
        HandlerLives(s, a.c, c);
      } else if s.cpus[a.c].pc.DLock? || s.cpus[a.c].pc.DCheck? || s.cpus[a.c].pc.DSend? {
        DrainDies(s, a.c, c);
      } else {
        ShutdownLives(s, a.c, c);
      }
    } else {
      CallLives(s, a, c);
    }
  }

  lemma CallLives(s: State, a: Action, c: nat)
    requires Shape(s) && Valid(s, a) && Step(s, a).Some? && !a.Go? && c < |s.cpus| && s.cpus[c].pc != Dead
    ensures |Step(s, a).value.cpus| == |s.cpus| && Step(s, a).value.cpus[c].pc != Dead
  {
  }

  lemma HandlerLives(s: State, me: nat, c: nat)
    requires Inv(s) && me < |s.cpus| && c < |s.cpus| && GoHandler(s, me).Some? && s.cpus[c].pc != Dead
    ensures |GoHandler(s, me).value.cpus| == |s.cpus| && GoHandler(s, me).value.cpus[c].pc != Dead
  {
    assert CpuOk(s.cpus[me]);
  }

  lemma DrainDies(s: State, me: nat, c: nat)
    requires Shape(s) && me < |s.cpus| && c < |s.cpus| && GoDrain(s, me).Some? && s.cpus[c].pc != Dead
    ensures |GoDrain(s, me).value.cpus| == |s.cpus|
    ensures GoDrain(s, me).value.cpus[c].pc == Dead <==> me == c && Overfull(s, s.cpus[c].pc)
  {
  }

  lemma ShutdownLives(s: State, me: nat, c: nat)
    requires Shape(s) && me < |s.cpus| && c < |s.cpus| && GoShutdown(s, me).Some? && s.cpus[c].pc != Dead
    ensures |GoShutdown(s, me).value.cpus| == |s.cpus| && GoShutdown(s, me).value.cpus[c].pc != Dead
  {
  }

  /** The responses name interrupts of the target's devices. */
  ghost predicate Known(a: Action, devs: seq<set<nat>>)
  {
    a.Respond? && a.target < |devs| ==> a.irq in devs[a.target]
  }

  ghost predicate AtMostThree(devs: seq<set<nat>>)
  {
    forall t: nat | t < |devs| :: |devs[t]| <= 3
  }

  lemma {:induction false} DistinctCount(s: seq<nat>, all: set<nat>)
    requires NoDup(s) && forall i: nat | i < |s| :: s[i] in all
    ensures |s| <= |all|
  {
    if s != [] {
      var last := |s| - 1;
      DistinctCount(s[..last], all - {s[last]});
    }
  }

  /** Whatever is listed for a CPU, or about to be, is an interrupt of its devices. */
  ghost predicate OfDevices(s: State, devs: seq<set<nat>>)
    requires Shape(s)
  {
    && |devs| == |s.cpus|
    && (forall c: nat | c < |s.cpus| :: ListOf(s.cpus[c], devs[c]))
    && (forall c: nat | c < |s.cpus| && s.cpus[c].pc.DCheck? && s.cpus[c].pc.target < |devs| ::
          s.cpus[c].pc.irq in devs[s.cpus[c].pc.target])
  }

  ghost predicate ListOf(cpu: Cpu, devs: set<nat>)
    requires ListShape(cpu.list)
  {
    forall i: nat | i < |Listed(EntryOf(cpu))| :: Listed(EntryOf(cpu))[i] in devs
  }

  /** The list is as it was or empty. */
  predicate NotMore(cpu: Cpu, cpu': Cpu)
    requires ListShape(cpu.list) && ListShape(cpu'.list)
  {
    Listed(EntryOf(cpu')) == Listed(EntryOf(cpu)) || Listed(EntryOf(cpu')) == []
  }

  lemma NotMoreOf(cpu: Cpu, cpu': Cpu, devs: set<nat>)
    requires ListShape(cpu.list) && ListShape(cpu'.list) && NotMore(cpu, cpu') && ListOf(cpu, devs)
    ensures ListOf(cpu', devs)
  {
  }

  lemma CheckOf(s: State, c: nat, d: nat, devs: set<nat>)
    requires Shape(s) && c < |s.cpus| && d < |s.cpus| && s.cpus[c].pc.DCheck? && GoDrain(s, c).Some?
    requires ListOf(s.cpus[d], devs) && (s.cpus[c].pc.target == d ==> s.cpus[c].pc.irq in devs)
    ensures |GoDrain(s, c).value.cpus| == |s.cpus| && ListOf(GoDrain(s, c).value.cpus[d], devs)
  {
    var target, irq := s.cpus[d], s.cpus[c].pc.irq;
    if s.cpus[c].pc.target == d && IsNew(target, irq) && HasRoom(target) {
      ListedAppend(target, irq);
      assert Listed(EntryOf(GoDrain(s, c).value.cpus[d])) == Listed(EntryOf(target)) + [irq];
    } else {
      NotMoreOf(target, GoDrain(s, c).value.cpus[d], devs);
    }
  }

  lemma HandlerNotMore(s: State, c: nat, d: nat)
    requires Shape(s) && c < |s.cpus| && d < |s.cpus| && GoHandler(s, c).Some?
    ensures |GoHandler(s, c).value.cpus| == |s.cpus| && NotMore(s.cpus[d], GoHandler(s, c).value.cpus[d])
  {
  }

  lemma ResetNotMore(t: Cpu)
    requires ListShape(t.list)
    ensures Listed(EntryOf(Reset(t))) == []
  {
  }

  lemma ShutdownNotMore(s: State, c: nat, d: nat)
    requires Shape(s) && c < |s.cpus| && d < |s.cpus| && GoShutdown(s, c).Some?
    ensures |GoShutdown(s, c).value.cpus| == |s.cpus| && NotMore(s.cpus[d], GoShutdown(s, c).value.cpus[d])
  {
    var pc := s.cpus[c].pc;
    if pc.SZero? {
      ResetNotMore(s.cpus[d]);
      assert GoShutdown(s, c).value.cpus[d].list ==
        if pc.cpus[pc.k] == d then Reset(s.cpus[d]).list else s.cpus[d].list;
    } else {
      assert GoShutdown(s, c).value.cpus[d].list == s.cpus[d].list;
    }
  }

  lemma GoNotMore(s: State, c: nat, d: nat)
    requires Shape(s) && c < |s.cpus| && d < |s.cpus| && Step(s, Go(c)).Some? && !s.cpus[c].pc.DCheck?
    ensures |Step(s, Go(c)).value.cpus| == |s.cpus| && NotMore(s.cpus[d], Step(s, Go(c)).value.cpus[d])
  {
    if InFlight(s.cpus[c].pc) {
      HandlerNotMore(s, c, d);
    } else if !s.cpus[c].pc.DLock? && !s.cpus[c].pc.DSend? {
      ShutdownNotMore(s, c, d);
    }
  }

  lemma CallNotMore(s: State, a: Action, d: nat)
    requires Shape(s) && Valid(s, a) && d < |s.cpus| && Step(s, a).Some? && !a.Go?
    ensures |Step(s, a).value.cpus| == |s.cpus| && NotMore(s.cpus[d], Step(s, a).value.cpus[d])
  {
  }

  lemma StepListOf(s: State, a: Action, devs: seq<set<nat>>, d: nat)
    requires Inv(s) && OfDevices(s, devs) && Valid(s, a) && Step(s, a).Some? && d < |s.cpus|
    ensures |Step(s, a).value.cpus| == |s.cpus| && ListOf(Step(s, a).value.cpus[d], devs[d])
  {
    if a.Go? && s.cpus[a.c].pc.DCheck? {
      CheckOf(s, a.c, d, devs[d]);
    } else {
      if a.Go? {
        GoNotMore(s, a.c, d);
      } else {
        CallNotMore(s, a, d);
      }
      NotMoreOf(s.cpus[d], Step(s, a).value.cpus[d], devs[d]);
    }
  }

  lemma GoChecks(s: State, c: nat, d: nat)
    requires Shape(s) && c < |s.cpus| && d < |s.cpus| && Step(s, Go(c)).Some?
    ensures |Step(s, Go(c)).value.cpus| == |s.cpus|
    ensures Step(s, Go(c)).value.cpus[d].pc.DCheck? ==> Step(s, Go(c)).value.cpus[d].pc == s.cpus[d].pc
  {
    if s.cpus[c].pc.SSend? || s.cpus[c].pc.SZero? || s.cpus[c].pc.SClear? {
      ShutdownChecks(s, c, d);
    }
  }

  lemma ShutdownChecks(s: State, c: nat, d: nat)
    requires Shape(s) && c < |s.cpus| && d < |s.cpus| && GoShutdown(s, c).Some?
    ensures |GoShutdown(s, c).value.cpus| == |s.cpus|
    ensures GoShutdown(s, c).value.cpus[d].pc.DCheck? ==> GoShutdown(s, c).value.cpus[d].pc == s.cpus[d].pc
  {
  }

  /** Only a response leads to a check. */
  lemma StepChecks(s: State, a: Action, d: nat)
    requires Shape(s) && Valid(s, a) && Step(s, a).Some? && d < |s.cpus|
    ensures |Step(s, a).value.cpus| == |s.cpus|
    ensures var pc' := Step(s, a).value.cpus[d].pc;
            pc'.DCheck? ==> pc' == s.cpus[d].pc || a == Respond(d, pc'.target, pc'.irq)
  {
    if a.Go? {
      GoChecks(s, a.c, d);
    }
  }

  lemma StepOfDevices(s: State, devs: seq<set<nat>>, a: Action)
    requires Inv(s) && OfDevices(s, devs) && Known(a, devs) && Valid(s, a) && Step(s, a).Some?
    ensures OfDevices(Step(s, a).value, devs)
  {
    SameCpus(s, a);
    forall d: nat | d < |s.cpus|
      ensures ListOf(Step(s, a).value.cpus[d], devs[d])
    {
      StepListOf(s, a, devs, d);
    }
    forall d: nat | d < |s.cpus| && Step(s, a).value.cpus[d].pc.DCheck? && Step(s, a).value.cpus[d].pc.target < |devs|
      ensures Step(s, a).value.cpus[d].pc.irq in devs[Step(s, a).value.cpus[d].pc.target]
    {
      StepChecks(s, a, d);
    }
  }

  /** At most three devices: there is always room for an interrupt that is not yet listed. */
  lemma RoomForNew(t: Cpu, irq: nat, devs: set<nat>)
    requires CpuOk(t) && ListOf(t, devs) && |devs| < MAX_DEVS && irq in devs && IsNew(t, irq)
    ensures HasRoom(t)
  {
    DistinctCount(Listed(EntryOf(t)), devs - {irq});
  }

  ghost predicate NobodyDead(s: State)
  {
    forall c: nat | c < |s.cpus| :: s.cpus[c].pc != Dead
  }

  lemma StepLives(s: State, devs: seq<set<nat>>, a: Action)
    requires Inv(s) && OfDevices(s, devs) && AtMostThree(devs) && Valid(s, a) && Step(s, a).Some? && NobodyDead(s)
    ensures NobodyDead(Step(s, a).value)
  {
    SameCpus(s, a);
    forall c: nat | c < |s.cpus|
      ensures Step(s, a).value.cpus[c].pc != Dead
    {
      StepDies(s, a, c);
      if Overfull(s, s.cpus[c].pc) {
        RoomForNew(s.cpus[s.cpus[c].pc.target], s.cpus[c].pc.irq, devs[s.cpus[c].pc.target]);
      }
    }
  }

  lemma {:induction false} RunLives(s: State, devs: seq<set<nat>>, actions: seq<Action>)
    requires Inv(s) && OfDevices(s, devs) && AtMostThree(devs) && NobodyDead(s)
    requires forall i: nat | i < |actions| :: Known(actions[i], devs)
    ensures NobodyDead(Exec(s, actions))
    decreases |actions|
  {
    if actions != [] {
      if Valid(s, actions[0]) && Step(s, actions[0]).Some? {
        StepKeeps(s, actions[0]);
        StepOfDevices(s, devs, actions[0]);
        StepLives(s, devs, actions[0]);
      }
      RunLives(Next(s, actions[0]), devs, actions[1..]);
    }
  }

  lemma {:induction false} ExecConcat(s: State, a: seq<Action>, b: seq<Action>)
    requires Shape(s)
    ensures Exec(s, a + b) == Exec(Exec(s, a), b)
    decreases |a|
  {
    if a == [] {
      assert a + b == b;
    } else {
      assert (a + b)[1..] == a[1..] + b;
      ExecConcat(Next(s, a[0]), a[1..], b);
    }
  }

  /** CPU 0 is in `hv_virtio_inject_irq` and has listed these interrupts for CPU `t`. */
  predicate Drained(s: State, t: nat, irqs: seq<nat>)
    requires Shape(s)
  {
    t < |s.cpus| && s.cpus[0].pc == DNext && Listed(EntryOf(s.cpus[t])) == irqs
  }

  function OneResponse(t: nat, irq: nat): seq<Action>
  {
    [Respond(0, t, irq), Go(0), Go(0)]
  }

  lemma ExecThree(s: State, a: Action, b: Action, c: Action)
    requires Shape(s)
    ensures Exec(s, [a, b, c]) == Next(Next(Next(s, a), b), c)
  {
    var s1, s2 := Next(s, a), Next(Next(s, a), b);
    assert [a, b, c][1..] == [b, c] && [b, c][1..] == [c];
    assert Exec(s, [a, b, c]) == Exec(s1, [b, c]) == Exec(s2, [c]) == Exec(Next(s2, c), []);
  }

  lemma Checked(s: State, t: nat, irq: nat)
    requires Shape(s) && t < |s.cpus| && s.cpus[0].pc == DCheck(t, irq) && IsNew(s.cpus[t], irq)
    ensures var s', listed := Next(s, Go(0)), Listed(EntryOf(s.cpus[t]));
            && |s'.cpus| == |s.cpus|
            && if |listed| < 3 then s'.cpus[0].pc == DSend(t) && Listed(EntryOf(s'.cpus[t])) == listed + [irq]
               else s'.cpus[0].pc == Dead
  {
    if HasRoom(s.cpus[t]) {
      ListedAppend(s.cpus[t], irq);
    }
  }

  lemma Sent(s: State, t: nat)
    requires Shape(s) && t < |s.cpus| && s.cpus[0].pc == DSend(t)
    ensures Drained(Next(s, Go(0)), t, Listed(EntryOf(s.cpus[t]))) && |Next(s, Go(0)).cpus| == |s.cpus|
  {
  }

  lemma OneMore(s: State, t: nat, irqs: seq<nat>, irq: nat)
    requires Shape(s) && Drained(s, t, irqs) && irq !in irqs && |irqs| < 3
    ensures Drained(Exec(s, OneResponse(t, irq)), t, irqs + [irq])
    ensures |Exec(s, OneResponse(t, irq)).cpus| == |s.cpus|
  {
    ExecThree(s, Respond(0, t, irq), Go(0), Go(0));
    var s1 := Next(s, Respond(0, t, irq));
    Checked(s1, t, irq);
    Sent(Next(s1, Go(0)), t);
  }

  lemma OneTooMany(s: State, t: nat, irqs: seq<nat>, irq: nat)
    requires Shape(s) && Drained(s, t, irqs) && irq !in irqs && |irqs| == 3
    ensures Exec(s, OneResponse(t, irq)).cpus != [] && Exec(s, OneResponse(t, irq)).cpus[0].pc == Dead
  {
    ExecThree(s, Respond(0, t, irq), Go(0), Go(0));
    var s1 := Next(s, Respond(0, t, irq));
    Checked(s1, t, irq);
    DeadStays(Next(s1, Go(0)));
  }

  lemma DeadStays(s: State)
    requires Shape(s) && s.cpus != [] && s.cpus[0].pc == Dead
    ensures Next(s, Go(0)) == s
  {
  }

  /** One call of `hv_virtio_inject_irq` by CPU 0 that finds these responses for CPU `t`. */
  function OneCall(t: nat, irqs: seq<nat>): seq<Action>
  {
    if irqs == [] then [CallInject(0), Go(0)]
    else OneCall(t, irqs[..|irqs| - 1]) + OneResponse(t, irqs[|irqs| - 1])
  }

  lemma {:induction false} CallLists(n: nat, t: nat, irqs: seq<nat>)
    requires t < n && NoDup(irqs) && |irqs| <= 3
    ensures Drained(Exec(Initial(n), OneCall(t, irqs)), t, irqs)
    ensures |Exec(Initial(n), OneCall(t, irqs)).cpus| == n
  {
    var s := Initial(n);
    if irqs == [] {
      assert [CallInject(0), Go(0)][1..] == [Go(0)];
      var s1 := Next(s, CallInject(0));
      assert Exec(s, [CallInject(0), Go(0)]) == Exec(s1, [Go(0)]) == Exec(Next(s1, Go(0)), []);
    } else {
      var before, irq := irqs[..|irqs| - 1], irqs[|irqs| - 1];
      CallLists(n, t, before);
      ExecConcat(s, OneCall(t, before), OneResponse(t, irq));
      OneMore(Exec(s, OneCall(t, before)), t, before, irq);
      assert before + [irq] == irqs;
    }
  }

  ghost predicate CanPanic(devs: seq<set<nat>>)
  {
    exists actions: seq<Action>, c: nat ::
      && (forall i: nat | i < |actions| :: Known(actions[i], devs))
      && c < |Exec(Initial(|devs|), actions).cpus|
      && Exec(Initial(|devs|), actions).cpus[c].pc == Dead
  }

  lemma {:induction false} TakeDistinct(all: set<nat>, k: nat) returns (s: seq<nat>)
    requires k <= |all|
    ensures |s| == k && NoDup(s) && forall i: nat | i < k :: s[i] in all
  {
    if k == 0 {
      s := [];
    } else {
      var x :| x in all;
      var rest := TakeDistinct(all - {x}, k - 1);
      s := rest + [x];
    }
  }

  lemma {:induction false} CallIsKnown(t: nat, irqs: seq<nat>, devs: seq<set<nat>>)
    requires t < |devs| && forall i: nat | i < |irqs| :: irqs[i] in devs[t]
    ensures forall i: nat | i < |OneCall(t, irqs)| :: Known(OneCall(t, irqs)[i], devs)
  {
    if irqs != [] {
      CallIsKnown(t, irqs[..|irqs| - 1], devs);
    }
  }

  /** Four devices behind one CPU: one call of the hypercall already fails the length assertion. */
  lemma FourthPanics(devs: seq<set<nat>>, t: nat)
    requires t < |devs| && |devs[t]| > 3
    ensures CanPanic(devs)
  {
    var n := |devs|;
    var irqs := TakeDistinct(devs[t], 4);
    var actions := OneCall(t, irqs);
    CallIsKnown(t, irqs, devs);
    var before := irqs[..3];
    CallLists(n, t, before);
    ExecConcat(Initial(n), OneCall(t, before), OneResponse(t, irqs[3]));
    OneTooMany(Exec(Initial(n), OneCall(t, before)), t, before, irqs[3]);
    assert Exec(Initial(n), actions).cpus[0].pc == Dead;
  }

  /** The assertion `len + 1 < MAX_DEVS` can fail exactly when some CPU receives the interrupts of more than three
      devices, although `MAX_DEVS` is four and a list has four places.  (The bridge is initialised.) */
  lemma PanicExact(devs: seq<set<nat>>)
    ensures CanPanic(devs) <==> !AtMostThree(devs)
  {
    if AtMostThree(devs) && CanPanic(devs) {
      var actions: seq<Action>, c: nat :|
        && (forall i: nat | i < |actions| :: Known(actions[i], devs))
        && c < |Exec(Initial(|devs|), actions).cpus|
        && Exec(Initial(|devs|), actions).cpus[c].pc == Dead;
      InitialHolds(|devs|);
      RunLives(Initial(|devs|), devs, actions);
    }
    if !AtMostThree(devs) {
      var t: nat :| t < |devs| && |devs[t]| > 3;
      FourthPanics(devs, t);
    }
  }

  // A shutdown that meets a CPU inside the hypervisor.

  /** The shutdown on `d` waits, and `c` waits for one of the locks it has. */
  ghost predicate Blocked(s: State, c: nat, d: nat)
  {
    && c < |s.cpus| && d < |s.cpus| && s.lock == Some(d) && s.cpus[d].pc.SWait?
    && (s.cpus[c].pc.HLock? || s.cpus[c].pc.DLock? || s.cpus[c].pc.SLock? ||
        (s.cpus[c].pc == ZWait && c in s.cpus[d].pc.cpus))
  }

  /** No step other than the end of the wait moves the two CPUs. */
  lemma StepBlocked(s: State, c: nat, d: nat, a: Action)
    requires Inv(s) && Blocked(s, c, d) && !(a.WaitEnd? && a.c == d)
    ensures Blocked(Next(s, a), c, d) && Next(s, a).cpus[c].pc == s.cpus[c].pc
    ensures Shutdown in s.cpus[c].events ==> Shutdown in Next(s, a).cpus[c].events
  {
    if Valid(s, a) && Step(s, a).Some? {
      if a.Go? {
        GoBlocked(s, c, d, a.c);
      } else {
        CallBlocked(s, c, d, a);
      }
    }
  }

  lemma CallBlocked(s: State, c: nat, d: nat, a: Action)
    requires Shape(s) && Blocked(s, c, d) && !a.Go? && !(a.WaitEnd? && a.c == d) && Valid(s, a) && Step(s, a).Some?
    requires !a.Send? && a.c != c && a.c != d ==> s.cpus[a.c].pc != DNext && !s.cpus[a.c].pc.SWait?
    ensures Blocked(Step(s, a).value, c, d) && Step(s, a).value.cpus[c].pc == s.cpus[c].pc
    ensures Shutdown in s.cpus[c].events ==> Shutdown in Step(s, a).value.cpus[c].events
  {
  }

  /** Only traps of other zones go on. */
  lemma GoBlocked(s: State, c: nat, d: nat, e: nat)
    requires Inv(s) && Blocked(s, c, d) && e < |s.cpus| && Step(s, Go(e)).Some?
    ensures e != c && e != d && Step(s, Go(e)) == Some(Goto(s, e, if s.cpus[e].pc == ZWait then ZHold else Guest))
  {
    assert Holding(s.cpus[e].pc) ==> e == d;
    if e == c && s.cpus[c].pc == ZWait {
      assert HasZone(s.cpus[d].pc, c);
    }
  }

  ghost predicate StillWaits(actions: seq<Action>, d: nat)
  {
    forall i: nat | i < |actions| :: !(actions[i].WaitEnd? && actions[i].c == d)
  }

  /** `hv_zone_shutdown` keeps the lock of `VIRTIO_IRQS` and that of the zone while it waits.  So a CPU of the zone
      that had already taken an injection event, or was trapped by a device access, stays where it is and cannot reach
      its shutdown event before the wait has ended by itself. */
  lemma {:induction false} WaitBlocks(s: State, c: nat, d: nat, actions: seq<Action>)
    requires Inv(s) && Blocked(s, c, d) && StillWaits(actions, d)
    ensures Blocked(Exec(s, actions), c, d)
    ensures Shutdown in s.cpus[c].events ==> Shutdown in Exec(s, actions).cpus[c].events
    decreases |actions|
  {
    if actions != [] {
      StepBlocked(s, c, d, actions[0]);
      if Valid(s, actions[0]) && Step(s, actions[0]).Some? {
        StepKeeps(s, actions[0]);
      }
      WaitBlocks(Next(s, actions[0]), c, d, actions[1..]);
    }
  }

  /** The next event is the shutdown: it discards what was queued before. */
  predicate ShutdownFirst(s: State, c: nat)
    requires c < |s.cpus|
  {
    forall i: nat | 0 < i < |s.cpus[c].events| :: s.cpus[c].events[i] != Shutdown
  }

  lemma {:induction false} RunShutdownFirst(s: State, actions: seq<Action>, c: nat)
    requires Inv(s) && c < |s.cpus| && ShutdownFirst(s, c)
    ensures |Exec(s, actions).cpus| == |s.cpus| && ShutdownFirst(Exec(s, actions), c)
    decreases |actions|
  {
    if actions != [] {
      if Valid(s, actions[0]) && Step(s, actions[0]).Some? {
        StepKeeps(s, actions[0]);
        StepShutdownFirst(s, actions[0], c);
      }
      RunShutdownFirst(Next(s, actions[0]), actions[1..], c);
    }
  }

  lemma StepShutdownFirst(s: State, a: Action, c: nat)
    requires Shape(s) && Valid(s, a) && Step(s, a).Some? && c < |s.cpus| && ShutdownFirst(s, c)
    ensures |Step(s, a).value.cpus| == |s.cpus| && ShutdownFirst(Step(s, a).value, c)
  {
    if a.Go? {
      GoMoves(s, a.c, c);
    } else {
      CallMoves(s, a, c);
    }
  }

  predicate EventsMove(q: seq<Event>, q': seq<Event>)
  {
    q' == q || (q != [] && q' == q[1..]) || q' == q + [Inject] || q' == q + [Other] || q' == [Shutdown] || q' == []
  }

  lemma GoMoves(s: State, me: nat, c: nat)
    requires Shape(s) && me < |s.cpus| && c < |s.cpus| && Step(s, Go(me)).Some?
    ensures |Step(s, Go(me)).value.cpus| == |s.cpus| &&
      EventsMove(s.cpus[c].events, Step(s, Go(me)).value.cpus[c].events)
  {
    var pc := s.cpus[me].pc;
    if InFlight(pc) {
      assert Step(s, Go(me)).value.cpus[c].events == s.cpus[c].events;
    } else if pc.DLock? || pc.DCheck? || pc.DSend? {
      DrainMoves(s, me, c);
    } else {
      ShutdownMoves(s, me, c);
    }
  }

  lemma DrainMoves(s: State, me: nat, c: nat)
    requires Shape(s) && me < |s.cpus| && c < |s.cpus| && GoDrain(s, me).Some?
    ensures |GoDrain(s, me).value.cpus| == |s.cpus| && EventsMove(s.cpus[c].events, GoDrain(s, me).value.cpus[c].events)
  {
    var pc := s.cpus[me].pc;
    assert GoDrain(s, me).value.cpus[c].events ==
      if pc.DSend? then AddedTo(s, pc.target, Inject, c) else s.cpus[c].events;
  }

  lemma ShutdownMoves(s: State, me: nat, c: nat)
    requires Shape(s) && me < |s.cpus| && c < |s.cpus| && GoShutdown(s, me).Some?
    ensures |GoShutdown(s, me).value.cpus| == |s.cpus|
    ensures EventsMove(s.cpus[c].events, GoShutdown(s, me).value.cpus[c].events)
  {
    var pc, q := s.cpus[me].pc, GoShutdown(s, me).value.cpus[c].events;
    if pc.SSend? && pc.k < |pc.cpus| {
      assert q == AddedTo(s, pc.cpus[pc.k], Shutdown, c);
    } else if pc.SClear? && pc.k < |pc.cpus| && c == pc.cpus[pc.k] {
      assert q == [];
    } else {
      assert q == s.cpus[c].events;
    }
  }

  function AddedTo(s: State, t: nat, e: Event, c: nat): seq<Event>
    requires c < |s.cpus|
  {
    if c == t then AddEvent(s.cpus[c], e).events else s.cpus[c].events
  }

  lemma CallMoves(s: State, a: Action, c: nat)
    requires Shape(s) && Valid(s, a) && Step(s, a).Some? && c < |s.cpus| && !a.Go?
    ensures |Step(s, a).value.cpus| == |s.cpus| && EventsMove(s.cpus[c].events, Step(s, a).value.cpus[c].events)
  {
  }

  /** Some run in which the shutdown on `d` keeps waiting lets `c` take its shutdown event. */
  ghost predicate CanTake(s: State, c: nat, d: nat)
    requires Shape(s)
  {
    exists actions: seq<Action> :: StillWaits(actions, d) && c < |Exec(s, actions).cpus| &&
                                   Shutdown !in Exec(s, actions).cpus[c].events
  }

  /** While the shutdown waits, a CPU with a shutdown event can reach it exactly when it runs its guest, or is in a
      trap that has the lock of its zone or waits for the lock of a zone that is not being shut down. */
  lemma TakesExact(s: State, c: nat, d: nat)
    requires Inv(s) && c < |s.cpus| && d < |s.cpus| && c != d && s.lock == Some(d) && s.cpus[d].pc.SWait?
    requires Shutdown in s.cpus[c].events && ShutdownFirst(s, c)
    ensures CanTake(s, c, d) <==>
            s.cpus[c].pc == Guest || s.cpus[c].pc == ZHold || (s.cpus[c].pc == ZWait && c !in s.cpus[d].pc.cpus)
  {
    var pc := s.cpus[c].pc;
    if pc == Guest {
      TakesFromGuest(s, c, d, []);
    } else if pc == ZHold || (pc == ZWait && c !in s.cpus[d].pc.cpus) {
      TakesFromTrap(s, c, d);
    } else {
      assert Holding(pc) ==> s.lock == Some(c);
      BlockedCannot(s, c, d);
    }
  }

  /** So in every state of every run in which a shutdown waits. */
  lemma ShutdownReached(n: nat, actions: seq<Action>, c: nat, d: nat)
    requires c < n && d < n && c != d
    ensures var s := Exec(Initial(n), actions);
            && |s.cpus| == n
            && (s.cpus[d].pc.SWait? && Shutdown in s.cpus[c].events ==>
                  (CanTake(s, c, d) <==>
                   s.cpus[c].pc == Guest || s.cpus[c].pc == ZHold ||
                   (s.cpus[c].pc == ZWait && c !in s.cpus[d].pc.cpus)))
  {
    var s := Exec(Initial(n), actions);
    InitialHolds(n);
    RunKeeps(Initial(n), actions);
    RunShutdownFirst(Initial(n), actions, c);
    if s.cpus[d].pc.SWait? && Shutdown in s.cpus[c].events {
      TakesExact(s, c, d);
    }
  }

  lemma BlockedCannot(s: State, c: nat, d: nat)
    requires Inv(s) && Blocked(s, c, d) && Shutdown in s.cpus[c].events
    ensures !CanTake(s, c, d)
  {
    if CanTake(s, c, d) {
      var actions: seq<Action> :| StillWaits(actions, d) && c < |Exec(s, actions).cpus| &&
                                  Shutdown !in Exec(s, actions).cpus[c].events;
      WaitBlocks(s, c, d, actions);
    }
  }

  lemma TakesFromTrap(s: State, c: nat, d: nat)
    requires Inv(s) && c < |s.cpus| && d < |s.cpus| && s.lock == Some(d) && s.cpus[d].pc.SWait?
    requires s.cpus[c].pc == ZHold || (s.cpus[c].pc == ZWait && c !in s.cpus[d].pc.cpus)
    requires Shutdown in s.cpus[c].events && ShutdownFirst(s, c)
    ensures CanTake(s, c, d)
  {
    if s.cpus[c].pc == ZHold {
      assert Exec(s, [Go(c)]) == Exec(Next(s, Go(c)), []);
      TakesFromGuest(s, c, d, [Go(c)]);
    } else {
      NotTaken(s, c, d);
      ExecTwo(s, Go(c), Go(c));
      TakesFromGuest(s, c, d, [Go(c), Go(c)]);
    }
  }

  lemma NotTaken(s: State, c: nat, d: nat)
    requires Inv(s) && c < |s.cpus| && d < |s.cpus| && s.lock == Some(d) && s.cpus[d].pc.SWait? &&
      c !in s.cpus[d].pc.cpus
    ensures !ZoneTaken(s, c)
  {
    forall e: nat | e < |s.cpus|
      ensures !HasZone(s.cpus[e].pc, c)
    {
      assert Holding(s.cpus[e].pc) ==> e == d;
    }
  }

  lemma TakesFromGuest(s: State, c: nat, d: nat, before: seq<Action>)
    requires Shape(s) && c < |s.cpus| && StillWaits(before, d)
    requires var t := Exec(s, before); c < |t.cpus| && t.cpus[c].pc == Guest && t.cpus[c].events == s.cpus[c].events
    requires Shutdown in s.cpus[c].events && ShutdownFirst(s, c)
    ensures CanTake(s, c, d)
  {
    var t := Exec(s, before);
    ExecConcat(s, before, [Fetch(c)]);
    assert Exec(t, [Fetch(c)]) == Exec(Next(t, Fetch(c)), []);
    assert StillWaits(before + [Fetch(c)], d);
    assert Shutdown !in Next(t, Fetch(c)).cpus[c].events;
  }

  /** CPU 0 shuts down the zone of CPU 1 when that one has just taken the event of an injected interrupt. */
  function HandlerRun(irq: nat): seq<Action>
  {
    [CallInject(0), Go(0)] + OneResponse(1, irq) + [RespondEnd(0), Fetch(1), CallShutdown(0, [1])] + ToTheWait()
  }

  /** CPU 0 shuts down the zone of CPU 1 when that one has just trapped. */
  function TrapRun(): seq<Action>
  {
    [CallTrap(1), CallShutdown(0, [1])] + ToTheWait()
  }

  function ToTheWait(): seq<Action>
  {
    [Go(0), Go(0), Go(0)] + [Go(0), Go(0)]
  }

  /** CPU 0 drains, shuts down, or does neither; CPU 1 is a guest with these events, or in its handler. */
  ghost predicate Scene(s: State, lock: Option<nat>, pc: Pc, pc1: Pc, events: seq<Event>)
  {
    && |s.cpus| >= 2 && Shape(s)
    && s.lock == lock && s.cpus[0].pc == pc && s.cpus[1].pc == pc1 && s.cpus[1].events == events
  }

  lemma SceneInjected(s: State, irq: nat)
    requires Scene(s, None, Guest, Guest, []) && s.cpus[1].list.None?
    ensures Scene(Exec(Exec(s, [CallInject(0), Go(0)]), OneResponse(1, irq)), Some(0), DNext, Guest, [Inject])
    ensures Pending(Exec(Exec(s, [CallInject(0), Go(0)]), OneResponse(1, irq)).cpus[1])
  {
    ExecTwo(s, CallInject(0), Go(0));
    var s1 := Next(s, CallInject(0));
    assert Scene(s1, None, DLock, Guest, []) && s1.cpus[1].list.None?;
    SceneLocked(s1);
    var s2 := Next(s1, Go(0));
    ExecThree(s2, Respond(0, 1, irq), Go(0), Go(0));
    SceneAsked(s2, irq);
    var s3 := Next(s2, Respond(0, 1, irq));
    SceneListed(s3, irq);
    SceneSent(Next(s3, Go(0)));
  }

  lemma SceneLocked(s: State)
    requires Scene(s, None, DLock, Guest, []) && s.cpus[1].list.None?
    ensures Scene(Next(s, Go(0)), Some(0), DNext, Guest, []) && Next(s, Go(0)).cpus[1].list.None?
  {
  }

  lemma SceneAsked(s: State, irq: nat)
    requires Scene(s, Some(0), DNext, Guest, []) && s.cpus[1].list.None?
    ensures var s' := Next(s, Respond(0, 1, irq));
            Scene(s', Some(0), DCheck(1, irq), Guest, []) && s'.cpus[1].list.None?
  {
  }

  lemma ExecTwo(s: State, a: Action, b: Action)
    requires Shape(s)
    ensures Exec(s, [a, b]) == Next(Next(s, a), b)
  {
    assert [a, b][1..] == [b];
    assert Exec(s, [a, b]) == Exec(Next(s, a), [b]) == Exec(Next(Next(s, a), b), []);
  }

  lemma SceneListed(s: State, irq: nat)
    requires Scene(s, Some(0), DCheck(1, irq), Guest, []) && s.cpus[1].list.None?
    ensures Scene(Next(s, Go(0)), Some(0), DSend(1), Guest, []) && Pending(Next(s, Go(0)).cpus[1])
  {
    assert Listed(EntryOf(s.cpus[1])) == [];
  }

  lemma SceneSent(s: State)
    requires Scene(s, Some(0), DSend(1), Guest, []) && Pending(s.cpus[1])
    ensures Scene(Next(s, Go(0)), Some(0), DNext, Guest, [Inject]) && Pending(Next(s, Go(0)).cpus[1])
  {
  }

  lemma SceneCalled(s: State)
    requires Scene(s, Some(0), DNext, Guest, [Inject])
    ensures Scene(Exec(s, [RespondEnd(0), Fetch(1), CallShutdown(0, [1])]), None, SLock([1]), HLock, [])
  {
    ExecThree(s, RespondEnd(0), Fetch(1), CallShutdown(0, [1]));
  }

  /** The steps of the shutdown up to its wait, while CPU 1 stays where it is and no CPU has a zone lock. */
  lemma SceneShutdown(s: State, pc1: Pc)
    requires Scene(s, None, SLock([1]), pc1, []) && pc1 != ZHold
    ensures Scene(Exec(s, ToTheWait()), Some(0), SWait([1]), pc1, [Shutdown])
  {
    ExecConcat(s, [Go(0), Go(0), Go(0)], [Go(0), Go(0)]);
    ExecThree(s, Go(0), Go(0), Go(0));
    SceneLocks(s, pc1);
    var s1 := Next(s, Go(0));
    SceneEnters(s1, pc1);
    var s2 := Next(s1, Go(0));
    SceneSignalled(s2, pc1);
    var s3 := Next(s2, Go(0));
    ExecTwo(s3, Go(0), Go(0));
    SceneEmptied(s3, pc1);
    SceneWaits(Next(s3, Go(0)), pc1);
  }

  lemma SceneLocks(s: State, pc1: Pc)
    requires Scene(s, None, SLock([1]), pc1, [])
    ensures Scene(Next(s, Go(0)), Some(0), SZone([1]), pc1, [])
  {
  }

  lemma SceneEnters(s: State, pc1: Pc)
    requires Scene(s, Some(0), SZone([1]), pc1, []) && pc1 != ZHold
    ensures Scene(Next(s, Go(0)), Some(0), SSend([1], 0), pc1, [])
  {
    assert !ZoneInUse(s, [1]);
  }

  lemma SceneSignalled(s: State, pc1: Pc)
    requires Scene(s, Some(0), SSend([1], 0), pc1, [])
    ensures Scene(Next(s, Go(0)), Some(0), SZero([1], 0), pc1, [Shutdown])
  {
  }

  lemma SceneEmptied(s: State, pc1: Pc)
    requires Scene(s, Some(0), SZero([1], 0), pc1, [Shutdown])
    ensures Scene(Next(s, Go(0)), Some(0), SSend([1], 1), pc1, [Shutdown])
  {
  }

  lemma SceneWaits(s: State, pc1: Pc)
    requires Scene(s, Some(0), SSend([1], 1), pc1, [Shutdown])
    ensures Scene(Next(s, Go(0)), Some(0), SWait([1]), pc1, [Shutdown])
  {
  }

  /** Both blocking situations are reached from the initial state: CPU 1 has its shutdown event and cannot take it. */
  lemma ShutdownMeetsHandler(n: nat, irq: nat)
    requires n >= 2
    ensures var s := Exec(Initial(n), HandlerRun(irq));
            Inv(s) && Blocked(s, 1, 0) && s.cpus[1].pc == HLock && s.cpus[1].events == [Shutdown] && !CanTake(s, 1, 0)
  {
    var s := Initial(n);
    InitialHolds(n);
    RunKeeps(s, HandlerRun(irq));
    var a, b, c := [CallInject(0), Go(0)], OneResponse(1, irq), [RespondEnd(0), Fetch(1), CallShutdown(0, [1])];
    ExecConcat(s, a, b);
    ExecConcat(s, a + b, c);
    ExecConcat(s, a + b + c, ToTheWait());
    SceneInjected(s, irq);
    SceneCalled(Exec(s, a + b));
    SceneShutdown(Exec(s, a + b + c), HLock);
    TakesExact(Exec(s, HandlerRun(irq)), 1, 0);
  }

  lemma ShutdownMeetsTrap(n: nat)
    requires n >= 2
    ensures var s := Exec(Initial(n), TrapRun());
            Inv(s) && Blocked(s, 1, 0) && s.cpus[1].pc == ZWait && s.cpus[1].events == [Shutdown] && !CanTake(s, 1, 0)
  {
    var s := Initial(n);
    InitialHolds(n);
    RunKeeps(s, TrapRun());
    ExecConcat(s, [CallTrap(1), CallShutdown(0, [1])], ToTheWait());
    ExecTwo(s, CallTrap(1), CallShutdown(0, [1]));
    SceneShutdown(Exec(s, [CallTrap(1), CallShutdown(0, [1])]), ZWait);
    TakesExact(Exec(s, TrapRun()), 1, 0);
  }
}
