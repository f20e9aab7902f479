/** The virtual PLIC of src/device/irqchip/plic/vplic.rs as a transition function on values, together with the parts of
    the machine it drives: the VSEIP line and the IPI event queue of each CPU of the zone. */
module PlicSpec {

  const UPDATE_HART_LINE: nat := 5
  const SHUTDOWN: nat := 1

  /** `VirtualPLICInner`. */
  datatype Plic = Plic(
    hw: seq<bool>,
    active: seq<bool>,
    priority: seq<nat>,
    pending: seq<bool>,
    enable: seq<seq<bool>>,
    threshold: seq<nat>)

  /** The vPLIC of a zone with CPUs `cpus` (in ascending order), their lines and their queues, and the CPUs that have
      taken an UPDATE_HART_LINE event from their queue and have still to update their line. */
  datatype Sys = Sys(plic: Plic, cpus: seq<nat>, vseip: map<nat, bool>, events: map<nat, seq<nat>>, handling: set<nat>)

  predicate PlicOk(p: Plic)
  {
    && |p.priority| > 0
    && |p.hw| == |p.active| == |p.pending| == |p.priority|
    && |p.enable| == |p.threshold|
    && (forall c | 0 <= c < |p.enable| :: |p.enable[c]| == |p.priority|)
  }

  predicate Ascending(cpus: seq<nat>)
  {
    |cpus| >= 2 ==> cpus[|cpus| - 2] < cpus[|cpus| - 1] && Ascending(cpus[..|cpus| - 1])
  }

  lemma {:induction false} AscendingApart(cpus: seq<nat>, i: nat, j: nat)
    requires Ascending(cpus) && i < j < |cpus|
    ensures cpus[i] < cpus[j]
  {
    var n := |cpus| - 1;
    if j < n {
      AscendingApart(cpus[..n], i, j);
    } else if i < n - 1 {
      AscendingApart(cpus[..n], i, n - 1);
    }
  }

  predicate SysOk(s: Sys)
  {
    && PlicOk(s.plic)
    && |s.plic.threshold| == 2 * |s.cpus|
    && Ascending(s.cpus)
    && (forall h | h in s.cpus :: h in s.vseip && h in s.events)
  }

  // The number of contexts.

  /** `zone_create` makes two contexts for each CPU that the configuration lists, and keeps the CPUs themselves as a
      set. */
  function NumContexts(configured: seq<nat>): nat
  {
    2 * |configured|
  }

  function CpuSet(configured: seq<nat>): set<nat>
  {
    set cpu | cpu in configured
  }

  predicate NoRepeats(configured: seq<nat>)
  {
    forall i, j | 0 <= i < j < |configured| :: configured[i] != configured[j]
  }

  lemma {:induction false} SetSize(configured: seq<nat>)
    ensures |CpuSet(configured)| <= |configured|
    ensures |CpuSet(configured)| == |configured| <==> NoRepeats(configured)
  {
    if configured != [] {
      var n := |configured| - 1;
      var before, last := configured[..n], configured[n];
      SetSize(before);
      assert CpuSet(configured) == CpuSet(before) + {last};
      if last in before {
        assert CpuSet(configured) == CpuSet(before);
      }
    }
  }

  /** Every context belongs to a CPU, so that `vcontext_to_pcontext` stays within the CPU list, if and only if the
      configuration lists no CPU twice, which nothing checks. */
  lemma ContextsExact(configured: seq<nat>)
    ensures NoRepeats(configured) <==> NumContexts(configured) == 2 * |CpuSet(configured)|
    ensures NoRepeats(configured) <==> forall c: nat | c < NumContexts(configured) :: c / 2 < |CpuSet(configured)|
  {
    SetSize(configured);
    if !NoRepeats(configured) {
      var c := 2 * |CpuSet(configured)|;
      assert c < NumContexts(configured) && c / 2 == |CpuSet(configured)|;
    }
  }

  predicate SMode(p: Plic, c: nat)
  {
    c < |p.threshold| && c % 2 == 1
  }

  // The next-pending search.

  predicate Deliverable(p: Plic, c: nat, irq: nat)
    requires PlicOk(p) && c < |p.threshold| && irq < |p.priority|
  {
    p.pending[irq] && !p.active[irq] && p.enable[c][irq]
  }

  datatype Best = Best(prio: nat, irq: nat)

  /** `max_prio` and `next_irq` after the search loop has looked at the interrupts below `k`. */
  function Scan(p: Plic, c: nat, k: nat): (b: Best)
    requires PlicOk(p) && c < |p.threshold| && 1 <= k <= |p.priority|
    ensures b.irq < k && (b.irq == 0 <==> b.prio == 0)
    ensures b.irq > 0 ==> Deliverable(p, c, b.irq) && p.priority[b.irq] == b.prio
    ensures forall i | 1 <= i < k && Deliverable(p, c, i) :: p.priority[i] <= b.prio
    ensures forall i | 1 <= i < b.irq && Deliverable(p, c, i) :: p.priority[i] < b.prio
  {
    if k == 1 then Best(0, 0)
    else
      var b := Scan(p, c, k - 1);
      if Deliverable(p, c, k - 1) && p.priority[k - 1] > b.prio then Best(p.priority[k - 1], k - 1) else b
  }

  function NextPending(p: Plic, c: nat): nat
    requires PlicOk(p) && c < |p.threshold|
  {
    var b := Scan(p, c, |p.priority|);
    if b.prio > p.threshold[c] then b.irq else 0
  }

  /** An interrupt that would be offered to context `c`. */
  predicate Candidate(p: Plic, c: nat, irq: nat)
    requires PlicOk(p) && c < |p.threshold|
  {
    1 <= irq < |p.priority| && Deliverable(p, c, irq) && p.priority[irq] > p.threshold[c]
  }

  /** The search returns the lowest-numbered candidate of greatest priority, or 0 when there is no candidate. */
  lemma NextPendingIsBest(p: Plic, c: nat)
    requires PlicOk(p) && c < |p.threshold|
    ensures NextPending(p, c) == 0 <==> forall irq: nat :: !Candidate(p, c, irq)
    ensures var n := NextPending(p, c);
      n != 0 ==>
        && Candidate(p, c, n)
        && (forall irq: nat | Candidate(p, c, irq) :: p.priority[irq] <= p.priority[n])
        && (forall irq: nat | Candidate(p, c, irq) && p.priority[irq] == p.priority[n] :: n <= irq)
  {
    var b := Scan(p, c, |p.priority|);
    if b.prio > p.threshold[c] {
      assert Candidate(p, c, b.irq);
    }
  }

  // Line updates.

  /** The CPU behind a context: `vcontext_to_pcontext(c) / 2`. */
  function TargetCpu(s: Sys, c: nat): nat
    requires SysOk(s) && c < |s.plic.threshold|
  {
    s.cpus[c / 2]
  }

  /** `vplic_update_hart_line`, executed on `cpu`: the line is set or cleared if the context is this CPU's own; another
      CPU is sent an event. */
  function UpdateLine(s: Sys, cpu: nat, c: nat): (s': Sys)
    requires SysOk(s) && c < |s.plic.threshold|
    ensures SysOk(s') && s'.plic == s.plic && s'.cpus == s.cpus
  {
    var t := TargetCpu(s, c);
    if t == cpu then s.(vseip := s.vseip[t := NextPending(s.plic, c) != 0])
    else s.(events := s.events[t := s.events[t] + [UPDATE_HART_LINE]])
  }

  /** The loop over the S-mode contexts from `c` on that have `irq` enabled (and, for an injection, a threshold below
      its priority). */
  function Refresh(s: Sys, cpu: nat, irq: nat, aboveThreshold: bool, c: nat): (s': Sys)
    requires SysOk(s) && irq < |s.plic.priority| && c <= |s.plic.threshold|
    ensures SysOk(s') && s'.plic == s.plic && s'.cpus == s.cpus
    decreases |s.plic.threshold| - c
  {
    if c == |s.plic.threshold| then s
    else Refresh(RefreshOne(s, cpu, irq, aboveThreshold, c), cpu, irq, aboveThreshold, c + 1)
  }

  function RefreshOne(s: Sys, cpu: nat, irq: nat, aboveThreshold: bool, c: nat): (s': Sys)
    requires SysOk(s) && irq < |s.plic.priority| && c < |s.plic.threshold|
    ensures SysOk(s') && s'.plic == s.plic && s'.cpus == s.cpus
  {
    if Refreshed(s.plic, irq, aboveThreshold, c) then UpdateLine(s, cpu, c) else s
  }

  predicate Refreshed(p: Plic, irq: nat, aboveThreshold: bool, c: nat)
    requires PlicOk(p) && irq < |p.priority| && c < |p.threshold|
  {
    c % 2 == 1 && p.enable[c][irq] && (aboveThreshold ==> p.priority[irq] > p.threshold[c])
  }

  // Operations.

  datatype Reply = Reply(sys: Sys, value: nat) | PlicPanic

  function WithPlic(s: Sys, p: Plic): Sys
  {
    s.(plic := p)
  }

  function SetPending(p: Plic, irq: nat, b: bool): Plic
    requires irq < |p.pending|
  {
    p.(pending := p.pending[irq := b])
  }

  function SetActive(p: Plic, irq: nat, b: bool): Plic
    requires irq < |p.active|
  {
    p.(active := p.active[irq := b])
  }

  function SetEnable(p: Plic, c: nat, irq: nat, b: bool): Plic
    requires c < |p.enable| && irq < |p.enable[c]|
  {
    p.(enable := p.enable[c := p.enable[c][irq := b]])
  }

  /** `inject_irq`.  Bit-vector indexing panics on an unknown interrupt or, for a hardware interrupt, on an unknown
      context. */
  function Inject(s: Sys, cpu: nat, c: nat, irq: nat, hw: bool): (r: Reply)
    requires SysOk(s)
    ensures r.Reply? ==> SysOk(r.sys)
  {
    if irq >= |s.plic.priority| then PlicPanic
    else if hw != s.plic.hw[irq] || s.plic.pending[irq] then Reply(s, 0)
    else
      var s1 := WithPlic(s, SetPending(s.plic, irq, true));
      if s.plic.hw[irq] then
        if c < |s.plic.threshold| then Reply(UpdateLine(s1, cpu, c), 0) else PlicPanic
      else Reply(Refresh(s1, cpu, irq, true, 0), 0)
  }

  function WritePriority(s: Sys, cpu: nat, irq: nat, value: nat): (s': Sys)
    requires SysOk(s) && irq < |s.plic.priority|
    ensures SysOk(s')
  {
    var s1 := WithPlic(s, s.plic.(priority := s.plic.priority[irq := value]));
    if s.plic.hw[irq] then s1 else Refresh(s1, cpu, irq, false, 0)
  }

  /** Bit `k` of a register value. */
  predicate Bit(value: nat, k: nat)
  {
    if k == 0 then value % 2 == 1 else Bit(value / 2, k - 1)
  }

  /** One round of the enable-word loop: the line is updated only if a software interrupt's bit changes. */
  function EnableOne(s: Sys, cpu: nat, c: nat, irq: nat, on: bool): (s': Sys)
    requires SysOk(s) && c < |s.plic.threshold| && irq < |s.plic.priority|
    ensures SysOk(s') && s'.cpus == s.cpus && s'.plic == SetEnable(s.plic, c, irq, on)
  {
    if s.plic.enable[c][irq] == on then
      assert s.plic.enable[c][irq := on] == s.plic.enable[c];
      assert s.plic.enable[c := s.plic.enable[c]] == s.plic.enable;
      s
    else
      var s1 := WithPlic(s, SetEnable(s.plic, c, irq, on));
      if s.plic.hw[irq] then s1 else UpdateLine(s1, cpu, c)
  }

  /** The enable-word loop for interrupts `irq .. end`, where bit 0 of the word is interrupt `start`. */
  function WriteEnable(s: Sys, cpu: nat, c: nat, value: nat, start: nat, irq: nat, end: nat): (s': Sys)
    requires SysOk(s) && c < |s.plic.threshold| && start <= irq && end <= |s.plic.priority|
    ensures SysOk(s') && s'.cpus == s.cpus
    ensures s'.plic == s.plic.(enable := s'.plic.enable)
    decreases end - irq
  {
    if irq >= end then s
    else WriteEnable(EnableOne(s, cpu, c, irq, Bit(value, irq - start)), cpu, c, value, start, irq + 1, end)
  }

  function WriteThreshold(s: Sys, cpu: nat, c: nat, value: nat): (s': Sys)
    requires SysOk(s) && c < |s.plic.threshold|
    ensures SysOk(s')
  {
    UpdateLine(WithPlic(s, s.plic.(threshold := s.plic.threshold[c := value])), cpu, c)
  }

  function Complete(s: Sys, cpu: nat, c: nat, irq: nat): (r: Reply)
    requires SysOk(s) && c < |s.plic.threshold|
    ensures r.Reply? ==> SysOk(r.sys)
  {
    if irq >= |s.plic.priority| then PlicPanic
    else Reply(UpdateLine(WithPlic(s, SetActive(s.plic, irq, false)), cpu, c), 0)
  }

  /** A claim of 0 still clears pending bit 0 and sets active bit 0. */
  function Claim(s: Sys, cpu: nat, c: nat): (r: Reply)
    requires SysOk(s) && c < |s.plic.threshold|
    ensures r.Reply? && SysOk(r.sys)
  {
    var n := NextPending(s.plic, c);
    Reply(UpdateLine(WithPlic(s, SetActive(SetPending(s.plic, n, false), n, true)), cpu, c), n)
  }

  /** The bits `irq .. end` of a bit vector as a word whose bit 0 is `irq`. */
  function Word(bits: seq<bool>, irq: nat, end: nat): nat
    requires end <= |bits|
    decreases end - irq
  {
    if irq >= end then 0 else (if bits[irq] then 1 else 0) + 2 * Word(bits, irq + 1, end)
  }

  /** A register word shows exactly the bits of its interrupts. */
  lemma {:induction false} WordShowsBits(bits: seq<bool>, irq: nat, end: nat, k: nat)
    requires end <= |bits|
    ensures Bit(Word(bits, irq, end), k) <==> irq + k < end && bits[irq + k]
    decreases k
  {
    if irq < end {
      var w := Word(bits, irq, end);
      assert w / 2 == Word(bits, irq + 1, end);
      if k > 0 {
        WordShowsBits(bits, irq + 1, end, k - 1);
      }
    } else {
      NoBits(k);
    }
  }

  lemma {:induction false} NoBits(k: nat)
    ensures !Bit(0, k)
  {
    if k > 0 {
      NoBits(k - 1);
    }
  }

  function Min(a: nat, b: nat): nat
  {
    if a < b then a else b
  }

  /** The interrupts of a 32-bit register word end here. */
  function WordEnd(p: Plic, start: nat): nat
  {
    Min(start + 32, |p.priority|)
  }

  function PriorityAccess(s: Sys, cpu: nat, irq: nat, value: nat, isWrite: bool): (r: Reply)
    requires SysOk(s)
    ensures r.Reply? && SysOk(r.sys)
  {
    if irq >= |s.plic.priority| || irq == 0 then Reply(s, 0)
    else if isWrite then Reply(WritePriority(s, cpu, irq, value), 0)
    else Reply(s, s.plic.priority[irq])
  }

  function PendingAccess(s: Sys, word: nat, isWrite: bool): (r: Reply)
    requires SysOk(s)
    ensures r.Reply? && r.sys == s
  {
    if isWrite then Reply(s, 0) else Reply(s, Word(s.plic.pending, word * 32, WordEnd(s.plic, word * 32)))
  }

  function EnableAccess(s: Sys, cpu: nat, c: nat, word: nat, value: nat, isWrite: bool): (r: Reply)
    requires SysOk(s)
    ensures r.Reply? && SysOk(r.sys)
  {
    if !SMode(s.plic, c) then Reply(s, 0)
    else if isWrite then
      Reply(WriteEnable(s, cpu, c, value, word * 32, word * 32, WordEnd(s.plic, word * 32)), 0)
    else Reply(s, Word(s.plic.enable[c], word * 32, WordEnd(s.plic, word * 32)))
  }

  function ThresholdAccess(s: Sys, cpu: nat, c: nat, value: nat, isWrite: bool): (r: Reply)
    requires SysOk(s)
    ensures r.Reply? && SysOk(r.sys)
  {
    if !SMode(s.plic, c) then Reply(s, 0)
    else if isWrite then Reply(WriteThreshold(s, cpu, c, value), 0)
    else Reply(s, s.plic.threshold[c])
  }

  function ClaimCompleteAccess(s: Sys, cpu: nat, c: nat, value: nat, isWrite: bool): (r: Reply)
    requires SysOk(s)
    ensures r.Reply? ==> SysOk(r.sys)
  {
    if !SMode(s.plic, c) then Reply(s, 0)
    else if isWrite then Complete(s, cpu, c, value)
    else Claim(s, cpu, c)
  }

  /** What an MMIO access addresses.  The arms are tried in this order, so the enable window takes precedence over the
      threshold and claim registers where they would meet. */
  datatype Register =
    | NoRegister
    | PriorityReg(irq: nat)
    | PendingReg(word: nat)
    | EnableReg(context: nat, word: nat)
    | ThresholdReg(context: nat)
    | ClaimReg(context: nat)

  function Decode(p: Plic, offset: nat, size: nat, value: nat): Register
  {
    if size != 4 || offset % 4 != 0 || value > 0xffff_ffff then NoRegister
    else if offset <= 0x0ffc then PriorityReg(offset / 4)
    else if 0x1000 <= offset <= 0x107c then PendingReg((offset - 0x1000) / 4)
    else if 0x2000 <= offset < 0x2000 + 0x80 * |p.threshold| then
      EnableReg((offset - 0x2000) / 0x80, (offset - 0x2000) % 0x80 / 4)
    else if offset >= 0x20_0000 && (offset - 0x20_0000) % 0x1000 == 0 then ThresholdReg((offset - 0x20_0000) / 0x1000)
    else if offset >= 0x20_0004 && (offset - 0x20_0004) % 0x1000 == 0 then ClaimReg((offset - 0x20_0004) / 0x1000)
    else NoRegister
  }

  /** `vplic_emul_access`. */
  function Access(s: Sys, cpu: nat, offset: nat, size: nat, value: nat, isWrite: bool): (r: Reply)
    requires SysOk(s)
    ensures r.Reply? ==> SysOk(r.sys)
  {
    match Decode(s.plic, offset, size, value)
    case NoRegister => Reply(s, 0)
    case PriorityReg(irq) => PriorityAccess(s, cpu, irq, value, isWrite)
    case PendingReg(word) => PendingAccess(s, word, isWrite)
    case EnableReg(c, word) => EnableAccess(s, cpu, c, word, value, isWrite)
    case ThresholdReg(c) => ThresholdAccess(s, cpu, c, value, isWrite)
    case ClaimReg(c) => ClaimCompleteAccess(s, cpu, c, value, isWrite)
  }

  /** `pcontext_to_vcontext` for a CPU: twice its position in the zone's CPU set, plus one (position 0 if absent). */
  function OwnContext(cpus: seq<nat>, cpu: nat): (c: nat)
    ensures c % 2 == 1
    ensures |cpus| > 0 ==> c / 2 < |cpus|
    ensures cpu in cpus ==> cpus[c / 2] == cpu
  {
    2 * Position(cpus, cpu, 0) + 1
  }

  function Position(cpus: seq<nat>, cpu: nat, i: nat): (k: nat)
    requires i <= |cpus|
    ensures |cpus| > 0 ==> k < |cpus|
    ensures cpu in cpus[i..] ==> cpus[k] == cpu
    decreases |cpus| - i
  {
    if i == |cpus| then 0 else if cpus[i] == cpu then i else Position(cpus, cpu, i + 1)
  }

  /** `fetch_event` on a CPU of the zone: under the lock of its queue it takes one event. */
  function Fetch(s: Sys, cpu: nat): (s': Sys)
    requires SysOk(s) && cpu in s.cpus
    ensures SysOk(s') && s'.plic == s.plic && s'.cpus == s.cpus
  {
    if s.events[cpu] == [] then s
    else
      s.(events := s.events[cpu := s.events[cpu][1..]],
         handling := if s.events[cpu][0] == UPDATE_HART_LINE then s.handling + {cpu} else s.handling)
  }

  /** `update_hart_line` on a CPU that has taken an UPDATE_HART_LINE event: later, under the lock of the vPLIC, it
      updates its own line. */
  function Handle(s: Sys, cpu: nat): (s': Sys)
    requires SysOk(s) && cpu in s.cpus
    ensures SysOk(s') && s'.plic == s.plic && s'.cpus == s.cpus
  {
    UpdateLine(s.(handling := s.handling - {cpu}), cpu, OwnContext(s.cpus, cpu))
  }

  // Steps of the machine.

  datatype Action =
    | InjectAt(cpu: nat, context: nat, irq: nat, hw: bool)
    | AccessBy(cpu: nat, offset: nat, size: nat, value: nat, isWrite: bool)
    | FetchOn(cpu: nat)
    | HandleOn(cpu: nat)
    | Queue(cpu: nat, event: nat)

  /** Actions of the zone's CPUs, and events that others queue for them.  A CPU between `fetch_event` and
      `update_hart_line` does nothing else. */
  predicate Possible(s: Sys, a: Action)
  {
    && a.cpu in s.cpus
    && (a.HandleOn? ==> a.cpu in s.handling)
    && (a.InjectAt? || a.AccessBy? || a.FetchOn? ==> a.cpu !in s.handling)
  }

  /** An operation of the vPLIC runs under its lock; a SHUTDOWN event empties the queue. */
  function Step(s: Sys, a: Action): (r: Reply)
    requires SysOk(s) && Possible(s, a)
    ensures r.Reply? ==> SysOk(r.sys)
  {
    match a
    case InjectAt(cpu, c, irq, hw) => Inject(s, cpu, c, irq, hw)
    case AccessBy(cpu, offset, size, value, isWrite) => Access(s, cpu, offset, size, value, isWrite)
    case FetchOn(cpu) => Reply(Fetch(s, cpu), 0)
    case HandleOn(cpu) => Reply(Handle(s, cpu), 0)
    case Queue(cpu, event) =>
      Reply(s.(events := s.events[cpu := (if event == SHUTDOWN then [] else s.events[cpu]) + [event]]), 0)
  }

  /** The rest of the write loop of an enable register: from `irq` on, in state `s`, towards `result`. */
  datatype LoopState = LoopState(s: Sys, cpu: nat, c: nat, value: nat, start: nat, irq: nat, end: nat, result: Sys)

  predicate InLoop(l: LoopState)
  {
    SysOk(l.s) && l.c < |l.s.plic.threshold| && l.start <= l.irq && l.end <= |l.s.plic.priority|
  }

  type EnableLoop = l: LoopState |
    InLoop(l) ==> WriteEnable(l.s, l.cpu, l.c, l.value, l.start, l.irq, l.end) == l.result
    ghost witness LoopState(Sys(Plic([], [], [], [], [], []), [], map[], map[], {}), 0, 0, 0, 0, 0, 0,
                            Sys(Plic([], [], [], [], [], []), [], map[], map[], {}))

  ghost function StartLoop(s: Sys, cpu: nat, c: nat, value: nat, start: nat, end: nat): (l: EnableLoop)
    requires SysOk(s) && c < |s.plic.threshold| && end <= |s.plic.priority|
    ensures l == LoopState(s, cpu, c, value, start, start, end, WriteEnable(s, cpu, c, value, start, start, end))
  {
    LoopState(s, cpu, c, value, start, start, end, WriteEnable(s, cpu, c, value, start, start, end))
  }

  ghost function NextRound(l: EnableLoop, t: Sys): EnableLoop
    requires InLoop(l) && l.irq < l.end && t == EnableOne(l.s, l.cpu, l.c, l.irq, Bit(l.value, l.irq - l.start))
  {
    l.(s := t, irq := l.irq + 1)
  }

  lemma LoopEnds(l: EnableLoop)
    requires InLoop(l) && l.irq >= l.end
    ensures l.result == l.s
  {
  }

  // The queues have locks of their own, so another CPU can take an event while an operation is under way.

  /** Taking an event before the line update of another CPU is as good as taking it afterwards. */
  lemma FetchPastUpdate(s: Sys, cpu: nat, c: nat, t: nat)
    requires SysOk(s) && c < |s.plic.threshold| && t in s.cpus && t != cpu && s.events[t] != []
    ensures UpdateLine(Fetch(s, t), cpu, c) == Fetch(UpdateLine(s, cpu, c), t)
    ensures UpdateLine(s, cpu, c).events[t] != []
  {
    var x := TargetCpu(s, c);
    if x != cpu && x == t {
      var q := s.events[t];
      assert (q + [UPDATE_HART_LINE])[1..] == q[1..] + [UPDATE_HART_LINE];
    }
  }

  /** CPU `t` has taken an event in `f` that it has not yet taken in `s`. */
  ghost predicate Ahead(s: Sys, f: Sys, t: nat)
  {
    SysOk(s) && t in s.cpus && s.events[t] != [] && f == Fetch(s, t)
  }

  lemma OneAhead(s: Sys, f: Sys, cpu: nat, irq: nat, above: bool, c: nat, t: nat)
    requires Ahead(s, f, t) && t != cpu && irq < |s.plic.priority| && c < |s.plic.threshold|
    ensures Ahead(RefreshOne(s, cpu, irq, above, c), RefreshOne(f, cpu, irq, above, c), t)
  {
    FetchPastUpdate(s, cpu, c, t);
  }

  /** An event that another CPU takes between two updates of a refresh loop: as if it were taken after the loop. */
  lemma {:induction false} RefreshAhead(s: Sys, f: Sys, cpu: nat, irq: nat, above: bool, c: nat, t: nat)
    requires Ahead(s, f, t) && t != cpu && irq < |s.plic.priority| && c <= |s.plic.threshold|
    ensures Refresh(f, cpu, irq, above, c) == Fetch(Refresh(s, cpu, irq, above, c), t)
    decreases |s.plic.threshold| - c
  {
    if c < |s.plic.threshold| {
      OneAhead(s, f, cpu, irq, above, c, t);
      RefreshAhead(RefreshOne(s, cpu, irq, above, c), RefreshOne(f, cpu, irq, above, c), cpu, irq, above, c + 1, t);
    }
  }

  lemma EnableAhead(s: Sys, f: Sys, cpu: nat, c: nat, irq: nat, on: bool, t: nat)
    requires Ahead(s, f, t) && t != cpu && irq < |s.plic.priority| && c < |s.plic.threshold|
    ensures Ahead(EnableOne(s, cpu, c, irq, on), EnableOne(f, cpu, c, irq, on), t)
  {
    if s.plic.enable[c][irq] != on && !s.plic.hw[irq] {
      FetchPastUpdate(WithPlic(s, SetEnable(s.plic, c, irq, on)), cpu, c, t);
    }
  }

  /** The same between two rounds of an enable write: `l` and `f` are the rest of the loop in both states. */
  lemma {:induction false} WriteAhead(l: EnableLoop, f: EnableLoop, t: nat)
    requires InLoop(l) && Ahead(l.s, f.s, t) && t != l.cpu
    requires f == l.(s := f.s, result := f.result)
    ensures f.result == Fetch(l.result, t)
    decreases l.end - l.irq
  {
    if l.irq < l.end {
      var on := Bit(l.value, l.irq - l.start);
      EnableAhead(l.s, f.s, l.cpu, l.c, l.irq, on, t);
      WriteAhead(NextRound(l, EnableOne(l.s, l.cpu, l.c, l.irq, on)),
                 NextRound(f, EnableOne(f.s, f.cpu, f.c, f.irq, on)), t);
    } else {
      LoopEnds(l);
      LoopEnds(f);
    }
  }

  /** A run: from each state the action leads to the next one without a panic. */
  ghost predicate IsRun(states: seq<Sys>, actions: seq<Action>)
  {
    && |states| == |actions| + 1
    && (forall i | 0 <= i < |states| :: SysOk(states[i]))
    && (forall i | 0 <= i < |actions| ::
          Possible(states[i], actions[i]) && Step(states[i], actions[i]).Reply?
          && Step(states[i], actions[i]).sys == states[i + 1])
  }
}
