/** What the virtual PLIC (src/device/irqchip/plic/vplic.rs) and the reset of a zone (src/device/irqchip/plic/mod.rs)
    write to the host PLIC through src/device/irqchip/plic/plic.rs: priorities, enables, thresholds and completions of
    the zone's hardware interrupts.  `set_enable_num` sets bits and clears none, so the host PLIC keeps every enable
    that the guest has ever made. */
module PlicHost {
  import opened PlicSpec
  import opened PlicWakeup
  import opened PlicRuns
  import PlicLost

  /** The registers of the host PLIC.  `enabled` holds pairs of context and interrupt, `completed` the completions in
      order; a register that is not in a map is 0. */
  datatype Host = Host(
    priority: map<nat, nat>,
    enabled: set<(nat, nat)>,
    threshold: map<nat, nat>,
    completed: seq<(nat, nat)>)

  function Reg(m: map<nat, nat>, k: nat): nat
  {
    if k in m then m[k] else 0
  }

  /** `vcontext_to_pcontext` of an S-mode context. */
  function HostContext(s: Sys, c: nat): nat
    requires SysOk(s) && c < |s.plic.threshold|
  {
    2 * TargetCpu(s, c) + 1
  }

  /** `Plic::set_enable_num`: the new value is or-ed into the register. */
  function SetEnableNum(h: Host, x: nat, irq: nat, on: bool): Host
  {
    h.(enabled := h.enabled + if on then {(x, irq)} else {})
  }

  function HostEnableOne(h: Host, s: Sys, c: nat, irq: nat, on: bool): Host
    requires SysOk(s) && c < |s.plic.threshold| && irq < |s.plic.priority|
  {
    if s.plic.enable[c][irq] == on || !s.plic.hw[irq] then h else SetEnableNum(h, HostContext(s, c), irq, on)
  }

  /** The enable-word loop on the host side; `s` is the state before the loop, which changes each bit once. */
  function HostWriteEnable(h: Host, s: Sys, c: nat, value: nat, start: nat, irq: nat, end: nat): Host
    requires SysOk(s) && c < |s.plic.threshold| && start <= irq && end <= |s.plic.priority|
    decreases end - irq
  {
    if irq >= end then h
    else HostWriteEnable(HostEnableOne(h, s, c, irq, Bit(value, irq - start)), s, c, value, start, irq + 1, end)
  }

  /** The rest of the loop: from `irq` on, with the host PLIC `h`, towards `result`. */
  datatype HostLoopState =
    HostLoopState(h: Host, s: Sys, c: nat, value: nat, start: nat, irq: nat, end: nat, result: Host)

  predicate InHostLoop(l: HostLoopState)
  {
    SysOk(l.s) && l.c < |l.s.plic.threshold| && l.start <= l.irq && l.end <= |l.s.plic.priority|
  }

  type HostLoop = l: HostLoopState |
    InHostLoop(l) ==> HostWriteEnable(l.h, l.s, l.c, l.value, l.start, l.irq, l.end) == l.result
    ghost witness HostLoopState(Host(map[], {}, map[], []), Sys(Plic([], [], [], [], [], []), [], map[], map[], {}),
                                0, 0, 0, 0, 0, Host(map[], {}, map[], []))

  lemma StartHostLoop(h: Host, s: Sys, c: nat, value: nat, start: nat, end: nat) returns (l: HostLoop)
    requires SysOk(s) && c < |s.plic.threshold| && end <= |s.plic.priority|
    ensures l == HostLoopState(h, s, c, value, start, start, end, HostWriteEnable(h, s, c, value, start, start, end))
  {
    l := HostLoopState(h, s, c, value, start, start, end, HostWriteEnable(h, s, c, value, start, start, end));
  }

  /** The bits of later rounds are as they were before the loop. */
  ghost predicate NotYet(s: Sys, t: Sys, c: nat, irq: nat)
    requires SysOk(s) && c < |s.plic.threshold|
  {
    && SysOk(t) && t.cpus == s.cpus && t.plic == s.plic.(enable := t.plic.enable)
    && forall i | irq <= i < |s.plic.priority| :: t.plic.enable[c][i] == s.plic.enable[c][i]
  }

  /** One round, in which the vPLIC goes from `t` to `t'`. */
  lemma NextHostRound(l: HostLoop, t: Sys, cpu: nat, t': Sys, h': Host) returns (l': HostLoop)
    requires InHostLoop(l) && l.irq < l.end && NotYet(l.s, t, l.c, l.irq)
    requires var on := Bit(l.value, l.irq - l.start);
             t' == EnableOne(t, cpu, l.c, l.irq, on) && h' == HostEnableOne(l.h, t, l.c, l.irq, on)
    ensures l' == l.(h := h', irq := l.irq + 1) && InHostLoop(l') && NotYet(l.s, t', l.c, l.irq + 1)
  {
    l' := l.(h := h', irq := l.irq + 1);
  }

  /** A round on both sides. */
  lemma BothRounds(l: EnableLoop, m: HostLoop, on: bool, t': Sys, h': Host) returns (l': EnableLoop, m': HostLoop)
    requires m == HostLoopState(m.h, m.s, l.c, l.value, l.start, l.irq, l.end, m.result)
    requires InLoop(l) && InHostLoop(m) && l.irq < l.end && NotYet(m.s, l.s, l.c, l.irq)
    requires on == Bit(l.value, l.irq - l.start)
    requires t' == EnableOne(l.s, l.cpu, l.c, l.irq, on) && h' == HostEnableOne(m.h, l.s, l.c, l.irq, on)
    ensures l' == l.(s := t', irq := l.irq + 1) && m' == m.(h := h', irq := l.irq + 1)
    ensures InHostLoop(m') && NotYet(m.s, t', l.c, l.irq + 1)
  {
    m' := NextHostRound(m, l.s, l.cpu, t', h');
    l' := NextRound(l, t');
  }

  lemma HostLoopEnds(l: HostLoop)
    requires InHostLoop(l) && l.irq >= l.end
    ensures l.result == l.h
  {
  }

  function HostPriority(h: Host, s: Sys, irq: nat, value: nat, isWrite: bool): Host
    requires SysOk(s)
  {
    if isWrite && 0 < irq < |s.plic.priority| && s.plic.hw[irq] then h.(priority := h.priority[irq := value]) else h
  }

  function HostEnable(h: Host, s: Sys, c: nat, word: nat, value: nat, isWrite: bool): Host
    requires SysOk(s)
  {
    if isWrite && SMode(s.plic, c) then
      HostWriteEnable(h, s, c, value, word * 32, word * 32, WordEnd(s.plic, word * 32))
    else h
  }

  function HostThreshold(h: Host, s: Sys, c: nat, value: nat, isWrite: bool): Host
    requires SysOk(s)
  {
    if isWrite && SMode(s.plic, c) then h.(threshold := h.threshold[HostContext(s, c) := value]) else h
  }

  function HostComplete(h: Host, s: Sys, c: nat, value: nat, isWrite: bool): Host
    requires SysOk(s)
  {
    if isWrite && SMode(s.plic, c) && value < |s.plic.priority| && s.plic.hw[value]
    then h.(completed := h.completed + [(HostContext(s, c), value)])
    else h
  }

  /** What `vplic_emul_access` writes to the host PLIC, when the vPLIC is in state `s` before. */
  function HostAccess(h: Host, s: Sys, offset: nat, size: nat, value: nat, isWrite: bool): Host
    requires SysOk(s)
  {
    match Decode(s.plic, offset, size, value)
    case PriorityReg(irq) => HostPriority(h, s, irq, value, isWrite)
    case EnableReg(c, word) => HostEnable(h, s, c, word, value, isWrite)
    case ThresholdReg(c) => HostThreshold(h, s, c, value, isWrite)
    case ClaimReg(c) => HostComplete(h, s, c, value, isWrite)
    case _ => h
  }

  function HostStep(h: Host, s: Sys, a: Action): Host
    requires SysOk(s)
  {
    if a.AccessBy? then HostAccess(h, s, a.offset, a.size, a.value, a.isWrite) else h
  }

  /** Priorities and thresholds are those of the virtual PLIC, and whatever is enabled there is enabled. */
  ghost predicate Serves(h: Host, s: Sys)
  {
    && SysOk(s)
    && (forall irq: nat | 0 < irq < |s.plic.priority| && s.plic.hw[irq] :: Reg(h.priority, irq) == s.plic.priority[irq])
    && (forall c: nat, irq: nat | OwnHardware(s, c, irq) && s.plic.enable[c][irq] ::
          (HostContext(s, c), irq) in h.enabled)
    && (forall c: nat | SMode(s.plic, c) :: Reg(h.threshold, HostContext(s, c)) == s.plic.threshold[c])
  }

  /** A hardware interrupt of the zone, seen from a context of one of its CPUs. */
  predicate OwnHardware(s: Sys, c: nat, irq: nat)
    requires SysOk(s)
  {
    SMode(s.plic, c) && irq < |s.plic.priority| && s.plic.hw[irq]
  }

  /** The host PLIC treats the zone's hardware interrupts as the guest has asked the virtual one to. */
  ghost predicate Mirrors(h: Host, s: Sys)
  {
    && Serves(h, s)
    && (forall c: nat, irq: nat | OwnHardware(s, c, irq) ::
          (HostContext(s, c), irq) in h.enabled <==> s.plic.enable[c][irq])
  }

  /** The loop adds exactly the newly set bits of the word's hardware interrupts, and clears none. */
  lemma {:induction false} WriteEnableBits(h: Host, s: Sys, c: nat, value: nat, start: nat, irq: nat, end: nat, x: nat,
                                           i: nat)
    requires SysOk(s) && SMode(s.plic, c) && start <= irq && end <= |s.plic.priority|
    ensures var h' := HostWriteEnable(h, s, c, value, start, irq, end);
            && h' == h.(enabled := h'.enabled)
            && ((x, i) in h'.enabled <==>
                || (x, i) in h.enabled
                || (x == HostContext(s, c) && irq <= i < end && s.plic.hw[i] && !s.plic.enable[c][i]
                    && Bit(value, i - start)))
    decreases end - irq
  {
    if irq < end {
      var h1 := HostEnableOne(h, s, c, irq, Bit(value, irq - start));
      WriteEnableBits(h1, s, c, value, start, irq + 1, end, x, i);
    }
  }

  /** And the vPLIC's own bits of the word follow the written value. */
  lemma {:induction false} OwnBits(s: Sys, cpu: nat, c: nat, value: nat, start: nat, irq: nat, end: nat, x: nat, i: nat)
    requires SysOk(s) && c < |s.plic.threshold| && start <= irq && end <= |s.plic.priority|
    requires x < |s.plic.threshold| && i < |s.plic.priority|
    ensures var s' := WriteEnable(s, cpu, c, value, start, irq, end);
            s'.plic.enable[x][i] == if x == c && irq <= i < end then Bit(value, i - start) else s.plic.enable[x][i]
    decreases end - irq
  {
    if irq < end {
      OwnBits(EnableOne(s, cpu, c, irq, Bit(value, irq - start)), cpu, c, value, start, irq + 1, end, x, i);
    }
  }

  /** How a step changes the enables: the host PLIC has the ones it had and those that are on now. */
  ghost predicate Gathers(h: Host, s: Sys, h': Host, s': Sys)
    requires SysOk(s)
  {
    && SysOk(s') && s'.cpus == s.cpus && |s'.plic.priority| == |s.plic.priority| && s'.plic.hw == s.plic.hw
    && (forall c: nat, irq: nat | OwnHardware(s, c, irq) ::
          (HostContext(s, c), irq) in h'.enabled <==> (HostContext(s, c), irq) in h.enabled || s'.plic.enable[c][irq])
  }

  lemma BitGathers(h: Host, s: Sys, cpu: nat, c: nat, value: nat, start: nat, end: nat, x: nat, i: nat)
    requires Serves(h, s) && SMode(s.plic, c) && start <= end <= |s.plic.priority| && OwnHardware(s, x, i)
    ensures (HostContext(s, x), i) in HostWriteEnable(h, s, c, value, start, start, end).enabled <==>
            || (HostContext(s, x), i) in h.enabled
            || WriteEnable(s, cpu, c, value, start, start, end).plic.enable[x][i]
  {
    WriteEnableBits(h, s, c, value, start, start, end, HostContext(s, x), i);
    OwnBits(s, cpu, c, value, start, start, end, x, i);
    if x != c {
      ContextsApart(s, x, c);
    }
  }

  lemma EnableServes(h: Host, s: Sys, cpu: nat, c: nat, value: nat, start: nat, end: nat)
    requires Serves(h, s) && SMode(s.plic, c) && start <= end <= |s.plic.priority|
    ensures var h' := HostWriteEnable(h, s, c, value, start, start, end);
            var s' := WriteEnable(s, cpu, c, value, start, start, end);
            Serves(h', s') && Gathers(h, s, h', s')
  {
    var h', s' := HostWriteEnable(h, s, c, value, start, start, end), WriteEnable(s, cpu, c, value, start, start, end);
    WriteEnableBits(h, s, c, value, start, start, end, 0, 0);
    forall x: nat, i: nat | OwnHardware(s, x, i)
      ensures (HostContext(s, x), i) in h'.enabled <==> (HostContext(s, x), i) in h.enabled || s'.plic.enable[x][i]
    {
      BitGathers(h, s, cpu, c, value, start, end, x, i);
    }
    GatheredServes(h, s, h', s');
  }

  lemma GatheredServes(h: Host, s: Sys, h': Host, s': Sys)
    requires Serves(h, s) && h' == h.(enabled := h'.enabled) && Gathers(h, s, h', s')
    requires s'.plic == s.plic.(enable := s'.plic.enable)
    ensures Serves(h', s')
  {
    forall c: nat | SMode(s'.plic, c)
      ensures HostContext(s', c) == HostContext(s, c)
    {
    }
    forall c: nat, irq: nat | OwnHardware(s', c, irq) && s'.plic.enable[c][irq]
      ensures (HostContext(s', c), irq) in h'.enabled
    {
      assert OwnHardware(s, c, irq);
    }
  }

  lemma ThresholdServes(h: Host, s: Sys, cpu: nat, c: nat, value: nat)
    requires Serves(h, s) && SMode(s.plic, c)
    ensures Serves(HostThreshold(h, s, c, value, true), WriteThreshold(s, cpu, c, value))
  {
    var h', s1 := HostThreshold(h, s, c, value, true), WithPlic(s, s.plic.(threshold := s.plic.threshold[c := value]));
    forall x: nat | SMode(s1.plic, x)
      ensures HostContext(s1, x) == HostContext(s, x) && Reg(h'.threshold, HostContext(s1, x)) == s1.plic.threshold[x]
    {
      if x != c {
        ContextsApart(s, x, c);
      }
    }
    ServesStill(h', s1, h', UpdateLine(s1, cpu, c));
  }

  lemma PriorityServes(h: Host, s: Sys, cpu: nat, irq: nat, value: nat)
    requires Serves(h, s) && 0 < irq < |s.plic.priority|
    ensures Serves(HostPriority(h, s, irq, value, true), WritePriority(s, cpu, irq, value))
  {
    var h', s1 := HostPriority(h, s, irq, value, true), WithPlic(s, s.plic.(priority := s.plic.priority[irq := value]));
    PrioritySet(h, s, irq, value);
    ServesStill(h', s1, h', WritePriority(s, cpu, irq, value));
  }

  lemma PrioritySet(h: Host, s: Sys, irq: nat, value: nat)
    requires Serves(h, s) && 0 < irq < |s.plic.priority|
    ensures Serves(HostPriority(h, s, irq, value, true),
                   WithPlic(s, s.plic.(priority := s.plic.priority[irq := value])))
  {
    var s1 := WithPlic(s, s.plic.(priority := s.plic.priority[irq := value]));
    forall c: nat | SMode(s1.plic, c)
      ensures HostContext(s1, c) == HostContext(s, c)
    {
    }
  }

  /** Nothing mirrored differs. */
  ghost predicate SameRegs(s: Sys, s': Sys)
  {
    && SysOk(s') && s'.cpus == s.cpus
    && s'.plic == s.plic.(pending := s'.plic.pending, active := s'.plic.active)
  }

  lemma ServesStill(h: Host, s: Sys, h': Host, s': Sys)
    requires Serves(h, s) && SameRegs(s, s') && h' == h.(completed := h'.completed)
    ensures Serves(h', s')
  {
    forall c: nat | SMode(s'.plic, c)
      ensures HostContext(s', c) == HostContext(s, c)
    {
    }
  }

  /** A step that touches no enable on either side. */
  lemma NothingToGather(h: Host, s: Sys, h': Host, s': Sys)
    requires Serves(h, s) && SysOk(s') && s'.cpus == s.cpus && h'.enabled == h.enabled
    requires s'.plic.hw == s.plic.hw && s'.plic.enable == s.plic.enable
    ensures Gathers(h, s, h', s')
  {
  }

  lemma ClaimCompleteRegs(s: Sys, cpu: nat, c: nat, value: nat, isWrite: bool)
    requires SysOk(s) && ClaimCompleteAccess(s, cpu, c, value, isWrite).Reply?
    ensures SameRegs(s, ClaimCompleteAccess(s, cpu, c, value, isWrite).sys)
  {
  }

  lemma InjectRegs(s: Sys, cpu: nat, c: nat, irq: nat, hw: bool)
    requires SysOk(s) && Inject(s, cpu, c, irq, hw).Reply?
    ensures SameRegs(s, Inject(s, cpu, c, irq, hw).sys)
  {
  }

  lemma WordServes(h: Host, s: Sys, cpu: nat, c: nat, word: nat, value: nat)
    requires Serves(h, s) && SMode(s.plic, c)
    ensures var h', s' := HostEnable(h, s, c, word, value, true), EnableAccess(s, cpu, c, word, value, true).sys;
            Serves(h', s') && Gathers(h, s, h', s')
  {
    if word * 32 <= |s.plic.priority| {
      EnableServes(h, s, cpu, c, value, word * 32, WordEnd(s.plic, word * 32));
    } else {
      NothingToGather(h, s, h, s);
    }
  }

  lemma RegisterServes(h: Host, s: Sys, cpu: nat, offset: nat, size: nat, value: nat, isWrite: bool)
    requires Serves(h, s) && Access(s, cpu, offset, size, value, isWrite).Reply?
    requires !Decode(s.plic, offset, size, value).EnableReg?
    ensures var h' := HostAccess(h, s, offset, size, value, isWrite);
            var s' := Access(s, cpu, offset, size, value, isWrite).sys;
            Serves(h', s') && h'.enabled == h.enabled && SysOk(s') && s'.cpus == s.cpus &&
            s'.plic.hw == s.plic.hw && s'.plic.enable == s.plic.enable
  {
    match Decode(s.plic, offset, size, value)
    case PriorityReg(irq) =>
      if isWrite && 0 < irq < |s.plic.priority| {
        PriorityServes(h, s, cpu, irq, value);
      }
    case ThresholdReg(c) =>
      if isWrite && SMode(s.plic, c) {
        ThresholdServes(h, s, cpu, c, value);
      }
    case ClaimReg(c) =>
      ClaimCompleteRegs(s, cpu, c, value, isWrite);
      ServesStill(h, s, HostComplete(h, s, c, value, isWrite), ClaimCompleteAccess(s, cpu, c, value, isWrite).sys);
    case PendingReg(_) =>
    case NoRegister =>
  }

  lemma AccessServes(h: Host, s: Sys, cpu: nat, offset: nat, size: nat, value: nat, isWrite: bool)
    requires Serves(h, s) && Access(s, cpu, offset, size, value, isWrite).Reply?
    ensures var h' := HostAccess(h, s, offset, size, value, isWrite);
            var s' := Access(s, cpu, offset, size, value, isWrite).sys;
            Serves(h', s') && Gathers(h, s, h', s')
  {
    var reg := Decode(s.plic, offset, size, value);
    if !reg.EnableReg? {
      RegisterServes(h, s, cpu, offset, size, value, isWrite);
      NothingToGather(h, s, HostAccess(h, s, offset, size, value, isWrite),
                      Access(s, cpu, offset, size, value, isWrite).sys);
    } else if isWrite && SMode(s.plic, reg.context) {
      WordServes(h, s, cpu, reg.context, reg.word, value);
    } else {
      NothingToGather(h, s, h, s);
    }
  }

  /** In every step of every CPU priorities and thresholds stay equal, and the enables gather. */
  lemma StepServes(h: Host, s: Sys, a: Action)
    requires Serves(h, s) && Possible(s, a) && Step(s, a).Reply?
    ensures Serves(HostStep(h, s, a), Step(s, a).sys) && Gathers(h, s, HostStep(h, s, a), Step(s, a).sys)
  {
    match a
    case AccessBy(cpu, offset, size, value, isWrite) => AccessServes(h, s, cpu, offset, size, value, isWrite);
    case InjectAt(cpu, c, irq, hw) =>
      InjectRegs(s, cpu, c, irq, hw);
      ServesStill(h, s, h, Step(s, a).sys);
      NothingToGather(h, s, h, Step(s, a).sys);
    case _ =>
      ServesStill(h, s, h, Step(s, a).sys);
      NothingToGather(h, s, h, Step(s, a).sys);
  }

  // When the enables stay equal.

  /** The access is an enable word that switches a hardware interrupt off. */
  ghost predicate SwitchesOff(s: Sys, a: Action)
    requires SysOk(s)
  {
    a.AccessBy? && a.isWrite &&
    var reg := Decode(s.plic, a.offset, a.size, a.value);
    && reg.EnableReg? && SMode(s.plic, reg.context)
    && exists irq: nat :: InWord(s.plic, reg.word, irq) && s.plic.hw[irq] && s.plic.enable[reg.context][irq]
                          && !Bit(a.value, irq - reg.word * 32)
  }

  predicate InWord(p: Plic, word: nat, irq: nat)
  {
    word * 32 <= irq < WordEnd(p, word * 32)
  }

  /** Some bit of a hardware interrupt was on and is off. */
  ghost predicate TurnedOff(s: Sys, s': Sys)
    requires SysOk(s) && SysOk(s')
    requires |s'.plic.priority| == |s.plic.priority| && |s'.plic.threshold| == |s.plic.threshold|
  {
    exists c: nat, irq: nat :: OwnHardware(s, c, irq) && s.plic.enable[c][irq] && !s'.plic.enable[c][irq]
  }

  lemma WordTurnsOff(s: Sys, cpu: nat, c: nat, word: nat, value: nat)
    requires SysOk(s) && SMode(s.plic, c)
    ensures TurnedOff(s, EnableAccess(s, cpu, c, word, value, true).sys) <==>
            exists irq: nat :: InWord(s.plic, word, irq) && s.plic.hw[irq] && s.plic.enable[c][irq]
                               && !Bit(value, irq - word * 32)
  {
    var s' := EnableAccess(s, cpu, c, word, value, true).sys;
    var start, end := word * 32, WordEnd(s.plic, word * 32);
    if irq: nat :| InWord(s.plic, word, irq) && s.plic.hw[irq] && s.plic.enable[c][irq] && !Bit(value, irq - start) {
      OwnBits(s, cpu, c, value, start, start, end, c, irq);
      assert OwnHardware(s, c, irq);
    }
    if x: nat, irq: nat :| OwnHardware(s, x, irq) && s.plic.enable[x][irq] && !s'.plic.enable[x][irq] {
      OffInWord(s, cpu, c, word, value, x, irq);
    }
  }

  lemma OffInWord(s: Sys, cpu: nat, c: nat, word: nat, value: nat, x: nat, irq: nat)
    requires SysOk(s) && SMode(s.plic, c) && OwnHardware(s, x, irq) && s.plic.enable[x][irq]
    requires !EnableAccess(s, cpu, c, word, value, true).sys.plic.enable[x][irq]
    ensures x == c && InWord(s.plic, word, irq) && !Bit(value, irq - word * 32)
  {
    OwnBits(s, cpu, c, value, word * 32, word * 32, WordEnd(s.plic, word * 32), x, irq);
  }

  lemma SwitchesOffExact(s: Sys, a: Action)
    requires SysOk(s) && Possible(s, a) && Step(s, a).Reply?
    ensures SysOk(Step(s, a).sys) && |Step(s, a).sys.plic.priority| == |s.plic.priority|
    ensures |Step(s, a).sys.plic.threshold| == |s.plic.threshold|
    ensures SwitchesOff(s, a) <==> TurnedOff(s, Step(s, a).sys)
  {
    if a.AccessBy? && a.isWrite && Decode(s.plic, a.offset, a.size, a.value).EnableReg? {
      WriteTurnsOff(s, a);
    } else {
      KeepsEnables(s, a);
    }
  }

  lemma WriteTurnsOff(s: Sys, a: Action)
    requires SysOk(s) && a.AccessBy? && a.isWrite && Decode(s.plic, a.offset, a.size, a.value).EnableReg?
    requires Possible(s, a)
    ensures var reg := Decode(s.plic, a.offset, a.size, a.value);
            var r := EnableAccess(s, a.cpu, reg.context, reg.word, a.value, true);
            && Step(s, a) == r
            && |r.sys.plic.priority| == |s.plic.priority| && |r.sys.plic.threshold| == |s.plic.threshold|
            && (SwitchesOff(s, a) <==> TurnedOff(s, r.sys))
  {
    var reg := Decode(s.plic, a.offset, a.size, a.value);
    if SMode(s.plic, reg.context) {
      WordTurnsOff(s, a.cpu, reg.context, reg.word, a.value);
    }
  }

  lemma KeepsEnables(s: Sys, a: Action)
    requires SysOk(s) && Possible(s, a) && Step(s, a).Reply?
    requires !(a.AccessBy? && a.isWrite && Decode(s.plic, a.offset, a.size, a.value).EnableReg?)
    ensures var p, p' := s.plic, Step(s, a).sys.plic;
            p'.enable == p.enable && |p'.priority| == |p.priority| && |p'.threshold| == |p.threshold|
  {
    match a
    case InjectAt(cpu, c, irq, hw) => InjectRegs(s, cpu, c, irq, hw);
    case _ =>
  }

  /** A step keeps the host PLIC equal to the virtual one if and only if it does not switch a hardware interrupt off. */
  lemma StepMirrorsExact(h: Host, s: Sys, a: Action)
    requires Mirrors(h, s) && Possible(s, a) && Step(s, a).Reply?
    ensures Mirrors(HostStep(h, s, a), Step(s, a).sys) <==> !SwitchesOff(s, a)
  {
    StepServes(h, s, a);
    SwitchesOffExact(s, a);
    GatheredMirrors(h, s, HostStep(h, s, a), Step(s, a).sys);
  }

  lemma GatheredMirrors(h: Host, s: Sys, h': Host, s': Sys)
    requires Mirrors(h, s) && Serves(h', s') && Gathers(h, s, h', s')
    ensures Mirrors(h', s') <==> !TurnedOff(s, s')
  {
    forall c: nat | SMode(s.plic, c)
      ensures HostContext(s', c) == HostContext(s, c)
    {
    }
    if c: nat, irq: nat :| OwnHardware(s, c, irq) && s.plic.enable[c][irq] && !s'.plic.enable[c][irq] {
      assert OwnHardware(s', c, irq) && (HostContext(s', c), irq) in h'.enabled;
    }
    if !TurnedOff(s, s') {
      forall c: nat, irq: nat | OwnHardware(s', c, irq)
        ensures (HostContext(s', c), irq) in h'.enabled <==> s'.plic.enable[c][irq]
      {
        assert OwnHardware(s, c, irq);
      }
    }
  }

  /** The host PLIC after a run. */
  ghost function HostRun(h: Host, states: seq<Sys>, actions: seq<Action>): Host
    requires IsRun(states, actions)
    decreases |actions|
  {
    if actions == [] then h
    else
      var n := |actions| - 1;
      HostStep(HostRun(h, states[..|actions|], actions[..n]), states[n], actions[n])
  }

  /** A run without its last step. */
  lemma RunBefore(states: seq<Sys>, actions: seq<Action>)
    requires IsRun(states, actions) && actions != []
    ensures var n := |actions| - 1;
            && IsRun(states[..|actions|], actions[..n]) && states[..|actions|][n] == states[n]
            && states[..|actions|][0] == states[0]
            && SysOk(states[n]) && Possible(states[n], actions[n]) && Step(states[n], actions[n]).Reply?
            && Step(states[n], actions[n]).sys == states[|actions|]
  {
  }

  /** Priorities and thresholds are equal and the enables contained in every state of every run. */
  lemma {:induction false} RunServes(h: Host, states: seq<Sys>, actions: seq<Action>)
    requires IsRun(states, actions) && Serves(h, states[0])
    ensures Serves(HostRun(h, states, actions), states[|actions|])
    ensures SameShape(states[0], states[|actions|])
    decreases |actions|
  {
    if actions != [] {
      var n := |actions| - 1;
      RunBefore(states, actions);
      RunServes(h, states[..|actions|], actions[..n]);
      StepServes(HostRun(h, states[..|actions|], actions[..n]), states[n], actions[n]);
    }
  }

  ghost predicate SameShape(s: Sys, s': Sys)
  {
    SysOk(s) && SysOk(s') && s'.cpus == s.cpus && s'.plic.hw == s.plic.hw
  }

  /** The guest has had the interrupt enabled in the context at some point of the run. */
  ghost predicate EverOn(states: seq<Sys>, c: nat, irq: nat)
  {
    exists j :: 0 <= j < |states| && SysOk(states[j]) && OwnHardware(states[j], c, irq) && states[j].plic.enable[c][irq]
  }

  /** What is enabled in the host PLIC after a run is what was enabled before and what the guest has ever enabled. */
  lemma {:induction false} RunGathers(h: Host, states: seq<Sys>, actions: seq<Action>, c: nat, irq: nat)
    requires IsRun(states, actions) && Serves(h, states[0]) && OwnHardware(states[0], c, irq)
    ensures (HostContext(states[0], c), irq) in HostRun(h, states, actions).enabled <==>
            (HostContext(states[0], c), irq) in h.enabled || EverOn(states, c, irq)
    decreases |actions|
  {
    if actions == [] {
      assert states == [states[0]];
    } else {
      var n := |actions| - 1;
      var before := states[..|actions|];
      RunBefore(states, actions);
      RunServes(h, before, actions[..n]);
      RunGathers(h, before, actions[..n], c, irq);
      var h1 := HostRun(h, before, actions[..n]);
      StepServes(h1, states[n], actions[n]);
      GathersLast(states[0], h1, states[n], HostStep(h1, states[n], actions[n]), states[|actions|], c, irq);
      EverOnStep(states, c, irq);
    }
  }

  lemma GathersLast(s: Sys, h1: Host, t: Sys, h2: Host, t': Sys, c: nat, irq: nat)
    requires SameShape(s, t) && Gathers(h1, t, h2, t') && OwnHardware(s, c, irq)
    ensures OwnHardware(t', c, irq)
    ensures (HostContext(s, c), irq) in h2.enabled <==>
            (HostContext(s, c), irq) in h1.enabled || t'.plic.enable[c][irq]
  {
    assert OwnHardware(t, c, irq) && HostContext(t, c) == HostContext(s, c);
  }

  lemma EverOnStep(states: seq<Sys>, c: nat, irq: nat)
    requires |states| > 0 && SysOk(states[|states| - 1]) && OwnHardware(states[|states| - 1], c, irq)
    ensures EverOn(states, c, irq) <==>
            EverOn(states[..|states| - 1], c, irq) || states[|states| - 1].plic.enable[c][irq]
  {
    var before := states[..|states| - 1];
    if EverOn(before, c, irq) {
      var j :| 0 <= j < |before| && SysOk(before[j]) && OwnHardware(before[j], c, irq) && before[j].plic.enable[c][irq];
      assert states[j] == before[j];
    }
    if EverOn(states, c, irq) && !states[|states| - 1].plic.enable[c][irq] {
      var j :| 0 <= j < |states| && SysOk(states[j]) && OwnHardware(states[j], c, irq) && states[j].plic.enable[c][irq];
      assert before[j] == states[j];
    }
  }

  /** After a run the host PLIC equals the virtual one if and only if everything that was ever enabled is enabled. */
  lemma RunMirrorsExact(h: Host, states: seq<Sys>, actions: seq<Action>)
    requires IsRun(states, actions) && Mirrors(h, states[0])
    ensures SameShape(states[0], states[|actions|])
    ensures Mirrors(HostRun(h, states, actions), states[|actions|]) <==>
            forall c: nat, irq: nat | OwnHardware(states[0], c, irq) && EverOn(states, c, irq) ::
              states[|actions|].plic.enable[c][irq]
  {
    var h', s, s' := HostRun(h, states, actions), states[0], states[|actions|];
    RunServes(h, states, actions);
    forall c: nat, irq: nat | OwnHardware(s, c, irq)
      ensures HostContext(s', c) == HostContext(s, c) && OwnHardware(s', c, irq)
      ensures (HostContext(s', c), irq) in h'.enabled <==> EverOn(states, c, irq)
    {
      RunGathers(h, states, actions, c, irq);
      assert s.plic.enable[c][irq] ==> EverOn(states, c, irq);
    }
  }

  // The start and the end of a zone.

  /** Nothing is set for the zone's interrupts and contexts. */
  ghost predicate Blank(h: Host, s: Sys)
    requires SysOk(s)
  {
    && (forall irq: nat | irq < |s.plic.hw| && s.plic.hw[irq] :: Reg(h.priority, irq) == 0)
    && (forall c: nat, irq: nat | OwnHardware(s, c, irq) :: (HostContext(s, c), irq) !in h.enabled)
    && (forall c: nat | SMode(s.plic, c) :: Reg(h.threshold, HostContext(s, c)) == 0)
  }

  /** A zone with a new vPLIC, whose hardware interrupts are marked. */
  ghost predicate IsNew(s: Sys)
  {
    SysOk(s) && exists max: nat :: s.plic == NewPlic(max, 2 * |s.cpus|).(hw := s.plic.hw)
  }

  lemma NewIsBlank(s: Sys)
    requires IsNew(s)
    ensures forall irq: nat | irq < |s.plic.priority| :: s.plic.priority[irq] == 0
    ensures forall c: nat, irq: nat | SMode(s.plic, c) && irq < |s.plic.priority| :: !s.plic.enable[c][irq]
    ensures forall c: nat | SMode(s.plic, c) :: s.plic.threshold[c] == 0
  {
  }

  lemma NewMirrors(h: Host, s: Sys)
    requires IsNew(s) && Blank(h, s)
    ensures Mirrors(h, s)
  {
    NewIsBlank(s);
  }

  /** A new vPLIC starts equal to a host PLIC with nothing set for the zone, and after any run from there the host PLIC
      has enabled exactly what the guest has ever enabled. */
  lemma FromNew(h: Host, states: seq<Sys>, actions: seq<Action>, c: nat, irq: nat)
    requires IsRun(states, actions) && IsNew(states[0]) && Blank(h, states[0]) && OwnHardware(states[0], c, irq)
    ensures Mirrors(h, states[0]) && Serves(HostRun(h, states, actions), states[|actions|])
    ensures (HostContext(states[0], c), irq) in HostRun(h, states, actions).enabled <==> EverOn(states, c, irq)
  {
    NewMirrors(h, states[0]);
    RunServes(h, states, actions);
    RunGathers(h, states, actions, c, irq);
  }

  /** What `arch_irqchip_reset` leaves: priorities and thresholds are 0, but `set_enable_num` with `false` clears
      nothing. */
  ghost predicate IsReset(h: Host, s: Sys, h': Host)
    requires SysOk(s)
  {
    && (forall irq: nat ::
          Reg(h'.priority, irq) == if irq < |s.plic.hw| && s.plic.hw[irq] then 0 else Reg(h.priority, irq))
    && h'.enabled == h.enabled
    && (forall x: nat :: Reg(h'.threshold, x) == if x % 2 == 1 && x / 2 in s.cpus then 0 else Reg(h.threshold, x))
    && h'.completed == h.completed
  }

  /** A second zone with the CPUs and hardware interrupts of the first starts equal to the host PLIC if and only if the
      first never enabled one of them. */
  lemma SecondZoneExact(h: Host, states: seq<Sys>, actions: seq<Action>, h': Host, next: Sys)
    requires IsRun(states, actions) && IsNew(states[0]) && Blank(h, states[0])
    requires IsReset(HostRun(h, states, actions), states[|actions|], h')
    requires IsNew(next) && next.cpus == states[0].cpus && next.plic.hw == states[0].plic.hw
    ensures Mirrors(h', next) <==> forall c: nat, irq: nat | OwnHardware(states[0], c, irq) :: !EverOn(states, c, irq)
    ensures Serves(h', next)
  {
    var s, s' := states[0], states[|actions|];
    NewMirrors(h, s);
    NewIsBlank(next);
    RunServes(h, states, actions);
    forall c: nat | SMode(next.plic, c)
      ensures SMode(s.plic, c) && HostContext(next, c) == HostContext(s, c)
      ensures Reg(h'.threshold, HostContext(next, c)) == 0
    {
      assert HostContext(next, c) / 2 == next.cpus[c / 2];
    }
    forall c: nat, irq: nat | OwnHardware(s, c, irq)
      ensures OwnHardware(next, c, irq)
      ensures (HostContext(next, c), irq) in h'.enabled <==> EverOn(states, c, irq)
    {
      RunGathers(h, states, actions, c, irq);
    }
  }

  // The failing input.

  /** The offset of the enable word of the interrupt. */
  function EnableOffset(c: nat, irq: nat): nat
  {
    0x2000 + 0x80 * c + 4 * (irq / 32)
  }

  lemma WordOfIrq(p: Plic, c: nat, irq: nat, value: nat)
    requires SMode(p, c) && irq < 1024 && value <= 0xffff_ffff
    ensures Decode(p, EnableOffset(c, irq), 4, value) == EnableReg(c, irq / 32)
  {
    var w := irq / 32;
    assert w < 32 && (0x80 * c + 4 * w) / 0x80 == c && (0x80 * c + 4 * w) % 0x80 == 4 * w;
  }

  /** From every state that is mirrored: a word with the bit of a hardware interrupt and then one without it leave the
      interrupt enabled in the host PLIC and disabled in the virtual one. */
  lemma OnAndOff(h: Host, s: Sys, cpu: nat, c: nat, irq: nat, on: nat, off: nat) returns (states: seq<Sys>)
    requires Mirrors(h, s) && cpu in s.cpus && cpu !in s.handling && OwnHardware(s, c, irq) && irq < 1024
    requires on <= 0xffff_ffff && Bit(on, irq % 32) && off <= 0xffff_ffff && !Bit(off, irq % 32)
    ensures var actions := [AccessBy(cpu, EnableOffset(c, irq), 4, on, true),
                            AccessBy(cpu, EnableOffset(c, irq), 4, off, true)];
            && IsRun(states, actions) && states[0] == s && SameShape(s, states[2])
            && !states[2].plic.enable[c][irq] && (HostContext(s, c), irq) in HostRun(h, states, actions).enabled
            && !Mirrors(HostRun(h, states, actions), states[2])
  {
    var a, b := AccessBy(cpu, EnableOffset(c, irq), 4, on, true), AccessBy(cpu, EnableOffset(c, irq), 4, off, true);
    var s1 := WordWritten(s, cpu, c, irq, on);
    var s2 := WordWritten(s1, cpu, c, irq, off);
    states := [s, s1, s2];
    assert IsRun(states, [a, b]);
    assert EverOn(states, c, irq) by {
      assert states[1] == s1 && OwnHardware(s1, c, irq);
    }
    RunGathers(h, states, [a, b], c, irq);
    RunMirrorsExact(h, states, [a, b]);
  }

  /** A new zone with two CPUs and one interrupt, enabled and disabled by CPU 1. */
  lemma LosesMirror()
    ensures exists h, states, actions ::
      && IsRun(states, actions) && IsNew(states[0]) && Blank(h, states[0])
      && !Mirrors(HostRun(h, states, actions), states[|actions|])
  {
    var h, s := Host(map[], {}, map[], []), PlicLost.Fresh(true);
    FreshIsNew(h);
    NewMirrors(h, s);
    assert Bit(2, 1) && !Bit(0, 1);
    var states := OnAndOff(h, s, 1, 3, 1, 2, 0);
  }

  lemma FreshIsNew(h: Host)
    requires h == Host(map[], {}, map[], [])
    ensures var s := PlicLost.Fresh(true);
            IsNew(s) && Blank(h, s) && OwnHardware(s, 3, 1) && 1 in s.cpus && s.handling == {}
  {
    var s := PlicLost.Fresh(true);
    assert s.plic == NewPlic(1, 2 * |s.cpus|).(hw := s.plic.hw);
  }

  lemma WordWritten(s: Sys, cpu: nat, c: nat, irq: nat, value: nat) returns (s': Sys)
    requires SysOk(s) && cpu in s.cpus && cpu !in s.handling && OwnHardware(s, c, irq) && irq < 1024
    requires value <= 0xffff_ffff
    ensures var a := AccessBy(cpu, EnableOffset(c, irq), 4, value, true);
            Possible(s, a) && Step(s, a) == Reply(s', 0)
    ensures SameShape(s, s') && s'.handling == s.handling && OwnHardware(s', c, irq)
    ensures s'.plic.enable[c][irq] == Bit(value, irq % 32)
  {
    var start := irq / 32 * 32;
    WordOfIrq(s.plic, c, irq, value);
    s' := WriteEnable(s, cpu, c, value, start, start, WordEnd(s.plic, start));
    OwnBits(s, cpu, c, value, start, start, WordEnd(s.plic, start), c, irq);
    SameHandling(s, cpu, c, value, start, start, WordEnd(s.plic, start));
  }

  lemma {:induction false} SameHandling(s: Sys, cpu: nat, c: nat, value: nat, start: nat, irq: nat, end: nat)
    requires SysOk(s) && c < |s.plic.threshold| && start <= irq && end <= |s.plic.priority|
    ensures WriteEnable(s, cpu, c, value, start, irq, end).handling == s.handling
    decreases end - irq
  {
    if irq < end {
      SameHandling(EnableOne(s, cpu, c, irq, Bit(value, irq - start)), cpu, c, value, start, irq + 1, end);
    }
  }

  // What a zone cannot touch.

  /** The context belongs to no CPU of the zone. */
  predicate Foreign(s: Sys, x: nat)
  {
    x % 2 == 0 || x / 2 !in s.cpus
  }

  /** Nothing has changed about interrupts that are not the zone's hardware interrupts, and nothing at contexts of other
      CPUs; and every new completion is of a hardware interrupt of the zone, at a context of one of its CPUs. */
  ghost predicate Apart(h: Host, h': Host, s: Sys)
    requires SysOk(s)
  {
    && (forall irq: nat | !(irq < |s.plic.hw| && s.plic.hw[irq]) :: Reg(h'.priority, irq) == Reg(h.priority, irq))
    && (forall x: nat, irq: nat | Foreign(s, x) || !(irq < |s.plic.hw| && s.plic.hw[irq]) ::
          (x, irq) in h'.enabled <==> (x, irq) in h.enabled)
    && (forall x: nat | Foreign(s, x) :: Reg(h'.threshold, x) == Reg(h.threshold, x))
    && |h.completed| <= |h'.completed| && h'.completed[..|h.completed|] == h.completed
    && (forall i | |h.completed| <= i < |h'.completed| ::
          var (x, irq) := h'.completed[i]; !Foreign(s, x) && irq < |s.plic.hw| && s.plic.hw[irq])
  }

  lemma OwnHostContext(s: Sys, c: nat)
    requires SysOk(s) && SMode(s.plic, c)
    ensures !Foreign(s, HostContext(s, c))
  {
  }

  lemma EnableApart(h: Host, s: Sys, c: nat, value: nat, start: nat, end: nat)
    requires SysOk(s) && SMode(s.plic, c) && end <= |s.plic.priority|
    ensures Apart(h, HostWriteEnable(h, s, c, value, start, start, end), s)
  {
    var h' := HostWriteEnable(h, s, c, value, start, start, end);
    OwnHostContext(s, c);
    WriteEnableBits(h, s, c, value, start, start, end, 0, 0);
    forall x: nat, i: nat | Foreign(s, x) || !(i < |s.plic.hw| && s.plic.hw[i])
      ensures (x, i) in h'.enabled <==> (x, i) in h.enabled
    {
      WriteEnableBits(h, s, c, value, start, start, end, x, i);
    }
  }

  lemma StepApart(h: Host, s: Sys, a: Action)
    requires SysOk(s)
    ensures Apart(h, HostStep(h, s, a), s)
  {
    if a.AccessBy? && a.isWrite {
      match Decode(s.plic, a.offset, a.size, a.value)
      case EnableReg(c, word) =>
        if SMode(s.plic, c) {
          EnableApart(h, s, c, a.value, word * 32, WordEnd(s.plic, word * 32));
        }
      case ThresholdReg(c) =>
        if SMode(s.plic, c) {
          OwnHostContext(s, c);
        }
      case ClaimReg(c) =>
        if SMode(s.plic, c) {
          OwnHostContext(s, c);
        }
      case _ =>
    }
  }

  /** Whatever the guest does, the host PLIC's registers of other zones' interrupts and CPUs stay as they are. */
  lemma {:induction false} RunApart(h: Host, states: seq<Sys>, actions: seq<Action>)
    requires IsRun(states, actions)
    ensures Apart(h, HostRun(h, states, actions), states[0])
    ensures states[|actions|].plic.hw == states[0].plic.hw && states[|actions|].cpus == states[0].cpus
    decreases |actions|
  {
    if actions != [] {
      var n := |actions| - 1;
      RunBefore(states, actions);
      var h1 := HostRun(h, states[..|actions|], actions[..n]);
      RunApart(h, states[..|actions|], actions[..n]);
      StepApart(h1, states[n], actions[n]);
      StepKeepsHardware(states[n], actions[n]);
      StepKeepsCpus(states[n], actions[n]);
      ApartThrough(h, h1, HostStep(h1, states[n], actions[n]), states[0], states[n]);
    }
  }

  lemma StepKeepsCpus(s: Sys, a: Action)
    requires SysOk(s) && Possible(s, a) && Step(s, a).Reply?
    ensures Step(s, a).sys.cpus == s.cpus
  {
  }

  lemma ApartThrough(h: Host, h1: Host, h2: Host, s: Sys, t: Sys)
    requires SysOk(s) && SysOk(t) && Apart(h, h1, s) && Apart(h1, h2, t) && t.plic.hw == s.plic.hw && t.cpus == s.cpus
    ensures Apart(h, h2, s)
  {
    forall x: nat | Foreign(s, x)
      ensures Foreign(t, x)
    {
    }
  }
}
