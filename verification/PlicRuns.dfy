/** No lost wake-up in the virtual PLIC over whole runs. */
module PlicRuns {
  import opened PlicSpec
  import opened PlicWakeup
  import opened PlicEnable

  ghost predicate SoftwareOnly(p: Plic)
  {
    forall i | 0 <= i < |p.hw| :: !p.hw[i]
  }

  /** Each interrupt is enabled in at most one S-mode context. */
  ghost predicate SingleOwner(p: Plic)
    requires PlicOk(p)
  {
    forall irq: nat, x: nat, y: nat |
      irq < |p.priority| && SMode(p, x) && SMode(p, y) && p.enable[x][irq] && p.enable[y][irq] ::
      x == y
  }

  /** Completions go through a context where the interrupt is enabled, and the zone is not shut down. */
  ghost predicate Disciplined(s: Sys, a: Action)
    requires SysOk(s)
  {
    match a
    case InjectAt(_, _, _, _) => true
    case AccessBy(_, offset, size, value, isWrite) =>
      var reg := Decode(s.plic, offset, size, value);
      reg.ClaimReg? && SMode(s.plic, reg.context) && isWrite && value < |s.plic.priority| ==>
        s.plic.enable[reg.context][value]
    case FetchOn(_) => true
    case HandleOn(_) => true
    case Queue(_, event) => event != SHUTDOWN
  }

  /** A word that switches on no hardware interrupt is always safe. */
  lemma SoftwareEnableIsSafe(s: Sys, cpu: nat, c: nat, value: nat, start: nat, end: nat)
    requires SysOk(s) && SMode(s.plic, c) && end <= |s.plic.priority| && SoftwareOnly(s.plic)
    ensures EnableSafe(s, cpu, c, value, start, end)
  {
  }

  lemma OwnedCompletionIsSafe(p: Plic, c: nat, irq: nat)
    requires PlicOk(p) && SingleOwner(p) && SMode(p, c) && irq < |p.priority| && p.enable[c][irq]
    ensures CompletionSafe(p, c, irq)
  {
  }

  lemma AccessKeeps(s: Sys, cpu: nat, offset: nat, size: nat, value: nat, isWrite: bool)
    requires NoLostWakeup(s) && SoftwareOnly(s.plic) && SingleOwner(s.plic)
    requires Disciplined(s, AccessBy(cpu, offset, size, value, isWrite))
    requires Access(s, cpu, offset, size, value, isWrite).Reply?
    ensures NoLostWakeup(Access(s, cpu, offset, size, value, isWrite).sys)
  {
    match Decode(s.plic, offset, size, value)
    case NoRegister =>
    case PriorityReg(irq) =>
      if isWrite && 0 < irq < |s.plic.priority| {
        SoftwarePriorityKeeps(s, cpu, irq, value);
      }
    case PendingReg(word) =>
    case EnableReg(c, word) =>
      if isWrite && SMode(s.plic, c) && word * 32 <= WordEnd(s.plic, word * 32) {
        SoftwareEnableIsSafe(s, cpu, c, value, word * 32, WordEnd(s.plic, word * 32));
        EnableKeeps(s, cpu, c, value, word * 32, WordEnd(s.plic, word * 32));
      }
    case ThresholdReg(c) =>
      if isWrite && SMode(s.plic, c) {
        ThresholdKeeps(s, cpu, c, value);
      }
    case ClaimReg(c) =>
      if SMode(s.plic, c) {
        if isWrite {
          OwnedCompletionIsSafe(s.plic, c, value);
          CompletionKeeps(s, cpu, c, value);
        } else {
          ClaimKeeps(s, cpu, c);
        }
      }
  }

  lemma StepKeeps(s: Sys, a: Action)
    requires NoLostWakeup(s) && SoftwareOnly(s.plic) && SingleOwner(s.plic)
    requires Possible(s, a) && Disciplined(s, a) && Step(s, a).Reply?
    ensures NoLostWakeup(Step(s, a).sys)
  {
    match a
    case InjectAt(cpu, c, irq, hw) =>
      if !hw {
        SoftwareInjectKeeps(s, cpu, c, irq);
      }
    case AccessBy(cpu, offset, size, value, isWrite) => AccessKeeps(s, cpu, offset, size, value, isWrite);
    case FetchOn(cpu) => FetchKeeps(s, cpu);
    case HandleOn(cpu) => HandleKeeps(s, cpu);
    case Queue(cpu, event) =>
      forall c: nat | SMode(s.plic, c)
        ensures Covered(Step(s, a).sys, c)
      {
        assert Covered(s, c);
      }
  }

  /** `VirtualPLIC::new`. */
  function NewPlic(maxInterrupts: nat, numContexts: nat): (p: Plic)
    ensures PlicOk(p) && |p.priority| == maxInterrupts + 1 && |p.threshold| == numContexts
    ensures SoftwareOnly(p) && SingleOwner(p)
    ensures forall i | 0 <= i <= maxInterrupts :: !p.pending[i] && !p.active[i]
  {
    var none := seq(maxInterrupts + 1, i => false);
    Plic(none, none, seq(maxInterrupts + 1, i => 0), none, seq(numContexts, i => none), seq(numContexts, i => 0))
  }

  lemma NewPlicWaitsForNothing(s: Sys, maxInterrupts: nat)
    requires SysOk(s) && s.plic == NewPlic(maxInterrupts, 2 * |s.cpus|)
    ensures NoLostWakeup(s)
  {
    forall c: nat | SMode(s.plic, c)
      ensures Covered(s, c)
    {
      NextPendingIsBest(s.plic, c);
    }
  }

  lemma StepKeepsHardware(s: Sys, a: Action)
    requires SysOk(s) && Possible(s, a) && Step(s, a).Reply?
    ensures Step(s, a).sys.plic.hw == s.plic.hw
  {
  }

  /** Over every interleaving: a run of software interrupts, each enabled in at most one context at a time and completed
      through it, never loses a wake-up. */
  lemma {:induction false} RunKeepsWakeups(states: seq<Sys>, actions: seq<Action>)
    requires IsRun(states, actions)
    requires NoLostWakeup(states[0]) && SoftwareOnly(states[0].plic)
    requires forall i | 0 <= i < |states| :: SingleOwner(states[i].plic)
    requires forall i | 0 <= i < |actions| :: Disciplined(states[i], actions[i])
    ensures NoLostWakeup(states[|actions|]) && SoftwareOnly(states[|actions|].plic)
    decreases |actions|
  {
    if |actions| > 0 {
      var n := |actions| - 1;
      RunKeepsWakeups(states[..|actions|], actions[..n]);
      StepKeeps(states[n], actions[n]);
      StepKeepsHardware(states[n], actions[n]);
    }
  }
}
