/** No lost wake-up in the virtual PLIC. */
module PlicWakeup {
  import opened PlicSpec

  ghost predicate HasCandidate(p: Plic, c: nat)
    requires PlicOk(p) && c < |p.threshold|
  {
    exists irq: nat :: Candidate(p, c, irq)
  }

  ghost predicate Notified(s: Sys, c: nat)
    requires SysOk(s) && c < |s.plic.threshold|
  {
    var t := TargetCpu(s, c);
    s.vseip[t] || UPDATE_HART_LINE in s.events[t] || t in s.handling
  }

  /** Context `c` is not left waiting: if the search would find an interrupt for it, its CPU's line is up, or an update
      event is queued for it, or the CPU has taken the event and is about to update its line. */
  ghost predicate Covered(s: Sys, c: nat)
    requires SysOk(s) && c < |s.plic.threshold|
  {
    NextPending(s.plic, c) != 0 ==> Notified(s, c)
  }

  ghost predicate NoLostWakeup(s: Sys)
  {
    SysOk(s) && forall c: nat | SMode(s.plic, c) :: Covered(s, c)
  }

  lemma SearchFinds(p: Plic, c: nat)
    requires PlicOk(p) && c < |p.threshold|
    ensures NextPending(p, c) != 0 <==> HasCandidate(p, c)
  {
    NextPendingIsBest(p, c);
  }

  /** `p'` offers context `c` nothing that `p` did not. */
  ghost predicate NoNewCandidate(p: Plic, p': Plic, c: nat)
    requires PlicOk(p) && PlicOk(p') && c < |p.threshold| && c < |p'.threshold|
  {
    forall irq: nat | Candidate(p', c, irq) :: Candidate(p, c, irq)
  }

  lemma StaysCovered(s: Sys, p': Plic, c: nat)
    requires SysOk(s) && SysOk(WithPlic(s, p')) && c < |s.plic.threshold|
    requires NoNewCandidate(s.plic, p', c) && Covered(s, c)
    ensures Covered(WithPlic(s, p'), c)
  {
    SearchFinds(s.plic, c);
    SearchFinds(p', c);
  }

  lemma ContextsApart(s: Sys, c: nat, c': nat)
    requires SysOk(s) && SMode(s.plic, c) && SMode(s.plic, c') && c != c'
    ensures TargetCpu(s, c) != TargetCpu(s, c')
  {
    if c / 2 < c' / 2 {
      AscendingApart(s.cpus, c / 2, c' / 2);
    } else {
      AscendingApart(s.cpus, c' / 2, c / 2);
    }
  }

  /** A line update covers its context and takes nothing from the others. */
  lemma UpdateCovers(s: Sys, cpu: nat, c: nat, c': nat)
    requires SysOk(s) && SMode(s.plic, c) && SMode(s.plic, c')
    ensures Covered(UpdateLine(s, cpu, c), c)
    ensures Covered(s, c') ==> Covered(UpdateLine(s, cpu, c), c')
  {
    var s' := UpdateLine(s, cpu, c);
    var t := TargetCpu(s, c);
    if t != cpu {
      assert s'.events[t][|s.events[t]|] == UPDATE_HART_LINE;
      forall e | e in s.events[t]
        ensures e in s'.events[t]
      {
      }
    }
    if c != c' {
      ContextsApart(s, c, c');
    }
  }

  /** The refresh loop covers every context it refreshes and takes nothing from the others. */
  lemma {:induction false} RefreshCovers(s: Sys, cpu: nat, irq: nat, above: bool, k: nat, c: nat)
    requires SysOk(s) && irq < |s.plic.priority| && k <= |s.plic.threshold| && SMode(s.plic, c)
    ensures Covered(s, c) || (k <= c && Refreshed(s.plic, irq, above, c)) ==> Covered(Refresh(s, cpu, irq, above, k), c)
    decreases |s.plic.threshold| - k
  {
    if k < |s.plic.threshold| {
      var refreshed := Refreshed(s.plic, irq, above, k);
      if refreshed {
        UpdateCovers(s, cpu, k, c);
      }
      RefreshCovers(if refreshed then UpdateLine(s, cpu, k) else s, cpu, irq, above, k + 1, c);
    }
  }

  // The operations that never lose a wake-up.

  lemma SoftwareInjectKeeps(s: Sys, cpu: nat, c: nat, irq: nat)
    requires NoLostWakeup(s) && irq < |s.plic.priority| && !s.plic.hw[irq]
    ensures NoLostWakeup(Inject(s, cpu, c, irq, false).sys)
  {
    if !s.plic.pending[irq] {
      var p' := SetPending(s.plic, irq, true);
      var s1 := WithPlic(s, p');
      forall x: nat | SMode(s.plic, x)
        ensures Covered(Refresh(s1, cpu, irq, true, 0), x)
      {
        if !Refreshed(p', irq, true, x) {
          assert NoNewCandidate(s.plic, p', x);
          StaysCovered(s, p', x);
        }
        RefreshCovers(s1, cpu, irq, true, 0, x);
      }
    }
  }

  lemma SoftwarePriorityKeeps(s: Sys, cpu: nat, irq: nat, value: nat)
    requires NoLostWakeup(s) && irq < |s.plic.priority| && !s.plic.hw[irq]
    ensures NoLostWakeup(WritePriority(s, cpu, irq, value))
  {
    var p' := s.plic.(priority := s.plic.priority[irq := value]);
    var s1 := WithPlic(s, p');
    forall x: nat | SMode(s.plic, x)
      ensures Covered(Refresh(s1, cpu, irq, false, 0), x)
    {
      if !Refreshed(p', irq, false, x) {
        assert NoNewCandidate(s.plic, p', x);
        StaysCovered(s, p', x);
      }
      RefreshCovers(s1, cpu, irq, false, 0, x);
    }
  }

  /** A state change that only context `c` can gain from, followed by an update of `c`. */
  lemma ChangeThenUpdate(s: Sys, p': Plic, cpu: nat, c: nat)
    requires NoLostWakeup(s) && SysOk(WithPlic(s, p')) && SMode(s.plic, c)
    requires forall x: nat | SMode(s.plic, x) && x != c :: NoNewCandidate(s.plic, p', x)
    ensures NoLostWakeup(UpdateLine(WithPlic(s, p'), cpu, c))
  {
    forall x: nat | SMode(s.plic, x)
      ensures Covered(UpdateLine(WithPlic(s, p'), cpu, c), x)
    {
      if x != c {
        StaysCovered(s, p', x);
      }
      UpdateCovers(WithPlic(s, p'), cpu, c, x);
    }
  }

  lemma ThresholdKeeps(s: Sys, cpu: nat, c: nat, value: nat)
    requires NoLostWakeup(s) && SMode(s.plic, c)
    ensures NoLostWakeup(WriteThreshold(s, cpu, c, value))
  {
    ChangeThenUpdate(s, s.plic.(threshold := s.plic.threshold[c := value]), cpu, c);
  }

  lemma ClaimKeeps(s: Sys, cpu: nat, c: nat)
    requires NoLostWakeup(s) && SMode(s.plic, c)
    ensures NoLostWakeup(Claim(s, cpu, c).sys)
  {
    var n := NextPending(s.plic, c);
    ChangeThenUpdate(s, SetActive(SetPending(s.plic, n, false), n, true), cpu, c);
  }

  /** Between the two locks the CPU counts as handling, so nothing is lost. */
  lemma FetchKeeps(s: Sys, cpu: nat)
    requires NoLostWakeup(s) && cpu in s.cpus
    ensures NoLostWakeup(Fetch(s, cpu))
  {
    var q := s.events[cpu];
    if q != [] {
      assert q == [q[0]] + q[1..];
      forall x: nat | SMode(s.plic, x)
        ensures Covered(Fetch(s, cpu), x)
      {
        assert Covered(s, x);
      }
    }
  }

  lemma HandleKeeps(s: Sys, cpu: nat)
    requires NoLostWakeup(s) && cpu in s.cpus
    ensures NoLostWakeup(Handle(s, cpu))
  {
    var s1 := s.(handling := s.handling - {cpu});
    var own := OwnContext(s.cpus, cpu);
    forall x: nat | SMode(s.plic, x)
      ensures Covered(Handle(s, cpu), x)
    {
      if x != own {
        ContextsApart(s, x, own);
        assert Covered(s1, x);
      }
      UpdateCovers(s1, cpu, own, x);
    }
  }

  // The operations that can lose one, and exactly when.

  /** The same vPLIC and CPUs, with any lines and queues. */
  ghost predicate SamePlic(s: Sys, t: Sys)
  {
    t.plic == s.plic && t.cpus == s.cpus
  }

  /** A machine in which nobody waits and context `x` has no notification at all. */
  lemma QuietMachine(s: Sys, x: nat) returns (t: Sys)
    requires SysOk(s) && SMode(s.plic, x) && !HasCandidate(s.plic, x)
    ensures SamePlic(s, t) && NoLostWakeup(t)
    ensures !t.vseip[TargetCpu(t, x)] && t.events[TargetCpu(t, x)] == [] && t.handling == {}
  {
    var cpu := TargetCpu(s, x);
    t := Sys(s.plic, s.cpus, map h | h in s.cpus :: h != cpu, map h | h in s.cpus :: [], {});
    forall c: nat | SMode(s.plic, c)
      ensures Covered(t, c)
    {
      if c == x {
        SearchFinds(s.plic, x);
      } else {
        ContextsApart(s, c, x);
      }
    }
  }

  /** Interrupt `irq` waits for context `x` behind its own active bit. */
  ghost predicate HeldBack(p: Plic, x: nat, irq: nat)
    requires PlicOk(p) && x < |p.threshold| && irq < |p.priority|
  {
    irq > 0 && p.pending[irq] && p.active[irq] && p.enable[x][irq] && p.priority[irq] > p.threshold[x]
  }

  ghost predicate CompletionSafe(p: Plic, c: nat, irq: nat)
    requires PlicOk(p) && irq < |p.priority|
  {
    forall x: nat | SMode(p, x) && x != c && HeldBack(p, x, irq) :: HasCandidate(p, x)
  }

  lemma CompletionKeeps(s: Sys, cpu: nat, c: nat, irq: nat)
    requires NoLostWakeup(s) && SMode(s.plic, c) && irq < |s.plic.priority|
    requires CompletionSafe(s.plic, c, irq)
    ensures NoLostWakeup(Complete(s, cpu, c, irq).sys)
  {
    var p' := SetActive(s.plic, irq, false);
    var s1 := WithPlic(s, p');
    forall x: nat | SMode(s.plic, x)
      ensures Covered(UpdateLine(s1, cpu, c), x)
    {
      if x != c {
        SearchFinds(s.plic, x);
        if HasCandidate(s.plic, x) {
          assert Notified(s1, x);
        } else {
          assert NoNewCandidate(s.plic, p', x);
          StaysCovered(s, p', x);
        }
      }
      UpdateCovers(s1, cpu, c, x);
    }
  }

  lemma LostByCompletion(s: Sys, cpu: nat, c: nat, irq: nat, x: nat) returns (t: Sys)
    requires SysOk(s) && SMode(s.plic, c) && irq < |s.plic.priority| && SMode(s.plic, x) && x != c
    requires HeldBack(s.plic, x, irq) && !HasCandidate(s.plic, x)
    ensures SamePlic(s, t) && NoLostWakeup(t) && !NoLostWakeup(Complete(t, cpu, c, irq).sys)
  {
    t := QuietMachine(s, x);
    var p' := SetActive(s.plic, irq, false);
    assert Candidate(p', x, irq);
    SearchFinds(p', x);
    ContextsApart(s, c, x);
    assert !Covered(Complete(t, cpu, c, irq).sys, x);
  }

  /** Completing `irq` through context `c` refreshes `c` alone.  It can never lose a wake-up, whatever the lines and
      queues were, exactly when no other context has `irq` held back with nothing else to offer. */
  lemma CompletionExact(s: Sys, cpu: nat, c: nat, irq: nat)
    requires SysOk(s) && SMode(s.plic, c) && irq < |s.plic.priority|
    ensures CompletionSafe(s.plic, c, irq) <==>
      forall t: Sys | SamePlic(s, t) && NoLostWakeup(t) :: NoLostWakeup(Complete(t, cpu, c, irq).sys)
  {
    if CompletionSafe(s.plic, c, irq) {
      forall t: Sys | SamePlic(s, t) && NoLostWakeup(t)
        ensures NoLostWakeup(Complete(t, cpu, c, irq).sys)
      {
        CompletionKeeps(t, cpu, c, irq);
      }
    } else {
      var x: nat :| SMode(s.plic, x) && x != c && HeldBack(s.plic, x, irq) && !HasCandidate(s.plic, x);
      var t := LostByCompletion(s, cpu, c, irq, x);
    }
  }

  /** An injected hardware interrupt refreshes only the injecting CPU's own context. */
  ghost predicate HardwareInjectSafe(p: Plic, c: nat, irq: nat)
    requires PlicOk(p) && irq < |p.priority|
  {
    forall x: nat | SMode(p, x) && x != c && Candidate(SetPending(p, irq, true), x, irq) :: HasCandidate(p, x)
  }

  lemma HardwareInjectKeeps(s: Sys, cpu: nat, c: nat, irq: nat)
    requires NoLostWakeup(s) && SMode(s.plic, c) && irq < |s.plic.priority| && s.plic.hw[irq] && !s.plic.pending[irq]
    requires HardwareInjectSafe(s.plic, c, irq)
    ensures NoLostWakeup(Inject(s, cpu, c, irq, true).sys)
  {
    var p' := SetPending(s.plic, irq, true);
    var s1 := WithPlic(s, p');
    forall x: nat | SMode(s.plic, x)
      ensures Covered(UpdateLine(s1, cpu, c), x)
    {
      if x != c {
        SearchFinds(s.plic, x);
        if HasCandidate(s.plic, x) {
          assert Notified(s1, x);
        } else {
          assert NoNewCandidate(s.plic, p', x);
          StaysCovered(s, p', x);
        }
      }
      UpdateCovers(s1, cpu, c, x);
    }
  }

  lemma HardwareInjectExact(s: Sys, cpu: nat, c: nat, irq: nat)
    requires SysOk(s) && SMode(s.plic, c) && irq < |s.plic.priority| && s.plic.hw[irq] && !s.plic.pending[irq]
    ensures HardwareInjectSafe(s.plic, c, irq) <==>
      forall t: Sys | SamePlic(s, t) && NoLostWakeup(t) :: NoLostWakeup(Inject(t, cpu, c, irq, true).sys)
  {
    if HardwareInjectSafe(s.plic, c, irq) {
      forall t: Sys | SamePlic(s, t) && NoLostWakeup(t)
        ensures NoLostWakeup(Inject(t, cpu, c, irq, true).sys)
      {
        HardwareInjectKeeps(t, cpu, c, irq);
      }
    } else {
      var p' := SetPending(s.plic, irq, true);
      var x: nat :| SMode(s.plic, x) && x != c && Candidate(p', x, irq) && !HasCandidate(s.plic, x);
      var t := QuietMachine(s, x);
      SearchFinds(p', x);
      ContextsApart(s, c, x);
      assert !Covered(Inject(t, cpu, c, irq, true).sys, x);
    }
  }

  /** A priority write to a hardware interrupt refreshes nothing. */
  ghost predicate HardwarePrioritySafe(p: Plic, irq: nat, value: nat)
    requires PlicOk(p) && irq < |p.priority|
  {
    forall x: nat | SMode(p, x) && Candidate(p.(priority := p.priority[irq := value]), x, irq) :: HasCandidate(p, x)
  }

  lemma HardwarePriorityExact(s: Sys, cpu: nat, irq: nat, value: nat)
    requires SysOk(s) && irq < |s.plic.priority| && s.plic.hw[irq]
    ensures HardwarePrioritySafe(s.plic, irq, value) <==>
      forall t: Sys | SamePlic(s, t) && NoLostWakeup(t) :: NoLostWakeup(WritePriority(t, cpu, irq, value))
  {
    var p' := s.plic.(priority := s.plic.priority[irq := value]);
    if HardwarePrioritySafe(s.plic, irq, value) {
      forall t: Sys, x: nat | SamePlic(s, t) && NoLostWakeup(t) && SMode(t.plic, x)
        ensures Covered(WritePriority(t, cpu, irq, value), x)
      {
        SearchFinds(t.plic, x);
        if !HasCandidate(t.plic, x) {
          assert NoNewCandidate(t.plic, p', x);
          StaysCovered(t, p', x);
        }
      }
    } else {
      var x: nat :| SMode(s.plic, x) && Candidate(p', x, irq) && !HasCandidate(s.plic, x);
      var t := QuietMachine(s, x);
      SearchFinds(p', x);
      assert !Covered(WritePriority(t, cpu, irq, value), x);
    }
  }
}
