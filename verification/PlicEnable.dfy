/** Writing an enable word of the virtual PLIC: exactly when it can lose a wake-up.  The loop updates the line only
    when a software interrupt is switched, so a hardware interrupt that is switched on after the last such update
    stays unseen. */
module PlicEnable {
  import opened PlicSpec
  import opened PlicWakeup

  /** The word switches software interrupt `i`. */
  predicate Switches(p: Plic, c: nat, value: nat, start: nat, i: nat)
    requires PlicOk(p) && c < |p.threshold| && start <= i < |p.priority|
  {
    !p.hw[i] && p.enable[c][i] != Bit(value, i - start)
  }

  /** The round after the last one that switches a software interrupt, or `start` if there is none. */
  function LastSwitch(p: Plic, c: nat, value: nat, start: nat, end: nat): (j: nat)
    requires PlicOk(p) && c < |p.threshold| && end <= |p.priority|
    ensures start <= j && (j <= end || j == start)
    ensures forall i: nat | j <= i < end :: !Switches(p, c, value, start, i)
    ensures j > start ==> Switches(p, c, value, start, j - 1)
    decreases end
  {
    if end <= start then start
    else if Switches(p, c, value, start, end - 1) then end
    else LastSwitch(p, c, value, start, end - 1)
  }

  /** The vPLIC after the rounds below `j`. */
  function Switched(p: Plic, c: nat, value: nat, start: nat, j: nat): Plic
    requires PlicOk(p) && c < |p.threshold|
  {
    var bits := seq(|p.priority|, i requires 0 <= i < |p.priority| =>
                    if start <= i < j then Bit(value, i - start) else p.enable[c][i]);
    p.(enable := p.enable[c := bits])
  }

  /** Hardware interrupt `i` is switched on and would be offered to the context. */
  predicate Uncovers(p: Plic, c: nat, value: nat, start: nat, i: nat)
    requires PlicOk(p) && c < |p.threshold| && start <= i < |p.priority|
  {
    && p.hw[i] && Bit(value, i - start) && !p.enable[c][i]
    && i > 0 && p.pending[i] && !p.active[i] && p.priority[i] > p.threshold[c]
  }

  /** What to check before the write: the context is another CPU's and some software interrupt is switched, so that an
      event is on its way; or every hardware interrupt that is uncovered after the last update finds the context with
      something to offer at that update. */
  ghost predicate EnableSafe(s: Sys, cpu: nat, c: nat, value: nat, start: nat, end: nat)
    requires SysOk(s) && c < |s.plic.threshold| && end <= |s.plic.priority|
  {
    var p := s.plic;
    var j := LastSwitch(p, c, value, start, end);
    || (j > start && TargetCpu(s, c) != cpu)
    || (forall i: nat | j <= i < end && Uncovers(p, c, value, start, i) ::
          HasCandidate(Switched(p, c, value, start, j), c))
  }

  // The loop in two parts.

  /** The loop up to round `j`, written from its end. */
  function Rounds(s: Sys, cpu: nat, c: nat, value: nat, start: nat, j: nat): (s': Sys)
    requires SysOk(s) && c < |s.plic.threshold| && start <= j <= |s.plic.priority|
    ensures SysOk(s') && s'.cpus == s.cpus && s'.plic.threshold == s.plic.threshold &&
      s'.plic.priority == s.plic.priority
    decreases j
  {
    if j == start then s
    else EnableOne(Rounds(s, cpu, c, value, start, j - 1), cpu, c, j - 1, Bit(value, j - 1 - start))
  }

  lemma {:induction false} RoundsFromFront(s: Sys, cpu: nat, c: nat, value: nat, start: nat, j: nat, end: nat)
    requires SysOk(s) && c < |s.plic.threshold| && start <= j <= end <= |s.plic.priority|
    ensures WriteEnable(Rounds(s, cpu, c, value, start, j), cpu, c, value, start, j, end)
         == Rounds(s, cpu, c, value, start, end)
    decreases end - j
  {
    if j < end {
      RoundsFromFront(s, cpu, c, value, start, j + 1, end);
    }
  }

  lemma OneSwitched(p: Plic, c: nat, value: nat, start: nat, j: nat)
    requires PlicOk(p) && c < |p.threshold| && start <= j < |p.priority|
    ensures SetEnable(Switched(p, c, value, start, j), c, j, Bit(value, j - start)) ==
      Switched(p, c, value, start, j + 1)
  {
    var a, b := Switched(p, c, value, start, j), Switched(p, c, value, start, j + 1);
    assert a.enable[c][j := Bit(value, j - start)] == b.enable[c];
    assert SetEnable(a, c, j, Bit(value, j - start)).enable == b.enable;
  }

  lemma {:induction false} RoundsSwitch(s: Sys, cpu: nat, c: nat, value: nat, start: nat, j: nat)
    requires SysOk(s) && c < |s.plic.threshold| && start <= j <= |s.plic.priority|
    ensures Rounds(s, cpu, c, value, start, j).plic == Switched(s.plic, c, value, start, j)
    decreases j
  {
    if j > start {
      RoundsSwitch(s, cpu, c, value, start, j - 1);
      OneSwitched(s.plic, c, value, start, j - 1);
    } else {
      assert Switched(s.plic, c, value, start, j).enable[c] == s.plic.enable[c];
      assert Switched(s.plic, c, value, start, j).enable == s.plic.enable;
    }
  }

  /** Lines, queues and handlers. */
  ghost predicate SameLines(s: Sys, t: Sys)
  {
    t.vseip == s.vseip && t.events == s.events && t.handling == s.handling
  }

  /** A round that switches no software interrupt changes no line and no queue. */
  lemma QuietRound(s: Sys, cpu: nat, c: nat, irq: nat, on: bool)
    requires SysOk(s) && c < |s.plic.threshold| && irq < |s.plic.priority|
    requires s.plic.hw[irq] || s.plic.enable[c][irq] == on
    ensures SameLines(s, EnableOne(s, cpu, c, irq, on))
  {
  }

  lemma {:induction false} QuietRounds(s: Sys, cpu: nat, c: nat, value: nat, start: nat, j: nat, k: nat)
    requires SysOk(s) && c < |s.plic.threshold| && start <= j <= k <= |s.plic.priority|
    requires forall i: nat | j <= i < k :: !Switches(s.plic, c, value, start, i)
    ensures SameLines(Rounds(s, cpu, c, value, start, j), Rounds(s, cpu, c, value, start, k))
    decreases k
  {
    if j < k {
      QuietRounds(s, cpu, c, value, start, j, k - 1);
      RoundsSwitch(s, cpu, c, value, start, k - 1);
      assert !Switches(s.plic, c, value, start, k - 1);
      QuietRound(Rounds(s, cpu, c, value, start, k - 1), cpu, c, k - 1, Bit(value, k - 1 - start));
    }
  }

  /** The round that switches a software interrupt updates the line. */
  lemma SwitchUpdates(s: Sys, cpu: nat, c: nat, value: nat, start: nat, j: nat)
    requires SysOk(s) && c < |s.plic.threshold| && start < j <= |s.plic.priority|
    requires Switches(s.plic, c, value, start, j - 1)
    ensures Rounds(s, cpu, c, value, start, j)
         == UpdateLine(WithPlic(Rounds(s, cpu, c, value, start, j - 1), Switched(s.plic, c, value, start, j)), cpu, c)
  {
    RoundsSwitch(s, cpu, c, value, start, j - 1);
    OneSwitched(s.plic, c, value, start, j - 1);
  }

  /** Only the CPU behind the context hears of the write. */
  lemma {:induction false} RoundsTouch(s: Sys, cpu: nat, c: nat, value: nat, start: nat, j: nat, h: nat)
    requires SysOk(s) && c < |s.plic.threshold| && start <= j <= |s.plic.priority| && h in s.cpus
    ensures var t := Rounds(s, cpu, c, value, start, j);
            && t.handling == s.handling
            && (h != TargetCpu(s, c) ==> t.vseip[h] == s.vseip[h] && t.events[h] == s.events[h])
            && (TargetCpu(s, c) == cpu ==> t.events[h] == s.events[h])
    decreases j
  {
    if j > start {
      RoundsTouch(s, cpu, c, value, start, j - 1, h);
    }
  }

  /** Other contexts are offered nothing new and keep their notification. */
  lemma OthersCovered(s: Sys, cpu: nat, c: nat, value: nat, start: nat, j: nat, x: nat)
    requires NoLostWakeup(s) && SMode(s.plic, c) && SMode(s.plic, x) && x != c && start <= j <= |s.plic.priority|
    ensures Covered(Rounds(s, cpu, c, value, start, j), x)
  {
    var t := Rounds(s, cpu, c, value, start, j);
    RoundsSwitch(s, cpu, c, value, start, j);
    assert NoNewCandidate(s.plic, t.plic, x);
    StaysCovered(s, t.plic, x);
    ContextsApart(s, c, x);
    RoundsTouch(s, cpu, c, value, start, j, TargetCpu(s, x));
  }

  /** At the last update the context is covered, whoever executes the write. */
  lemma UpdatedCovered(s: Sys, cpu: nat, c: nat, value: nat, start: nat, j: nat)
    requires NoLostWakeup(s) && SMode(s.plic, c) && start <= j <= |s.plic.priority|
    requires j > start ==> Switches(s.plic, c, value, start, j - 1)
    ensures Covered(Rounds(s, cpu, c, value, start, j), c)
    ensures j > start && TargetCpu(s, c) != cpu ==> Notified(Rounds(s, cpu, c, value, start, j), c)
  {
    if j > start {
      SwitchUpdates(s, cpu, c, value, start, j);
      var s1 := WithPlic(Rounds(s, cpu, c, value, start, j - 1), Switched(s.plic, c, value, start, j));
      UpdateCovers(s1, cpu, c, c);
      if TargetCpu(s, c) != cpu {
        var q := s1.events[TargetCpu(s, c)];
        assert (q + [UPDATE_HART_LINE])[|q|] == UPDATE_HART_LINE;
      }
    }
  }

  /** What is new after the last update is an uncovered hardware interrupt. */
  lemma NewIsUncovered(p: Plic, c: nat, value: nat, start: nat, end: nat, i: nat)
    requires PlicOk(p) && c < |p.threshold| && start <= end <= |p.priority|
    requires Candidate(Switched(p, c, value, start, end), c, i)
    ensures var j := LastSwitch(p, c, value, start, end);
            Candidate(Switched(p, c, value, start, j), c, i) || (j <= i < end && Uncovers(p, c, value, start, i))
  {
    var j := LastSwitch(p, c, value, start, end);
    if j <= i < end {
      assert !Switches(p, c, value, start, i);
    }
  }

  lemma EnableKeeps(s: Sys, cpu: nat, c: nat, value: nat, start: nat, end: nat)
    requires NoLostWakeup(s) && SMode(s.plic, c) && start <= end <= |s.plic.priority|
    requires EnableSafe(s, cpu, c, value, start, end)
    ensures NoLostWakeup(WriteEnable(s, cpu, c, value, start, start, end))
  {
    var p := s.plic;
    var j := LastSwitch(p, c, value, start, end);
    var sj, t := Rounds(s, cpu, c, value, start, j), Rounds(s, cpu, c, value, start, end);
    RoundsFromFront(s, cpu, c, value, start, start, end);
    RoundsSwitch(s, cpu, c, value, start, j);
    RoundsSwitch(s, cpu, c, value, start, end);
    QuietRounds(s, cpu, c, value, start, j, end);
    UpdatedCovered(s, cpu, c, value, start, j);
    SearchFinds(sj.plic, c);
    SearchFinds(t.plic, c);
    forall x: nat | SMode(p, x)
      ensures Covered(t, x)
    {
      if x != c {
        OthersCovered(s, cpu, c, value, start, end, x);
      } else if HasCandidate(t.plic, c) {
        var i: nat :| Candidate(t.plic, c, i);
        NewIsUncovered(p, c, value, start, end, i);
        assert Notified(sj, c);
      }
    }
  }

  /** A machine in which every line is up. */
  lemma LoudMachine(s: Sys) returns (t: Sys)
    requires SysOk(s)
    ensures SamePlic(s, t) && NoLostWakeup(t) && t.handling == {}
    ensures forall h | h in s.cpus :: t.events[h] == []
  {
    t := Sys(s.plic, s.cpus, map h | h in s.cpus :: true, map h | h in s.cpus :: [], {});
    forall c: nat | SMode(s.plic, c)
      ensures Covered(t, c)
    {
      assert t.vseip[TargetCpu(t, c)];
    }
  }

  lemma LostByEnable(s: Sys, cpu: nat, c: nat, value: nat, start: nat, end: nat) returns (t: Sys)
    requires SysOk(s) && SMode(s.plic, c) && start <= end <= |s.plic.priority|
    requires !EnableSafe(s, cpu, c, value, start, end)
    ensures SamePlic(s, t) && NoLostWakeup(t) && !NoLostWakeup(WriteEnable(t, cpu, c, value, start, start, end))
  {
    var p := s.plic;
    var j := LastSwitch(p, c, value, start, end);
    var pj := Switched(p, c, value, start, j);
    var i: nat :| j <= i < end && Uncovers(p, c, value, start, i) && !HasCandidate(pj, c);
    SearchFinds(pj, c);
    if j == start {
      RoundsSwitch(s, cpu, c, value, start, j);
      t := QuietMachine(s, c);
    } else {
      t := LoudMachine(s);
      SwitchUpdates(t, cpu, c, value, start, j);
    }
    var h := TargetCpu(t, c);
    assert h == TargetCpu(s, c);
    RoundsTouch(t, cpu, c, value, start, j, h);
    assert !Notified(Rounds(t, cpu, c, value, start, j), c);
    StaysUnheard(t, cpu, c, value, start, j, end, i);
  }

  /** Nothing after the last update tells the context of the uncovered interrupt. */
  lemma StaysUnheard(t: Sys, cpu: nat, c: nat, value: nat, start: nat, j: nat, end: nat, i: nat)
    requires SysOk(t) && SMode(t.plic, c) && start <= end <= |t.plic.priority|
    requires j == LastSwitch(t.plic, c, value, start, end) && j <= i < end && Uncovers(t.plic, c, value, start, i)
    requires !Notified(Rounds(t, cpu, c, value, start, j), c)
    ensures !NoLostWakeup(WriteEnable(t, cpu, c, value, start, start, end))
  {
    var u := Rounds(t, cpu, c, value, start, end);
    assert !Notified(u, c) by {
      QuietRounds(t, cpu, c, value, start, j, end);
    }
    assert NextPending(u.plic, c) != 0 by {
      RoundsSwitch(t, cpu, c, value, start, end);
      UncoveredIsCandidate(t.plic, c, value, start, end, i);
      SearchFinds(u.plic, c);
    }
    assert !Covered(u, c);
    RoundsFromFront(t, cpu, c, value, start, start, end);
  }

  lemma UncoveredIsCandidate(p: Plic, c: nat, value: nat, start: nat, end: nat, i: nat)
    requires PlicOk(p) && c < |p.threshold| && start <= i < end <= |p.priority| && Uncovers(p, c, value, start, i)
    ensures Candidate(Switched(p, c, value, start, end), c, i)
  {
  }

  /** Writing an enable word can never lose a wake-up, whatever the lines and queues were, exactly when it is safe in
      the sense above. */
  lemma EnableExact(s: Sys, cpu: nat, c: nat, value: nat, start: nat, end: nat)
    requires SysOk(s) && SMode(s.plic, c) && start <= end <= |s.plic.priority|
    ensures EnableSafe(s, cpu, c, value, start, end) <==>
      forall t: Sys | SamePlic(s, t) && NoLostWakeup(t) ::
        NoLostWakeup(WriteEnable(t, cpu, c, value, start, start, end))
  {
    if EnableSafe(s, cpu, c, value, start, end) {
      forall t: Sys | SamePlic(s, t) && NoLostWakeup(t)
        ensures NoLostWakeup(WriteEnable(t, cpu, c, value, start, start, end))
      {
        assert EnableSafe(t, cpu, c, value, start, end);
        EnableKeeps(t, cpu, c, value, start, end);
      }
    } else {
      var t := LostByEnable(s, cpu, c, value, start, end);
    }
  }
}
