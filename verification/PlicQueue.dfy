/** Events that others queue while an operation of the virtual PLIC is under way.  The queues have locks of their own,
    so such an event can come before one that the operation itself queues later.  Only the order in a queue can differ
    then, and no wake-up depends on it. */
module PlicQueue {
  import opened PlicSpec
  import opened PlicWakeup

  /** In `f` there is one event more in the queue of `t`, anywhere. */
  ghost predicate Beside(s: Sys, f: Sys, t: nat, event: nat)
  {
    && SysOk(s) && SysOk(f) && t in s.cpus
    && f == s.(events := f.events)
    && (forall h | h in s.cpus && h != t :: f.events[h] == s.events[h])
    && multiset(f.events[t]) == multiset(s.events[t]) + multiset{event}
  }

  lemma QueueIsBeside(s: Sys, t: nat, event: nat)
    requires SysOk(s) && t in s.cpus && event != SHUTDOWN
    ensures Beside(s, Step(s, Queue(t, event)).sys, t, event)
  {
  }

  lemma UpdateBeside(s: Sys, f: Sys, cpu: nat, c: nat, t: nat, event: nat)
    requires Beside(s, f, t, event) && c < |s.plic.threshold|
    ensures Beside(UpdateLine(s, cpu, c), UpdateLine(f, cpu, c), t, event)
  {
  }

  lemma {:induction false} RefreshBeside(s: Sys, f: Sys, cpu: nat, irq: nat, above: bool, c: nat, t: nat, event: nat)
    requires Beside(s, f, t, event) && irq < |s.plic.priority| && c <= |s.plic.threshold|
    ensures Beside(Refresh(s, cpu, irq, above, c), Refresh(f, cpu, irq, above, c), t, event)
    decreases |s.plic.threshold| - c
  {
    if c < |s.plic.threshold| {
      UpdateBeside(s, f, cpu, c, t, event);
      RefreshBeside(RefreshOne(s, cpu, irq, above, c), RefreshOne(f, cpu, irq, above, c), cpu, irq, above, c + 1, t,
          event);
    }
  }

  lemma EnableBeside(s: Sys, f: Sys, cpu: nat, c: nat, irq: nat, on: bool, t: nat, event: nat)
    requires Beside(s, f, t, event) && irq < |s.plic.priority| && c < |s.plic.threshold|
    ensures Beside(EnableOne(s, cpu, c, irq, on), EnableOne(f, cpu, c, irq, on), t, event)
  {
    var p := SetEnable(s.plic, c, irq, on);
    UpdateBeside(WithPlic(s, p), WithPlic(f, p), cpu, c, t, event);
  }

  lemma {:induction false} WriteBeside(l: EnableLoop, f: EnableLoop, t: nat, event: nat)
    requires InLoop(l) && Beside(l.s, f.s, t, event) && f == l.(s := f.s, result := f.result)
    ensures Beside(l.result, f.result, t, event)
    decreases l.end - l.irq
  {
    if l.irq < l.end {
      var on := Bit(l.value, l.irq - l.start);
      EnableBeside(l.s, f.s, l.cpu, l.c, l.irq, on, t, event);
      WriteBeside(NextRound(l, EnableOne(l.s, l.cpu, l.c, l.irq, on)),
          NextRound(f, EnableOne(f.s, f.cpu, f.c, f.irq, on)),
                  t, event);
    } else {
      LoopEnds(l);
      LoopEnds(f);
    }
  }

  lemma BesideCovers(s: Sys, f: Sys, t: nat, event: nat)
    requires Beside(s, f, t, event) && NoLostWakeup(s)
    ensures NoLostWakeup(f)
  {
    forall h | h in s.cpus && UPDATE_HART_LINE in s.events[h]
      ensures UPDATE_HART_LINE in f.events[h]
    {
      assert UPDATE_HART_LINE in multiset(s.events[h]);
      assert UPDATE_HART_LINE in multiset(f.events[h]);
    }
    forall c: nat | SMode(f.plic, c)
      ensures Covered(f, c)
    {
      assert Covered(s, c);
    }
  }

  /** Whatever is queued at any point of the loop over the contexts: if the loop as one step loses no wake-up, it
      loses none now, and the rest of the machine is the same. */
  lemma QueueInRefresh(s: Sys, cpu: nat, irq: nat, above: bool, c: nat, t: nat, event: nat)
    requires SysOk(s) && t in s.cpus && event != SHUTDOWN && irq < |s.plic.priority| && c <= |s.plic.threshold|
    requires NoLostWakeup(Refresh(s, cpu, irq, above, c))
    ensures var f := Refresh(Step(s, Queue(t, event)).sys, cpu, irq, above, c);
            NoLostWakeup(f) && Beside(Refresh(s, cpu, irq, above, c), f, t, event)
  {
    QueueIsBeside(s, t, event);
    RefreshBeside(s, Step(s, Queue(t, event)).sys, cpu, irq, above, c, t, event);
    BesideCovers(Refresh(s, cpu, irq, above, c), Refresh(Step(s, Queue(t, event)).sys, cpu, irq, above, c), t, event);
  }

  /** The same between two rounds of an enable write. */
  lemma QueueInWrite(l: EnableLoop, f: EnableLoop, t: nat, event: nat)
    requires InLoop(l) && t in l.s.cpus && event != SHUTDOWN
    requires f == l.(s := Step(l.s, Queue(t, event)).sys, result := f.result) && NoLostWakeup(l.result)
    ensures NoLostWakeup(f.result) && Beside(l.result, f.result, t, event)
  {
    QueueIsBeside(l.s, t, event);
    WriteBeside(l, f, t, event);
    BesideCovers(l.result, f.result, t, event);
  }
}
