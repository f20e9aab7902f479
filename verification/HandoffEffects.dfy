/** What the hand-off of virtio interrupts does, seen from outside: each response, each injection event and each shutdown
    with its whole effect, and that nobody comes between the steps of the one that holds the lock of `VIRTIO_IRQS`. */
module HandoffEffects {
  import opened Options
  import opened VirtioHandoff

  /** The interrupts listed for a CPU and not yet injected. */
  function Outstanding(t: Cpu): seq<nat>
    requires ListShape(t.list)
  {
    if t.list.None? then [] else t.list.value[1..1 + t.list.value[0]]
  }

  /** `n` steps of CPU `c` in a row. */
  function Steps(c: nat, n: nat): (actions: seq<Action>)
    ensures |actions| == n
  {
    if n == 0 then [] else [Go(c)] + Steps(c, n - 1)
  }

  lemma OneStep(s: State, c: nat, n: nat)
    requires Shape(s) && n > 0
    ensures Exec(s, Steps(c, n)) == Exec(Next(s, Go(c)), Steps(c, n - 1))
  {
    assert Steps(c, n)[1..] == Steps(c, n - 1);
  }

  // A response.

  /** A response for an interrupt that is listed changes nothing; one for another, while fewer than three are listed, is
      accepted: it is listed at the end, counted once, and one more injection event is queued; with three listed the
      assertion fails. */
  ghost predicate ResponseIs(s: State, s': State, c: nat, t: nat, irq: nat)
    requires Shape(s) && Shape(s') && c < |s.cpus| && t < |s.cpus|
  {
    var target := s.cpus[t];
    && |s'.cpus| == |s.cpus| && s'.lock == s.lock
    && if irq in Outstanding(target) then
         && s'.cpus == s.cpus[t := target.(list := s'.cpus[t].list)]
         && Outstanding(s'.cpus[t]) == Outstanding(target)
       else if |Outstanding(target)| < 3 then
         && s'.cpus == s.cpus[t := target.(list := s'.cpus[t].list, accepted := target.accepted + multiset{irq},
                                           events := target.events + [Inject])]
         && Outstanding(s'.cpus[t]) == Outstanding(target) + [irq]
       else s'.cpus == s.cpus[c := s.cpus[c].(pc := Dead)]
  }

  lemma CheckAppends(s: State, c: nat, t: nat, irq: nat)
    requires Shape(s) && c < |s.cpus| && t < |s.cpus| && s.cpus[c].pc == DCheck(t, irq)
    requires irq !in Outstanding(s.cpus[t]) && |Outstanding(s.cpus[t])| < 3
    ensures HasRoom(s.cpus[t])
    ensures Next(s, Go(c)) == Goto(s.(cpus := s.cpus[t := Append(s.cpus[t], irq)]), c, DSend(t))
  {
    assert Listed(EntryOf(s.cpus[t])) == Outstanding(s.cpus[t]);
  }

  lemma SendQueues(s: State, c: nat, t: nat)
    requires Shape(s) && c < |s.cpus| && t < |s.cpus| && s.cpus[c].pc == DSend(t)
    ensures Next(s, Go(c)) == Goto(s.(cpus := s.cpus[t := AddEvent(s.cpus[t], Inject)]), c, DNext)
  {
  }

  lemma Appended(t: Cpu, irq: nat)
    requires ListShape(t.list) && HasRoom(t)
    ensures Outstanding(Append(t, irq)) == Outstanding(t) + [irq]
    ensures Append(t, irq) == t.(list := Append(t, irq).list, accepted := t.accepted + multiset{irq})
  {
    ListedAppend(t, irq);
    assert Listed(EntryOf(t)) == Outstanding(t);
    assert Listed(Append(t, irq).list.value) == Outstanding(Append(t, irq));
  }

  /** Put into the list, and the event queued. */
  lemma TwoMore(s: State, c: nat, t: nat, irq: nat)
    requires Shape(s) && c < |s.cpus| && t < |s.cpus| && s.cpus[c].pc == DCheck(t, irq)
    requires irq !in Outstanding(s.cpus[t]) && |Outstanding(s.cpus[t])| < 3
    ensures ResponseIs(Goto(s, c, DNext), Next(Next(s, Go(c)), Go(c)), c, t, irq)
  {
    CheckAppends(s, c, t, irq);
    Appended(s.cpus[t], irq);
    SendQueues(Next(s, Go(c)), c, t);
  }

  /** Listed already, or no room. */
  lemma OneMore(s: State, c: nat, t: nat, irq: nat)
    requires Shape(s) && c < |s.cpus| && t < |s.cpus| && s.cpus[c].pc == DCheck(t, irq)
    requires irq in Outstanding(s.cpus[t]) || |Outstanding(s.cpus[t])| >= 3
    ensures ResponseIs(Goto(s, c, DNext), Next(Next(s, Go(c)), Go(c)), c, t, irq)
  {
    var target := s.cpus[t];
    assert Listed(EntryOf(target)) == Outstanding(target);
    var s1 := if irq in Outstanding(target)
              then Goto(s.(cpus := s.cpus[t := target.(list := Some(EntryOf(target)))]), c, DNext)
              else Goto(s, c, Dead);
    assert Next(s, Go(c)) == s1;
    assert Next(s1, Go(c)) == s1;
  }

  lemma ResponseExact(s: State, c: nat, t: nat, irq: nat)
    requires Shape(s) && c < |s.cpus| && t < |s.cpus| && s.cpus[c].pc == DNext
    ensures ResponseIs(s, Exec(Next(s, Respond(c, t, irq)), Steps(c, 2)), c, t, irq)
  {
    var s1 := Goto(s, c, DCheck(t, irq));
    assert Next(s, Respond(c, t, irq)) == s1;
    assert Goto(s1, c, DNext) == s;
    OneStep(s1, c, 2);
    OneStep(Next(s1, Go(c)), c, 1);
    assert Outstanding(s1.cpus[t]) == Outstanding(s.cpus[t]);
    if irq in Outstanding(s.cpus[t]) || |Outstanding(s.cpus[t])| >= 3 {
      OneMore(s1, c, t, irq);
    } else {
      TwoMore(s1, c, t, irq);
    }
  }

  // An injection event.

  /** The handler after `k` injections: exactly the first `k` listed interrupts, in their order. */
  ghost predicate HandledUpTo(s: State, s': State, c: nat, k: nat)
    requires Shape(s) && c < |s.cpus| && k <= |Outstanding(s.cpus[c])|
  {
    var me := s.cpus[c];
    s' == State(s.cpus[c := me.(pc := HInject(k + 1), injected := me.injected + multiset(Outstanding(me)[..k]))],
                Some(c))
  }

  lemma {:induction false} HandlerInjects(s: State, c: nat, k: nat)
    requires Shape(s) && c < |s.cpus| && s.cpus[c].pc == HLock && s.lock.None? && s.cpus[c].list.Some?
    requires k <= |Outstanding(s.cpus[c])|
    ensures HandledUpTo(s, Exec(s, Steps(c, k + 1)), c, k)
  {
    if k == 0 {
      OneStep(s, c, 1);
      assert Next(s, Go(c)) == Goto(s.(lock := Some(c)), c, HInject(1));
      assert s.cpus[c].injected + multiset(Outstanding(s.cpus[c])[..0]) == s.cpus[c].injected;
    } else {
      HandlerInjects(s, c, k - 1);
      StepsThenOne(s, c, k);
      InjectsNext(s, Exec(s, Steps(c, k)), c, k);
    }
  }

  lemma InjectsNext(s: State, s': State, c: nat, k: nat)
    requires Shape(s) && Shape(s') && c < |s.cpus| && s.cpus[c].list.Some?
    requires 0 < k <= |Outstanding(s.cpus[c])| && HandledUpTo(s, s', c, k - 1)
    ensures HandledUpTo(s, Next(s', Go(c)), c, k)
  {
    var me, me' := s.cpus[c], s'.cpus[c];
    var listed := Outstanding(me);
    assert listed[..k] == listed[..k - 1] + [listed[k - 1]];
    assert me'.list.value[k] == listed[k - 1];
    var after := me'.(pc := HInject(k + 1), injected := me'.injected + multiset{listed[k - 1]});
    assert Next(s', Go(c)) == s'.(cpus := s'.cpus[c := after]);
    assert after.injected == me.injected + multiset(listed[..k]);
  }

  lemma {:induction false} StepsThenOne(s: State, c: nat, n: nat)
    requires Shape(s)
    ensures Exec(s, Steps(c, n + 1)) == Next(Exec(s, Steps(c, n)), Go(c))
    decreases n
  {
    OneStep(s, c, n + 1);
    if n > 0 {
      OneStep(s, c, n);
      StepsThenOne(Next(s, Go(c)), c, n - 1);
    } else {
      assert Steps(c, 0) == [];
    }
  }

  /** A CPU that takes an injection event injects exactly what is listed for it, and leaves an empty list, a free lock
      and everything else as it was. */
  ghost predicate EventIs(s: State, s': State, c: nat)
    requires Shape(s) && Shape(s') && c < |s.cpus| && s.cpus[c].events != []
  {
    var me := s.cpus[c];
    && |s'.cpus| == |s.cpus| && s'.lock.None?
    && s'.cpus == s.cpus[c := me.(events := me.events[1..], list := s'.cpus[c].list,
                                  injected := me.injected + multiset(Outstanding(me)))]
    && Outstanding(s'.cpus[c]) == []
  }

  lemma {:induction false} EventExact(s: State, c: nat)
    requires Shape(s) && c < |s.cpus| && s.cpus[c].pc == Guest && s.lock.None? && s.cpus[c].list.Some?
    requires s.cpus[c].events != [] && s.cpus[c].events[0] == Inject
    ensures EventIs(s, Exec(Next(s, Fetch(c)), Steps(c, |Outstanding(s.cpus[c])| + 3)), c)
  {
    var s1 := Next(s, Fetch(c));
    var n := |Outstanding(s.cpus[c])|;
    assert Outstanding(s1.cpus[c]) == Outstanding(s.cpus[c]);
    HandlerInjects(s1, c, n);
    StepsThenOne(s1, c, n + 1);
    StepsThenOne(s1, c, n + 2);
    assert Outstanding(s.cpus[c])[..n] == Outstanding(s.cpus[c]);
  }

  /** Every other event takes the CPU back to its guest and nothing else. */
  lemma OtherEvent(s: State, c: nat)
    requires Shape(s) && c < |s.cpus| && s.cpus[c].pc == Guest
    requires s.cpus[c].events != [] && s.cpus[c].events[0] != Inject
    ensures Next(s, Fetch(c)) == s.(cpus := s.cpus[c := s.cpus[c].(events := s.cpus[c].events[1..])])
  {
  }

  // A shutdown.

  /** The CPU has only its shutdown event left, and what was listed for it counts as discarded. */
  ghost predicate ToldToStop(cpu: Cpu, cpu': Cpu)
    requires ListShape(cpu.list)
  {
    && ListShape(cpu'.list) && Outstanding(cpu') == []
    && cpu' == cpu.(pc := cpu'.pc, list := cpu'.list, events := [Shutdown],
                    dropped := cpu.dropped + multiset(Outstanding(cpu)))
  }

  /** The CPUs `told` have been told to stop, and the others are as they were; only `c` has moved. */
  ghost predicate Told(s: State, s': State, c: nat, told: seq<nat>)
    requires Shape(s)
  {
    && |s'.cpus| == |s.cpus|
    && (forall d: nat | d < |s.cpus| ::
          && (d != c ==> s'.cpus[d].pc == s.cpus[d].pc)
          && if d in told then ToldToStop(s.cpus[d], s'.cpus[d])
             else s'.cpus[d] == s.cpus[d].(pc := s'.cpus[d].pc))
  }

  lemma TellsOne(s: State, s': State, c: nat, cpus: seq<nat>, k: nat)
    requires Shape(s) && Shape(s') && c < |s.cpus| && k < |cpus| && Told(s, s', c, cpus[..k])
    requires forall i: nat | i < |cpus| :: cpus[i] < |s.cpus|
    requires s'.cpus[c].pc == SSend(cpus, k)
    ensures var s2 := Next(Next(s', Go(c)), Go(c));
            Told(s, s2, c, cpus[..k + 1]) && s2.cpus[c].pc == SSend(cpus, k + 1) && s2.lock == s'.lock
  {
    var s2 := TwoSteps(s', c, cpus, k);
    var t := cpus[k];
    assert cpus[..k + 1] == cpus[..k] + [t];
    TellsAgain(s.cpus[t], s'.cpus[t], s2.cpus[t], t in cpus[..k]);
    forall d: nat | d < |s.cpus| && d != t
      ensures s2.cpus[d] == s'.cpus[d].(pc := s2.cpus[d].pc)
    {
    }
  }

  lemma TwoSteps(s: State, c: nat, cpus: seq<nat>, k: nat) returns (s2: State)
    requires Shape(s) && c < |s.cpus| && k < |cpus| && cpus[k] < |s.cpus| && s.cpus[c].pc == SSend(cpus, k)
    ensures s2 == Next(Next(s, Go(c)), Go(c)) && |s2.cpus| == |s.cpus| && s2.lock == s.lock
    ensures s2.cpus[c].pc == SSend(cpus, k + 1)
    ensures s2.cpus[cpus[k]] == Reset(AddEvent(s.cpus[cpus[k]], Shutdown)).(pc := s2.cpus[cpus[k]].pc)
    ensures forall d: nat | d < |s.cpus| && d != c :: s2.cpus[d].pc == s.cpus[d].pc
    ensures forall d: nat | d < |s.cpus| && d != cpus[k] :: s2.cpus[d] == s.cpus[d].(pc := s2.cpus[d].pc)
  {
    var s1 := Next(s, Go(c));
    SendTells(s, c, cpus, k);
    s2 := Next(s1, Go(c));
    ZeroTells(s1, c, cpus, k);
  }

  lemma SendTells(s: State, c: nat, cpus: seq<nat>, k: nat)
    requires Shape(s) && c < |s.cpus| && k < |cpus| && cpus[k] < |s.cpus| && s.cpus[c].pc == SSend(cpus, k)
    ensures var s1 := Goto(s, c, SZero(cpus, k));
            Next(s, Go(c)) == s1.(cpus := s1.cpus[cpus[k] := AddEvent(s1.cpus[cpus[k]], Shutdown)])
  {
  }

  lemma ZeroTells(s: State, c: nat, cpus: seq<nat>, k: nat)
    requires Shape(s) && c < |s.cpus| && k < |cpus| && cpus[k] < |s.cpus| && s.cpus[c].pc == SZero(cpus, k)
    ensures Next(s, Go(c)) ==
      Goto(s.(cpus := s.cpus[cpus[k] := Reset(s.cpus[cpus[k]])]), c, SSend(cpus, k + 1))
  {
  }

  lemma TellsAgain(cpu: Cpu, before: Cpu, after: Cpu, again: bool)
    requires ListShape(cpu.list) && ListShape(before.list)
    requires if again then ToldToStop(cpu, before) else before == cpu.(pc := before.pc)
    requires after == Reset(AddEvent(before, Shutdown)).(pc := after.pc)
    ensures ToldToStop(cpu, after)
  {
    assert before.list.Some? ==> Listed(before.list.value) == Outstanding(before);
  }

  lemma {:induction false} TellsAll(s: State, s': State, c: nat, cpus: seq<nat>, k: nat)
    requires Shape(s) && Shape(s') && c < |s.cpus| && k <= |cpus| && Told(s, s', c, cpus[..k])
    requires forall i: nat | i < |cpus| :: cpus[i] < |s.cpus|
    requires s'.cpus[c].pc == SSend(cpus, k)
    ensures var s2 := Exec(s', Steps(c, 2 * (|cpus| - k) + 1));
            Told(s, s2, c, cpus) && s2.cpus[c].pc == SWait(cpus) && s2.lock == s'.lock
    decreases |cpus| - k
  {
    var n := 2 * (|cpus| - k) + 1;
    OneStep(s', c, n);
    if k < |cpus| {
      TellsOne(s, s', c, cpus, k);
      OneStep(Next(s', Go(c)), c, n - 1);
      TellsAll(s, Next(Next(s', Go(c)), Go(c)), c, cpus, k + 1);
    } else {
      assert cpus[..k] == cpus;
    }
  }

  /** A shutdown that finds both locks free gets to its wait with the lock of `VIRTIO_IRQS`; by then all CPUs of the zone
      have been told to stop, and nothing else has changed. */
  lemma ShutdownExact(s: State, c: nat, cpus: seq<nat>)
    requires Shape(s) && c < |s.cpus| && s.cpus[c].pc == Guest && s.lock.None? && !ZoneInUse(s, cpus)
    requires forall i: nat | i < |cpus| :: cpus[i] < |s.cpus|
    ensures var s' := Exec(Next(s, CallShutdown(c, cpus)), Steps(c, 2 * |cpus| + 3));
            Told(s, s', c, cpus) && s'.cpus[c].pc == SWait(cpus) && s'.lock == Some(c)
  {
    var n := 2 * |cpus| + 3;
    var s1 := Next(s, CallShutdown(c, cpus));
    assert s1 == Goto(s, c, SLock(cpus));
    OneStep(s1, c, n);
    var s2 := Next(s1, Go(c));
    assert s2 == Goto(s.(lock := Some(c)), c, SZone(cpus));
    OneStep(s2, c, n - 1);
    assert !ZoneInUse(s2, cpus);
    var s3 := Next(s2, Go(c));
    assert s3 == Goto(s.(lock := Some(c)), c, SSend(cpus, 0));
    TellsAll(s, s3, c, cpus, 0);
  }

  // Nobody comes between.

  /** The CPU that acts, if it is one of those that the hand-off is about. */
  predicate ActsOn(a: Action, c: nat)
  {
    !a.Send? && a.c == c
  }

  /** The lists and the accounts of all CPUs are the same. */
  ghost predicate SameLists(s: State, s': State)
  {
    && |s'.cpus| == |s.cpus|
    && (forall d: nat | d < |s.cpus| ::
          s'.cpus[d] == s.cpus[d].(pc := s'.cpus[d].pc, events := s'.cpus[d].events))
  }

  lemma OtherGo(s: State, me: nat, c: nat)
    requires Inv(s) && me < |s.cpus| && s.lock == Some(c) && me != c && Step(s, Go(me)).Some?
    ensures Step(s, Go(me)) == Some(Goto(s, me, if s.cpus[me].pc == ZWait then ZHold else Guest))
  {
    assert !Holding(s.cpus[me].pc);
  }

  /** While `c` holds the lock, no step of anybody else moves `c`, takes the lock, or touches a list. */
  lemma OtherStep(s: State, a: Action, c: nat)
    requires Inv(s) && s.lock == Some(c) && Valid(s, a) && Step(s, a).Some? && !ActsOn(a, c)
    ensures var s' := Step(s, a).value;
            |s'.cpus| == |s.cpus| && s'.cpus[c].pc == s.cpus[c].pc && s'.lock == s.lock && SameLists(s, s')
  {
    assert !a.Send? ==> !Holding(s.cpus[a.c].pc);
    if a.Go? {
      OtherGo(s, a.c, c);
    }
  }

  /** So the effects above are those of every run: whatever the others do between two steps of the lock holder, the lists
      and the holder stay as its last step left them. */
  lemma {:induction false} HolderUndisturbed(s: State, c: nat, between: seq<Action>)
    requires Inv(s) && s.lock == Some(c) && forall i: nat | i < |between| :: !ActsOn(between[i], c)
    ensures var s' := Exec(s, between);
            |s'.cpus| == |s.cpus| && s'.cpus[c].pc == s.cpus[c].pc && s'.lock == Some(c) && SameLists(s, s')
    decreases |between|
  {
    if between != [] {
      if Valid(s, between[0]) && Step(s, between[0]).Some? {
        OtherStep(s, between[0], c);
        StepKeeps(s, between[0]);
      }
      HolderUndisturbed(Next(s, between[0]), c, between[1..]);
    }
  }
}
