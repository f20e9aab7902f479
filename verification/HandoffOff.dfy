/** What PSCI SYSTEM_OFF (src/arch/aarch64/trap.rs) does to the hand-off.  It sends a shutdown event to the other CPUs
    of the caller's zone, which discards their queued injections, but takes no lock and leaves `VIRTIO_IRQS` alone. */
module HandoffOff {
  import opened Options
  import opened VirtioHandoff

  /** One round of the loop: the shutdown event goes to CPU `t`. */
  function SwitchedOff(s: State, t: nat): (s': State)
    requires Shape(s) && t < |s.cpus|
    ensures Shape(s') && |s'.cpus| == |s.cpus|
  {
    s.(cpus := s.cpus[t := AddEvent(s.cpus[t], Shutdown)])
  }

  /** CPU `t` has interrupts listed that nobody will look at. */
  predicate Unheard(s: State, t: nat)
    requires Shape(s) && t < |s.cpus|
  {
    Pending(s.cpus[t]) && !Covered(s, t)
  }

  /** The round keeps the promises of the hand-off exactly when nothing is listed for the CPU, its handler is already on
      the way, or the lock holder is between its two steps on that CPU. */
  lemma OffExact(s: State, t: nat)
    requires Inv(s) && t < |s.cpus|
    ensures Inv(SwitchedOff(s, t)) <==>
            Pending(s.cpus[t]) ==>
              InFlight(s.cpus[t].pc) || (s.lock.Some? && Serving(s.cpus[s.lock.value].pc, t))
    ensures Inv(SwitchedOff(s, t)) <==> !Unheard(SwitchedOff(s, t), t)
  {
    var s' := SwitchedOff(s, t);
    assert Rest(s'.cpus[t]) == Rest(s.cpus[t]);
    if !Unheard(s', t) {
      ChangeKeeps(s, s', t);
    }
  }

  predicate Locked(s: State)
  {
    forall c: nat | c < |s.cpus| :: Holding(s.cpus[c].pc) <==> s.lock == Some(c)
  }

  /** The step lists a new interrupt for CPU `t`, or is part of a shutdown of its zone. */
  predicate Serves(s: State, a: Action, t: nat)
    requires Shape(s) && t < |s.cpus|
  {
    a.Go? && a.c < |s.cpus| &&
    match s.cpus[a.c].pc
    case DCheck(u, irq) => u == t && IsNew(s.cpus[t], irq)
    case SSend(cpus, k) => k < |cpus| && cpus[k] == t
    case _ => false
  }

  /** The CPU is as unheard as before, with the same list and nothing more injected. */
  predicate NoNews(s: State, s': State, t: nat)
    requires Shape(s) && Shape(s') && t < |s.cpus|
  {
    && |s'.cpus| == |s.cpus| && Locked(s') && Unheard(s', t)
    && s'.cpus[t].list == s.cpus[t].list && s'.cpus[t].injected == s.cpus[t].injected
  }

  predicate Waiting(s: State, t: nat)
    requires Shape(s)
  {
    t < |s.cpus| && Locked(s) && Unheard(s, t)
  }

  /** A change to one CPU's record. */
  lemma ChangeUnheard(s: State, s': State, c: nat, t: nat)
    requires Shape(s) && Shape(s') && Waiting(s, t) && OneChanges(s, s', c)
    requires Holding(s'.cpus[c].pc) <==> s'.lock == Some(c)
    requires !Serving(s'.cpus[c].pc, t)
    requires c == t ==>
               && s'.cpus[c].list == s.cpus[c].list && s'.cpus[c].injected == s.cpus[c].injected
               && !InFlight(s'.cpus[c].pc) && Inject !in s'.cpus[c].events
    ensures NoNews(s, s', t)
  {
  }

  lemma HandlerUnheard(s: State, c: nat, t: nat)
    requires Shape(s) && Waiting(s, t) && c < |s.cpus| && GoHandler(s, c).Some?
    ensures NoNews(s, GoHandler(s, c).value, t)
  {
    ChangeUnheard(s, GoHandler(s, c).value, c, t);
  }

  /** The lock holder `c` changes the record of `u` and goes on. */
  lemma HolderUnheard(s: State, c: nat, pc: Pc, u: nat, cpu: Cpu, t: nat)
    requires Shape(s) && Waiting(s, t) && c < |s.cpus| && u < |s.cpus| && ListShape(cpu.list) && cpu.pc == s.cpus[u].pc
    requires Holding(s.cpus[c].pc) && Holding(pc) && !InFlight(pc) && !Serving(pc, t)
    requires u == t ==> cpu.list == s.cpus[u].list && cpu.injected == s.cpus[u].injected && Inject !in cpu.events
    ensures NoNews(s, Goto(s.(cpus := s.cpus[u := cpu]), c, pc), t)
  {
    var s1 := s.(cpus := s.cpus[u := cpu]);
    ChangeUnheard(s, s1, u, t);
    ChangeUnheard(s1, Goto(s1, c, pc), c, t);
  }

  lemma DrainUnheard(s: State, c: nat, t: nat)
    requires Shape(s) && Waiting(s, t) && c < |s.cpus| && GoDrain(s, c).Some? && !Serves(s, Go(c), t)
    ensures NoNews(s, GoDrain(s, c).value, t)
  {
    match s.cpus[c].pc
    case DLock =>
      ChangeUnheard(s, GoDrain(s, c).value, c, t);
    case DCheck(u, irq) =>
      var target := s.cpus[u];
      if !IsNew(target, irq) {
        HolderUnheard(s, c, DNext, u, target.(list := Some(EntryOf(target))), t);
      } else if HasRoom(target) {
        HolderUnheard(s, c, DSend(u), u, Append(target, irq), t);
      } else {
        ChangeUnheard(s, Goto(s, c, Dead), c, t);
      }
    case DSend(u) =>
      assert u != t;
      HolderUnheard(s, c, DNext, u, AddEvent(s.cpus[u], Inject), t);
  }

  lemma ShutdownUnheard(s: State, c: nat, t: nat)
    requires Shape(s) && Waiting(s, t) && c < |s.cpus| && GoShutdown(s, c).Some? && !Serves(s, Go(c), t)
    ensures NoNews(s, GoShutdown(s, c).value, t)
  {
    var pc := s.cpus[c].pc;
    if pc == ZWait || pc == ZHold || pc.SLock? || pc.SZone? || pc.k >= |pc.cpus| {
      ChangeUnheard(s, GoShutdown(s, c).value, c, t);
    } else if pc.SSend? {
      SendUnheard(s, c, t);
    } else {
      RoundUnheard(s, c, t);
    }
  }

  lemma RoundUnheard(s: State, c: nat, t: nat)
    requires Shape(s) && Waiting(s, t) && c < |s.cpus| && GoShutdown(s, c).Some?
    requires (s.cpus[c].pc.SZero? || s.cpus[c].pc.SClear?) && s.cpus[c].pc.k < |s.cpus[c].pc.cpus|
    ensures NoNews(s, GoShutdown(s, c).value, t)
  {
    match s.cpus[c].pc
    case SZero(cpus, k) =>
      assert cpus[k] != t;
      HolderUnheard(s, c, SSend(cpus, k + 1), cpus[k], Reset(s.cpus[cpus[k]]), t);
    case SClear(cpus, k) =>
      HolderUnheard(s, c, SClear(cpus, k + 1), cpus[k], s.cpus[cpus[k]].(events := []), t);
  }

  lemma SendUnheard(s: State, c: nat, t: nat)
    requires Shape(s) && Waiting(s, t) && c < |s.cpus| && GoShutdown(s, c).Some? && !Serves(s, Go(c), t)
    requires s.cpus[c].pc.SSend? && s.cpus[c].pc.k < |s.cpus[c].pc.cpus|
    ensures NoNews(s, GoShutdown(s, c).value, t)
  {
    var cpus, k := s.cpus[c].pc.cpus, s.cpus[c].pc.k;
    var u := cpus[k];
    HolderUnheard(s, c, SZero(cpus, k), u, AddEvent(s.cpus[u], Shutdown), t);
    assert GoShutdown(s, c).value == Goto(s.(cpus := s.cpus[u := AddEvent(s.cpus[u], Shutdown)]), c, SZero(cpus, k));
  }

  lemma CallUnheard(s: State, a: Action, t: nat)
    requires Shape(s) && Waiting(s, t) && Valid(s, a) && Step(s, a).Some? && !a.Go?
    ensures NoNews(s, Step(s, a).value, t)
  {
    ChangeUnheard(s, Step(s, a).value, if a.Send? then a.to else a.c, t);
  }

  /** Any other step leaves the CPU unheard: in particular a response for an interrupt that is still listed. */
  lemma StepUnheard(s: State, a: Action, t: nat)
    requires Shape(s) && Waiting(s, t) && !Serves(s, a, t)
    ensures NoNews(s, Next(s, a), t)
  {
    if Valid(s, a) && Step(s, a).Some? {
      if !a.Go? {
        CallUnheard(s, a, t);
      } else if GoHandler(s, a.c).Some? {
        HandlerUnheard(s, a.c, t);
      } else if GoDrain(s, a.c).Some? {
        DrainUnheard(s, a.c, t);
      } else {
        ShutdownUnheard(s, a.c, t);
      }
    }
  }

  ghost predicate NeverServes(s: State, actions: seq<Action>, t: nat)
    requires Shape(s) && t < |s.cpus|
    decreases |actions|
  {
    actions == [] ||
    (!Serves(s, actions[0], t) &&
     (t < |Next(s, actions[0]).cpus| ==> NeverServes(Next(s, actions[0]), actions[1..], t)))
  }

  /** So nothing listed is injected until a new interrupt is listed for the CPU or its zone is shut down. */
  lemma {:induction false} RunUnheard(s: State, actions: seq<Action>, t: nat)
    requires Shape(s) && Waiting(s, t) && NeverServes(s, actions, t)
    ensures NoNews(s, Exec(s, actions), t)
    decreases |actions|
  {
    if actions != [] {
      StepUnheard(s, actions[0], t);
      RunUnheard(Next(s, actions[0]), actions[1..], t);
    }
  }

  /** The loop over the CPUs of the zone, which leaves out the caller. */
  function OffAll(s: State, caller: nat, cpus: seq<nat>): State
    requires Shape(s) && forall i: nat | i < |cpus| :: cpus[i] < |s.cpus|
    decreases |cpus|
  {
    if cpus == [] then s else OffAll(if cpus[0] == caller then s else SwitchedOff(s, cpus[0]), caller, cpus[1..])
  }

  /** The loss is reached from the initial state: CPU 0 lists an interrupt for CPU 1, and CPU 2 of the same zone calls
      SYSTEM_OFF. */
  lemma OffLoses(n: nat, irq: nat)
    requires n >= 3
    ensures var s := Exec(Initial(n), [CallInject(0), Go(0)] + OneResponse(1, irq));
            && Inv(s) && |s.cpus| == n && s.cpus[2].pc == Guest
            && OffAll(s, 2, [1, 2]) == SwitchedOff(s, 1) && Waiting(SwitchedOff(s, 1), 1)
  {
    InitialHolds(n);
    RunKeeps(Initial(n), [CallInject(0), Go(0)] + OneResponse(1, irq));
    ExecConcat(Initial(n), [CallInject(0), Go(0)], OneResponse(1, irq));
    SceneInjected(Initial(n), irq);
    BystanderStays(Initial(n), irq);
    var s := Exec(Initial(n), [CallInject(0), Go(0)] + OneResponse(1, irq));
    assert [1, 2][1..] == [2] && [2][1..] == [];
    assert OffAll(s, 2, [1, 2]) == OffAll(SwitchedOff(s, 1), 2, [2]) == OffAll(SwitchedOff(s, 1), 2, []);
  }

  lemma BystanderStays(s: State, irq: nat)
    requires Shape(s) && |s.cpus| >= 3 && s.cpus[2].pc == Guest
    ensures var t := Exec(Exec(s, [CallInject(0), Go(0)]), OneResponse(1, irq)); |t.cpus| >= 3 && t.cpus[2].pc == Guest
  {
    ExecTwo(s, CallInject(0), Go(0));
    var s2 := Exec(s, [CallInject(0), Go(0)]);
    StepBystander(s, CallInject(0));
    StepBystander(Next(s, CallInject(0)), Go(0));
    ExecThree(s2, Respond(0, 1, irq), Go(0), Go(0));
    StepBystander(s2, Respond(0, 1, irq));
    StepBystander(Next(s2, Respond(0, 1, irq)), Go(0));
    StepBystander(Next(Next(s2, Respond(0, 1, irq)), Go(0)), Go(0));
  }

  lemma StepBystander(s: State, a: Action)
    requires Shape(s) && |s.cpus| >= 3 && s.cpus[2].pc == Guest
    requires a == CallInject(0) || a == Go(0) || (a.Respond? && a.c == 0)
    ensures |Next(s, a).cpus| == |s.cpus| && Next(s, a).cpus[2].pc == Guest
  {
    if Valid(s, a) && Step(s, a).Some? {
      SameCpus(s, a);
    }
  }
}
