/** GICv3 virtual interrupt injection: the list registers, overflow queue and underflow maintenance interrupt of one CPU
    (src/device/irqchip/gicv3/mod.rs).  List registers are the 64-bit words of ICH_LR<n>_EL2 (Arm IHI 0069). */
module GicInjection {

  /** INTIDs have at most 24 bits (Arm IHI 0069, ICC_IAR1_EL1). */
  type Irq = i: nat | i < 0x100_0000

  // Fields of a list register.

  function VirtualId(w: nat): nat { w % 0x1_0000_0000 }

  function PhysicalId(w: nat): nat { w / 0x1_0000_0000 % 0x2000 }

  function Priority(w: nat): nat { w / 0x1_0000_0000_0000 % 0x100 }

  function EoiBit(w: nat): nat { w / 0x200_0000_0000 % 2 }

  function Group(w: nat): nat { w / 0x1000_0000_0000_0000 % 2 }

  function Hardware(w: nat): nat { w / 0x2000_0000_0000_0000 % 2 }

  /** 0 invalid, 1 pending, 2 active, 3 pending and active. */
  function StateOf(w: nat): nat { w / 0x4000_0000_0000_0000 % 4 }

  /** The bit of ICH_ELRSR_EL2 for this register. */
  predicate Free(w: nat)
  {
    StateOf(w) == 0 && (Hardware(w) == 1 || EoiBit(w) == 0)
  }

  predicate IsSgi(irq: Irq)
  {
    irq < 16
  }

  /** The word that `inject_irq` writes. */
  function LrWord(irq: Irq, hardware: bool): nat
  {
    irq + 0x1000_0000_0000_0000 + 0x4000_0000_0000_0000 +
    if !IsSgi(irq) && hardware then 0x2000_0000_0000_0000 + irq * 0x1_0000_0000 else 0
  }

  /** A written register is occupied and pending for the injected interrupt, in group 1, linked to the physical
      interrupt when that is asked for.  The physical link is exact below 8192 only, and the priority stays 0 below
      65536 only: larger ids run over into the fields above. */
  lemma WordDecodes(irq: Irq, hardware: bool)
    ensures var w := LrWord(irq, hardware);
            && !Free(w) && StateOf(w) == 1 && Group(w) == 1 && VirtualId(w) == irq
            && (Hardware(w) == 1 <==> !IsSgi(irq) && hardware)
            && (Hardware(w) == 1 ==> (PhysicalId(w) == irq <==> irq < 0x2000))
            && (Hardware(w) == 1 ==> (Priority(w) == 0 <==> irq < 0x1_0000))
            && (Hardware(w) == 0 ==> EoiBit(w) == 0 && Priority(w) == 0)
            && w < 0x1_0000_0000_0000_0000
  {
    var w := LrWord(irq, hardware);
    if IsSgi(irq) || !hardware {
      assert w == irq + 0x5000_0000_0000_0000;
    } else {
      LinkedWord(irq, w);
    }
  }

  lemma LinkedWord(irq: Irq, w: nat)
    requires w == irq + irq * 0x1_0000_0000 + 0x7000_0000_0000_0000
    ensures !Free(w) && StateOf(w) == 1 && Group(w) == 1 && VirtualId(w) == irq && Hardware(w) == 1
    ensures PhysicalId(w) == irq % 0x2000 && Priority(w) == irq / 0x1_0000
  {
    assert w / 0x1_0000_0000 == irq + 0x7000_0000;
    assert w / 0x1_0000_0000_0000 == irq / 0x1_0000 + 0x7000;
  }

  datatype State = State(lrs: seq<nat>, queue: seq<(Irq, bool)>, uie: bool)

  /** Some occupied register already holds `irq`. */
  ghost predicate Held(lrs: seq<nat>, irq: nat)
  {
    exists i: nat :: i < |lrs| && !Free(lrs[i]) && VirtualId(lrs[i]) == irq
  }

  /** The lowest free register from `i` on, or the number of registers. */
  function FirstFree(lrs: seq<nat>, i: nat): (k: nat)
    requires i <= |lrs|
    ensures i <= k <= |lrs|
    ensures forall j: nat | i <= j < k :: !Free(lrs[j])
    ensures k < |lrs| ==> Free(lrs[k])
    decreases |lrs| - i
  {
    if i == |lrs| then i else if Free(lrs[i]) then i else FirstFree(lrs, i + 1)
  }

  ghost predicate Full(lrs: seq<nat>)
  {
    forall i: nat | i < |lrs| :: !Free(lrs[i])
  }

  datatype Injection = Injection(state: State, ok: bool)

  ghost function Inject(s: State, irq: Irq, hardware: bool): Injection
  {
    var k := FirstFree(s.lrs, 0);
    if Held(s.lrs, irq) then Injection(s, true)
    else if k == |s.lrs| then Injection(s.(queue := s.queue + [(irq, hardware)], uie := true), false)
    else Injection(s.(lrs := s.lrs[k := LrWord(irq, hardware)]), true)
  }

  /** `handle_maintenace_interrupt`: an interrupt that does not fit is queued by `Inject` and once more afterwards. */
  ghost function Maintain(s: State): State
    decreases |s.queue|
  {
    if s.queue == [] then s.(uie := false)
    else
      var (irq, hardware) := s.queue[0];
      var r := Inject(s.(queue := s.queue[1..]), irq, hardware);
      if r.ok then Maintain(r.state) else r.state.(queue := r.state.queue + [(irq, hardware)], uie := true)
  }

  // The code.

  class CpuInterface {
    var lrs: array<nat>
    var queue: seq<(Irq, bool)>
    var uie: bool

    ghost function Value(): State
      reads this, lrs
    {
      State(lrs[..], queue, uie)
    }

    method InjectIrq(irq: Irq, hardware: bool) returns (ok: bool)
      modifies this`queue, this`uie, lrs
      ensures Injection(Value(), ok) == old(Inject(Value(), irq, hardware))
    {
      ghost var before := lrs[..];
      var free := -1;
      for i := 0 to lrs.Length
        invariant lrs[..] == before && queue == old(queue) && uie == old(uie)
        invariant -1 <= free < i
        invariant free == -1 ==> forall j: nat | j < i :: !Free(lrs[j])
        invariant free >= 0 ==> Free(lrs[free]) && forall j: nat | j < free :: !Free(lrs[j])
        invariant forall j: nat | j < i :: Free(lrs[j]) || VirtualId(lrs[j]) != irq
      {
        if Free(lrs[i]) {
          if free == -1 {
            free := i;
          }
          continue;
        }
        if VirtualId(lrs[i]) == irq {
          assert Held(before, irq) by {
            assert before[i] == lrs[i];
          }
          return true;
        }
      }
      assert !Held(before, irq);
      if free == -1 {
        queue := queue + [(irq, hardware)];
        uie := true;
        return false;
      } else {
        assert FirstFree(before, 0) == free;
        lrs[free] := LrWord(irq, hardware);
        return true;
      }
    }

    method HandleMaintenance()
      modifies this`queue, this`uie, lrs
      ensures Value() == old(Maintain(Value()))
    {
      while queue != []
        invariant Maintain(Value()) == old(Maintain(Value()))
        decreases |queue|
      {
        var (irq, hardware) := queue[0];
        queue := queue[1..];
        var injected := InjectIrq(irq, hardware);
        if !injected {
          queue := queue + [(irq, hardware)];
          uie := true;
          return;
        }
      }
      uie := false;
    }
  }

  // What every step keeps.

  /** A register that is not valid is free: hvisor never asks for an EOI maintenance interrupt. */
  predicate WordOk(w: nat)
  {
    Hardware(w) == 1 || EoiBit(w) == 0
  }

  /** No two occupied registers hold the same interrupt. */
  ghost predicate Unique(lrs: seq<nat>)
  {
    forall i: nat, j: nat | i < j < |lrs| && !Free(lrs[i]) && !Free(lrs[j]) :: VirtualId(lrs[i]) != VirtualId(lrs[j])
  }

  ghost predicate Inv(s: State)
  {
    && (forall i: nat | i < |s.lrs| :: WordOk(s.lrs[i]))
    && Unique(s.lrs)
    && (s.uie <==> s.queue != [])
  }

  ghost predicate Queued(queue: seq<(Irq, bool)>, irq: nat)
  {
    exists i: nat :: i < |queue| && queue[i].0 == irq
  }

  /** `irq` is in a list register or waits in the queue. */
  ghost predicate InSystem(s: State, irq: nat)
  {
    Held(s.lrs, irq) || Queued(s.queue, irq)
  }

  lemma WriteHolds(lrs: seq<nat>, k: nat, irq: Irq, hardware: bool, other: nat)
    requires k < |lrs| && Free(lrs[k])
    ensures Held(lrs[k := LrWord(irq, hardware)], other) <==> Held(lrs, other) || other == irq
  {
    WordDecodes(irq, hardware);
    var lrs' := lrs[k := LrWord(irq, hardware)];
    if other == irq {
      assert !Free(lrs'[k]) && VirtualId(lrs'[k]) == other;
    }
    if Held(lrs, other) {
      var i: nat :| i < |lrs| && !Free(lrs[i]) && VirtualId(lrs[i]) == other;
      assert !Free(lrs'[i]) && VirtualId(lrs'[i]) == other;
    }
  }

  lemma QueueHolds(queue: seq<(Irq, bool)>, e: (Irq, bool), other: nat)
    ensures Queued(queue + [e], other) <==> Queued(queue, other) || other == e.0
    ensures Queued([e] + queue, other) <==> Queued(queue, other) || other == e.0
  {
    var q, p := queue + [e], [e] + queue;
    assert q[|queue|] == e && p[0] == e;
    assert forall i: nat | i < |queue| :: q[i] == queue[i] && p[i + 1] == queue[i];
  }

  /** Injection adds the interrupt and loses none, and keeps the registers distinct. */
  lemma InjectKeeps(s: State, irq: Irq, hardware: bool)
    requires Inv(s)
    ensures Inv(Inject(s, irq, hardware).state)
  {
    WordDecodes(irq, hardware);
  }

  lemma InjectAdds(s: State, irq: Irq, hardware: bool, other: nat)
    ensures InSystem(Inject(s, irq, hardware).state, other) <==> InSystem(s, other) || other == irq
  {
    var k := FirstFree(s.lrs, 0);
    if k < |s.lrs| {
      WriteHolds(s.lrs, k, irq, hardware, other);
    }
    QueueHolds(s.queue, (irq, hardware), other);
  }

  /** The answer says whether the interrupt is in a register. */
  lemma InjectAnswers(s: State, irq: Irq, hardware: bool)
    ensures Inject(s, irq, hardware).ok <==> Held(Inject(s, irq, hardware).state.lrs, irq)
    ensures !Inject(s, irq, hardware).ok ==> Full(s.lrs) && Inject(s, irq, hardware).state.lrs == s.lrs
  {
    var k := FirstFree(s.lrs, 0);
    if k < |s.lrs| {
      WriteHolds(s.lrs, k, irq, hardware, irq);
    }
  }

  // What is written where.

  /** The word shows the interrupt as pending in group 1, and linked to the physical interrupt exactly when that was
      asked for and it is no SGI. */
  predicate Shows(w: nat, irq: Irq, hardware: bool)
  {
    && StateOf(w) == 1 && Group(w) == 1 && VirtualId(w) == irq && !Free(w)
    && (Hardware(w) == 1 <==> hardware && irq >= 16)
    && (hardware && 16 <= irq < 0x2000 ==> PhysicalId(w) == irq)
  }

  /** An injection, register by register: an interrupt that is in a register changes nothing; without a free register
      it goes to the end of the queue with its flag, and the maintenance interrupt is on; otherwise the lowest free
      register shows it, and nothing else changes. */
  lemma InjectExact(s: State, irq: Irq, hardware: bool, k: nat)
    requires k < |s.lrs| ==> Free(s.lrs[k]) && forall j: nat | j < k :: !Free(s.lrs[j])
    requires k >= |s.lrs| ==> Full(s.lrs)
    ensures var (s', ok) := (Inject(s, irq, hardware).state, Inject(s, irq, hardware).ok);
            if Held(s.lrs, irq) then s' == s && ok
            else if k >= |s.lrs| then s' == s.(queue := s.queue + [(irq, hardware)], uie := true) && !ok
            else
              && ok && s' == s.(lrs := s'.lrs) && |s'.lrs| == |s.lrs|
              && (forall j: nat | j < |s.lrs| && j != k :: s'.lrs[j] == s.lrs[j])
              && Shows(s'.lrs[k], irq, hardware)
              && s'.lrs[k] == irq + 0x5000_0000_0000_0000 +
                              (if hardware && irq >= 16 then 0x2000_0000_0000_0000 + irq * 0x1_0000_0000 else 0)
  {
    WordDecodes(irq, hardware);
    assert FirstFree(s.lrs, 0) == k || (k >= |s.lrs| && FirstFree(s.lrs, 0) == |s.lrs|);
  }

  /** The registers after these interrupts have been injected in order, while registers are free. */
  ghost function InjectAll(lrs: seq<nat>, q: seq<(Irq, bool)>): seq<nat>
  {
    if q == [] then lrs
    else
      var (irq, hardware) := q[|q| - 1];
      Inject(State(InjectAll(lrs, q[..|q| - 1]), [], false), irq, hardware).state.lrs
  }

  lemma {:induction false} InjectAllFront(lrs: seq<nat>, q: seq<(Irq, bool)>)
    requires q != []
    ensures InjectAll(lrs, q) == InjectAll(Inject(State(lrs, [], false), q[0].0, q[0].1).state.lrs, q[1..])
  {
    if |q| > 1 {
      InjectAllFront(lrs, q[..|q| - 1]);
      assert q[..|q| - 1][1..] == q[1..][..|q| - 2];
    } else {
      assert q[1..] == [] && q[..0] == [];
    }
  }

  /** The first `m` waiting interrupts went into registers, each with its own flag; the next one, if there is one, fits
      nowhere, and is at the end of the queue, twice. */
  ghost predicate ServedInOrder(s: State, m: nat)
  {
    var s' := Maintain(s);
    && m <= |s.queue| && s'.lrs == InjectAll(s.lrs, s.queue[..m])
    && (m == |s.queue| ==> s'.queue == [] && !s'.uie)
    && (m < |s.queue| ==>
          && Full(s'.lrs) && !Held(s'.lrs, s.queue[m].0)
          && s'.queue == s.queue[m + 1..] + [s.queue[m], s.queue[m]] && s'.uie)
  }

  lemma {:induction false} NextServed(s: State, s1: State, m: nat)
    requires s.queue != [] && s1.queue == s.queue[1..] && ServedInOrder(s1, m) && Maintain(s) == Maintain(s1)
    requires s1.lrs == Inject(State(s.lrs, [], false), s.queue[0].0, s.queue[0].1).state.lrs
    ensures ServedInOrder(s, m + 1)
  {
    InjectAllFront(s.lrs, s.queue[..m + 1]);
    assert s.queue[..m + 1][0] == s.queue[0] && s.queue[..m + 1][1..] == s1.queue[..m];
    if m < |s1.queue| {
      assert s1.queue[m + 1..] == s.queue[m + 2..] && s1.queue[m] == s.queue[m + 1];
    }
  }

  /** A maintenance interrupt serves the queue in its order, until it is empty or the next one fits in no register. */
  lemma {:induction false} MaintainInOrder(s: State) returns (m: nat)
    ensures ServedInOrder(s, m)
    decreases |s.queue|
  {
    if s.queue == [] {
      m := 0;
    } else {
      var (irq, hardware) := s.queue[0];
      var s1 := s.(queue := s.queue[1..]);
      var r := Inject(s1, irq, hardware);
      InjectAnswers(s1, irq, hardware);
      if r.ok {
        m := MaintainInOrder(r.state);
        NextServed(s, r.state, m);
        m := m + 1;
      } else {
        m := 0;
        NoneServed(s);
      }
    }
  }

  lemma {:induction false} NoneServed(s: State)
    requires s.queue != []
    requires !Inject(s.(queue := s.queue[1..]), s.queue[0].0, s.queue[0].1).ok
    ensures ServedInOrder(s, 0)
  {
    var s1 := s.(queue := s.queue[1..]);
    InjectAnswers(s1, s.queue[0].0, s.queue[0].1);
    var q := s.queue[1..] + [s.queue[0]];
    assert q + [s.queue[0]] == s.queue[1..] + [s.queue[0], s.queue[0]];
    assert Maintain(s).queue == q + [s.queue[0]];
  }

  /** Wherever `irq` is, it has this flag: in the registers by the link, in the queue by the entry. */
  ghost predicate Flagged(s: State, irq: Irq, hardware: bool)
  {
    && (forall i: nat | i < |s.lrs| && !Free(s.lrs[i]) && VirtualId(s.lrs[i]) == irq ::
          Hardware(s.lrs[i]) == 1 <==> hardware && irq >= 16)
    && (forall i: nat | i < |s.queue| && s.queue[i].0 == irq :: s.queue[i].1 == hardware)
  }

  lemma InjectFlags(s: State, given: Irq, flag: bool, irq: Irq, hardware: bool)
    requires Flagged(s, irq, hardware) && (given == irq ==> flag == hardware)
    ensures Flagged(Inject(s, given, flag).state, irq, hardware)
  {
    WordDecodes(given, flag);
  }

  lemma {:induction false} MaintainFlags(s: State, irq: Irq, hardware: bool)
    requires Flagged(s, irq, hardware)
    ensures Flagged(Maintain(s), irq, hardware)
    decreases |s.queue|
  {
    if s.queue != [] {
      var (head, flag) := s.queue[0];
      var s1 := s.(queue := s.queue[1..]);
      assert forall i: nat | i < |s1.queue| :: s1.queue[i] == s.queue[i + 1];
      InjectFlags(s1, head, flag, irq, hardware);
      var r := Inject(s1, head, flag);
      if r.ok {
        MaintainFlags(r.state, irq, hardware);
      }
    }
  }

  /** The state in the middle of the drain, when the flag may lag behind the queue. */
  ghost predicate Draining(s: State)
  {
    (forall i: nat | i < |s.lrs| :: WordOk(s.lrs[i])) && Unique(s.lrs)
  }

  /** A maintenance interrupt loses and adds nothing, and ends with an empty queue and the interrupt off, or with no
      free register and the interrupt on. */
  lemma {:induction false} MaintainKeeps(s: State)
    requires Draining(s)
    ensures Inv(Maintain(s))
    ensures Maintain(s).queue == [] || (Maintain(s).uie && Full(Maintain(s).lrs))
    decreases |s.queue|
  {
    if s.queue != [] {
      var (irq, hardware) := s.queue[0];
      var s1 := s.(queue := s.queue[1..], uie := s.queue[1..] != []);
      InjectKeeps(s1, irq, hardware);
      InjectAnswers(s.(queue := s.queue[1..]), irq, hardware);
      var r := Inject(s.(queue := s.queue[1..]), irq, hardware);
      assert r.state.lrs == Inject(s1, irq, hardware).state.lrs;
      if r.ok {
        MaintainKeeps(r.state);
      }
    }
  }

  lemma {:induction false} MaintainConserves(s: State, irq: nat)
    ensures InSystem(Maintain(s), irq) <==> InSystem(s, irq)
    decreases |s.queue|
  {
    if s.queue != [] {
      var (head, hardware) := s.queue[0];
      var s1 := s.(queue := s.queue[1..]);
      assert s.queue == [s.queue[0]] + s1.queue;
      QueueHolds(s1.queue, s.queue[0], irq);
      InjectAdds(s1, head, hardware, irq);
      var r := Inject(s1, head, hardware);
      if r.ok {
        MaintainConserves(r.state, irq);
      } else {
        QueueHolds(r.state.queue, (head, hardware), irq);
      }
    }
  }

  // Progress of the drain.

  lemma {:induction false} MaintainHolds(s: State, irq: nat)
    ensures Held(s.lrs, irq) ==> Held(Maintain(s).lrs, irq)
    decreases |s.queue|
  {
    if s.queue != [] {
      var (head, hardware) := s.queue[0];
      var s1 := s.(queue := s.queue[1..]);
      var r := Inject(s1, head, hardware);
      var k := FirstFree(s.lrs, 0);
      if k < |s.lrs| {
        WriteHolds(s.lrs, k, head, hardware, irq);
      }
      if r.ok {
        MaintainHolds(r.state, irq);
      }
    }
  }

  lemma {:induction false} MaintainBound(s: State)
    ensures |Maintain(s).queue| <= |s.queue| + 1
    decreases |s.queue|
  {
    if s.queue != [] {
      var (head, hardware) := s.queue[0];
      var r := Inject(s.(queue := s.queue[1..]), head, hardware);
      if r.ok {
        MaintainBound(r.state);
      }
    }
  }

  /** The queue grows exactly when the first waiting interrupt fits in no register and is in none. */
  lemma MaintainGrowsExact(s: State)
    requires s.queue != []
    ensures |Maintain(s).queue| > |s.queue| <==> Full(s.lrs) && !Held(s.lrs, s.queue[0].0)
    ensures !Full(s.lrs) ==> Held(Maintain(s).lrs, s.queue[0].0)
  {
    var (head, hardware) := s.queue[0];
    var s1 := s.(queue := s.queue[1..]);
    var r := Inject(s1, head, hardware);
    InjectAnswers(s1, head, hardware);
    if r.ok {
      MaintainBound(r.state);
      MaintainHolds(r.state, head);
    }
  }

  /** The underflow condition of ICH_HCR_EL2.UIE: at most one register is valid. */
  ghost predicate Underflow(lrs: seq<nat>)
  {
    forall i: nat, j: nat | i < j < |lrs| :: StateOf(lrs[i]) == 0 || StateOf(lrs[j]) == 0
  }

  /** With two or more registers, a maintenance interrupt that fires always moves the first waiting interrupt into a
      register and never lengthens the queue. */
  lemma FiredServesHead(s: State)
    requires Inv(s) && s.uie && Underflow(s.lrs) && |s.lrs| >= 2
    ensures Held(Maintain(s).lrs, s.queue[0].0)
    ensures |Maintain(s).queue| <= |s.queue|
  {
    MaintainGrowsExact(s);
    assert StateOf(s.lrs[0]) == 0 || StateOf(s.lrs[1]) == 0;
    assert WordOk(s.lrs[0]) && WordOk(s.lrs[1]);
  }

  /** With a single register the underflow condition always holds, so the interrupt also fires while the register is
      taken, and each time it then lengthens the queue. */
  lemma OneRegisterGrows(s: State)
    requires Inv(s) && s.uie && |s.lrs| == 1
    ensures Underflow(s.lrs)
    ensures |Maintain(s).queue| > |s.queue| <==> StateOf(s.lrs[0]) != 0 && VirtualId(s.lrs[0]) != s.queue[0].0
  {
    MaintainGrowsExact(s);
    assert WordOk(s.lrs[0]);
    if Held(s.lrs, s.queue[0].0) {
      assert VirtualId(s.lrs[0]) == s.queue[0].0;
    }
  }

  // Whole runs.

  datatype Action =
    | DoInject(irq: Irq, hardware: bool)
    | DoMaintain
    /** The guest acknowledges or completes: the state field of one register changes. */
    | Guest(i: nat, w: nat)

  predicate GuestMove(w: nat, w': nat)
  {
    StateOf(w) != 0 && w' < 0x1_0000_0000_0000_0000 && w' % 0x4000_0000_0000_0000 == w % 0x4000_0000_0000_0000
  }

  predicate Moves(s: State, i: nat, w: nat)
  {
    i < |s.lrs| && GuestMove(s.lrs[i], w)
  }

  ghost function Step(s: State, a: Action): State
  {
    match a
    case DoInject(irq, hardware) => Inject(s, irq, hardware).state
    case DoMaintain => Maintain(s)
    case Guest(i, w) => if Moves(s, i, w) then s.(lrs := s.lrs[i := w]) else s
  }

  /** The guest completes `irq` in this step. */
  ghost predicate Completes(s: State, a: Action, irq: nat)
  {
    a.Guest? && Moves(s, a.i, a.w) && VirtualId(s.lrs[a.i]) == irq && StateOf(a.w) == 0
  }

  lemma GuestWord(w: nat, w': nat)
    requires GuestMove(w, w') && WordOk(w)
    ensures WordOk(w') && VirtualId(w') == VirtualId(w) && !Free(w) && (Free(w') <==> StateOf(w') == 0)
  {
    LowBits(w, w');
  }

  lemma LowBits(w: nat, w': nat)
    requires w' % 0x4000_0000_0000_0000 == w % 0x4000_0000_0000_0000
    ensures VirtualId(w') == VirtualId(w) && Hardware(w') == Hardware(w) && EoiBit(w') == EoiBit(w)
  {
    var low, h, h' := w % 0x4000_0000_0000_0000, w / 0x4000_0000_0000_0000, w' / 0x4000_0000_0000_0000;
    FieldsOfSum(low, h);
    FieldsOfSum(low, h');
  }

  lemma FieldsOfSum(low: nat, h: nat)
    ensures var w := low + 0x4000_0000_0000_0000 * h;
            VirtualId(w) == VirtualId(low) && Hardware(w) == Hardware(low) && EoiBit(w) == EoiBit(low)
  {
    var w := low + 0x4000_0000_0000_0000 * h;
    assert w / 0x2000_0000_0000_0000 == low / 0x2000_0000_0000_0000 + 2 * h;
    assert w / 0x200_0000_0000 == low / 0x200_0000_0000 + 2 * (0x10_0000 * h);
    ParityOfSum(low / 0x2000_0000_0000_0000, h);
    ParityOfSum(low / 0x200_0000_0000, 0x10_0000 * h);
    assert w == low + 0x1_0000_0000 * (0x4000_0000 * h);
  }

  lemma ParityOfSum(a: nat, b: nat)
    ensures (a + 2 * b) % 2 == a % 2
  {
  }

  lemma StepKeeps(s: State, a: Action)
    requires Inv(s)
    ensures Inv(Step(s, a))
  {
    match a
    case DoInject(irq, hardware) => InjectKeeps(s, irq, hardware);
    case DoMaintain => MaintainKeeps(s);
    case Guest(i, w) =>
      if Moves(s, i, w) {
        GuestWord(s.lrs[i], w);
      }
  }

  /** Only a completion takes an interrupt out of the system, and only an injection brings one in. */
  lemma StepConserves(s: State, a: Action, irq: nat)
    requires Inv(s)
    ensures InSystem(s, irq) && !InSystem(Step(s, a), irq) ==> Completes(s, a, irq)
    ensures InSystem(Step(s, a), irq) && !InSystem(s, irq) ==> a.DoInject? && a.irq == irq
    ensures a.DoInject? ==> InSystem(Step(s, a), a.irq)
  {
    match a
    case DoInject(given, hardware) =>
      InjectAdds(s, given, hardware, irq);
      InjectAdds(s, given, hardware, given);
    case DoMaintain => MaintainConserves(s, irq);
    case Guest(i, w) =>
      if Moves(s, i, w) {
        GuestConserves(s, i, w, irq);
      }
  }

  lemma GuestConserves(s: State, i: nat, w: nat, irq: nat)
    requires Inv(s) && Moves(s, i, w)
    ensures var lrs' := s.lrs[i := w];
            && (Held(s.lrs, irq) && !Held(lrs', irq) ==> VirtualId(s.lrs[i]) == irq && StateOf(w) == 0)
            && (Held(lrs', irq) ==> Held(s.lrs, irq))
  {
    GuestWord(s.lrs[i], w);
    var lrs' := s.lrs[i := w];
    if Held(s.lrs, irq) {
      var j: nat :| j < |s.lrs| && !Free(s.lrs[j]) && VirtualId(s.lrs[j]) == irq;
      assert j != i ==> lrs'[j] == s.lrs[j];
      assert VirtualId(lrs'[j]) == irq;
    }
    if Held(lrs', irq) {
      var j: nat :| j < |lrs'| && !Free(lrs'[j]) && VirtualId(lrs'[j]) == irq;
      assert !Free(s.lrs[j]) && VirtualId(s.lrs[j]) == irq;
    }
  }

  ghost function Exec(s: State, actions: seq<Action>): State
    decreases |actions|
  {
    if actions == [] then s else Exec(Step(s, actions[0]), actions[1..])
  }

  /** Some step of the run completes `irq`. */
  ghost predicate CompletedIn(s: State, actions: seq<Action>, irq: nat)
    decreases |actions|
  {
    actions != [] && (Completes(s, actions[0], irq) || CompletedIn(Step(s, actions[0]), actions[1..], irq))
  }

  /** In every run: the registers stay distinct, the maintenance interrupt is enabled exactly while something waits, an
      interrupt in the system stays there until the guest completes it, and nothing appears that was not injected. */
  lemma {:induction false} RunConserves(s: State, actions: seq<Action>, irq: nat)
    requires Inv(s)
    ensures Inv(Exec(s, actions))
    ensures InSystem(s, irq) && !CompletedIn(s, actions, irq) ==> InSystem(Exec(s, actions), irq)
    ensures InSystem(Exec(s, actions), irq) && !InSystem(s, irq) ==>
              exists i: nat :: i < |actions| && actions[i].DoInject? && actions[i].irq == irq
    decreases |actions|
  {
    if actions != [] {
      StepKeeps(s, actions[0]);
      StepConserves(s, actions[0], irq);
      RunConserves(Step(s, actions[0]), actions[1..], irq);
    }
  }

  /** An interrupt that is always injected with the same flag is in the registers with that link, and in the queue with
      that flag, in every state of every run: the drain never writes it with another one. */
  lemma {:induction false} RunFlags(s: State, actions: seq<Action>, irq: Irq, hardware: bool)
    requires Inv(s) && Flagged(s, irq, hardware)
    requires forall i: nat | i < |actions| && actions[i].DoInject? && actions[i].irq == irq ::
               actions[i].hardware == hardware
    ensures Flagged(Exec(s, actions), irq, hardware)
    decreases |actions|
  {
    if actions != [] {
      StepKeeps(s, actions[0]);
      StepFlags(s, actions[0], irq, hardware);
      RunFlags(Step(s, actions[0]), actions[1..], irq, hardware);
    }
  }

  lemma StepFlags(s: State, a: Action, irq: Irq, hardware: bool)
    requires Inv(s) && Flagged(s, irq, hardware)
    requires a.DoInject? && a.irq == irq ==> a.hardware == hardware
    ensures Flagged(Step(s, a), irq, hardware)
  {
    match a
    case DoInject(given, flag) => InjectFlags(s, given, flag, irq, hardware);
    case DoMaintain => MaintainFlags(s, irq, hardware);
    case Guest(i, w) =>
      if Moves(s, i, w) {
        GuestWord(s.lrs[i], w);
        LowBits(s.lrs[i], w);
      }
  }

  function Reset(registers: nat): State
  {
    State(seq(registers, _ => 0), [], false)
  }

  lemma ResetHolds(registers: nat)
    ensures Inv(Reset(registers)) && forall irq: nat :: !InSystem(Reset(registers), irq)
    ensures forall irq: Irq, hardware: bool :: Flagged(Reset(registers), irq, hardware)
  {
  }
}
