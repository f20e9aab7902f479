/** Runs of a new virtual PLIC that lose a wake-up with their last step and none before: each condition of
    `RunKeepsWakeups` is needed.  The machine has CPUs 0 and 1 (contexts 1 and 3) and one interrupt. */
module PlicLost {
  import opened PlicSpec
  import opened PlicWakeup
  import opened PlicRuns

  /** Interrupt 1 (hardware, priority, pending, active, enabled in contexts 1 and 3), the two lines, and CPU 1's queue
      and handler. */
  datatype Small = Small(hw: bool, prio: nat, pend: bool, act: bool, e1: bool, e3: bool, l0: bool, l1: bool,
      q1: seq<nat>,
                         busy: bool)

  /** The machine is in this situation. */
  ghost predicate Is(s: Sys, b: Small)
  {
    && SysOk(s) && s.cpus == [0, 1] && |s.plic.priority| == 2
    && PlicIs(s.plic, b)
    && s.vseip[0] == b.l0 && s.vseip[1] == b.l1
    && s.events[1] == b.q1
    && 0 !in s.handling && (1 in s.handling <==> b.busy)
  }

  ghost predicate PlicIs(p: Plic, b: Small)
    requires PlicOk(p) && |p.priority| == 2 && |p.threshold| == 4
  {
    && !p.hw[0] && p.hw[1] == b.hw
    && p.priority[1] == b.prio && p.pending[1] == b.pend && p.active[1] == b.act
    && p.threshold[1] == 0 && p.threshold[3] == 0
    && !p.enable[1][0] && p.enable[1][1] == b.e1
    && !p.enable[3][0] && p.enable[3][1] == b.e3
  }

  /** Interrupt 1 as `VirtualPLIC::new` leaves it, after `irq_bitmap_init` has marked it as hardware or not. */
  function Start(hw: bool): Small
  {
    Small(hw, 0, false, false, false, false, false, false, [], false)
  }

  /** The zone's machine at its start. */
  function Fresh(hw: bool): (s: Sys)
    ensures Is(s, Start(hw))
  {
    var p := NewPlic(1, 4);
    assert forall c | 0 <= c < 4 :: !p.enable[c][0] && !p.enable[c][1] && p.threshold[c] == 0;
    Sys(p.(hw := [false, hw]), [0, 1], map[0 := false, 1 := false], map[0 := [], 1 := []], {})
  }

  // Which conditions a run keeps.

  datatype Rules = Rules(software: bool, single: bool, disciplined: bool)

  ghost predicate Follows(r: Rules, s: Sys, a: Action)
    requires SysOk(s)
  {
    && (r.software ==> SoftwareOnly(s.plic))
    && (r.single ==> SingleOwner(s.plic))
    && (r.disciplined ==> Disciplined(s, a))
  }

  /** A run that keeps the conditions and has lost no wake-up so far. */
  ghost predicate RunTo(r: Rules, states: seq<Sys>, actions: seq<Action>, from: Sys, to: Sys)
  {
    && IsRun(states, actions)
    && (forall i | 0 <= i < |actions| :: Follows(r, states[i], actions[i]))
    && (forall i | 0 <= i < |states| :: NoLostWakeup(states[i]))
    && states[0] == from && states[|actions|] == to
  }

  ghost predicate Reaches(r: Rules, from: Sys, to: Sys)
  {
    exists states, actions :: RunTo(r, states, actions, from, to)
  }

  /** Some run that keeps the conditions ends in this situation. */
  ghost predicate Arrives(r: Rules, from: Sys, b: Small)
  {
    exists s :: Is(s, b) && Reaches(r, from, s)
  }

  lemma RunGoesOn(r: Rules, states: seq<Sys>, actions: seq<Action>, from: Sys, s: Sys, a: Action, s': Sys)
    requires RunTo(r, states, actions, from, s) && SysOk(s') && Possible(s, a) && Follows(r, s, a)
    requires Step(s, a).Reply? && Step(s, a).sys == s' && NoLostWakeup(s')
    ensures RunTo(r, states + [s'], actions + [a], from, s')
  {
    var states', actions' := states + [s'], actions + [a];
    forall i | 0 <= i < |actions'|
      ensures Possible(states'[i], actions'[i]) && Step(states'[i], actions'[i]).Reply?
      ensures Step(states'[i], actions'[i]).sys == states'[i + 1] && Follows(r, states'[i], actions'[i])
    {
      if i < |actions| {
        assert states'[i] == states[i] && actions'[i] == actions[i] && states'[i + 1] == states[i + 1];
      } else {
        assert states'[i] == s && actions'[i] == a && states'[i + 1] == s';
      }
    }
  }

  /** The action takes the machine from one situation to the other. */
  ghost predicate Leads(r: Rules, b: Small, a: Action, b': Small)
  {
    forall s | Is(s, b) ::
      Possible(s, a) && Follows(r, s, a) && Step(s, a).Reply? && Is(Step(s, a).sys, b')
  }

  lemma ReachesNext(r: Rules, from: Sys, s: Sys, a: Action, s': Sys)
    requires Reaches(r, from, s) && SysOk(s) && SysOk(s') && Possible(s, a) && Follows(r, s, a)
    requires Step(s, a).Reply? && Step(s, a).sys == s' && NoLostWakeup(s')
    ensures Reaches(r, from, s')
  {
    var states, actions :| RunTo(r, states, actions, from, s);
    RunGoesOn(r, states, actions, from, s, a, s');
  }

  lemma ArrivesNext(r: Rules, from: Sys, b: Small, a: Action, b': Small)
    requires Arrives(r, from, b) && Leads(r, b, a, b') && Fine(b')
    ensures Arrives(r, from, b')
  {
    var s :| Is(s, b) && Reaches(r, from, s);
    var s' := Step(s, a).sys;
    assert Is(s', b');
    FineIsQuiet(s', b');
    ReachesNext(r, from, s, a, s');
  }

  lemma Starts(r: Rules, hw: bool)
    ensures Arrives(r, Fresh(hw), Start(hw))
  {
    var s := Fresh(hw);
    FineIsQuiet(s, Start(hw));
    assert RunTo(r, [s], [], s, s);
  }

  // Steps of the machine.

  const PRIORITY: nat := 4
  const ENABLE_1: nat := 0x2080
  const ENABLE_3: nat := 0x2180
  const THRESHOLD_3: nat := 0x20_3000
  const CLAIM_1: nat := 0x20_1004
  const CLAIM_3: nat := 0x20_3004

  lemma OnlyOneIrq(p: Plic, c: nat)
    requires PlicOk(p) && |p.priority| == 2 && c < |p.threshold|
    ensures NextPending(p, c) == if Candidate(p, c, 1) then 1 else 0
  {
    NextPendingIsBest(p, c);
  }

  lemma BothTurns(s: Sys, cpu: nat, above: bool)
    requires SysOk(s) && |s.plic.threshold| == 4 && |s.plic.priority| == 2
    ensures Refresh(s, cpu, 1, above, 0) == RefreshOne(RefreshOne(s, cpu, 1, above, 1), cpu, 1, above, 3)
  {
    var s1 := RefreshOne(s, cpu, 1, above, 1);
    var s3 := RefreshOne(s1, cpu, 1, above, 3);
    assert Refresh(s3, cpu, 1, above, 4) == s3;
    assert Refresh(s1, cpu, 1, above, 3) == s3;
    assert Refresh(s1, cpu, 1, above, 2) == s3;
    assert Refresh(s, cpu, 1, above, 1) == s3;
  }

  /** What interrupt 1 offers to CPU 0 and to CPU 1. */
  predicate Offered0(b: Small)
  {
    b.pend && !b.act && b.e1 && b.prio > 0
  }

  predicate Offered1(b: Small)
  {
    b.pend && !b.act && b.e3 && b.prio > 0
  }

  lemma Offers(s: Sys, b: Small)
    requires Is(s, b)
    ensures NextPending(s.plic, 1) == if Offered0(b) then 1 else 0
    ensures NextPending(s.plic, 3) == if Offered1(b) then 1 else 0
  {
    OnlyOneIrq(s.plic, 1);
    OnlyOneIrq(s.plic, 3);
  }

  /** Whoever is offered the interrupt has been told, or is about to be. */
  predicate Fine(b: Small)
  {
    (Offered0(b) ==> b.l0) && (Offered1(b) ==> b.l1 || UPDATE_HART_LINE in b.q1 || b.busy)
  }

  lemma FineIsQuiet(s: Sys, b: Small)
    requires Is(s, b) && Fine(b)
    ensures NoLostWakeup(s)
  {
    Offers(s, b);
    forall c: nat | SMode(s.plic, c)
      ensures Covered(s, c)
    {
      assert c == 1 || c == 3;
    }
  }

  lemma Update01(s: Sys, b: Small)
    requires Is(s, b)
    ensures Is(UpdateLine(s, 0, 1), b.(l0 := Offered0(b)))
  {
    Offers(s, b);
  }

  lemma Update13(s: Sys, b: Small)
    requires Is(s, b)
    ensures Is(UpdateLine(s, 1, 3), b.(l1 := Offered1(b)))
  {
    Offers(s, b);
  }

  lemma Update03(s: Sys, b: Small)
    requires Is(s, b)
    ensures Is(UpdateLine(s, 0, 3), b.(q1 := b.q1 + [UPDATE_HART_LINE]))
  {
  }

  /** Interrupt 1 alone is in the word. */
  lemma OneRound(s: Sys, cpu: nat, c: nat, on: bool)
    requires SysOk(s) && |s.plic.priority| == 2 && c < |s.plic.threshold| && !s.plic.enable[c][0]
    ensures WriteEnable(s, cpu, c, if on then 2 else 0, 0, 0, 2) == EnableOne(s, cpu, c, 1, on)
  {
    var value := if on then 2 else 0;
    assert Bit(value, 1) == on && !Bit(value, 0);
    assert EnableOne(s, cpu, c, 0, false) == s;
    var s1 := EnableOne(s, cpu, c, 1, on);
    assert WriteEnable(s1, cpu, c, value, 0, 2, 2) == s1;
    assert WriteEnable(s, cpu, c, value, 0, 1, 2) == s1;
  }

  lemma SetHwPriority(s: Sys, b: Small, value: nat)
    requires Is(s, b) && b.hw
    ensures Is(WritePriority(s, 1, 1, value), b.(prio := value))
  {
  }

  lemma SetThreshold(s: Sys, b: Small)
    requires Is(s, b)
    ensures Is(WriteThreshold(s, 1, 3, 0), b.(l1 := Offered1(b)))
  {
    assert s.plic.threshold[3 := 0] == s.plic.threshold;
    Update13(s, b);
  }

  lemma InjectHw0(s: Sys, b: Small)
    requires Is(s, b) && b.hw && !b.pend
    ensures Inject(s, 0, 1, 1, true).Reply?
    ensures Is(Inject(s, 0, 1, 1, true).sys, b.(pend := true, l0 := Offered0(b.(pend := true))))
  {
    Update01(WithPlic(s, SetPending(s.plic, 1, true)), b.(pend := true));
  }

  lemma SetPriority(s: Sys, b: Small)
    requires Is(s, b) && !b.e1 && !b.e3
    ensures Is(WritePriority(s, 1, 1, 1), b.(prio := 1))
  {
    var s1 := WithPlic(s, s.plic.(priority := s.plic.priority[1 := 1]));
    assert Is(s1, b.(prio := 1));
    BothTurns(s1, 1, false);
  }

  lemma Enable1(s: Sys, b: Small)
    requires Is(s, b) && !b.e1
    ensures Is(EnableOne(s, 0, 1, 1, true), b.(e1 := true, l0 := if b.hw then b.l0 else Offered0(b.(e1 := true))))
  {
    var s1 := WithPlic(s, SetEnable(s.plic, 1, 1, true));
    Update01(s1, b.(e1 := true));
  }

  lemma Enable3(s: Sys, b: Small, on: bool)
    requires Is(s, b) && b.e3 != on
    ensures Is(EnableOne(s, 1, 3, 1, on), b.(e3 := on, l1 := if b.hw then b.l1 else Offered1(b.(e3 := on))))
  {
    var s1 := WithPlic(s, SetEnable(s.plic, 3, 1, on));
    Update13(s1, b.(e3 := on));
  }

  lemma Inject1(s: Sys, b: Small)
    requires Is(s, b) && !b.hw && !b.pend && !b.e1 && b.e3 && b.prio > 0
    ensures Inject(s, 1, 3, 1, false).Reply?
    ensures Is(Inject(s, 1, 3, 1, false).sys, b.(pend := true, l1 := !b.act))
  {
    var s1 := WithPlic(s, SetPending(s.plic, 1, true));
    BothTurns(s1, 1, true);
    Update13(s1, b.(pend := true));
  }

  /** CPU 0 injects it while both have it enabled. */
  lemma Inject0(s: Sys, b: Small)
    requires Is(s, b) && !b.hw && !b.pend && b.e1 && b.e3 && b.prio > 0
    ensures Inject(s, 0, 1, 1, false).Reply?
    ensures Is(Inject(s, 0, 1, 1, false).sys, b.(pend := true, l0 := !b.act, q1 := b.q1 + [UPDATE_HART_LINE]))
  {
    var s1, b1 := WithPlic(s, SetPending(s.plic, 1, true)), b.(pend := true);
    BothTurns(s1, 0, true);
    Update01(s1, b1);
    Update03(UpdateLine(s1, 0, 1), b1.(l0 := Offered0(b1)));
  }

  lemma InjectHw(s: Sys, b: Small)
    requires Is(s, b) && b.hw && !b.pend
    ensures Inject(s, 1, 3, 1, true).Reply?
    ensures Is(Inject(s, 1, 3, 1, true).sys, b.(pend := true, l1 := Offered1(b.(pend := true))))
  {
    Update13(WithPlic(s, SetPending(s.plic, 1, true)), b.(pend := true));
  }

  lemma ClaimBy0(s: Sys, b: Small)
    requires Is(s, b) && Offered0(b)
    ensures Is(Claim(s, 0, 1).sys, b.(pend := false, act := true, l0 := false))
  {
    Offers(s, b);
    var s1 := WithPlic(s, SetActive(SetPending(s.plic, 1, false), 1, true));
    Update01(s1, b.(pend := false, act := true));
  }

  lemma ClaimBy1(s: Sys, b: Small)
    requires Is(s, b) && Offered1(b)
    ensures Is(Claim(s, 1, 3).sys, b.(pend := false, act := true, l1 := false))
  {
    Offers(s, b);
    var s1 := WithPlic(s, SetActive(SetPending(s.plic, 1, false), 1, true));
    Update13(s1, b.(pend := false, act := true));
  }

  lemma CompleteBy0(s: Sys, b: Small)
    requires Is(s, b)
    ensures Complete(s, 0, 1, 1).Reply?
    ensures Is(Complete(s, 0, 1, 1).sys, b.(act := false, l0 := Offered0(b.(act := false))))
  {
    Update01(WithPlic(s, SetActive(s.plic, 1, false)), b.(act := false));
  }

  lemma FetchBy1(s: Sys, b: Small)
    requires Is(s, b) && b.q1 == [UPDATE_HART_LINE] && !b.busy
    ensures Is(Fetch(s, 1), b.(q1 := [], busy := true))
  {
  }

  lemma HandleBy1(s: Sys, b: Small)
    requires Is(s, b) && b.busy
    ensures Is(Handle(s, 1), b.(busy := false, l1 := Offered1(b)))
  {
    assert OwnContext([0, 1], 1) == 3;
    Update13(s.(handling := s.handling - {1}), b.(busy := false));
  }

  // The same as steps of a run.

  lemma PlainPlic(s: Sys, b: Small)
    requires Is(s, b)
    ensures !b.hw ==> SoftwareOnly(s.plic)
    ensures !(b.e1 && b.e3) ==> SingleOwner(s.plic)
  {
    forall x: nat | SMode(s.plic, x)
      ensures x == 1 || x == 3
    {
    }
  }

  /** The situation keeps the conditions on the interrupts. */
  predicate Plain(r: Rules, b: Small)
  {
    (r.software ==> !b.hw) && (r.single ==> !(b.e1 && b.e3))
  }

  lemma SetsPriority(r: Rules, b: Small)
    requires Plain(r, b) && !b.e1 && !b.e3 && !b.busy
    ensures Leads(r, b, AccessBy(1, PRIORITY, 4, 1, true), b.(prio := 1))
  {
    forall s | Is(s, b)
      ensures var a := AccessBy(1, PRIORITY, 4, 1, true);
              Possible(s, a) && Follows(r, s, a) && Step(s, a).Reply? && Is(Step(s, a).sys, b.(prio := 1))
    {
      PlainPlic(s, b);
      assert Decode(s.plic, PRIORITY, 4, 1) == PriorityReg(1);
      SetPriority(s, b);
    }
  }

  lemma SetsHwPriority(r: Rules, b: Small, value: nat)
    requires Plain(r, b) && b.hw && !b.busy && value < 8
    ensures Leads(r, b, AccessBy(1, PRIORITY, 4, value, true), b.(prio := value))
  {
    var a := AccessBy(1, PRIORITY, 4, value, true);
    forall s | Is(s, b)
      ensures Possible(s, a) && Follows(r, s, a) && Step(s, a).Reply? && Is(Step(s, a).sys, b.(prio := value))
    {
      PlainPlic(s, b);
      assert Decode(s.plic, PRIORITY, 4, value) == PriorityReg(1);
      SetHwPriority(s, b, value);
    }
  }

  /** CPU 1 writes its threshold: the line follows what is offered. */
  lemma SetsThreshold(r: Rules, b: Small)
    requires Plain(r, b) && !b.busy
    ensures Leads(r, b, AccessBy(1, THRESHOLD_3, 4, 0, true), b.(l1 := Offered1(b)))
  {
    var a := AccessBy(1, THRESHOLD_3, 4, 0, true);
    forall s | Is(s, b)
      ensures Possible(s, a) && Follows(r, s, a) && Step(s, a).Reply? && Is(Step(s, a).sys, b.(l1 := Offered1(b)))
    {
      PlainPlic(s, b);
      assert Decode(s.plic, THRESHOLD_3, 4, 0) == ThresholdReg(3);
      SetThreshold(s, b);
    }
  }

  lemma InjectsHw0(r: Rules, b: Small)
    requires Plain(r, b) && b.hw && !b.pend
    ensures Leads(r, b, InjectAt(0, 1, 1, true), b.(pend := true, l0 := Offered0(b.(pend := true))))
  {
    forall s | Is(s, b)
      ensures var a := InjectAt(0, 1, 1, true);
              && Possible(s, a) && Follows(r, s, a) && Step(s, a).Reply?
              && Is(Step(s, a).sys, b.(pend := true, l0 := Offered0(b.(pend := true))))
    {
      PlainPlic(s, b);
      InjectHw0(s, b);
    }
  }

  lemma Enables1(r: Rules, b: Small)
    requires Plain(r, b) && !b.e1
    ensures Leads(r, b, AccessBy(0, ENABLE_1, 4, 2, true),
                  b.(e1 := true, l0 := if b.hw then b.l0 else Offered0(b.(e1 := true))))
  {
    forall s | Is(s, b)
      ensures var a := AccessBy(0, ENABLE_1, 4, 2, true);
              && Possible(s, a) && Follows(r, s, a) && Step(s, a).Reply?
              && Is(Step(s, a).sys, b.(e1 := true, l0 := if b.hw then b.l0 else Offered0(b.(e1 := true))))
    {
      PlainPlic(s, b);
      assert Decode(s.plic, ENABLE_1, 4, 2) == EnableReg(1, 0);
      OneRound(s, 0, 1, true);
      Enable1(s, b);
    }
  }

  lemma Enables3(r: Rules, b: Small, on: bool)
    requires Plain(r, b) && b.e3 != on && !b.busy
    ensures Leads(r, b, AccessBy(1, ENABLE_3, 4, if on then 2 else 0, true),
                  b.(e3 := on, l1 := if b.hw then b.l1 else Offered1(b.(e3 := on))))
  {
    var a := AccessBy(1, ENABLE_3, 4, if on then 2 else 0, true);
    forall s | Is(s, b)
      ensures Possible(s, a) && Follows(r, s, a) && Step(s, a).Reply?
      ensures Is(Step(s, a).sys, b.(e3 := on, l1 := if b.hw then b.l1 else Offered1(b.(e3 := on))))
    {
      PlainPlic(s, b);
      assert Decode(s.plic, ENABLE_3, 4, a.value) == EnableReg(3, 0);
      OneRound(s, 1, 3, on);
      Enable3(s, b, on);
    }
  }

  lemma Injects1(r: Rules, b: Small)
    requires Plain(r, b) && !b.hw && !b.pend && !b.e1 && b.e3 && b.prio > 0 && !b.busy
    ensures Leads(r, b, InjectAt(1, 3, 1, false), b.(pend := true, l1 := !b.act))
  {
    forall s | Is(s, b)
      ensures var a := InjectAt(1, 3, 1, false);
              Possible(s, a) && Follows(r, s, a) && Step(s, a).Reply? &&
                  Is(Step(s, a).sys, b.(pend := true, l1 := !b.act))
    {
      PlainPlic(s, b);
      Inject1(s, b);
    }
  }

  lemma Injects0(r: Rules, b: Small)
    requires Plain(r, b) && !b.hw && !b.pend && b.e1 && b.e3 && b.prio > 0
    ensures Leads(r, b, InjectAt(0, 1, 1, false), b.(pend := true, l0 := !b.act, q1 := b.q1 + [UPDATE_HART_LINE]))
  {
    var a := InjectAt(0, 1, 1, false);
    forall s | Is(s, b)
      ensures Possible(s, a) && Follows(r, s, a) && Step(s, a).Reply?
      ensures Is(Step(s, a).sys, b.(pend := true, l0 := !b.act, q1 := b.q1 + [UPDATE_HART_LINE]))
    {
      PlainPlic(s, b);
      Inject0(s, b);
    }
  }

  lemma InjectsHw(r: Rules, b: Small)
    requires Plain(r, b) && b.hw && !b.pend && !b.busy
    ensures Leads(r, b, InjectAt(1, 3, 1, true), b.(pend := true, l1 := Offered1(b.(pend := true))))
  {
    forall s | Is(s, b)
      ensures var a := InjectAt(1, 3, 1, true);
              && Possible(s, a) && Follows(r, s, a) && Step(s, a).Reply?
              && Is(Step(s, a).sys, b.(pend := true, l1 := Offered1(b.(pend := true))))
    {
      PlainPlic(s, b);
      InjectHw(s, b);
    }
  }

  lemma Claims0(r: Rules, b: Small)
    requires Plain(r, b) && Offered0(b)
    ensures Leads(r, b, AccessBy(0, CLAIM_1, 4, 0, false), b.(pend := false, act := true, l0 := false))
  {
    var a := AccessBy(0, CLAIM_1, 4, 0, false);
    forall s | Is(s, b)
      ensures Possible(s, a) && Follows(r, s, a) && Step(s, a).Reply?
      ensures Is(Step(s, a).sys, b.(pend := false, act := true, l0 := false))
    {
      PlainPlic(s, b);
      assert Decode(s.plic, CLAIM_1, 4, 0) == ClaimReg(1);
      ClaimBy0(s, b);
    }
  }

  lemma Claims1(r: Rules, b: Small)
    requires Plain(r, b) && Offered1(b) && !b.busy
    ensures Leads(r, b, AccessBy(1, CLAIM_3, 4, 0, false), b.(pend := false, act := true, l1 := false))
  {
    var a := AccessBy(1, CLAIM_3, 4, 0, false);
    forall s | Is(s, b)
      ensures Possible(s, a) && Follows(r, s, a) && Step(s, a).Reply?
      ensures Is(Step(s, a).sys, b.(pend := false, act := true, l1 := false))
    {
      PlainPlic(s, b);
      assert Decode(s.plic, CLAIM_3, 4, 0) == ClaimReg(3);
      ClaimBy1(s, b);
    }
  }

  /** CPU 0 completes the interrupt through its own context, which is disciplined only if that has it enabled. */
  lemma Completes0(r: Rules, b: Small)
    requires Plain(r, b) && (r.disciplined ==> b.e1)
    ensures Leads(r, b, AccessBy(0, CLAIM_1, 4, 1, true), b.(act := false, l0 := Offered0(b.(act := false))))
  {
    var a := AccessBy(0, CLAIM_1, 4, 1, true);
    forall s | Is(s, b)
      ensures Possible(s, a) && Follows(r, s, a) && Step(s, a).Reply?
      ensures Is(Step(s, a).sys, b.(act := false, l0 := Offered0(b.(act := false))))
    {
      PlainPlic(s, b);
      assert Decode(s.plic, CLAIM_1, 4, 1) == ClaimReg(1);
      CompleteBy0(s, b);
    }
  }

  lemma Fetches(r: Rules, b: Small)
    requires Plain(r, b) && b.q1 == [UPDATE_HART_LINE] && !b.busy
    ensures Leads(r, b, FetchOn(1), b.(q1 := [], busy := true))
  {
    forall s | Is(s, b)
      ensures Possible(s, FetchOn(1)) && Follows(r, s, FetchOn(1)) && Step(s, FetchOn(1)).Reply?
      ensures Is(Step(s, FetchOn(1)).sys, b.(q1 := [], busy := true))
    {
      PlainPlic(s, b);
      FetchBy1(s, b);
    }
  }

  lemma Handles(r: Rules, b: Small)
    requires Plain(r, b) && b.busy
    ensures Leads(r, b, HandleOn(1), b.(busy := false, l1 := Offered1(b)))
  {
    forall s | Is(s, b)
      ensures Possible(s, HandleOn(1)) && Follows(r, s, HandleOn(1)) && Step(s, HandleOn(1)).Reply?
      ensures Is(Step(s, HandleOn(1)).sys, b.(busy := false, l1 := Offered1(b)))
    {
      PlainPlic(s, b);
      HandleBy1(s, b);
    }
  }

  // The runs.

  /** Some run from a new vPLIC keeps the conditions in every state and loses no wake-up, until its last step, which is
      this action, loses one. */
  ghost predicate CanLose(r: Rules, hw: bool, a: Action)
  {
    exists states, actions, s :: RunTo(r, states, actions, Fresh(hw), s) && LosesNow(r, s, a)
  }

  ghost predicate LosesNow(r: Rules, s: Sys, a: Action)
  {
    && SysOk(s) && Possible(s, a) && Follows(r, s, a) && Step(s, a).Reply?
    && var s' := Step(s, a).sys;
       && (r.software ==> SoftwareOnly(s'.plic)) && (r.single ==> SingleOwner(s'.plic))
       && NoLostWakeup(s) && !NoLostWakeup(s')
  }

  /** The step leads to a situation in which CPU 1 waits for an interrupt that nothing tells it of. */
  lemma Lost(r: Rules, hw: bool, b: Small, a: Action, b': Small)
    requires Arrives(r, Fresh(hw), b) && Leads(r, b, a, b') && Plain(r, b')
    requires Offered1(b') && !b'.l1 && UPDATE_HART_LINE !in b'.q1 && !b'.busy
    ensures CanLose(r, hw, a)
  {
    var s :| Is(s, b) && Reaches(r, Fresh(hw), s);
    var states, actions :| RunTo(r, states, actions, Fresh(hw), s);
    var s' := Step(s, a).sys;
    Unheard(s', b');
    PlainPlic(s', b');
    assert NoLostWakeup(states[|actions|]);
    assert LosesNow(r, s, a);
  }

  lemma Unheard(s: Sys, b: Small)
    requires Is(s, b) && Offered1(b) && !b.l1 && UPDATE_HART_LINE !in b.q1 && !b.busy
    ensures !NoLostWakeup(s)
  {
    Offers(s, b);
    assert SMode(s.plic, 3) && !Covered(s, 3);
  }

  /** The interrupt gets its priority and is enabled for CPU 1. */
  lemma Prepared(r: Rules, hw: bool) returns (b: Small)
    requires r.software ==> !hw
    ensures b == Start(hw).(prio := 1, e3 := true) && Arrives(r, Fresh(hw), b)
  {
    var s, b0 := Fresh(hw), Start(hw);
    Starts(r, hw);
    SetsPriority(r, b0);
    ArrivesNext(r, s, b0, AccessBy(1, PRIORITY, 4, 1, true), b0.(prio := 1));
    Enables3(r, b0.(prio := 1), true);
    b := b0.(prio := 1, e3 := true);
    ArrivesNext(r, s, b0.(prio := 1), AccessBy(1, ENABLE_3, 4, 2, true), b);
  }

  /** Completion through a context that has not enabled the interrupt: CPU 1 claims it, it is injected again, and CPU 0
      completes it through context 1, which refreshes context 1 alone. */
  lemma LostThroughOtherContext()
    ensures CanLose(Rules(true, true, false), false, AccessBy(0, CLAIM_1, 4, 1, true))
  {
    var r, s := Rules(true, true, false), Fresh(false);
    var b := Prepared(r, false);
    Injects1(r, b);
    var b1 := b.(pend := true, l1 := true);
    ArrivesNext(r, s, b, InjectAt(1, 3, 1, false), b1);
    Claims1(r, b1);
    var b2 := b.(act := true);
    ArrivesNext(r, s, b1, AccessBy(1, CLAIM_3, 4, 0, false), b2);
    Injects1(r, b2);
    var b3 := b2.(pend := true);
    ArrivesNext(r, s, b2, InjectAt(1, 3, 1, false), b3);
    Completes0(r, b3);
    var b4 := b3.(act := false);
    Lost(r, false, b3, AccessBy(0, CLAIM_1, 4, 1, true), b4);
  }

  /** CPU 1 takes the update event and finds what is offered. */
  lemma Looks(r: Rules, s: Sys, b: Small)
    requires Arrives(r, s, b) && Plain(r, b) && Fine(b) && b.q1 == [UPDATE_HART_LINE] && !b.busy
    ensures Arrives(r, s, b.(q1 := [], l1 := Offered1(b)))
  {
    var b' := b.(q1 := [], busy := true);
    Fetches(r, b);
    ArrivesNext(r, s, b, FetchOn(1), b');
    Handles(r, b');
    ArrivesNext(r, s, b', HandleOn(1), b.(q1 := [], l1 := Offered1(b)));
  }

  /** CPU 0 is injected the interrupt and claims it before CPU 1 looks. */
  lemma ClaimedWhileAway(r: Rules, s: Sys, b: Small)
    requires Arrives(r, s, b) && Plain(r, b)
    requires b == Start(false).(prio := 1, e1 := true, e3 := true)
    ensures Arrives(r, s, b.(act := true))
  {
    Injects0(r, b);
    var b1 := b.(pend := true, l0 := true, q1 := [UPDATE_HART_LINE]);
    assert [] + [UPDATE_HART_LINE] == [UPDATE_HART_LINE];
    ArrivesNext(r, s, b, InjectAt(0, 1, 1, false), b1);
    Claims0(r, b1);
    var b2 := b.(act := true, q1 := [UPDATE_HART_LINE]);
    ArrivesNext(r, s, b1, AccessBy(0, CLAIM_1, 4, 0, false), b2);
    Looks(r, s, b2);
  }

  /** Two contexts with the interrupt enabled: CPU 0 claims and completes it through its own context, and CPU 1 has
      looked only while the interrupt was active. */
  lemma LostBetweenTwoOwners()
    ensures CanLose(Rules(true, false, true), false, AccessBy(0, CLAIM_1, 4, 1, true))
  {
    var r, s := Rules(true, false, true), Fresh(false);
    var b0 := Prepared(r, false);
    Enables1(r, b0);
    var b := b0.(e1 := true);
    ArrivesNext(r, s, b0, AccessBy(0, ENABLE_1, 4, 2, true), b);
    ClaimedWhileAway(r, s, b);
    var b1 := b.(act := true);
    Injects0(r, b1);
    var b2 := b1.(pend := true, q1 := [UPDATE_HART_LINE]);
    assert [] + [UPDATE_HART_LINE] == [UPDATE_HART_LINE];
    ArrivesNext(r, s, b1, InjectAt(0, 1, 1, false), b2);
    Looks(r, s, b2);
    var b3 := b1.(pend := true);
    Completes0(r, b3);
    var b4 := b3.(act := false, l0 := true);
    Lost(r, false, b3, AccessBy(0, CLAIM_1, 4, 1, true), b4);
  }

  /** A hardware interrupt that arrives while its context has it disabled: switching it on again updates no line. */
  lemma LostHardware()
    ensures CanLose(Rules(false, true, true), true, AccessBy(1, ENABLE_3, 4, 2, true))
  {
    var r, s := Rules(false, true, true), Fresh(true);
    var b := Prepared(r, true);
    Enables3(r, b, false);
    var b1 := b.(e3 := false);
    ArrivesNext(r, s, b, AccessBy(1, ENABLE_3, 4, 0, true), b1);
    InjectsHw(r, b1);
    var b2 := b1.(pend := true);
    ArrivesNext(r, s, b1, InjectAt(1, 3, 1, true), b2);
    Enables3(r, b2, true);
    var b3 := b2.(e3 := true);
    Lost(r, true, b2, AccessBy(1, ENABLE_3, 4, 2, true), b3);
  }

  /** A hardware interrupt with two contexts: the CPU that takes it updates its own line alone. */
  lemma LostByInjection()
    ensures CanLose(Rules(false, false, true), true, InjectAt(0, 1, 1, true))
  {
    var r, s := Rules(false, false, true), Fresh(true);
    var b := Prepared(r, true);
    Enables1(r, b);
    var b1 := b.(e1 := true);
    ArrivesNext(r, s, b, AccessBy(0, ENABLE_1, 4, 2, true), b1);
    InjectsHw0(r, b1);
    var b2 := b1.(pend := true, l0 := true);
    Lost(r, true, b1, InjectAt(0, 1, 1, true), b2);
  }

  /** The priority of a pending hardware interrupt is set to 0, a threshold write drops the line, and the priority comes
      back: no line is updated. */
  lemma LostByPriority()
    ensures CanLose(Rules(false, true, true), true, AccessBy(1, PRIORITY, 4, 1, true))
  {
    var r, s := Rules(false, true, true), Fresh(true);
    var b := Prepared(r, true);
    InjectsHw(r, b);
    var b1 := b.(pend := true, l1 := true);
    ArrivesNext(r, s, b, InjectAt(1, 3, 1, true), b1);
    SetsHwPriority(r, b1, 0);
    var b2 := b1.(prio := 0);
    ArrivesNext(r, s, b1, AccessBy(1, PRIORITY, 4, 0, true), b2);
    SetsThreshold(r, b2);
    var b3 := b2.(l1 := false);
    ArrivesNext(r, s, b2, AccessBy(1, THRESHOLD_3, 4, 0, true), b3);
    SetsHwPriority(r, b3, 1);
    var b4 := b3.(prio := 1);
    Lost(r, true, b3, AccessBy(1, PRIORITY, 4, 1, true), b4);
  }
}
