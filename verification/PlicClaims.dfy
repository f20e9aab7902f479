/** Claim discipline of the virtual PLIC: what each step does to the pending and active bits, and what that means over
    whole runs. */
module PlicClaims {
  import opened PlicSpec

  /** The step is an injection that sets the pending bit of `irq`. */
  ghost predicate Accepts(s: Sys, a: Action, irq: nat)
    requires SysOk(s)
  {
    a.InjectAt? && a.irq == irq && irq < |s.plic.priority| && a.hw == s.plic.hw[irq] && !s.plic.pending[irq]
  }

  ghost predicate TouchesClaim(s: Sys, a: Action, isWrite: bool)
    requires SysOk(s)
  {
    a.AccessBy? && a.isWrite == isWrite
    && var reg := Decode(s.plic, a.offset, a.size, a.value);
       reg.ClaimReg? && SMode(s.plic, reg.context)
  }

  /** The step is a claim that hands out `irq`. */
  ghost predicate Claims(s: Sys, a: Action, irq: nat)
    requires SysOk(s)
  {
    TouchesClaim(s, a, false) && NextPending(s.plic, Decode(s.plic, a.offset, a.size, a.value).context) == irq
  }

  /** The step is a completion of `irq`. */
  ghost predicate Completes(s: Sys, a: Action, irq: nat)
    requires SysOk(s)
  {
    TouchesClaim(s, a, true) && a.value == irq
  }

  /** A claim returns what it claims, and it claims the best candidate: the lowest-numbered enabled, pending, inactive
      interrupt of greatest priority above the threshold, or 0 if there is none. */
  lemma ClaimReturnsBest(s: Sys, a: Action, irq: nat)
    requires SysOk(s) && Possible(s, a) && Claims(s, a, irq)
    ensures Step(s, a).Reply? && Step(s, a).value == irq
    ensures var c := Decode(s.plic, a.offset, a.size, a.value).context;
      && (irq == 0 <==> forall i: nat :: !Candidate(s.plic, c, i))
      && (irq != 0 ==>
            && Candidate(s.plic, c, irq)
            && (forall i: nat | Candidate(s.plic, c, i) :: s.plic.priority[i] <= s.plic.priority[irq])
            && (forall i: nat | Candidate(s.plic, c, i) && s.plic.priority[i] == s.plic.priority[irq] :: irq <= i))
  {
    NextPendingIsBest(s.plic, Decode(s.plic, a.offset, a.size, a.value).context);
  }

  /** Exactly which steps change the pending and active bits of an interrupt. */
  lemma StepBits(s: Sys, a: Action, irq: nat)
    requires SysOk(s) && Possible(s, a) && Step(s, a).Reply? && 1 <= irq < |s.plic.priority|
    ensures var p' := Step(s, a).sys.plic;
      && |p'.priority| == |s.plic.priority|
      && p'.pending[irq] == (Accepts(s, a, irq) || (s.plic.pending[irq] && !Claims(s, a, irq)))
      && p'.active[irq] == (Claims(s, a, irq) || (s.plic.active[irq] && !Completes(s, a, irq)))
    ensures Accepts(s, a, irq) ==> !s.plic.pending[irq]
    ensures Claims(s, a, irq) ==> s.plic.pending[irq] && !s.plic.active[irq]
  {
    if a.AccessBy? {
      var reg := Decode(s.plic, a.offset, a.size, a.value);
      if reg.ClaimReg? && SMode(s.plic, reg.context) {
        NextPendingIsBest(s.plic, reg.context);
      }
    }
  }

  lemma RunBits(states: seq<Sys>, actions: seq<Action>, irq: nat, k: nat)
    requires IsRun(states, actions) && k < |actions| && 1 <= irq < |states[k].plic.priority|
    ensures |states[k + 1].plic.priority| == |states[k].plic.priority|
    ensures states[k + 1].plic.pending[irq]
         == (Accepts(states[k], actions[k], irq) ||
             (states[k].plic.pending[irq] && !Claims(states[k], actions[k], irq)))
    ensures states[k + 1].plic.active[irq]
         == (Claims(states[k], actions[k], irq) ||
             (states[k].plic.active[irq] && !Completes(states[k], actions[k], irq)))
    ensures Accepts(states[k], actions[k], irq) ==> !states[k].plic.pending[irq]
    ensures Claims(states[k], actions[k], irq) ==> states[k].plic.pending[irq] && !states[k].plic.active[irq]
  {
    StepBits(states[k], actions[k], irq);
  }

  ghost function Accepted(states: seq<Sys>, actions: seq<Action>, irq: nat): nat
    requires IsRun(states, actions)
  {
    if actions == [] then 0
    else
      var n := |actions| - 1;
      Accepted(states[..|actions|], actions[..n], irq) + if Accepts(states[n], actions[n], irq) then 1 else 0
  }

  ghost function Claimed(states: seq<Sys>, actions: seq<Action>, irq: nat): nat
    requires IsRun(states, actions)
  {
    if actions == [] then 0
    else
      var n := |actions| - 1;
      Claimed(states[..|actions|], actions[..n], irq) + if Claims(states[n], actions[n], irq) then 1 else 0
  }

  function AsNumber(b: bool): nat
  {
    if b then 1 else 0
  }

  /** Conservation: over any run, accepted injections of an interrupt equal its claims plus the change of its pending
      bit.  Nothing is delivered twice and nothing accepted is dropped. */
  lemma {:induction false} InjectionsAreClaimed(states: seq<Sys>, actions: seq<Action>, irq: nat)
    requires IsRun(states, actions) && 1 <= irq < |states[0].plic.priority|
    ensures |states[|actions|].plic.priority| == |states[0].plic.priority|
    ensures AsNumber(states[0].plic.pending[irq]) + Accepted(states, actions, irq)
         == Claimed(states, actions, irq) + AsNumber(states[|actions|].plic.pending[irq])
    decreases |actions|
  {
    if actions != [] {
      var n := |actions| - 1;
      InjectionsAreClaimed(states[..|actions|], actions[..n], irq);
      StepBits(states[n], actions[n], irq);
    }
  }

  /** A bit that only one kind of event clears stays set while there is none. */
  lemma {:induction false} StaysSet(bits: seq<bool>, clears: seq<bool>, i: nat, j: nat)
    requires |bits| == |clears| + 1 && i <= j <= |clears|
    requires forall k: nat | k < |clears| && bits[k] && !clears[k] :: bits[k + 1]
    requires bits[i] && forall k: nat | i <= k < j :: !clears[k]
    ensures bits[j]
    decreases j - i
  {
    if i < j {
      StaysSet(bits, clears, i + 1, j);
    }
  }

  predicate ActiveAt(s: Sys, irq: nat)
  {
    irq < |s.plic.active| && s.plic.active[irq]
  }

  lemma ActiveNext(states: seq<Sys>, actions: seq<Action>, irq: nat, k: nat)
    requires IsRun(states, actions) && k < |actions| && irq >= 1
    ensures ActiveAt(states[k], irq) && !Completes(states[k], actions[k], irq) ==> ActiveAt(states[k + 1], irq)
    ensures Claims(states[k], actions[k], irq) ==> !ActiveAt(states[k], irq) && ActiveAt(states[k + 1], irq)
  {
    if irq < |states[k].plic.priority| {
      RunBits(states, actions, irq, k);
    }
  }

  /** While an interrupt is not completed it stays active. */
  lemma StaysActive(states: seq<Sys>, actions: seq<Action>, irq: nat, i: nat, j: nat)
    requires IsRun(states, actions) && i <= j <= |actions| && irq >= 1
    requires ActiveAt(states[i], irq)
    requires forall k: nat | i <= k < j :: !Completes(states[k], actions[k], irq)
    ensures ActiveAt(states[j], irq)
  {
    var bits := seq(|states|, k requires 0 <= k < |states| => ActiveAt(states[k], irq));
    var clears := seq(|actions|, k requires 0 <= k < |actions| => Completes(states[k], actions[k], irq));
    forall k: nat | k < |clears| && bits[k] && !clears[k]
      ensures bits[k + 1]
    {
      ActiveNext(states, actions, irq, k);
    }
    StaysSet(bits, clears, i, j);
  }

  /** No interrupt is claimed twice without a completion in between. */
  lemma ClaimsAlternate(states: seq<Sys>, actions: seq<Action>, irq: nat, i: nat, j: nat)
    requires IsRun(states, actions) && i < j < |actions| && irq >= 1
    requires Claims(states[i], actions[i], irq) && Claims(states[j], actions[j], irq)
    ensures exists k: nat :: i < k < j && Completes(states[k], actions[k], irq)
  {
    ActiveNext(states, actions, irq, i);
    ActiveNext(states, actions, irq, j);
    if forall k: nat | i + 1 <= k < j :: !Completes(states[k], actions[k], irq) {
      StaysActive(states, actions, irq, i + 1, j);
    }
  }
}
