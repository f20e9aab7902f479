/** `VirtualPLIC` as the object it is in src/device/irqchip/plic/vplic.rs, proved against the transition function of
    `PlicSpec`.  The class also holds what the object drives: lines and event queues. */
module VirtualPlics {
  import opened Options
  import opened PlicSpec
  import opened PlicHost

  class VirtualPlic {
    const cpus: seq<nat>
    var hw: seq<bool>
    var active: seq<bool>
    var priority: seq<nat>
    var pending: seq<bool>
    var enable: seq<seq<bool>>
    var threshold: seq<nat>
    var vseip: map<nat, bool>
    var events: map<nat, seq<nat>>
    /** The registers of the host PLIC. */
    var host: Host
    /** CPUs between `fetch_event` and `update_hart_line`. */
    ghost var handling: set<nat>

    ghost function P(): Plic
      reads this
    {
      Plic(hw, active, priority, pending, enable, threshold)
    }

    ghost function S(): Sys
      reads this
    {
      Sys(P(), cpus, vseip, events, handling)
    }

    ghost predicate Valid()
      reads this
    {
      SysOk(S())
    }

    /** `vplic_get_next_pending`. */
    method GetNextPending(c: nat) returns (n: nat)
      requires Valid() && c < |threshold|
      ensures n == NextPending(P(), c)
    {
      var maxPrio, nextIrq := 0, 0;
      var irq := 1;
      while irq < |priority|
        invariant 1 <= irq <= |priority|
        invariant Best(maxPrio, nextIrq) == Scan(P(), c, irq)
      {
        if pending[irq] && !active[irq] && enable[c][irq] {
          if priority[irq] > maxPrio {
            maxPrio, nextIrq := priority[irq], irq;
          }
        }
        irq := irq + 1;
      }
      n := if maxPrio > threshold[c] then nextIrq else 0;
    }

    /** `vplic_update_hart_line` on `cpu`. */
    method UpdateHartLine(cpu: nat, c: nat)
      requires Valid() && c < |threshold|
      modifies this`vseip, this`events
      ensures Valid() && S() == UpdateLine(old(S()), cpu, c)
    {
      var target := cpus[c / 2];
      if target == cpu {
        var irq := GetNextPending(c);
        vseip := vseip[target := irq != 0];
      } else {
        events := events[target := events[target] + [UPDATE_HART_LINE]];
      }
    }

    /** The context loop of an injection (`aboveThreshold`) or of a priority write. */
    method RefreshLines(cpu: nat, irq: nat, aboveThreshold: bool)
      requires Valid() && irq < |priority|
      modifies this`vseip, this`events
      ensures Valid() && S() == Refresh(old(S()), cpu, irq, aboveThreshold, 0)
    {
      var c := 0;
      while c < |threshold|
        invariant Valid() && c <= |threshold| && P() == old(P())
        invariant Refresh(S(), cpu, irq, aboveThreshold, c) == Refresh(old(S()), cpu, irq, aboveThreshold, 0)
      {
        if c % 2 == 1 && enable[c][irq] && (aboveThreshold ==> priority[irq] > threshold[c]) {
          UpdateHartLine(cpu, c);
        }
        c := c + 1;
      }
    }

    /** `inject_irq`; false where the source panics. */
    method InjectIrq(cpu: nat, c: nat, irq: nat, isHw: bool) returns (ok: bool)
      requires Valid()
      modifies this`pending, this`vseip, this`events
      ensures ok <==> Inject(old(S()), cpu, c, irq, isHw).Reply?
      ensures ok ==> Valid() && S() == Inject(old(S()), cpu, c, irq, isHw).sys
    {
      if irq >= |priority| {
        return false;
      }
      if isHw != hw[irq] || pending[irq] {
        return true;
      }
      pending := pending[irq := true];
      if hw[irq] {
        if c >= |threshold| {
          return false;
        }
        UpdateHartLine(cpu, c);
      } else {
        RefreshLines(cpu, irq, true);
      }
      return true;
    }

    /** One round of the write loop of an enable register. */
    method EnableBit(cpu: nat, c: nat, irq: nat, on: bool)
      requires Valid() && c < |threshold| && irq < |priority|
      modifies this`enable, this`vseip, this`events, this`host
      ensures Valid() && S() == EnableOne(old(S()), cpu, c, irq, on)
      ensures host == HostEnableOne(old(host), old(S()), c, irq, on)
    {
      if enable[c][irq] == on {
        return;
      }
      enable := enable[c := enable[c][irq := on]];
      if hw[irq] {
        var x := 2 * cpus[c / 2] + 1;
        host := SetEnableNum(host, x, irq, on);
      } else {
        UpdateHartLine(cpu, c);
      }
    }

    /** The write loop of an enable register. */
    method WriteEnableWord(cpu: nat, c: nat, value: nat, start: nat)
      requires Valid() && c < |threshold|
      modifies this`enable, this`vseip, this`events, this`host
      ensures Valid() && S() == WriteEnable(old(S()), cpu, c, value, start, start, WordEnd(old(P()), start))
      ensures host == HostWriteEnable(old(host), old(S()), c, value, start, start, WordEnd(old(P()), start))
    {
      var end := if start + 32 < |priority| then start + 32 else |priority|;
      var irq: nat := start;
      ghost var rest: EnableLoop := StartLoop(S(), cpu, c, value, start, end);
      ghost var hostRest: HostLoop := StartHostLoop(host, S(), c, value, start, end);
      ghost var result, before, hostResult := rest.result, S(), hostRest.result;
      while irq < end
        invariant Valid() && start <= irq && NotYet(before, S(), c, irq)
        invariant rest == LoopState(S(), cpu, c, value, start, irq, end, result)
        invariant hostRest == HostLoopState(host, before, c, value, start, irq, end, hostResult)
        decreases end - irq
      {
        var on := Bit(value, irq - start);
        EnableBit(cpu, c, irq, on);
        rest, hostRest := BothRounds(rest, hostRest, on, S(), host);
        irq := irq + 1;
      }
      LoopEnds(rest);
      HostLoopEnds(hostRest);
    }

    /** The read loop of a pending or enable register. */
    method ReadWord(bits: seq<bool>, start: nat, end: nat) returns (w: nat)
      requires end <= |bits|
      ensures w == Word(bits, start, end)
    {
      w := 0;
      var weight, irq := 1, start;
      while irq < end
        invariant start <= irq && weight > 0
        invariant w + weight * Word(bits, irq, end) == Word(bits, start, end)
        decreases end - irq
      {
        var rest := Word(bits, irq + 1, end);
        WeightStep(weight, if bits[irq] then 1 else 0, rest);
        if bits[irq] {
          w := w + weight;
        }
        weight := 2 * weight;
        irq := irq + 1;
      }
    }

    /** `vplic_emul_access`; false where the source panics. */
    method EmulAccess(cpu: nat, offset: nat, size: nat, value: nat, isWrite: bool) returns (ok: bool, result: nat)
      requires Valid()
      modifies this
      ensures ok <==> Access(old(S()), cpu, offset, size, value, isWrite).Reply?
      ensures ok ==> Valid() && Reply(S(), result) == Access(old(S()), cpu, offset, size, value, isWrite)
      ensures ok ==> host == HostAccess(old(host), old(S()), offset, size, value, isWrite)
    {
      ok, result := true, 0;
      if size != 4 || offset % 4 != 0 || value > 0xffff_ffff {
        return;
      }
      if offset <= 0x0ffc {
        result := AccessPriority(cpu, offset / 4, value, isWrite);
      } else if 0x1000 <= offset <= 0x107c {
        result := AccessPending((offset - 0x1000) / 4, isWrite);
      } else if 0x2000 <= offset < 0x2000 + 0x80 * |threshold| {
        result := AccessEnable(cpu, (offset - 0x2000) / 0x80, (offset - 0x2000) % 0x80 / 4, value, isWrite);
      } else if offset >= 0x20_0000 && (offset - 0x20_0000) % 0x1000 == 0 {
        result := AccessThreshold(cpu, (offset - 0x20_0000) / 0x1000, value, isWrite);
      } else if offset >= 0x20_0004 && (offset - 0x20_0004) % 0x1000 == 0 {
        ok, result := AccessClaim(cpu, (offset - 0x20_0004) / 0x1000, value, isWrite);
      }
    }

    method AccessPending(word: nat, isWrite: bool) returns (result: nat)
      requires Valid()
      ensures Reply(S(), result) == PendingAccess(S(), word, isWrite)
    {
      if isWrite {
        return 0;
      }
      result := ReadWord(pending, word * 32, if word * 32 + 32 < |priority| then word * 32 + 32 else |priority|);
    }

    method AccessPriority(cpu: nat, irq: nat, value: nat, isWrite: bool) returns (result: nat)
      requires Valid()
      modifies this
      ensures Valid() && Reply(S(), result) == PriorityAccess(old(S()), cpu, irq, value, isWrite)
      ensures host == HostPriority(old(host), old(S()), irq, value, isWrite)
    {
      if irq >= |priority| || irq == 0 {
        return 0;
      }
      if !isWrite {
        return priority[irq];
      }
      priority := priority[irq := value];
      if hw[irq] {
        host := host.(priority := host.priority[irq := value]);
      } else {
        RefreshLines(cpu, irq, false);
      }
      return 0;
    }

    method AccessEnable(cpu: nat, c: nat, word: nat, value: nat, isWrite: bool) returns (result: nat)
      requires Valid()
      modifies this
      ensures Valid() && Reply(S(), result) == EnableAccess(old(S()), cpu, c, word, value, isWrite)
      ensures host == HostEnable(old(host), old(S()), c, word, value, isWrite)
    {
      if c >= |threshold| || c % 2 == 0 {
        return 0;
      }
      if !isWrite {
        result := ReadWord(enable[c], word * 32, if word * 32 + 32 < |priority| then word * 32 + 32 else |priority|);
        return;
      }
      WriteEnableWord(cpu, c, value, word * 32);
      return 0;
    }

    method AccessThreshold(cpu: nat, c: nat, value: nat, isWrite: bool) returns (result: nat)
      requires Valid()
      modifies this
      ensures Valid() && Reply(S(), result) == ThresholdAccess(old(S()), cpu, c, value, isWrite)
      ensures host == HostThreshold(old(host), old(S()), c, value, isWrite)
    {
      if c >= |threshold| || c % 2 == 0 {
        return 0;
      }
      if !isWrite {
        return threshold[c];
      }
      threshold := threshold[c := value];
      host := host.(threshold := host.threshold[2 * cpus[c / 2] + 1 := value]);
      UpdateHartLine(cpu, c);
      return 0;
    }

    method AccessClaim(cpu: nat, c: nat, value: nat, isWrite: bool) returns (ok: bool, result: nat)
      requires Valid()
      modifies this
      ensures ok <==> ClaimCompleteAccess(old(S()), cpu, c, value, isWrite).Reply?
      ensures ok ==> Valid() && Reply(S(), result) == ClaimCompleteAccess(old(S()), cpu, c, value, isWrite)
      ensures ok ==> host == HostComplete(old(host), old(S()), c, value, isWrite)
    {
      ok, result := true, 0;
      if c >= |threshold| || c % 2 == 0 {
        return;
      }
      if isWrite {
        if value >= |priority| {
          return false, 0;
        }
        if hw[value] {
          host := host.(completed := host.completed + [(2 * cpus[c / 2] + 1, value)]);
        }
        active := active[value := false];
        UpdateHartLine(cpu, c);
      } else {
        var claimed := GetNextPending(c);
        pending := pending[claimed := false];
        active := active[claimed := true];
        UpdateHartLine(cpu, c);
        return true, claimed;
      }
    }

    /** `pcontext_to_vcontext`. */
    method PcontextToVcontext(cpu: nat) returns (c: nat)
      ensures c == OwnContext(cpus, cpu)
    {
      var index, i := 0, 0;
      while i < |cpus|
        invariant i <= |cpus| && index == 0
        invariant Position(cpus, cpu, i) == Position(cpus, cpu, 0)
      {
        if cpus[i] == cpu {
          index := i;
          break;
        }
        i := i + 1;
      }
      return 2 * index + 1;
    }

    /** `fetch_event`. */
    method FetchEvent(cpu: nat) returns (event: Option<nat>)
      requires Valid() && cpu in cpus
      modifies this`events, this`handling
      ensures Valid() && S() == Fetch(old(S()), cpu)
      ensures event == if old(events[cpu]) == [] then None else Some(old(events[cpu])[0])
    {
      if events[cpu] == [] {
        return None;
      }
      event := Some(events[cpu][0]);
      events := events[cpu := events[cpu][1..]];
      if event.value == UPDATE_HART_LINE {
        handling := handling + {cpu};
      }
    }

    /** `update_hart_line` on a CPU that has fetched the event for it. */
    method HandleUpdate(cpu: nat)
      requires Valid() && cpu in cpus
      modifies this`vseip, this`events, this`handling
      ensures Valid() && S() == Handle(old(S()), cpu)
    {
      handling := handling - {cpu};
      var c := PcontextToVcontext(cpu);
      UpdateHartLine(cpu, c);
    }

    /** `arch_irqchip_reset`: the host registers of the zone's hardware interrupts and contexts, and the queues. */
    method Reset()
      requires Valid()
      modifies this`host, this`events
      ensures Valid() && S() == old(S()).(events := events)
      ensures IsReset(old(host), old(S()), host)
      ensures forall h | h in cpus :: events[h] == []
    {
      for irq := 0 to |hw|
        invariant events == old(events) && host == old(host).(priority := host.priority)
        invariant forall k: nat ::
          Reg(host.priority, k) == if k < irq && hw[k] then 0 else Reg(old(host).priority, k)
      {
        if hw[irq] {
          host := host.(priority := host.priority[irq := 0]);
          for i := 0 to |cpus|
            invariant events == old(events) && host == old(host).(priority := host.priority)
            invariant forall k: nat ::
              Reg(host.priority, k) == if k <= irq && hw[k] then 0 else Reg(old(host).priority, k)
          {
            host := SetEnableNum(host, 2 * cpus[i] + 1, irq, false);
          }
        }
      }
      ghost var before := host;
      for i := 0 to |cpus|
        invariant Valid() && S() == old(S()).(events := events)
        invariant host == before.(threshold := host.threshold)
        invariant forall x: nat ::
          Reg(host.threshold, x) == if x % 2 == 1 && x / 2 in cpus[..i] then 0 else Reg(before.threshold, x)
        invariant forall h | h in cpus[..i] :: events[h] == []
      {
        assert cpus[..i + 1] == cpus[..i] + [cpus[i]];
        host := host.(threshold := host.threshold[2 * cpus[i] + 1 := 0]);
        events := events[cpus[i] := []];
      }
      assert cpus[..|cpus|] == cpus;
    }
  }

  lemma WeightStep(weight: nat, bit: nat, rest: nat)
    ensures weight * (bit + 2 * rest) == weight * bit + 2 * weight * rest
  {
  }
}
