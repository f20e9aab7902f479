/** The memory map of the virtual PLIC, address by address, as the RISC-V PLIC specification 1.0 lays it out: what a
    guest's access to each register does and shows. */
module PlicMap {
  import opened PlicSpec
  import opened PlicWakeup

  /** The machine after the vPLIC has become `p` and the line of context `c` has been updated by `cpu`: the own line is
      up exactly while something can be delivered, another CPU gets one more event, and nothing else changes. */
  ghost predicate Updated(s: Sys, s': Sys, p: Plic, cpu: nat, c: nat)
    requires SysOk(s) && c < |s.plic.threshold|
  {
    var t := s.cpus[c / 2];
    && SysOk(s') && s'.plic == p && |p.threshold| == |s.plic.threshold|
    && s'.cpus == s.cpus && s'.handling == s.handling
    && (if t == cpu then s'.events == s.events && s'.vseip == s.vseip[t := HasCandidate(p, c)]
        else s'.vseip == s.vseip && s'.events == s.events[t := s.events[t] + [UPDATE_HART_LINE]])
  }

  lemma UpdateLineIs(s: Sys, cpu: nat, c: nat)
    requires SysOk(s) && c < |s.plic.threshold|
    ensures Updated(s, UpdateLine(s, cpu, c), s.plic, cpu, c)
  {
    SearchFinds(s.plic, c);
  }

  /** Priority of interrupt `i`: 0x0 + 4 * i. */
  lemma PriorityAt(s: Sys, cpu: nat, i: nat, value: nat)
    requires SysOk(s) && i < 1024 && value <= 0xffff_ffff
    ensures var r := Access(s, cpu, 4 * i, 4, value, false);
            r == Reply(s, if 0 < i < |s.plic.priority| then s.plic.priority[i] else 0)
    ensures var r := Access(s, cpu, 4 * i, 4, value, true);
            if 0 < i < |s.plic.priority|
            then r.Reply? && r.value == 0 && r.sys.plic == s.plic.(priority := s.plic.priority[i := value])
            else r == Reply(s, 0)
  {
    assert 4 * i / 4 == i && 4 * i % 4 == 0;
    assert Decode(s.plic, 4 * i, 4, value) == PriorityReg(i);
  }

  /** A priority that was written is read back, by every CPU and whatever kind of interrupt it is. */
  lemma PriorityReadBack(s: Sys, cpu: nat, cpu': nat, i: nat, value: nat)
    requires SysOk(s) && 0 < i < |s.plic.priority| && i < 1024 && value <= 0xffff_ffff
    ensures Access(s, cpu, 4 * i, 4, value, true).Reply?
    ensures var s' := Access(s, cpu, 4 * i, 4, value, true).sys;
            Access(s', cpu', 4 * i, 4, 0, false) == Reply(s', value)
  {
    PriorityAt(s, cpu, i, value);
    PriorityAt(Access(s, cpu, 4 * i, 4, value, true).sys, cpu', i, 0);
  }

  /** Pending bits of interrupts 32 * w .. 32 * w + 31: 0x1000 + 4 * w, read only. */
  lemma PendingAt(s: Sys, cpu: nat, w: nat, value: nat, k: nat)
    requires SysOk(s) && w < 32 && value <= 0xffff_ffff && k < 32
    ensures var r := Access(s, cpu, 0x1000 + 4 * w, 4, value, false);
            && r.Reply? && r.sys == s
            && (Bit(r.value, k) <==> 32 * w + k < |s.plic.priority| && s.plic.pending[32 * w + k])
    ensures Access(s, cpu, 0x1000 + 4 * w, 4, value, true) == Reply(s, 0)
  {
    assert 4 * w / 4 == w && (0x1000 + 4 * w) % 4 == 0;
    assert Decode(s.plic, 0x1000 + 4 * w, 4, value) == PendingReg(w);
    WordShowsBits(s.plic.pending, w * 32, WordEnd(s.plic, w * 32), k);
  }

  /** Enable bits of interrupts 32 * w .. 32 * w + 31 for context `c`: 0x2000 + 0x80 * c + 4 * w. */
  lemma EnableDecodes(p: Plic, c: nat, w: nat, value: nat)
    requires c < |p.threshold| && w < 32 && value <= 0xffff_ffff
    ensures Decode(p, 0x2000 + 0x80 * c + 4 * w, 4, value) == EnableReg(c, w)
  {
    assert (0x80 * c + 4 * w) / 0x80 == c && (0x80 * c + 4 * w) % 0x80 == 4 * w;
    assert 4 * w / 4 == w && (0x2000 + 0x80 * c + 4 * w) % 4 == 0;
  }

  lemma EnableRead(s: Sys, cpu: nat, c: nat, w: nat, value: nat, k: nat)
    requires SysOk(s) && SMode(s.plic, c) && w < 32 && value <= 0xffff_ffff && k < 32
    ensures var r := Access(s, cpu, 0x2000 + 0x80 * c + 4 * w, 4, value, false);
            && r.Reply? && r.sys == s
            && (Bit(r.value, k) <==> 32 * w + k < |s.plic.priority| && s.plic.enable[c][32 * w + k])
  {
    EnableDecodes(s.plic, c, w, value);
    WordShowsBits(s.plic.enable[c], w * 32, WordEnd(s.plic, w * 32), k);
  }

  lemma EnableWritten(s: Sys, cpu: nat, c: nat, w: nat, value: nat, x: nat, i: nat)
    requires SysOk(s) && SMode(s.plic, c) && w < 32 && value <= 0xffff_ffff
    requires x < |s.plic.threshold| && i < |s.plic.priority|
    ensures var r := Access(s, cpu, 0x2000 + 0x80 * c + 4 * w, 4, value, true);
            && r.Reply? && r.value == 0 && r.sys.plic == s.plic.(enable := r.sys.plic.enable)
            && r.sys.plic.enable[x][i] ==
               if x == c && 32 * w <= i < 32 * w + 32 then Bit(value, i - 32 * w) else s.plic.enable[x][i]
  {
    EnableDecodes(s.plic, c, w, value);
    if 32 * w <= |s.plic.priority| {
      EnableBits(s, cpu, c, value, 32 * w, 32 * w, WordEnd(s.plic, 32 * w), x, i);
    }
  }

  /** The bits of the word follow the written value, and no others change. */
  lemma {:induction false} EnableBits(s: Sys, cpu: nat, c: nat, value: nat, start: nat, irq: nat, end: nat, x: nat,
                                      i: nat)
    requires SysOk(s) && c < |s.plic.threshold| && start <= irq && end <= |s.plic.priority|
    requires x < |s.plic.threshold| && i < |s.plic.priority|
    ensures var s' := WriteEnable(s, cpu, c, value, start, irq, end);
            s'.plic.enable[x][i] == if x == c && irq <= i < end then Bit(value, i - start) else s.plic.enable[x][i]
    decreases end - irq
  {
    if irq < end {
      EnableBits(EnableOne(s, cpu, c, irq, Bit(value, irq - start)), cpu, c, value, start, irq + 1, end, x, i);
    }
  }

  /** The register blocks of context `c` lie behind the enable bits of all contexts, as they do for the at most 15872
      contexts of a PLIC. */
  predicate BehindEnables(p: Plic, c: nat)
  {
    0x2000 + 0x80 * |p.threshold| <= 0x20_0000 + 0x1000 * c
  }

  lemma BlockDecodes(p: Plic, c: nat, value: nat)
    requires BehindEnables(p, c) && value <= 0xffff_ffff
    ensures Decode(p, 0x20_0000 + 0x1000 * c, 4, value) == ThresholdReg(c)
    ensures Decode(p, 0x20_0004 + 0x1000 * c, 4, value) == ClaimReg(c)
  {
    assert 0x1000 * c / 0x1000 == c && 0x1000 * c % 0x1000 == 0 && (0x20_0000 + 0x1000 * c) % 4 == 0;
    assert (0x1000 * c + 4) % 0x1000 == 4 && (0x20_0004 + 0x1000 * c) % 4 == 0;
  }

  /** Threshold of context `c`: 0x200000 + 0x1000 * c. */
  lemma ThresholdAt(s: Sys, cpu: nat, c: nat, value: nat)
    requires SysOk(s) && SMode(s.plic, c) && BehindEnables(s.plic, c) && value <= 0xffff_ffff
    ensures Access(s, cpu, 0x20_0000 + 0x1000 * c, 4, value, false) == Reply(s, s.plic.threshold[c])
    ensures var r := Access(s, cpu, 0x20_0000 + 0x1000 * c, 4, value, true);
            && r.Reply? && r.value == 0
            && Updated(s, r.sys, s.plic.(threshold := s.plic.threshold[c := value]), cpu, c)
  {
    BlockDecodes(s.plic, c, value);
    UpdateLineIs(WithPlic(s, s.plic.(threshold := s.plic.threshold[c := value])), cpu, c);
  }

  /** Claim of context `c`: a read of 0x200004 + 0x1000 * c.  It answers with the lowest-numbered candidate of greatest
      priority, or 0 when there is none, and makes what it answers active and not pending. */
  lemma ClaimAt(s: Sys, cpu: nat, c: nat, value: nat)
    requires SysOk(s) && SMode(s.plic, c) && BehindEnables(s.plic, c) && value <= 0xffff_ffff
    ensures var r := Access(s, cpu, 0x20_0004 + 0x1000 * c, 4, value, false);
            && r.Reply? && r.value < |s.plic.priority|
            && (r.value == 0 <==> forall i: nat :: !Candidate(s.plic, c, i))
            && (r.value != 0 ==>
                  && Candidate(s.plic, c, r.value)
                  && forall i: nat | Candidate(s.plic, c, i) ::
                       s.plic.priority[i] < s.plic.priority[r.value]
                       || (s.plic.priority[i] == s.plic.priority[r.value] && r.value <= i))
            && Updated(s, r.sys, s.plic.(pending := s.plic.pending[r.value := false],
                                         active := s.plic.active[r.value := true]), cpu, c)
  {
    BlockDecodes(s.plic, c, value);
    NextPendingIsBest(s.plic, c);
    var n := NextPending(s.plic, c);
    UpdateLineIs(WithPlic(s, SetActive(SetPending(s.plic, n, false), n, true)), cpu, c);
  }

  /** Completion through context `c`: a write of 0x200004 + 0x1000 * c; an unknown interrupt number panics. */
  lemma CompleteAt(s: Sys, cpu: nat, c: nat, irq: nat)
    requires SysOk(s) && SMode(s.plic, c) && BehindEnables(s.plic, c) && irq <= 0xffff_ffff
    ensures var r := Access(s, cpu, 0x20_0004 + 0x1000 * c, 4, irq, true);
            if irq >= |s.plic.priority| then r == PlicPanic
            else r.Reply? && r.value == 0
                 && Updated(s, r.sys, s.plic.(active := s.plic.active[irq := false]), cpu, c)
  {
    BlockDecodes(s.plic, c, irq);
    if irq < |s.plic.priority| {
      UpdateLineIs(WithPlic(s, SetActive(s.plic, irq, false)), cpu, c);
    }
  }

  /** A register at this address. */
  predicate Mapped(p: Plic, a: nat)
  {
    || a <= 0xFFC
    || 0x1000 <= a <= 0x107C
    || 0x2000 <= a < 0x2000 + 0x80 * |p.threshold|
    || (a >= 0x20_0000 && a % 0x1000 == 0)
    || (a >= 0x20_0004 && a % 0x1000 == 4)
  }

  /** All other accesses do nothing and read 0: those that are no aligned words, those outside the map, and those to
      registers of M-mode contexts and of contexts that do not exist. */
  lemma NothingElse(s: Sys, cpu: nat, a: nat, size: nat, value: nat, isWrite: bool)
    requires SysOk(s) && (size != 4 || a % 4 != 0 || value > 0xffff_ffff || !Mapped(s.plic, a))
    ensures Access(s, cpu, a, size, value, isWrite) == Reply(s, 0)
  {
    if size == 4 && a % 4 == 0 && value <= 0xffff_ffff {
      assert a >= 0x20_0000 ==> (a - 0x20_0000) % 0x1000 == a % 0x1000;
      assert a >= 0x20_0004 ==> ((a - 0x20_0004) % 0x1000 == 0 <==> a % 0x1000 == 4);
    }
  }

  lemma NoSuchContext(s: Sys, cpu: nat, c: nat, w: nat, value: nat, isWrite: bool)
    requires SysOk(s) && !SMode(s.plic, c) && value <= 0xffff_ffff
    ensures c < |s.plic.threshold| && w < 32 ==>
              Access(s, cpu, 0x2000 + 0x80 * c + 4 * w, 4, value, isWrite) == Reply(s, 0)
    ensures BehindEnables(s.plic, c) ==>
              && Access(s, cpu, 0x20_0000 + 0x1000 * c, 4, value, isWrite) == Reply(s, 0)
              && Access(s, cpu, 0x20_0004 + 0x1000 * c, 4, value, isWrite) == Reply(s, 0)
  {
    if c < |s.plic.threshold| && w < 32 {
      EnableDecodes(s.plic, c, w, value);
    }
    if BehindEnables(s.plic, c) {
      BlockDecodes(s.plic, c, value);
    }
  }

  // Lines and events, context by context.

  /** What the step has done for context `x`: nothing, or an update of its line by `cpu`. */
  ghost predicate LineOf(s: Sys, s': Sys, cpu: nat, x: nat, updated: bool)
    requires SysOk(s) && SysOk(s') && s'.cpus == s.cpus && |s'.plic.threshold| == |s.plic.threshold|
    requires SMode(s.plic, x)
  {
    var h := s.cpus[x / 2];
    && s'.vseip[h] == (if updated && h == cpu then HasCandidate(s'.plic, x) else s.vseip[h])
    && s'.events[h] == s.events[h] + (if updated && h != cpu then [UPDATE_HART_LINE] else [])
  }

  lemma OneLine(s: Sys, cpu: nat, c: nat, x: nat)
    requires SysOk(s) && SMode(s.plic, c) && SMode(s.plic, x)
    ensures LineOf(s, UpdateLine(s, cpu, c), cpu, x, x == c)
  {
    UpdateLineIs(s, cpu, c);
    if x != c {
      ContextsApart(s, x, c);
    }
  }

  /** The loop over the contexts from `c` on updates exactly the S-mode contexts that have the interrupt enabled and,
      for an injection, a threshold below its priority. */
  lemma {:induction false} RefreshIs(s: Sys, cpu: nat, irq: nat, above: bool, c: nat, x: nat)
    requires SysOk(s) && irq < |s.plic.priority| && c <= |s.plic.threshold| && SMode(s.plic, x)
    ensures var s' := Refresh(s, cpu, irq, above, c);
            LineOf(s, s', cpu, x, x >= c && s.plic.enable[x][irq] &&
                                  (above ==> s.plic.priority[irq] > s.plic.threshold[x]))
    decreases |s.plic.threshold| - c
  {
    if c < |s.plic.threshold| {
      if Refreshed(s.plic, irq, above, c) {
        OneLine(s, cpu, c, x);
      }
      RefreshIs(RefreshOne(s, cpu, irq, above, c), cpu, irq, above, c + 1, x);
    }
  }

  /** An injection: an unknown interrupt, or a hardware injection for an unknown context, panics; one of the other kind
      or one that is already pending is ignored; any other becomes pending, and the lines follow. */
  lemma InjectIs(s: Sys, cpu: nat, c: nat, irq: nat, hw: bool, x: nat)
    requires SysOk(s) && SMode(s.plic, x) && (hw ==> c % 2 == 1)
    ensures var r := Inject(s, cpu, c, irq, hw);
            if irq >= |s.plic.priority| then r == PlicPanic
            else if s.plic.hw[irq] != hw || s.plic.pending[irq] then r == Reply(s, 0)
            else if hw && c >= |s.plic.threshold| then r == PlicPanic
            else
              && r.Reply? && r.value == 0 && r.sys.cpus == s.cpus
              && r.sys.plic == s.plic.(pending := s.plic.pending[irq := true])
              && LineOf(s, r.sys, cpu, x, if hw then x == c
                                          else s.plic.enable[x][irq] && s.plic.priority[irq] > s.plic.threshold[x])
  {
    if irq < |s.plic.priority| && s.plic.hw[irq] == hw && !s.plic.pending[irq] {
      var s1 := WithPlic(s, SetPending(s.plic, irq, true));
      if !hw {
        RefreshIs(s1, cpu, irq, true, 0, x);
      } else if c < |s.plic.threshold| {
        OneLine(s1, cpu, c, x);
      }
    }
  }

  /** A priority write updates the lines of the contexts that have a software interrupt enabled, and none otherwise. */
  lemma PriorityLines(s: Sys, cpu: nat, i: nat, value: nat, x: nat)
    requires SysOk(s) && 0 < i < |s.plic.priority| && i < 1024 && value <= 0xffff_ffff && SMode(s.plic, x)
    ensures var r := Access(s, cpu, 4 * i, 4, value, true);
            && r.Reply? && r.sys.cpus == s.cpus && r.sys.plic == s.plic.(priority := s.plic.priority[i := value])
            && LineOf(s, r.sys, cpu, x, !s.plic.hw[i] && s.plic.enable[x][i])
  {
    PriorityAt(s, cpu, i, value);
    if !s.plic.hw[i] {
      RefreshIs(WithPlic(s, s.plic.(priority := s.plic.priority[i := value])), cpu, i, false, 0, x);
    }
  }

  /** Handling an update event sets the CPU's own line to whether anything can be delivered to its own context. */
  lemma HandleIs(s: Sys, cpu: nat, x: nat)
    requires SysOk(s) && cpu in s.cpus && SMode(s.plic, x)
    ensures var s' := Handle(s, cpu);
            && s'.plic == s.plic && s'.cpus == s.cpus && s'.handling == s.handling - {cpu}
            && LineOf(s, s', cpu, x, s.cpus[x / 2] == cpu)
  {
    var c := OwnContext(s.cpus, cpu);
    var s1 := s.(handling := s.handling - {cpu});
    OneLine(s1, cpu, c, x);
    if x != c && s.cpus[x / 2] == cpu {
      ContextsApart(s, x, c);
    }
  }
}
