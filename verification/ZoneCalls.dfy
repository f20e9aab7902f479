/** The zone calls of `Zones` from outside: what each one answers and leaves, over the state before it. */
module ZoneCalls {
  import opened Options
  import opened Zones

  predicate IsRoot(s: State, caller: nat)
  {
    caller < |s.cpus| && s.cpus[caller].zone.Some? && !s.lost && s.list != [] && s.cpus[caller].zone.value == s.list[0]
  }

  predicate IsOther(s: State, caller: nat)
  {
    caller < |s.cpus| && s.cpus[caller].zone.Some? && !s.lost && s.list != [] && s.cpus[caller].zone.value != s.list[0]
  }

  predicate IdFree(s: State, id: nat)
    requires ListShape(s.list, s.objects)
  {
    forall i: nat | i < |s.list| :: s.objects[s.list[i]].id != id
  }

  /** The first `n` configured CPUs exist and have no zone. */
  predicate Good(s: State, ids: seq<nat>, n: nat)
    requires n <= |ids|
  {
    forall i: nat | i < n :: ids[i] < |s.cpus| && s.cpus[ids[i]].zone.None?
  }

  /** The first configured CPU that is not free has a zone. */
  predicate Taken(s: State, ids: seq<nat>)
  {
    exists n: nat :: n < |ids| && Good(s, ids, n) && ids[n] < |s.cpus| && s.cpus[ids[n]].zone.Some?
  }

  /** The first configured CPU that is not free does not exist. */
  predicate Missing(s: State, ids: seq<nat>)
  {
    exists n: nat :: n < |ids| && Good(s, ids, n) && ids[n] >= |s.cpus|
  }

  /** The lowest configured CPU is powered on. */
  predicate LowestOn(s: State, ids: seq<nat>)
  {
    exists c: nat :: c in ids && c < |s.cpus| && s.cpus[c].on && forall d | d in ids :: c <= d
  }

  lemma {:induction false} AdmitGood(s: State, ids: seq<nat>, n: nat)
    requires n <= |ids| && Good(s, ids, n)
    ensures Admit(s.cpus, ids[..n]).Ok?
  {
    if n > 0 {
      assert ids[..n][..n - 1] == ids[..n - 1];
      AdmitGood(s, ids, n - 1);
    }
  }

  lemma AdmitBad(s: State, ids: seq<nat>, n: nat)
    requires n < |ids| && Good(s, ids, n) && !(ids[n] < |s.cpus| && s.cpus[ids[n]].zone.None?)
    ensures Admit(s.cpus, ids) == if ids[n] >= |s.cpus| then Panic else Err(EBUSY)
  {
    AdmitGood(s, ids, n);
    assert ids[..n + 1][..n] == ids[..n];
    BadCpuDecides(s.cpus, ids, n + 1);
  }

  lemma {:induction false} SomeBad(s: State, ids: seq<nat>, n: nat) returns (m: nat)
    requires n <= |ids| && !Good(s, ids, n)
    ensures m < n && Good(s, ids, m) && !(ids[m] < |s.cpus| && s.cpus[ids[m]].zone.None?)
  {
    m := n - 1;
    if !Good(s, ids, n - 1) {
      m := SomeBad(s, ids, n - 1);
    }
  }

  lemma AdmitExact(s: State, ids: seq<nat>)
    ensures Admit(s.cpus, ids).Ok? <==> Good(s, ids, |ids|)
    ensures Admit(s.cpus, ids) == Err(EBUSY) <==> Taken(s, ids)
    ensures Admit(s.cpus, ids) == Panic <==> Missing(s, ids)
  {
    OneVerdict(s, ids);
    if Good(s, ids, |ids|) {
      assert ids[..|ids|] == ids;
      AdmitGood(s, ids, |ids|);
    } else {
      var n := SomeBad(s, ids, |ids|);
      AdmitBad(s, ids, n);
      if ids[n] >= |s.cpus| {
        assert Missing(s, ids);
      } else {
        assert Taken(s, ids);
      }
    }
  }

  /** At most one of the verdicts holds. */
  lemma OneVerdict(s: State, ids: seq<nat>)
    ensures !(Good(s, ids, |ids|) && (Taken(s, ids) || Missing(s, ids))) && !(Taken(s, ids) && Missing(s, ids))
  {
  }

  function CpusOf(ids: seq<nat>): set<nat>
  {
    set c | c in ids
  }

  /** The zone of the configuration exists and owns its CPUs. */
  ghost predicate Created(s: State, s': State, config: Config)
  {
    && s'.objects == s.objects[s.next := Zone(config.id, CpusOf(config.cpus))]
    && |s'.cpus| == |s.cpus|
    && (forall c: nat | c < |s.cpus| ::
          s'.cpus[c] == if c in config.cpus then s.cpus[c].(zone := Some(s.next)) else s.cpus[c])
    && s'.next == s.next + 1 && s'.held == s.held && s'.lost == s.lost
  }

  /** A start that can create the zone. */
  predicate CanCreate(s: State, caller: nat, config: Config, sizeOk: bool)
    requires ListShape(s.list, s.objects)
  {
    IsRoot(s, caller) && sizeOk && IdFree(s, config.id) && Good(s, config.cpus, |config.cpus|)
  }

  lemma LowestIs(s: State, ids: seq<nat>, cpus: set<nat>)
    requires Good(s, ids, |ids|) && forall c: nat :: c in cpus <==> c in ids
    ensures FirstFrom(cpus, |s.cpus|, 0).None? <==> ids == []
    ensures LowestOn(s, ids) <==> FirstFrom(cpus, |s.cpus|, 0).Some? && s.cpus[FirstFrom(cpus, |s.cpus|, 0).value].on
  {
    var first := FirstFrom(cpus, |s.cpus|, 0);
    if ids != [] {
      assert ids[0] in cpus;
    }
    if first.Some? {
      assert first.value in ids;
      forall d | d in ids
        ensures first.value <= d
      {
      }
    }
  }

  lemma StartRefused(s: State, caller: nat, config: Config)
    requires Inv(s) && IsRoot(s, caller) && IdFree(s, config.id) && !Good(s, config.cpus, |config.cpus|)
    ensures Start(s, caller, config, true) == (s, if Taken(s, config.cpus) then Err(EBUSY) else Panic)
    ensures Taken(s, config.cpus) <==> !Missing(s, config.cpus)
  {
    AdmitExact(s, config.cpus);
    OneVerdict(s, config.cpus);
    var n := SomeBad(s, config.cpus, |config.cpus|);
    AdmitBad(s, config.cpus, n);
  }

  lemma CreateIs(s: State, config: Config)
    requires Inv(s) && IdFree(s, config.id) && Good(s, config.cpus, |config.cpus|)
    ensures var (s', r) := Create(s, config);
            r == Ok(s.next) && Created(s, s', config) && s'.list == s.list
  {
    AdmitExact(s, config.cpus);
    FoundById(s, config.id);
    CreatedBy(s, config, Admit(s.cpus, config.cpus).value);
  }

  lemma CreatedBy(s: State, config: Config, cpus: set<nat>)
    requires ListShape(s.list, s.objects) && IndexOf(s.list, s.objects, config.id, 0) == |s.list|
    requires Admit(s.cpus, config.cpus) == Ok(cpus)
    ensures var (s', r) := Create(s, config);
            r == Ok(s.next) && Created(s, s', config) && s'.list == s.list
  {
    assert cpus == CpusOf(config.cpus);
  }

  lemma StartMade(s: State, caller: nat, config: Config)
    requires Inv(s) && CanCreate(s, caller, config, true)
    ensures var (s', r) := Start(s, caller, config, true);
            && Created(s, s', config) && s'.list == s.list + (if r == Ok(()) then [s.next] else [])
            && r == if config.cpus == [] then Panic else if LowestOn(s, config.cpus) then Err(EBUSY) else Ok(())
  {
    CreateIs(s, config);
    var s1 := Create(s, config).0;
    var cpus := s1.objects[s.next].cpus;
    LowestIs(s, config.cpus, cpus);
    assert s.list + [] == s.list;
  }

  /** What a start answers, and when: success exactly for the root zone, the right size, a new id, and at least one
      configured CPU, all of them existing and free and the lowest one off. */
  lemma StartExact(s: State, caller: nat, config: Config, sizeOk: bool)
    requires Inv(s)
    ensures var r := Start(s, caller, config, sizeOk).1;
            var can := CanCreate(s, caller, config, sizeOk);
            var asked := IsRoot(s, caller) && sizeOk && IdFree(s, config.id);
            && (r == Ok(()) <==> can && config.cpus != [] && !LowestOn(s, config.cpus))
            && (r == Err(EPERM) <==> IsOther(s, caller))
            && (r == Err(EINVAL) <==> IsRoot(s, caller) && (!sizeOk || !IdFree(s, config.id)))
            && (r == Err(EBUSY) <==> asked && (Taken(s, config.cpus) || (can && LowestOn(s, config.cpus))))
            && (r == Spin <==> s.lost && caller < |s.cpus| && s.cpus[caller].zone.Some?)
            && (r == Panic <==> caller >= |s.cpus| || s.cpus[caller].zone.None?
                                || (asked && (Missing(s, config.cpus) || config.cpus == [])))
  {
    OneVerdict(s, config.cpus);
    if IsRoot(s, caller) && sizeOk && IdFree(s, config.id) {
      if Good(s, config.cpus, |config.cpus|) {
        StartMade(s, caller, config);
      } else {
        StartRefused(s, caller, config);
      }
    } else {
      StartUnasked(s, caller, config, sizeOk);
    }
  }

  lemma StartUnasked(s: State, caller: nat, config: Config, sizeOk: bool)
    requires Inv(s) && !(IsRoot(s, caller) && sizeOk && IdFree(s, config.id))
    ensures Start(s, caller, config, sizeOk) ==
            (s, if IsRoot(s, caller) then Err(EINVAL)
                else if IsOther(s, caller) then Err(EPERM)
                else if s.lost && caller < |s.cpus| && s.cpus[caller].zone.Some? then Spin
                else Panic)
  {
  }

  /** What a start leaves: a zone that can be created exists with its CPUs, and is the last of the list exactly on
      success; otherwise nothing has changed. */
  lemma StartEffect(s: State, caller: nat, config: Config, sizeOk: bool)
    requires Inv(s)
    ensures var (s', r) := Start(s, caller, config, sizeOk);
            if CanCreate(s, caller, config, sizeOk)
            then Created(s, s', config) && s'.list == s.list + (if r == Ok(()) then [s.next] else [])
            else s' == s
  {
    if IsRoot(s, caller) && sizeOk && IdFree(s, config.id) {
      if Good(s, config.cpus, |config.cpus|) {
        StartMade(s, caller, config);
      } else {
        StartRefused(s, caller, config);
      }
    } else {
      StartUnasked(s, caller, config, sizeOk);
    }
  }

  /** What a shutdown answers, and when. */
  lemma ShutdownExact(s: State, caller: nat, id: nat)
    requires Inv(s)
    ensures var r := Shutdown(s, caller, id).1;
            && (r == Ok(()) <==> IsRoot(s, caller) && id != 0 && !IdFree(s, id) && !HeldById(s, id))
            && (r == Err(EPERM) <==> IsOther(s, caller))
            && (r == Err(EINVAL) <==> IsRoot(s, caller) && (id == 0 || IdFree(s, id)))
            && (r == Spin <==> s.lost && caller < |s.cpus| && s.cpus[caller].zone.Some?)
            && (r == Panic <==> caller >= |s.cpus| || s.cpus[caller].zone.None?
                                || (IsRoot(s, caller) && id != 0 && HeldById(s, id)))
            && r != Err(EBUSY)
  {
    var k := IndexOf(s.list, s.objects, id, 0);
    ShutdownKeeps(s, caller, id);
    FoundById(s, id);
    if id != 0 && k < |s.list| {
      RemoveFrees(s, k);
    }
  }

  /** Code on some CPU has a clone of the reference to the listed zone with this id. */
  predicate HeldById(s: State, id: nat)
    requires ListShape(s.list, s.objects)
  {
    exists i: nat :: i < |s.list| && s.objects[s.list[i]].id == id && Held(s.held, s.list[i])
  }

  lemma FoundById(s: State, id: nat)
    requires Listed(s)
    ensures var k := IndexOf(s.list, s.objects, id, 0);
            && (k < |s.list| <==> !IdFree(s, id))
            && (HeldById(s, id) <==> k < |s.list| && Held(s.held, s.list[k]))
  {
    var k := IndexOf(s.list, s.objects, id, 0);
    if k < |s.list| {
      assert s.objects[s.list[k]].id == id;
    }
    if i: nat :| i < |s.list| && s.objects[s.list[i]].id == id && Held(s.held, s.list[i]) {
      FoundAt(s, i);
    }
  }

  /** What a shutdown that is accepted leaves: the zone's place in the list closes up, its object is gone, exactly its
      CPUs have no zone any more, and the lock of the list is lost exactly when somebody has a clone. */
  lemma ShutdownEffect(s: State, caller: nat, id: nat, k: nat)
    requires Inv(s) && IsRoot(s, caller) && id != 0 && k < |s.list| && s.objects[s.list[k]].id == id
    ensures var s' := Shutdown(s, caller, id).0;
            && s'.list == s.list[..k] + s.list[k + 1..] && s'.objects == s.objects - {s.list[k]}
            && |s'.cpus| == |s.cpus|
            && (forall c: nat | c < |s.cpus| ::
                  s'.cpus[c] == if s.cpus[c].zone == Some(s.list[k]) then s.cpus[c].(zone := None) else s.cpus[c])
            && s'.next == s.next && s'.held == s.held && s'.lost == Held(s.held, s.list[k])
  {
    FoundAt(s, k);
    RemoveFrees(s, k);
  }
}
