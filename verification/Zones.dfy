/** The zone lifecycle: `zone_create`, `add_zone`, `remove_zone`, `find_zone` (src/zone.rs), `hv_zone_start` and
    `hv_zone_shutdown` (src/hypercall/mod.rs), and PSCI SYSTEM_OFF (src/arch/aarch64/trap.rs).  A zone object has an
    identity of its own (the `Arc`), because a failed start leaves objects behind that are in no list, and because
    `remove_zone` counts the references to it. */
module Zones {
  import opened Options

  datatype Zone = Zone(id: nat, cpus: set<nat>)

  /** The fields of `PerCpu` that matter here. */
  datatype PerCpu = PerCpu(zone: Option<nat>, on: bool)

  /** `list` is `ZONE_LIST`; `objects` are the zone objects that the list or the record of a CPU refers to; `cpus` has a
      record for every id up to and including `max_cpu_id`, as `CpuSet` allows; `next` is the identity of the next
      object.  `held` are the clones of the `Arc` that code running on the CPUs has taken and not yet dropped: by
      `this_zone` in an MMIO trap, or by `find_zone`.  `lost` says that a panic inside `remove_zone` has kept the lock
      of the list. */
  datatype State =
    State(list: seq<nat>, objects: map<nat, Zone>, cpus: seq<PerCpu>, next: nat, held: seq<Option<nat>>, lost: bool)

  datatype Config = Config(id: nat, cpus: seq<nat>)

  datatype Errno = EPERM | EINVAL | EBUSY

  /** `Panic` is a failed assertion or `unwrap`; `Spin` waits for ever for a lock that is lost. */
  datatype Outcome<T> = Ok(value: T) | Err(errno: Errno) | Panic | Spin

  // The specification.

  predicate ListShape(list: seq<nat>, objects: map<nat, Zone>)
  {
    forall i: nat | i < |list| :: list[i] in objects
  }

  /** The first listed zone with this id, from index `i` on; the length of the list when there is none. */
  function IndexOf(list: seq<nat>, objects: map<nat, Zone>, id: nat, i: nat): (k: nat)
    requires ListShape(list, objects) && i <= |list|
    ensures i <= k <= |list|
    ensures k < |list| ==> objects[list[k]].id == id
    ensures forall j: nat | i <= j < k :: objects[list[j]].id != id
    decreases |list| - i
  {
    if i == |list| then i else if objects[list[i]].id == id then i else IndexOf(list, objects, id, i + 1)
  }

  function Given(cpus: seq<PerCpu>, to: set<nat>, zone: Option<nat>): (r: seq<PerCpu>)
    ensures |r| == |cpus|
    ensures forall c: nat | c < |cpus| :: r[c] == if c in to then cpus[c].(zone := zone) else cpus[c]
  {
    seq(|cpus|, c requires 0 <= c < |cpus| => if c in to then cpus[c].(zone := zone) else cpus[c])
  }

  /** The verdict of the loop over the configured CPUs: the first bad one decides. */
  function Admit(cpus: seq<PerCpu>, ids: seq<nat>): (r: Outcome<set<nat>>)
    ensures r.Ok? ==> forall c: nat :: c in r.value <==> c in ids
    ensures r.Ok? ==> forall c: nat | c in ids :: c < |cpus| && cpus[c].zone.None?
  {
    if ids == [] then Ok({})
    else
      var last := ids[|ids| - 1];
      var before := Admit(cpus, ids[..|ids| - 1]);
      assert forall c: nat :: c in ids <==> c in ids[..|ids| - 1] || c == last;
      if !before.Ok? then before
      else if last >= |cpus| then Panic
      else if cpus[last].zone.Some? then Err(EBUSY)
      else Ok(before.value + {last})
  }

  function Create(s: State, config: Config): (r: (State, Outcome<nat>))
    requires ListShape(s.list, s.objects)
  {
    if IndexOf(s.list, s.objects, config.id, 0) < |s.list| then (s, Err(EINVAL))
    else
      match Admit(s.cpus, config.cpus)
      case Err(e) => (s, Err(e))
      case Ok(cpus) =>
        (s.(objects := s.objects[s.next := Zone(config.id, cpus)], next := s.next + 1,
            cpus := Given(s.cpus, cpus, Some(s.next))), Ok(s.next))
      case _ => (s, Panic)
  }

  /** `first_cpu`. */
  function FirstFrom(cpus: set<nat>, max: nat, i: nat): (r: Option<nat>)
    requires i <= max
    ensures r.Some? ==> i <= r.value < max && r.value in cpus && forall c: nat | i <= c < r.value :: c !in cpus
    ensures r.None? ==> forall c: nat | i <= c < max :: c !in cpus
    decreases max - i
  {
    if i == max then None else if i in cpus then Some(i) else FirstFrom(cpus, max, i + 1)
  }

  datatype Caller = Root | NotRoot | Nobody | Stuck

  /** `is_this_root_zone`; `Nobody` is the `unwrap` of a CPU without a zone, or of an empty list. */
  function WhoCalls(s: State, caller: nat): Caller
  {
    if caller >= |s.cpus| || s.cpus[caller].zone.None? then Nobody
    else if s.lost then Stuck
    else if s.list == [] then Nobody
    else if s.cpus[caller].zone == Some(s.list[0]) then Root
    else NotRoot
  }

  function Start(s: State, caller: nat, config: Config, sizeOk: bool): (State, Outcome<()>)
    requires ListShape(s.list, s.objects)
  {
    match WhoCalls(s, caller)
    case Nobody => (s, Panic)
    case Stuck => (s, Spin)
    case NotRoot => (s, Err(EPERM))
    case Root =>
      if !sizeOk then (s, Err(EINVAL))
      else
        var (s1, r) := Create(s, config);
        match r
        case Err(e) => (s1, Err(e))
        case Ok(key) =>
          var boot := FirstFrom(s1.objects[key].cpus, |s1.cpus|, 0);
          if boot.None? then (s1, Panic)
          else if s1.cpus[boot.value].on then (s1, Err(EBUSY))
          else (s1.(list := s1.list + [key]), Ok(()))
        case _ => (s1, Panic)
  }

  /** No CPU's record refers to the object any more. */
  predicate Unreferenced(cpus: seq<PerCpu>, key: nat)
  {
    forall c: nat | c < |cpus| :: cpus[c].zone != Some(key)
  }

  /** Code on some CPU has a clone of the reference. */
  predicate Held(held: seq<Option<nat>>, key: nat)
  {
    exists c: nat :: c < |held| && held[c] == Some(key)
  }

  function Without(list: seq<nat>, k: nat): (r: seq<nat>)
    requires k < |list|
    ensures |r| == |list| - 1
    ensures forall i: nat | i < |r| :: r[i] == if i < k then list[i] else list[i + 1]
  {
    list[..k] + list[k + 1..]
  }

  /** `remove_zone` of the zone at this place, after these CPUs have been freed: `Arc::strong_count` is 1 when neither
      the list, nor a record, nor a clone refers to the object.  The assertion fails under the lock of the list. */
  function Remove(s: State, cpus: seq<PerCpu>, objects: map<nat, Zone>, k: nat): (State, Outcome<()>)
    requires k < |s.list|
  {
    var key, rest := s.list[k], Without(s.list, k);
    var free := Unreferenced(cpus, key) && key !in rest;
    var s1 := s.(list := rest, objects := if free then objects - {key} else objects, cpus := cpus);
    if free && !Held(s.held, key) then (s1, Ok(())) else (s1.(lost := true), Panic)
  }

  function Shutdown(s: State, caller: nat, id: nat): (State, Outcome<()>)
    requires ListShape(s.list, s.objects)
  {
    match WhoCalls(s, caller)
    case Nobody => (s, Panic)
    case Stuck => (s, Spin)
    case NotRoot => (s, Err(EPERM))
    case Root =>
      var k := IndexOf(s.list, s.objects, id, 0);
      if id == 0 || k == |s.list| then (s, Err(EINVAL))
      else
        Remove(s, Given(s.cpus, s.objects[s.list[k]].cpus, None), s.objects, k)
  }

  predicate CpuShape(cpus: seq<PerCpu>, objects: map<nat, Zone>)
  {
    forall c: nat | c < |cpus| && cpus[c].zone.Some? :: cpus[c].zone.value in objects
  }

  /** PSCI SYSTEM_OFF: the CPUs of the caller's zone lose it, an object that nobody refers to any more goes, and
      `remove_zone` takes the first zone with the same id from the list.  (The root zone then powers off.) */
  function SystemOff(s: State, caller: nat): (State, Outcome<()>)
    requires ListShape(s.list, s.objects) && CpuShape(s.cpus, s.objects)
  {
    match WhoCalls(s, caller)
    case Nobody => (s, Panic)
    case Stuck => (s, Spin)
    case _ =>
      var key := s.cpus[caller].zone.value;
      var cpus := Given(s.cpus, s.objects[key].cpus + {caller}, None);
      var objects := if key !in s.list && Unreferenced(cpus, key) then s.objects - {key} else s.objects;
      var k := IndexOf(s.list, s.objects, s.objects[key].id, 0);
      if k == |s.list| then (s.(objects := objects, cpus := cpus, lost := true), Panic)
      else Remove(s, cpus, objects, k)
  }

  // What every step keeps.

  /** Ownership: every zone object alive, listed or not, owns exactly the CPUs that point to it. */
  ghost predicate Owns(s: State)
  {
    && (forall k: nat, c: nat | k in s.objects && c < |s.cpus| :: s.cpus[c].zone == Some(k) <==> c in s.objects[k].cpus)
    && (forall k: nat, c: nat | k in s.objects && c in s.objects[k].cpus :: c < |s.cpus|)
    && (forall c: nat | c < |s.cpus| && s.cpus[c].zone.Some? :: s.cpus[c].zone.value in s.objects)
  }

  ghost predicate Listed(s: State)
  {
    && ListShape(s.list, s.objects)
    && (forall i: nat, j: nat | i < j < |s.list| :: s.objects[s.list[i]].id != s.objects[s.list[j]].id)
    && (forall i: nat | i < |s.list| :: s.objects[s.list[i]].cpus != {})
    && s.list != [] && s.objects[s.list[0]].id == 0
    && (forall k: nat | k in s.objects :: k < s.next && (s.objects[k].id == 0 ==> k == s.list[0]))
  }

  ghost predicate Clones(s: State)
  {
    |s.held| == |s.cpus| && forall c: nat | c < |s.held| && s.held[c].Some? :: s.held[c].value < s.next
  }

  ghost predicate Inv(s: State)
  {
    Owns(s) && Listed(s) && Clones(s)
  }

  lemma CreateKeeps(s: State, config: Config)
    requires Inv(s)
    ensures Inv(Create(s, config).0) && Create(s, config).0.list == s.list
    ensures Create(s, config).1.Ok? ==>
              && Create(s, config).1.value in Create(s, config).0.objects
              && Create(s, config).1.value !in s.list
              && Create(s, config).0.objects[Create(s, config).1.value].id == config.id
              && forall i: nat | i < |s.list| :: s.objects[s.list[i]].id != config.id
  {
  }

  lemma AddKeeps(s: State, key: nat)
    requires Inv(s) && key in s.objects && s.objects[key].cpus != {}
    requires forall i: nat | i < |s.list| :: s.objects[s.list[i]].id != s.objects[key].id
    ensures Inv(s.(list := s.list + [key]))
  {
  }

  lemma StartKeeps(s: State, caller: nat, config: Config, sizeOk: bool)
    requires Inv(s)
    ensures Inv(Start(s, caller, config, sizeOk).0)
  {
    CreateKeeps(s, config);
    var (s1, r) := Create(s, config);
    if r.Ok? && s1.objects[r.value].cpus != {} {
      AddKeeps(s1, r.value);
    }
  }

  /** The loop that takes a zone's CPUs away leaves no record pointing to it. */
  lemma NobodyLeft(s: State, key: nat)
    requires Owns(s) && key in s.objects
    ensures Unreferenced(Given(s.cpus, s.objects[key].cpus, None), key)
  {
  }

  /** The zone's CPUs are free and its object is gone. */
  ghost function Freed(s: State, key: nat): State
    requires key in s.objects
  {
    s.(objects := s.objects - {key}, cpus := Given(s.cpus, s.objects[key].cpus, None))
  }

  lemma FreedKeeps(s: State, key: nat)
    requires Inv(s) && key in s.objects && key !in s.list
    ensures Inv(Freed(s, key))
  {
  }

  lemma DistinctKeys(s: State, i: nat, j: nat)
    requires Listed(s) && i < |s.list| && j < |s.list| && i != j
    ensures s.list[i] != s.list[j]
  {
  }

  lemma UnlistKeeps(s: State, k: nat)
    requires Inv(s) && 0 < k < |s.list|
    ensures Inv(s.(list := Without(s.list, k))) && s.list[k] !in Without(s.list, k)
  {
    forall i: nat | i < |Without(s.list, k)|
      ensures Without(s.list, k)[i] in s.objects && Without(s.list, k)[i] != s.list[k]
    {
      DistinctKeys(s, if i < k then i else i + 1, k);
    }
  }

  /** `remove_zone` of a zone whose CPUs have been freed; only a clone can make it panic. */
  ghost function Gone(s: State, k: nat): (State, Outcome<()>)
    requires k < |s.list| && s.list[k] in s.objects
  {
    Remove(s, Given(s.cpus, s.objects[s.list[k]].cpus, None), s.objects, k)
  }

  lemma RemoveFrees(s: State, k: nat)
    requires Inv(s) && 0 < k < |s.list|
    ensures Gone(s, k).0 == Freed(s.(list := Without(s.list, k)), s.list[k]).(lost := s.lost || Held(s.held, s.list[k]))
    ensures Gone(s, k).1 == if Held(s.held, s.list[k]) then Panic else Ok(())
  {
    NobodyLeft(s, s.list[k]);
    UnlistKeeps(s, k);
  }

  lemma RemoveKeeps(s: State, k: nat)
    requires Inv(s) && 0 < k < |s.list|
    ensures Inv(Gone(s, k).0) && Gone(s, k).0.list[0] == s.list[0]
  {
    RemoveFrees(s, k);
    UnlistKeeps(s, k);
    FreedKeeps(s.(list := Without(s.list, k)), s.list[k]);
    LockIsApart(Freed(s.(list := Without(s.list, k)), s.list[k]), s.lost || Held(s.held, s.list[k]));
  }

  lemma LockIsApart(s: State, lost: bool)
    requires Inv(s)
    ensures Inv(s.(lost := lost))
  {
  }

  /** A shutdown keeps the invariant and the root zone.  It panics exactly when nobody calls it, or when code on some
      CPU, such as an MMIO trap, has a clone of the reference to the zone that is shut down. */
  lemma ShutdownKeeps(s: State, caller: nat, id: nat)
    requires Inv(s)
    ensures Inv(Shutdown(s, caller, id).0) && Shutdown(s, caller, id).0.list[0] == s.list[0]
    ensures var k := IndexOf(s.list, s.objects, id, 0);
            Shutdown(s, caller, id).1 == Panic <==>
            || WhoCalls(s, caller) == Nobody
            || (WhoCalls(s, caller) == Root && id != 0 && k < |s.list| && Held(s.held, s.list[k]))
  {
    var k := IndexOf(s.list, s.objects, id, 0);
    if id != 0 && k < |s.list| {
      RemoveFrees(s, k);
      RemoveKeeps(s, k);
    }
  }

  /** A zone object that owns its CPUs but is in no list. */
  ghost predicate Orphan(s: State, key: nat)
  {
    key in s.objects && key !in s.list
  }

  lemma FoundAt(s: State, i: nat)
    requires Listed(s) && i < |s.list|
    ensures IndexOf(s.list, s.objects, s.objects[s.list[i]].id, 0) == i
  {
  }

  /** The caller's zone is in no list: its object goes and, if a listed zone has its id, that one leaves the list. */
  lemma OrphanOff(s: State, caller: nat)
    requires Inv(s) && WhoCalls(s, caller) == NotRoot && Orphan(s, s.cpus[caller].zone.value)
    ensures SystemOff(s, caller).1 == Panic && Inv(SystemOff(s, caller).0) && SystemOff(s, caller).0.lost
    ensures var key := s.cpus[caller].zone.value;
            var k := IndexOf(s.list, s.objects, s.objects[key].id, 0);
            && SystemOff(s, caller).0.objects == s.objects - {key}
            && SystemOff(s, caller).0.list == if k < |s.list| then Without(s.list, k) else s.list
    ensures SystemOff(s, caller).0.list[0] == s.list[0]
  {
    var key := s.cpus[caller].zone.value;
    assert s.objects[key].cpus + {caller} == s.objects[key].cpus;
    NobodyLeft(s, key);
    var k := IndexOf(s.list, s.objects, s.objects[key].id, 0);
    if k == |s.list| {
      FreedKeeps(s, key);
    } else {
      UnlistKeeps(s, k);
      FreedKeeps(s.(list := Without(s.list, k)), key);
      OwnersDisjoint(s, key, s.list[k]);
      var c: nat :| c in s.objects[s.list[k]].cpus;
      assert Given(s.cpus, s.objects[key].cpus, None)[c].zone == Some(s.list[k]);
    }
  }

  /** Called in a listed zone other than the root zone, SYSTEM_OFF does what a shutdown of that zone by the root zone
      does, its panic included. */
  lemma OffIsShutdown(s: State, caller: nat, root: nat)
    requires Inv(s) && WhoCalls(s, caller) == NotRoot && !Orphan(s, s.cpus[caller].zone.value) &&
      WhoCalls(s, root) == Root
    ensures SystemOff(s, caller) == Shutdown(s, root, s.objects[s.cpus[caller].zone.value].id)
    ensures SystemOff(s, caller).1 == if Held(s.held, s.cpus[caller].zone.value) then Panic else Ok(())
  {
    var key := s.cpus[caller].zone.value;
    assert s.objects[key].cpus + {caller} == s.objects[key].cpus;
    var k: nat :| k < |s.list| && s.list[k] == key;
    FoundAt(s, k);
    ShutdownKeeps(s, root, s.objects[key].id);
  }

  lemma SystemOffKeeps(s: State, caller: nat)
    requires Inv(s) && WhoCalls(s, caller) != Root
    ensures Inv(SystemOff(s, caller).0) && SystemOff(s, caller).0.list[0] == s.list[0]
  {
    if WhoCalls(s, caller) == NotRoot {
      if Orphan(s, s.cpus[caller].zone.value) {
        OrphanOff(s, caller);
      } else {
        RootCalls(s);
        OffIsShutdown(s, caller, RootCpu(s));
        ShutdownKeeps(s, RootCpu(s), s.objects[s.cpus[caller].zone.value].id);
      }
    }
  }

  ghost function RootCpu(s: State): nat
    requires Listed(s)
  {
    var c: nat :| c in s.objects[s.list[0]].cpus; c
  }

  lemma RootCalls(s: State)
    requires Inv(s) && !s.lost
    ensures WhoCalls(s, RootCpu(s)) == Root
  {
  }

  /** SYSTEM_OFF panics exactly on a CPU without a zone, with a zone that is in no list, or while code on some CPU has a
      clone of the reference to the zone. */
  lemma SystemOffExact(s: State, caller: nat)
    requires Inv(s) && caller < |s.cpus|
    ensures SystemOff(s, caller).1 == Panic <==>
            s.cpus[caller].zone.None? ||
            (!s.lost && (Orphan(s, s.cpus[caller].zone.value) || Held(s.held, s.cpus[caller].zone.value)))
  {
    match WhoCalls(s, caller)
    case Nobody =>
    case Stuck =>
    case NotRoot =>
      if Orphan(s, s.cpus[caller].zone.value) {
        OrphanOff(s, caller);
      } else {
        RootCalls(s);
        OffIsShutdown(s, caller, RootCpu(s));
      }
    case Root =>
      RootOff(s, caller);
  }

  lemma RootOff(s: State, caller: nat)
    requires Inv(s) && WhoCalls(s, caller) == Root
    ensures SystemOff(s, caller).1 == if Held(s.held, s.list[0]) then Panic else Ok(())
  {
    assert s.objects[s.list[0]].cpus + {caller} == s.objects[s.list[0]].cpus;
    NobodyLeft(s, s.list[0]);
    FoundAt(s, 0);
    forall i: nat | i < |Without(s.list, 0)|
      ensures Without(s.list, 0)[i] != s.list[0]
    {
      DistinctKeys(s, 0, i + 1);
    }
  }

  // Whole runs.

  /** Calls are atomic, and made by CPUs that are not inside a trap; between them any CPU may be powered on or off,
      take a clone of its own zone or of a listed one, and drop it. */
  datatype Action =
    | DoStart(caller: nat, config: Config, sizeOk: bool)
    | DoShutdown(caller: nat, id: nat)
    | DoSystemOff(caller: nat)
    | Power(c: nat, on: bool)
    | Take(c: nat, key: nat)
    | Drop(c: nat)

  /** The root zone switches the machine off (or loses the lock in trying to): no call is served after that. */
  predicate Ends(s: State, a: Action)
  {
    a.DoSystemOff? && WhoCalls(s, a.caller) == Root
  }

  /** The CPU is inside the code that has the clone. */
  predicate Trapped(s: State, c: nat)
  {
    c < |s.held| && s.held[c].Some?
  }

  predicate MayTake(s: State, c: nat, key: nat)
  {
    && c < |s.held| == |s.cpus| && s.held[c].None?
    && (s.cpus[c].zone == Some(key) || (!s.lost && key in s.list))
  }

  function Step(s: State, a: Action): State
    requires ListShape(s.list, s.objects) && CpuShape(s.cpus, s.objects)
  {
    match a
    case DoStart(caller, config, sizeOk) => if Trapped(s, caller) then s else Start(s, caller, config, sizeOk).0
    case DoShutdown(caller, id) => if Trapped(s, caller) then s else Shutdown(s, caller, id).0
    case DoSystemOff(caller) => if Trapped(s, caller) then s else SystemOff(s, caller).0
    case Power(c, on) => if c < |s.cpus| then s.(cpus := s.cpus[c := s.cpus[c].(on := on)]) else s
    case Take(c, key) => if MayTake(s, c, key) then s.(held := s.held[c := Some(key)]) else s
    case Drop(c) => if c < |s.held| then s.(held := s.held[c := None]) else s
  }

  lemma StepKeeps(s: State, a: Action)
    requires Inv(s) && !Ends(s, a)
    ensures Inv(Step(s, a)) && Step(s, a).list[0] == s.list[0]
  {
    match a
    case DoStart(caller, config, sizeOk) => StartKeeps(s, caller, config, sizeOk);
    case DoShutdown(caller, id) => ShutdownKeeps(s, caller, id);
    case DoSystemOff(caller) => SystemOffKeeps(s, caller);
    case _ =>
  }

  ghost function Exec(s: State, actions: seq<Action>): State
    requires Inv(s)
    decreases |actions|
  {
    if actions == [] || Ends(s, actions[0]) then s
    else
      StepKeeps(s, actions[0]);
      Exec(Step(s, actions[0]), actions[1..])
  }

  /** What ownership means for two listed zones: different ids, no common CPU, and every CPU points back to its zone. */
  ghost predicate Separate(s: State, i: nat, j: nat)
    requires ListShape(s.list, s.objects) && i < |s.list| && j < |s.list|
  {
    var a, b := s.objects[s.list[i]], s.objects[s.list[j]];
    && a.id != b.id && a.cpus !! b.cpus
    && forall c: nat | c in a.cpus :: c < |s.cpus| && s.cpus[c].zone == Some(s.list[i])
  }

  /** In every run, with every error path: listed zones are separate, and entry 0 is still the root zone. */
  lemma {:induction false} RunSeparates(s: State, actions: seq<Action>, i: nat, j: nat)
    requires Inv(s)
    ensures Inv(Exec(s, actions)) && Exec(s, actions).list[0] == s.list[0]
    ensures i < |Exec(s, actions).list| && j < |Exec(s, actions).list| && i != j ==> Separate(Exec(s, actions), i, j)
    decreases |actions|
  {
    if actions == [] || Ends(s, actions[0]) {
      if i < |s.list| && j < |s.list| && i != j {
        DistinctKeys(s, i, j);
        OwnersDisjoint(s, s.list[i], s.list[j]);
      }
    } else {
      StepKeeps(s, actions[0]);
      RunSeparates(Step(s, actions[0]), actions[1..], i, j);
    }
  }

  lemma OwnersDisjoint(s: State, a: nat, b: nat)
    requires Owns(s) && a in s.objects && b in s.objects && a != b
    ensures s.objects[a].cpus !! s.objects[b].cpus
  {
    forall c: nat | c in s.objects[a].cpus
      ensures c !in s.objects[b].cpus
    {
      assert s.cpus[c].zone == Some(a);
    }
  }

  // A lock that is lost.

  ghost predicate SameZones(s: State, t: State)
  {
    && s.list == t.list && s.objects == t.objects && |s.cpus| == |t.cpus|
    && forall c: nat | c < |s.cpus| :: s.cpus[c].zone == t.cpus[c].zone
  }

  /** After a panic inside `remove_zone` no zone starts or ends any more: every call by a CPU with a zone waits for
      ever. */
  lemma {:induction false} LostForever(s: State, actions: seq<Action>, caller: nat, config: Config, id: nat)
    requires Inv(s) && s.lost
    ensures SameZones(s, Exec(s, actions)) && Exec(s, actions).lost
    ensures caller < |s.cpus| && s.cpus[caller].zone.Some? ==>
              var t := Exec(s, actions);
              Inv(t) && Start(t, caller, config, true) == Shutdown(t, caller, id) == SystemOff(t, caller) == (t, Spin)
    decreases |actions|
  {
    if actions != [] {
      StepKeeps(s, actions[0]);
      assert SameZones(s, Step(s, actions[0])) && Step(s, actions[0]).lost;
      LostForever(Step(s, actions[0]), actions[1..], caller, config, id);
    }
  }

  /** It takes two steps in any state: CPU `other` of a zone traps, and CPU `caller` of the zone calls SYSTEM_OFF, or
      the root zone shuts the zone down. */
  lemma TrapLosesLock(s: State, caller: nat, other: nat, root: nat)
    requires Inv(s) && WhoCalls(s, caller) == NotRoot && !Orphan(s, s.cpus[caller].zone.value)
    requires other < |s.cpus| && s.cpus[other].zone == s.cpus[caller].zone && WhoCalls(s, root) == Root
    requires other != caller && !Trapped(s, other) && !Trapped(s, caller) && !Trapped(s, root)
    ensures var key := s.cpus[caller].zone.value;
            && Exec(s, [Take(other, key), DoSystemOff(caller)]).lost
            && Exec(s, [Take(other, key), DoShutdown(root, s.objects[key].id)]).lost
  {
    var key := s.cpus[caller].zone.value;
    var s1 := Step(s, Take(other, key));
    StepKeeps(s, Take(other, key));
    assert s1.held[other] == Some(key);
    OffIsShutdown(s1, caller, root);
    ExecTwo(s, Take(other, key), DoSystemOff(caller));
    ExecTwo(s, Take(other, key), DoShutdown(root, s.objects[key].id));
    OffLost(s1, caller);
  }

  lemma OffLost(s: State, caller: nat)
    requires Inv(s) && WhoCalls(s, caller) == NotRoot && SystemOff(s, caller).1 == Panic
    ensures SystemOff(s, caller).0.lost
  {
  }

  lemma ExecTwo(s: State, a: Action, b: Action)
    requires Inv(s) && !Ends(s, a) && Inv(Step(s, a)) && !Ends(Step(s, a), b)
    ensures Exec(s, [a, b]) == Step(Step(s, a), b)
  {
    StepKeeps(Step(s, a), b);
    assert [a, b][1..] == [b];
    assert Exec(Step(s, a), [b]) == Exec(Step(Step(s, a), b), []);
  }

  // A start that fails half way.

  /** A start leaves an orphan behind exactly when the zone itself could be created but its first CPU is missing or
      already powered on. */
  lemma OrphanExact(s: State, caller: nat, config: Config, sizeOk: bool)
    requires Inv(s)
    ensures Orphan(Start(s, caller, config, sizeOk).0, s.next) <==>
            && WhoCalls(s, caller) == Root && sizeOk
            && (forall i: nat | i < |s.list| :: s.objects[s.list[i]].id != config.id)
            && Admit(s.cpus, config.cpus).Ok?
            && var boot := FirstFrom(Admit(s.cpus, config.cpus).value, |s.cpus|, 0);
               boot.Some? ==> s.cpus[boot.value].on
  {
    CreateKeeps(s, config);
  }

  /** A step ends an orphan exactly when it is a SYSTEM_OFF by one of the orphan's own CPUs. */
  lemma OrphanStepExact(s: State, a: Action, key: nat)
    requires Inv(s) && Orphan(s, key) && !Ends(s, a)
    ensures Orphan(Step(s, a), key) <==>
            !(a.DoSystemOff? && a.caller in s.objects[key].cpus && !s.lost && !Trapped(s, a.caller))
    ensures Orphan(Step(s, a), key) ==> Step(s, a).objects[key] == s.objects[key]
  {
    match a
    case DoStart(caller, config, sizeOk) => CreateKeeps(s, config);
    case DoShutdown(caller, id) => ShutdownKeepsOrphan(s, caller, id, key);
    case DoSystemOff(caller) => OffAndOrphan(s, caller, key);
    case _ =>
  }

  lemma OffAndOrphan(s: State, caller: nat, key: nat)
    requires Inv(s) && Orphan(s, key) && WhoCalls(s, caller) != Root
    ensures Orphan(SystemOff(s, caller).0, key) <==> s.lost || caller !in s.objects[key].cpus
    ensures Orphan(SystemOff(s, caller).0, key) ==> SystemOff(s, caller).0.objects[key] == s.objects[key]
  {
    if WhoCalls(s, caller) == NotRoot {
      var own := s.cpus[caller].zone.value;
      if Orphan(s, own) {
        OrphanOffOthers(s, caller, key);
      } else {
        RootCalls(s);
        OffIsShutdown(s, caller, RootCpu(s));
        ShutdownKeepsOrphan(s, RootCpu(s), s.objects[own].id, key);
        assert s.cpus[caller].zone != Some(key);
      }
    }
  }

  lemma OrphanOffOthers(s: State, caller: nat, key: nat)
    requires Inv(s) && Orphan(s, key) && WhoCalls(s, caller) == NotRoot && Orphan(s, s.cpus[caller].zone.value)
    ensures Orphan(SystemOff(s, caller).0, key) <==> caller !in s.objects[key].cpus
    ensures Orphan(SystemOff(s, caller).0, key) ==> SystemOff(s, caller).0.objects[key] == s.objects[key]
  {
    OrphanOff(s, caller);
    var own := s.cpus[caller].zone.value;
    OthersStay(s, SystemOff(s, caller).0, own, IndexOf(s.list, s.objects, s.objects[own].id, 0), key);
    Owner(s, caller, key);
  }

  lemma Owner(s: State, c: nat, key: nat)
    requires Owns(s) && key in s.objects && c < |s.cpus|
    ensures s.cpus[c].zone == Some(key) <==> c in s.objects[key].cpus
  {
  }

  lemma OthersStay(s: State, s': State, own: nat, k: nat, key: nat)
    requires Orphan(s, key) && s'.objects == s.objects - {own}
    requires s'.list == if k < |s.list| then Without(s.list, k) else s.list
    ensures Orphan(s', key) <==> key != own
    ensures Orphan(s', key) ==> s'.objects[key] == s.objects[key]
  {
    assert forall i: nat | i < |s'.list| :: s'.list[i] in s.list;
  }

  lemma ShutdownKeepsOrphan(s: State, caller: nat, id: nat, key: nat)
    requires Inv(s) && Orphan(s, key)
    ensures Orphan(Shutdown(s, caller, id).0, key) && Shutdown(s, caller, id).0.objects[key] == s.objects[key]
  {
    var k := IndexOf(s.list, s.objects, id, 0);
    if id != 0 && k < |s.list| {
      RemoveFrees(s, k);
      assert forall i: nat | i < |Without(s.list, k)| :: Without(s.list, k)[i] in s.list;
    }
  }

  /** Until one of its own CPUs calls SYSTEM_OFF, nothing gives the CPUs of an orphan back: no call lists it, and no
      later zone can use them. */
  lemma {:induction false} OrphanStays(s: State, actions: seq<Action>, key: nat, i: nat)
    requires Inv(s) && Orphan(s, key)
    requires forall j: nat | j < |actions| && actions[j].DoSystemOff? :: actions[j].caller !in s.objects[key].cpus
    ensures Orphan(Exec(s, actions), key) && Exec(s, actions).objects[key] == s.objects[key]
    ensures ListShape(Exec(s, actions).list, Exec(s, actions).objects)
    ensures i < |Exec(s, actions).list| ==>
      Exec(s, actions).objects[Exec(s, actions).list[i]].cpus !! s.objects[key].cpus
    decreases |actions|
  {
    if actions == [] || Ends(s, actions[0]) {
      if i < |s.list| {
        OwnersDisjoint(s, s.list[i], key);
      }
    } else {
      StepKeeps(s, actions[0]);
      OrphanStepExact(s, actions[0], key);
      OrphanStays(Step(s, actions[0]), actions[1..], key, i);
    }
  }

  /** Shutting a started zone down undoes the start: the same list, and the same owner for every CPU. */
  lemma StartThenShutdown(s: State, caller: nat, config: Config, sizeOk: bool)
    requires Inv(s) && Start(s, caller, config, sizeOk).1.Ok?
    ensures ListShape(Start(s, caller, config, sizeOk).0.list, Start(s, caller, config, sizeOk).0.objects)
    ensures var r := Shutdown(Start(s, caller, config, sizeOk).0, caller, config.id);
            && r.1.Ok? && r.0.list == s.list && r.0.objects == s.objects && r.0.cpus == s.cpus
  {
    var s1 := Start(s, caller, config, sizeOk).0;
    StartAdds(s, caller, config, sizeOk);
    RemoveFrees(s1, |s.list|);
    assert Without(s1.list, |s.list|) == s.list;
    assert s1.objects - {s.next} == s.objects;
    assert Given(s1.cpus, s1.objects[s.next].cpus, None) == s.cpus;
  }

  lemma StartAdds(s: State, caller: nat, config: Config, sizeOk: bool)
    requires Inv(s) && Start(s, caller, config, sizeOk).1.Ok?
    ensures var s1, cpus := Start(s, caller, config, sizeOk).0, Admit(s.cpus, config.cpus).value;
            && Inv(s1) && s1.list == s.list + [s.next] && s.next !in s.objects && config.id != 0
            && WhoCalls(s1, caller) == Root && !Held(s1.held, s.next)
            && IndexOf(s1.list, s1.objects, config.id, 0) == |s.list|
            && s1.objects == s.objects[s.next := Zone(config.id, cpus)] && s1.cpus == Given(s.cpus, cpus, Some(s.next))
  {
    StartKeeps(s, caller, config, sizeOk);
    CreateKeeps(s, config);
    NewIsLast(s, s.next, Start(s, caller, config, sizeOk).0, config.id);
  }

  lemma NewIsLast(s: State, key: nat, s1: State, id: nat)
    requires Listed(s) && Listed(s1) && s1.list == s.list + [key] && key !in s.objects
    requires key in s1.objects && s1.objects[key].id == id && s1.objects == s.objects[key := s1.objects[key]]
    ensures IndexOf(s1.list, s1.objects, id, 0) == |s.list|
  {
    assert s1.list[|s.list|] == key;
  }

  /** The root zone that the boot creates and lists is such a state. */
  lemma BootHolds(cpus: seq<PerCpu>, config: Config)
    requires forall c: nat | c < |cpus| :: cpus[c].zone.None?
    requires config.id == 0 && config.cpus != [] &&
      Create(State([], map[], cpus, 0, seq(|cpus|, _ => None), false), config).1.Ok?
    ensures var (s, key) := Create(State([], map[], cpus, 0, seq(|cpus|, _ => None), false), config);
            Inv(s.(list := [key.value]))
  {
    assert config.cpus[0] in config.cpus;
  }

  // The code.

  const MAX_WAIT_TIMES: nat := 10_000_000

  /** The wait of `hv_zone_shutdown` for this many CPUs of the zone.  `on(k)` is what the k-th read of a `power_on`
      flag finds; the wait ends whatever those reads find, after at most `MAX_WAIT_TIMES` reads and one more pass, and
      it ends earlier only with a pass that finds every CPU off. */
  method WaitPoweredOff(cpus: nat, on: nat -> bool) returns (count: nat)
    ensures count <= MAX_WAIT_TIMES + cpus
    ensures count >= cpus
    ensures count <= MAX_WAIT_TIMES ==> forall k: nat | count - cpus <= k < count :: !on(k)
  {
    count := 0;
    var any := true;
    while any
      invariant any ==> count <= MAX_WAIT_TIMES
      invariant !any ==> cpus <= count <= MAX_WAIT_TIMES + cpus
      invariant !any && count <= MAX_WAIT_TIMES ==> forall k: nat | count - cpus <= k < count :: !on(k)
      decreases any, MAX_WAIT_TIMES - count
    {
      any := false;
      var i := 0;
      ghost var start := count;
      while i < cpus && !any
        invariant 0 <= i <= cpus
        invariant count == start + i
        invariant any ==> i > 0 && count <= MAX_WAIT_TIMES
        invariant !any && count <= MAX_WAIT_TIMES ==> forall k: nat | start <= k < count :: !on(k)
      {
        var power := on(count);
        count := count + 1;
        any := if count > MAX_WAIT_TIMES then false else power;
        i := i + 1;
      }
    }
  }

  class ZoneTable {
    var list: seq<nat>
    var objects: map<nat, Zone>
    var cpus: seq<PerCpu>
    var next: nat
    var held: seq<Option<nat>>
    var lost: bool

    function Value(): State
      reads this
    {
      State(list, objects, cpus, next, held, lost)
    }

    method FindZone(id: nat) returns (k: nat)
      requires ListShape(list, objects)
      ensures k == IndexOf(list, objects, id, 0)
    {
      k := 0;
      while k < |list| && objects[list[k]].id != id
        invariant 0 <= k <= |list|
        invariant IndexOf(list, objects, id, 0) == IndexOf(list, objects, id, k)
      {
        k := k + 1;
      }
    }

    /** The loop that gives the CPUs of a set to a zone, or takes them away. */
    method GiveCpus(to: set<nat>, zone: Option<nat>)
      modifies this`cpus
      ensures cpus == Given(old(cpus), to, zone)
    {
      for c := 0 to |cpus|
        invariant |cpus| == |old(cpus)|
        invariant forall d: nat | d < |cpus| ::
          cpus[d] == if d < c && d in to then old(cpus)[d].(zone := zone) else old(cpus)[d]
      {
        if c in to {
          cpus := cpus[c := cpus[c].(zone := zone)];
        }
      }
    }

    method AdmitCpus(ids: seq<nat>) returns (r: Outcome<set<nat>>)
      ensures r == Admit(cpus, ids)
    {
      var all := {};
      for i := 0 to |ids|
        invariant Admit(cpus, ids[..i]) == Ok(all)
      {
        assert ids[..i + 1][..i] == ids[..i];
        if ids[i] < |cpus| && cpus[ids[i]].zone.None? {
          all := all + {ids[i]};
        } else {
          r := if ids[i] >= |cpus| then Panic else Err(EBUSY);
          BadCpuDecides(cpus, ids, i + 1);
          return;
        }
      }
      assert ids[..|ids|] == ids;
      return Ok(all);
    }

    method ZoneCreate(config: Config) returns (r: Outcome<nat>)
      requires ListShape(list, objects)
      modifies this`objects, this`cpus, this`next
      ensures (Value(), r) == old(Create(Value(), config))
    {
      var k := FindZone(config.id);
      if k < |list| {
        return Err(EINVAL);
      }
      var admission := AdmitCpus(config.cpus);
      match admission
      case Err(e) => return Err(e);
      case Ok(admitted) =>
        objects := objects[next := Zone(config.id, admitted)];
        GiveCpus(admitted, Some(next));
        next := next + 1;
        return Ok(next - 1);
      case _ => return Panic;
    }

    method HvZoneStart(caller: nat, config: Config, sizeOk: bool) returns (r: Outcome<()>)
      requires ListShape(list, objects)
      modifies this
      ensures (Value(), r) == old(Start(Value(), caller, config, sizeOk))
    {
      match WhoCalls(Value(), caller)
      case Nobody => return Panic;
      case Stuck => return Spin;
      case NotRoot => return Err(EPERM);
      case Root =>
        if !sizeOk {
          return Err(EINVAL);
        }
        var created := ZoneCreate(config);
        match created
        case Err(e) => return Err(e);
        case Ok(key) =>
          var boot := FirstFrom(objects[key].cpus, |cpus|, 0);
          if boot.None? {
            return Panic;
          }
          if cpus[boot.value].on {
            return Err(EBUSY);
          }
          list := list + [key];
          return Ok(());
        case _ => return Panic;
    }

    /** `remove_zone`, which panics under the lock of the list. */
    method RemoveZone(id: nat) returns (r: Outcome<()>)
      requires ListShape(list, objects)
      modifies this
      ensures (Value(), r) == old(
        var k := IndexOf(list, objects, id, 0);
        if k == |list| then (Value().(lost := true), Panic) else Remove(Value(), cpus, objects, k))
    {
      var k := FindZone(id);
      if k == |list| {
        lost := true;
        return Panic;
      }
      var key := list[k];
      list := Without(list, k);
      r := Panic;
      if Unreferenced(cpus, key) && key !in list {
        objects := objects - {key};
        if !Held(held, key) {
          r := Ok(());
        }
      }
      lost := lost || r == Panic;
    }

    method HvZoneShutdown(caller: nat, id: nat, on: nat -> bool) returns (r: Outcome<()>)
      requires ListShape(list, objects)
      modifies this
      ensures (Value(), r) == old(Shutdown(Value(), caller, id))
    {
      match WhoCalls(Value(), caller)
      case Nobody => return Panic;
      case Stuck => return Spin;
      case NotRoot => return Err(EPERM);
      case Root =>
        if id == 0 {
          return Err(EINVAL);
        }
        var k := FindZone(id);
        if k == |list| {
          return Err(EINVAL);
        }
        var key := list[k];
        var waited := WaitPoweredOff(|objects[key].cpus|, on);
        GiveCpus(objects[key].cpus, None);
        r := RemoveZone(id);
    }

    method PsciSystemOff(caller: nat) returns (r: Outcome<()>)
      requires ListShape(list, objects) && CpuShape(cpus, objects)
      modifies this
      ensures (Value(), r) == old(SystemOff(Value(), caller))
    {
      var who := WhoCalls(Value(), caller);
      if who == Nobody {
        return Panic;
      }
      if who == Stuck {
        return Spin;
      }
      var key := cpus[caller].zone.value;
      var id := objects[key].id;
      GiveCpus(objects[key].cpus - {caller}, None);
      cpus := cpus[caller := cpus[caller].(zone := None)];
      assert cpus == Given(old(cpus), old(objects)[key].cpus + {caller}, None);
      ghost var before := objects;
      if key !in list && Unreferenced(cpus, key) {
        objects := objects - {key};
      }
      SameIndex(list, before, objects, id, 0);
      r := RemoveZone(id);
    }
  }

  lemma {:induction false} SameIndex(list: seq<nat>, a: map<nat, Zone>, b: map<nat, Zone>, id: nat, i: nat)
    requires ListShape(list, a) && ListShape(list, b) && i <= |list|
    requires forall j: nat | j < |list| :: a[list[j]] == b[list[j]]
    ensures IndexOf(list, a, id, i) == IndexOf(list, b, id, i)
    decreases |list| - i
  {
    if i < |list| {
      SameIndex(list, a, b, id, i + 1);
    }
  }

  lemma {:induction false} BadCpuDecides(cpus: seq<PerCpu>, ids: seq<nat>, n: nat)
    requires n <= |ids| && !Admit(cpus, ids[..n]).Ok?
    ensures Admit(cpus, ids) == Admit(cpus, ids[..n])
  {
    if n < |ids| {
      var before := ids[..|ids| - 1];
      assert before[..n] == ids[..n];
      BadCpuDecides(cpus, before, n);
    } else {
      assert ids[..n] == ids;
    }
  }
}
