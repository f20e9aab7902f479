/** The virtio request ring (src/device/virtio_trampoline.rs): CPUs of all zones push requests under the bridge lock,
    and a backend outside the hypervisor takes them and answers configuration accesses at any moment. */
module RequestRing {
  import opened Options

  const MAX_REQ: nat := 32

  /** `notify` is a write of QUEUE_NOTIFY, for which the CPU does not wait. */
  datatype Req = Req(cpu: nat, payload: nat, notify: bool)

  /** Where a CPU is in `mmio_virtio_handler`; `flag` is the value of its configuration flag before the push. */
  datatype Pc =
    | Guest
    | Lock(req: Req)
    | Check(req: Req)
    | Save(req: Req)
    | Write(req: Req, flag: nat)
    | Bump(req: Req, flag: nat)
    | Unlock(req: Req, flag: nat)
    | Spin(flag: nat)

  /** The last three fields are history: all requests pushed, how many of them the backend has taken, and how many
      configuration accesses of each CPU it has answered.  `working` are the requests it has taken and not finished. */
  datatype State = State(
    pc: seq<Pc>,
    lock: Option<nat>,
    front: nat,
    rear: nat,
    slots: seq<Req>,
    working: seq<Req>,
    pushed: seq<Req>,
    taken: nat,
    answered: seq<nat>)

  datatype Action =
    | Access(c: nat, payload: nat, notify: bool)
    | Go(c: nat)
    /** The backend advances `req_front`. */
    | Take
    /** The backend finishes one of its requests, and adds 1 to the CPU's flag if the CPU waits for it. */
    | Finish(i: nat)

  predicate Shape(s: State)
  {
    |s.slots| == MAX_REQ && |s.answered| == |s.pc| && s.front < MAX_REQ && s.rear < MAX_REQ
  }

  function Initial(cpus: nat): (s: State)
    ensures Shape(s)
  {
    State(seq(cpus, _ => Guest), None, 0, 0, seq(MAX_REQ, _ => Req(0, 0, true)), [], [], 0, seq(cpus, _ => 0))
  }

  /** A 64-bit counter in the shared page. */
  function Flag(s: State, c: nat): nat
    requires c < |s.answered|
  {
    s.answered[c] % 0x1_0000_0000_0000_0000
  }

  predicate IsFull(s: State)
  {
    (s.rear + 1) % MAX_REQ == s.front
  }

  function Goto(s: State, c: nat, pc: Pc): State
    requires c < |s.pc|
  {
    s.(pc := s.pc[c := pc])
  }

  function GoCpu(s: State, c: nat): (s': State)
    requires Shape(s) && c < |s.pc|
    ensures Shape(s')
  {
    match s.pc[c]
    case Guest => s
    case Lock(req) => if s.lock.Some? then s else Goto(s.(lock := Some(c)), c, Check(req))
    case Check(req) => if IsFull(s) then Goto(s.(lock := None), c, Lock(req)) else Goto(s, c, Save(req))
    case Save(req) => Goto(s, c, Write(req, Flag(s, c)))
    case Write(req, flag) => Goto(s.(slots := s.slots[s.rear := req]), c, Bump(req, flag))
    case Bump(req, flag) => Goto(s.(rear := (s.rear + 1) % MAX_REQ, pushed := s.pushed + [req]), c, Unlock(req, flag))
    case Unlock(req, flag) => Goto(s.(lock := None), c, if req.notify then Guest else Spin(flag))
    case Spin(flag) => if Flag(s, c) == flag then s else Goto(s, c, Guest)
  }

  function Without(w: seq<Req>, i: nat): seq<Req>
    requires i < |w|
  {
    w[..i] + w[i + 1..]
  }

  function Step(s: State, a: Action): (s': State)
    requires Shape(s)
    ensures Shape(s')
  {
    match a
    case Access(c, payload, notify) =>
      if c < |s.pc| && s.pc[c] == Guest then Goto(s, c, Lock(Req(c, payload, notify))) else s
    case Go(c) => if c < |s.pc| then GoCpu(s, c) else s
    case Take =>
      if s.front == s.rear then s
      else s.(working := s.working + [s.slots[s.front]], front := (s.front + 1) % MAX_REQ, taken := s.taken + 1)
    case Finish(i) =>
      if i >= |s.working| then s
      else
        var req := s.working[i];
        var s1 := s.(working := Without(s.working, i));
        if !req.notify && req.cpu < |s.pc| then s1.(answered := s.answered[req.cpu := s.answered[req.cpu] + 1]) else s1
  }

  // The ring.

  predicate SlotHolds(s: State, k: nat)
    requires Shape(s) && k < |s.pushed|
  {
    s.slots[k % MAX_REQ] == s.pushed[k]
  }

  predicate InLock(pc: Pc)
  {
    pc.Check? || pc.Save? || pc.Write? || pc.Bump? || pc.Unlock?
  }

  predicate Writing(pc: Pc)
  {
    pc.Save? || pc.Write? || pc.Bump?
  }

  predicate Ring(s: State)
  {
    && Shape(s)
    && s.rear == |s.pushed| % MAX_REQ && s.front == s.taken % MAX_REQ
    && s.taken <= |s.pushed| <= s.taken + MAX_REQ - 1
    && (forall k: nat | s.taken <= k < |s.pushed| :: SlotHolds(s, k))
    && (forall c: nat | c < |s.pc| :: InLock(s.pc[c]) <==> s.lock == Some(c))
    && (forall c: nat | c < |s.pc| && Writing(s.pc[c]) :: |s.pushed| < s.taken + MAX_REQ - 1)
    && (forall c: nat | c < |s.pc| && s.pc[c].Bump? :: s.slots[s.rear] == s.pc[c].req)
  }

  /** The full test is exact: 31 requests wait. */
  lemma FullExact(s: State)
    requires Ring(s)
    ensures IsFull(s) <==> |s.pushed| == s.taken + MAX_REQ - 1
    ensures s.front == s.rear <==> |s.pushed| == s.taken
  {
    CountsApart(s.taken, |s.pushed|);
  }

  lemma CountsApart(t: nat, p: nat)
    requires t <= p <= t + 31
    ensures (p % 32 + 1) % 32 == t % 32 <==> p == t + 31
    ensures t % 32 == p % 32 <==> p == t
  {
    var d := p - t;
    assert p % 32 == if t % 32 + d < 32 then t % 32 + d else t % 32 + d - 32;
  }

  /** The slot at the rear holds no request that waits. */
  lemma WriteKeepsRing(s: State, c: nat)
    requires Ring(s) && c < |s.pc| && s.pc[c].Write?
    ensures Ring(GoCpu(s, c))
  {
    var s' := GoCpu(s, c);
    forall k: nat | s'.taken <= k < |s'.pushed|
      ensures SlotHolds(s', k)
    {
      assert SlotHolds(s, k);
    }
  }

  lemma BumpKeepsRing(s: State, c: nat)
    requires Ring(s) && c < |s.pc| && s.pc[c].Bump?
    ensures Ring(GoCpu(s, c))
  {
    var s' := GoCpu(s, c);
    forall k: nat | s'.taken <= k < |s'.pushed|
      ensures SlotHolds(s', k)
    {
      if k < |s.pushed| {
        assert SlotHolds(s, k);
      }
    }
  }

  lemma GoKeepsRing(s: State, c: nat)
    requires Ring(s) && c < |s.pc|
    ensures Ring(GoCpu(s, c))
  {
    if s.pc[c].Write? {
      WriteKeepsRing(s, c);
    } else if s.pc[c].Bump? {
      BumpKeepsRing(s, c);
    } else {
      FullExact(s);
      forall k: nat | s.taken <= k < |s.pushed|
        ensures SlotHolds(GoCpu(s, c), k)
      {
        assert SlotHolds(s, k);
      }
    }
  }

  lemma TakeKeepsRing(s: State)
    requires Ring(s)
    ensures Ring(Step(s, Take))
    ensures s.taken < |s.pushed| ==> Step(s, Take).working == s.working + [s.pushed[s.taken]]
  {
    FullExact(s);
    SlotOf(s.taken, 1);
    var s' := Step(s, Take);
    if s.taken < |s.pushed| {
      assert SlotHolds(s, s.taken);
    }
    forall k: nat | s'.taken <= k < |s'.pushed|
      ensures SlotHolds(s', k)
    {
      assert SlotHolds(s, k);
    }
  }

  lemma StepKeepsRing(s: State, a: Action)
    requires Ring(s)
    ensures Ring(Step(s, a))
  {
    match a
    case Go(c) =>
      if c < |s.pc| {
        GoKeepsRing(s, c);
      }
    case Take => TakeKeepsRing(s);
    case _ =>
      forall k: nat | s.taken <= k < |s.pushed|
        ensures SlotHolds(Step(s, a), k)
      {
        assert SlotHolds(s, k);
      }
  }

  // Answers.

  /** How many of these requests are configuration accesses of CPU `c`. */
  function Count(reqs: seq<Req>, c: nat): (n: nat)
  {
    if reqs == [] then 0
    else
      var last := reqs[|reqs| - 1];
      Count(reqs[..|reqs| - 1], c) + if last.cpu == c && !last.notify then 1 else 0
  }

  lemma CountPush(reqs: seq<Req>, req: Req, c: nat)
    ensures Count(reqs + [req], c) == Count(reqs, c) + if req.cpu == c && !req.notify then 1 else 0
  {
    assert (reqs + [req])[..|reqs|] == reqs;
  }

  lemma {:induction false} CountConcat(a: seq<Req>, b: seq<Req>, c: nat)
    ensures Count(a + b, c) == Count(a, c) + Count(b, c)
  {
    if b == [] {
      assert a + b == a;
    } else {
      var n := |b| - 1;
      CountConcat(a, b[..n], c);
      CountPush(a + b[..n], b[n], c);
      CountPush(b[..n], b[n], c);
      assert a + b == a + b[..n] + [b[n]] && b == b[..n] + [b[n]];
    }
  }

  lemma CountWithout(w: seq<Req>, i: nat, c: nat)
    requires i < |w|
    ensures Count(w, c) == Count(Without(w, i), c) + if w[i].cpu == c && !w[i].notify then 1 else 0
  {
    CountConcat(w[..i], w[i + 1..], c);
    CountConcat(w[..i + 1], w[i + 1..], c);
    CountPush(w[..i], w[i], c);
    assert w == w[..i + 1] + w[i + 1..] && w[..i + 1] == w[..i] + [w[i]];
  }

  /** Whether CPU `c` has pushed a configuration access whose answer is still to come. */
  function Due(s: State, c: nat): nat
    requires c < |s.pc| == |s.answered|
  {
    match s.pc[c]
    case Unlock(req, flag) => if !req.notify && Flag(s, c) == flag then 1 else 0
    case Spin(flag) => if Flag(s, c) == flag then 1 else 0
    case _ => 0
  }

  predicate PcOk(s: State, c: nat)
    requires c < |s.pc| == |s.answered|
  {
    var pc := s.pc[c];
    && (pc.Lock? || InLock(pc) ==> pc.req.cpu == c)
    && (pc.Write? || pc.Bump? ==> pc.flag == Flag(s, c))
  }

  /** Every request taken is being worked on or answered, and every request pushed is answered except the one due. */
  predicate Balanced(s: State, c: nat)
    requires Shape(s) && c < |s.pc| && s.taken <= |s.pushed|
  {
    && PcOk(s, c)
    && Count(s.working, c) + s.answered[c] == Count(s.pushed[..s.taken], c)
    && Count(s.pushed, c) == s.answered[c] + Due(s, c)
  }

  predicate Inv(s: State)
  {
    Ring(s) && forall c: nat | c < |s.pc| :: Balanced(s, c)
  }

  /** A step that changes the program point of `me` and pushes nothing. */
  lemma MoveKeepsBalance(s: State, s': State, me: nat, c: nat)
    requires Ring(s) && Shape(s') && me < |s.pc| && c < |s.pc| && Balanced(s, c)
    requires |s'.pc| == |s.pc| && s'.pc == s.pc[me := s'.pc[me]]
    requires s'.working == s.working && s'.pushed == s.pushed && s'.taken == s.taken && s'.answered == s.answered
    requires PcOk(s', me) && (c == me ==> Due(s', me) == Due(s, me))
    ensures Balanced(s', c)
  {
    if c != me {
      assert s'.pc[c] == s.pc[c];
    }
  }

  lemma BumpKeepsBalance(s: State, me: nat, c: nat)
    requires Ring(s) && me < |s.pc| && c < |s.pc| && Balanced(s, c) && Balanced(s, me) && s.pc[me].Bump?
    ensures Balanced(GoCpu(s, me), c)
  {
    var s' := GoCpu(s, me);
    CountPush(s.pushed, s.pc[me].req, c);
    assert s'.pushed[..s.taken] == s.pushed[..s.taken];
    if c != me {
      assert s'.pc[c] == s.pc[c];
    }
  }

  lemma GoKeepsBalance(s: State, me: nat, c: nat)
    requires Ring(s) && me < |s.pc| && c < |s.pc| && Balanced(s, c) && Balanced(s, me)
    ensures GoCpu(s, me).taken <= |GoCpu(s, me).pushed| && |GoCpu(s, me).pc| == |s.pc| && Balanced(GoCpu(s, me), c)
  {
    if s.pc[me].Bump? {
      BumpKeepsBalance(s, me, c);
    } else {
      MoveKeepsBalance(s, GoCpu(s, me), me, c);
    }
  }

  lemma TakeKeepsBalance(s: State, s': State, c: nat)
    requires Shape(s) && c < |s.pc| && s.taken < |s.pushed| && Balanced(s, c)
    requires Shape(s') && s' == s.(working := s.working + [s.pushed[s.taken]], front := s'.front, taken := s.taken + 1)
    ensures Balanced(s', c)
  {
    var before, req := s.pushed[..s.taken], s.pushed[s.taken];
    CountPush(before, req, c);
    CountPush(s.working, req, c);
    assert s'.pushed[..s'.taken] == before + [req];
    assert s'.working == s.working + [req];
  }

  lemma FinishKeepsBalance(s: State, i: nat, c: nat)
    requires Ring(s) && i < |s.working| && c < |s.pc| && Balanced(s, c)
    ensures Balanced(Step(s, Finish(i)), c)
  {
    CountWithout(s.working, i, c);
    CountConcat(s.pushed[..s.taken], s.pushed[s.taken..], c);
    assert s.pushed == s.pushed[..s.taken] + s.pushed[s.taken..];
  }

  lemma StepKeeps(s: State, a: Action)
    requires Inv(s)
    ensures Inv(Step(s, a))
  {
    StepKeepsRing(s, a);
    forall c: nat | c < |s.pc|
      ensures Balanced(Step(s, a), c)
    {
      StepKeepsBalance(s, a, c);
    }
  }

  lemma StepKeepsBalance(s: State, a: Action, c: nat)
    requires Inv(s) && c < |s.pc| && Ring(Step(s, a))
    ensures |Step(s, a).pc| == |s.pc| && Balanced(Step(s, a), c)
  {
    match a
    case Access(me, _, _) =>
      if me < |s.pc| && s.pc[me] == Guest {
        MoveKeepsBalance(s, Step(s, a), me, c);
      }
    case Go(me) =>
      if me < |s.pc| {
        GoKeepsBalance(s, me, c);
      }
    case Take =>
      FullExact(s);
      if s.taken < |s.pushed| {
        TakeKeepsRing(s);
        TakeKeepsBalance(s, Step(s, Take), c);
      }
    case Finish(i) =>
      if i < |s.working| {
        FinishKeepsBalance(s, i, c);
      }
  }

  function Exec(s: State, actions: seq<Action>): (s': State)
    requires Shape(s)
    ensures Shape(s')
    decreases |actions|
  {
    if actions == [] then s else Exec(Step(s, actions[0]), actions[1..])
  }

  lemma {:induction false} RunKeeps(s: State, actions: seq<Action>)
    requires Inv(s)
    ensures Inv(Exec(s, actions))
    decreases |actions|
  {
    if actions != [] {
      StepKeeps(s, actions[0]);
      RunKeeps(Step(s, actions[0]), actions[1..]);
    }
  }

  /** The requests in the ring, from front to rear. */
  function Waiting(s: State): seq<Req>
    requires Shape(s)
  {
    var n := (s.rear + MAX_REQ - s.front) % MAX_REQ;
    seq(n, i requires 0 <= i < n => s.slots[(s.front + i) % MAX_REQ])
  }

  /** The slots from front to rear are the pushed requests that were not taken, in order, at most 31; and CPU `c` has at
      most one configuration access on the way, and leaves its wait only when that one has been answered. */
  predicate Orderly(s: State, c: nat)
    requires Shape(s) && c < |s.pc|
  {
    && s.taken <= |s.pushed| <= s.taken + MAX_REQ - 1
    && Waiting(s) == s.pushed[s.taken..]
    && OnTheWay(s, c) <= 1
    && (s.pc[c].Spin? ==> (Flag(s, c) == s.pc[c].flag <==> OnTheWay(s, c) == 1))
  }

  /** The configuration accesses of `c` in the ring or in the backend's hands. */
  function OnTheWay(s: State, c: nat): nat
    requires s.taken <= |s.pushed|
  {
    Count(s.pushed[s.taken..], c) + Count(s.working, c)
  }

  lemma InvIsOrderly(s: State, c: nat)
    requires Inv(s) && c < |s.pc|
    ensures Orderly(s, c)
  {
    WaitingIsUntaken(s);
    var before, after := s.pushed[..s.taken], s.pushed[s.taken..];
    CountConcat(before, after, c);
    assert s.pushed == before + after;
    assert Balanced(s, c);
    assert OnTheWay(s, c) == Due(s, c);
  }

  /** In every run of any number of CPUs and the backend. */
  lemma RingHolds(cpus: nat, actions: seq<Action>, c: nat)
    requires c < cpus
    ensures |Exec(Initial(cpus), actions).pc| == cpus && Orderly(Exec(Initial(cpus), actions), c)
  {
    RunKeeps(Initial(cpus), actions);
    SameCpus(Initial(cpus), actions);
    InvIsOrderly(Exec(Initial(cpus), actions), c);
  }

  lemma {:induction false} SameCpus(s: State, actions: seq<Action>)
    requires Shape(s)
    ensures |Exec(s, actions).pc| == |s.pc|
    decreases |actions|
  {
    if actions != [] {
      SameCpus(Step(s, actions[0]), actions[1..]);
    }
  }

  lemma WaitingIsUntaken(s: State)
    requires Ring(s)
    ensures Waiting(s) == s.pushed[s.taken..]
  {
    var w := Waiting(s);
    WaitingLength(s.taken, |s.pushed|);
    forall i: nat | i < |w|
      ensures w[i] == s.pushed[s.taken + i]
    {
      assert SlotHolds(s, s.taken + i);
      SlotOf(s.taken, i);
    }
  }

  lemma WaitingLength(taken: nat, pushed: nat)
    requires taken <= pushed <= taken + MAX_REQ - 1
    ensures (pushed % MAX_REQ + MAX_REQ - taken % MAX_REQ) % MAX_REQ == pushed - taken
  {
  }

  lemma SlotOf(k: nat, i: nat)
    ensures (k % MAX_REQ + i) % MAX_REQ == (k + i) % MAX_REQ
  {
  }

  // What is pushed, and that a push succeeds.

  /** The requests of CPU `c` among these. */
  function Of(reqs: seq<Req>, c: nat): seq<Req>
  {
    if reqs == [] then []
    else
      var last := reqs[|reqs| - 1];
      Of(reqs[..|reqs| - 1], c) + if last.cpu == c then [last] else []
  }

  lemma OfPush(reqs: seq<Req>, req: Req, c: nat)
    ensures Of(reqs + [req], c) == Of(reqs, c) + if req.cpu == c then [req] else []
  {
    assert (reqs + [req])[..|reqs|] == reqs;
  }

  /** The request that the CPU has still to push. */
  function InHand(pc: Pc): seq<Req>
  {
    if pc.Lock? || (InLock(pc) && !pc.Unlock?) then [pc.req] else []
  }

  /** The access of the guest on CPU `c` that this action is, if it is one. */
  function Accepted(s: State, a: Action, c: nat): seq<Req>
  {
    if a.Access? && a.c == c < |s.pc| && s.pc[c] == Guest then [Req(c, a.payload, a.notify)] else []
  }

  /** What the guest on CPU `c` asked for in a run: each of its accesses that was trapped. */
  function Asked(s: State, actions: seq<Action>, c: nat): seq<Req>
    requires Shape(s)
    decreases |actions|
  {
    if actions == [] then [] else Accepted(s, actions[0], c) + Asked(Step(s, actions[0]), actions[1..], c)
  }

  lemma StepPushes(s: State, a: Action, c: nat)
    requires Shape(s) && c < |s.pc| && (a.Go? && a.c < |s.pc| ==> PcOk(s, a.c))
    ensures |Step(s, a).pc| == |s.pc|
    ensures Of(Step(s, a).pushed, c) + InHand(Step(s, a).pc[c]) ==
      Of(s.pushed, c) + InHand(s.pc[c]) + Accepted(s, a, c)
  {
    match a
    case Go(me) =>
      if me < |s.pc| {
        GoPushes(s, me, c);
      }
    case Access(_, _, _) => AccessInHand(s, a, c);
    case _ => assert Step(s, a).pushed == s.pushed && Step(s, a).pc == s.pc;
  }

  lemma AccessInHand(s: State, a: Action, c: nat)
    requires Shape(s) && a.Access? && c < |s.pc|
    ensures Step(s, a).pushed == s.pushed && |Step(s, a).pc| == |s.pc|
    ensures InHand(Step(s, a).pc[c]) == InHand(s.pc[c]) + Accepted(s, a, c)
  {
  }

  lemma GoPushes(s: State, me: nat, c: nat)
    requires Shape(s) && me < |s.pc| && c < |s.pc| && PcOk(s, me)
    ensures |GoCpu(s, me).pc| == |s.pc|
    ensures Of(GoCpu(s, me).pushed, c) + InHand(GoCpu(s, me).pc[c]) == Of(s.pushed, c) + InHand(s.pc[c])
  {
    if s.pc[me].Bump? {
      OfPush(s.pushed, s.pc[me].req, c);
    } else {
      assert GoCpu(s, me).pushed == s.pushed;
    }
  }

  /** The requests of a CPU in the ring, ever, are the accesses of its guest, in order and with their payload and kind;
      at most the last one is still to be pushed. */
  lemma {:induction false} PushedIsAsked(s: State, actions: seq<Action>, c: nat)
    requires Inv(s) && c < |s.pc|
    ensures |Exec(s, actions).pc| == |s.pc|
    ensures Of(Exec(s, actions).pushed, c) + InHand(Exec(s, actions).pc[c]) ==
      Of(s.pushed, c) + InHand(s.pc[c]) + Asked(s, actions, c)
    decreases |actions|
  {
    if actions != [] {
      assert actions[0].Go? && actions[0].c < |s.pc| ==> Balanced(s, actions[0].c);
      StepPushes(s, actions[0], c);
      StepKeeps(s, actions[0]);
      PushedIsAsked(Step(s, actions[0]), actions[1..], c);
      Regroup(Of(s.pushed, c) + InHand(s.pc[c]), Accepted(s, actions[0], c),
              Asked(Step(s, actions[0]), actions[1..], c));
    }
  }

  lemma Regroup(a: seq<Req>, b: seq<Req>, c: seq<Req>)
    ensures a + b + c == a + (b + c)
  {
  }

  /** From the start: whenever a guest runs, all its accesses are pushed. */
  lemma RingShowsAccesses(cpus: nat, actions: seq<Action>, c: nat)
    requires c < cpus
    ensures var s := Exec(Initial(cpus), actions);
            && |s.pc| == cpus
            && Of(s.pushed, c) <= Asked(Initial(cpus), actions, c)
            && (s.pc[c] == Guest ==> Of(s.pushed, c) == Asked(Initial(cpus), actions, c))
  {
    var s, asked := Exec(Initial(cpus), actions), Asked(Initial(cpus), actions, c);
    PushedIsAsked(Initial(cpus), actions, c);
    assert Of([], c) == [] && InHand(Guest) == [];
    assert Of(s.pushed, c) + InHand(s.pc[c]) == asked;
    assert Of(s.pushed, c) == asked[..|Of(s.pushed, c)|];
  }

  /** `n` steps of CPU `c` in a row. */
  function Steps(c: nat, n: nat): (actions: seq<Action>)
    ensures |actions| == n
  {
    if n == 0 then [] else [Go(c)] + Steps(c, n - 1)
  }

  lemma OneStep(s: State, c: nat, n: nat)
    requires Shape(s) && c < |s.pc| && n > 0
    ensures Exec(s, Steps(c, n)) == Exec(GoCpu(s, c), Steps(c, n - 1))
  {
    assert Steps(c, n)[1..] == Steps(c, n - 1);
  }

  /** An access that nobody disturbs: in a ring with room it is pushed with its payload and kind, the lock is free
      again, and the CPU waits exactly if it has to: for the flag to differ from its value before the push. */
  lemma AccessPushes(s: State, c: nat, payload: nat, notify: bool)
    requires Inv(s) && c < |s.pc| && s.pc[c] == Guest && s.lock.None? && |s.pushed| < s.taken + 31
    ensures var s' := Exec(Step(s, Access(c, payload, notify)), Steps(c, 6));
            && s'.pushed == s.pushed + [Req(c, payload, notify)] && s'.lock.None?
            && s'.pc == s.pc[c := if notify then Guest else Spin(Flag(s, c))]
            && s'.taken == s.taken && s'.working == s.working && s'.answered == s.answered
  {
    FullExact(s);
    var req := Req(c, payload, notify);
    var s1 := Step(s, Access(c, payload, notify));
    var s2 := s.(lock := Some(c), pc := s.pc[c := Check(req)]);
    assert GoCpu(s1, c) == s2;
    OneStep(s1, c, 6);
    var s3 := s.(lock := Some(c), pc := s.pc[c := Save(req)]);
    assert GoCpu(s2, c) == s3;
    OneStep(s2, c, 5);
    var s4 := s.(lock := Some(c), pc := s.pc[c := Write(req, Flag(s, c))]);
    assert GoCpu(s3, c) == s4;
    OneStep(s3, c, 4);
    AccessEnds(s, s4, c, req);
  }

  lemma AccessEnds(s: State, s4: State, c: nat, req: Req)
    requires Shape(s) && c < |s.pc| && s.lock.None?
    requires s4 == s.(lock := Some(c), pc := s.pc[c := Write(req, Flag(s, c))])
    ensures Exec(s4, Steps(c, 3)) ==
      s.(pc := s.pc[c := if req.notify then Guest else Spin(Flag(s, c))], pushed := s.pushed + [req],
         slots := s.slots[s.rear := req], rear := (s.rear + 1) % MAX_REQ)
  {
    var s5 := s4.(slots := s.slots[s.rear := req], pc := s.pc[c := Bump(req, Flag(s, c))]);
    assert GoCpu(s4, c) == s5;
    OneStep(s4, c, 3);
    OneStep(s5, c, 2);
    OneStep(GoCpu(s5, c), c, 1);
  }
}
