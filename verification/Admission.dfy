/**
 Admission control (gateway/admission.py) as interleaved atomic steps of N requests.

 Each request needs a slot in a global gate and in a model gate. One condition variable guards
 all gates, so every critical section is one step; timeouts and cancellations may strike at any
 time, and the two gates of a lease are returned in two separate steps.
 */
module Admission {
  /** `max_inflight` is read with a minimum of one, `max_queue` with a minimum of zero. */
  datatype Policy = Policy(maxInflight: nat, maxQueue: nat)

  datatype Gate = Gate(inflight: nat, queued: nat)

  /** `Waiting` sleeps on the condition; `Halved` has returned its model slot, not yet the global one. */
  datatype Phase = Outside | Waiting(notified: bool) | Holding | Halved | Returned | Rejected

  /** `both` indexes the gates of a request: the global one, then the model's. */
  datatype Request = Request(both: (nat, nat), phase: Phase)

  datatype World = World(policies: seq<Policy>, gates: seq<Gate>, requests: seq<Request>)

  datatype Action = Arrive(who: nat) | Wake(who: nat) | GiveUp(who: nat) | Return(who: nat)

  predicate WellFormed(w: World) {
    && |w.gates| == |w.policies|
    && (forall p | p in w.policies :: p.maxInflight >= 1)
    && (forall r | r in w.requests :: r.both.0 < |w.gates| && r.both.1 < |w.gates| && r.both.0 != r.both.1)
  }

  predicate Full(w: World, g: nat)
    requires g < |w.gates| == |w.policies|
  {
    w.gates[g].inflight >= w.policies[g].maxInflight
  }

  predicate QueueFull(w: World, g: nat)
    requires g < |w.gates| == |w.policies|
  {
    w.gates[g].queued >= w.policies[g].maxQueue
  }

  predicate Available(w: World, r: Request)
    requires r.both.0 < |w.gates| == |w.policies| && r.both.1 < |w.gates|
  {
    !Full(w, r.both.0) && !Full(w, r.both.1)
  }

  function Admit(g: Gate): Gate { g.(inflight := g.inflight + 1) }

  function Enqueue(g: Gate): Gate { g.(queued := g.queued + 1) }

  function Dequeue(g: Gate): Gate { if g.queued == 0 then g else g.(queued := g.queued - 1) }

  /** Releasing a gate never takes its count below zero. */
  function Free(g: Gate): Gate { if g.inflight == 0 then g else g.(inflight := g.inflight - 1) }

  /** Both gates of a request, changed one after the other. */
  function AdmitBoth(gates: seq<Gate>, both: (nat, nat)): (r: seq<Gate>)
    requires both.0 < |gates| && both.1 < |gates| && both.0 != both.1
    ensures |r| == |gates|
    ensures forall g | 0 <= g < |r| :: r[g] == if g == both.0 || g == both.1 then Admit(gates[g]) else gates[g]
  {
    gates[both.0 := Admit(gates[both.0])][both.1 := Admit(gates[both.1])]
  }

  function EnqueueBoth(gates: seq<Gate>, both: (nat, nat)): (r: seq<Gate>)
    requires both.0 < |gates| && both.1 < |gates| && both.0 != both.1
    ensures |r| == |gates|
    ensures forall g | 0 <= g < |r| :: r[g] == if g == both.0 || g == both.1 then Enqueue(gates[g]) else gates[g]
  {
    gates[both.0 := Enqueue(gates[both.0])][both.1 := Enqueue(gates[both.1])]
  }

  function DequeueBoth(gates: seq<Gate>, both: (nat, nat)): (r: seq<Gate>)
    requires both.0 < |gates| && both.1 < |gates| && both.0 != both.1
    ensures |r| == |gates|
    ensures forall g | 0 <= g < |r| :: r[g] == if g == both.0 || g == both.1 then Dequeue(gates[g]) else gates[g]
  {
    gates[both.0 := Dequeue(gates[both.0])][both.1 := Dequeue(gates[both.1])]
  }

  /** `notify_all`. */
  function Notified(r: Request): Request {
    if r.phase.Waiting? then r.(phase := Waiting(true)) else r
  }

  function NotifyAll(requests: seq<Request>): (r: seq<Request>)
    ensures |r| == |requests| && forall i | 0 <= i < |r| :: r[i] == Notified(requests[i])
  {
    seq(|requests|, i requires 0 <= i < |requests| => Notified(requests[i]))
  }

  /** Request `i` moves on to `phase`. */
  function At(w: World, i: nat, gates: seq<Gate>, phase: Phase): World
    requires i < |w.requests|
  {
    w.(gates := gates, requests := w.requests[i := w.requests[i].(phase := phase)])
  }

  /** The critical section of `acquire` up to its first wait. */
  function Arrived(w: World, i: nat): World
    requires WellFormed(w) && i < |w.requests|
  {
    var r := w.requests[i];
    if Available(w, r) then At(w, i, AdmitBoth(w.gates, r.both), Holding)
    else if QueueFull(w, r.both.0) || QueueFull(w, r.both.1) then At(w, i, w.gates, Rejected)
    else At(w, i, EnqueueBoth(w.gates, r.both), Waiting(false))
  }

  /** A notified waiter looks again. */
  function Woken(w: World, i: nat): World
    requires WellFormed(w) && i < |w.requests|
  {
    var r := w.requests[i];
    if Available(w, r) then At(w, i, AdmitBoth(DequeueBoth(w.gates, r.both), r.both), Holding)
    else At(w, i, w.gates, Waiting(false))
  }

  /** A timeout or a cancellation ends a wait. */
  function GivenUp(w: World, i: nat): World
    requires WellFormed(w) && i < |w.requests|
  {
    At(w, i, DequeueBoth(w.gates, w.requests[i].both), Rejected)
  }

  /** A lease returns its gates one by one, the last one first, and wakes every waiter each time. */
  function ReturnedOne(w: World, i: nat): World
    requires WellFormed(w) && i < |w.requests|
  {
    var r := w.requests[i];
    var g := if r.phase.Holding? then r.both.1 else r.both.0;
    var v := At(w, i, w.gates[g := Free(w.gates[g])], if r.phase.Holding? then Halved else Returned);
    v.(requests := NotifyAll(v.requests))
  }

  predicate Enabled(w: World, a: Action) {
    a.who < |w.requests| &&
    var phase := w.requests[a.who].phase;
    match a
    case Arrive(_) => phase.Outside?
    case Wake(_) => phase == Waiting(true)
    case GiveUp(_) => phase.Waiting?
    case Return(_) => phase.Holding? || phase.Halved?
  }

  /** One step; an action that is not enabled changes nothing, like a second release of a lease. */
  function Step(w: World, a: Action): World
    requires WellFormed(w)
  {
    if !Enabled(w, a) then w else
      match a
      case Arrive(i) => Arrived(w, i)
      case Wake(i) => Woken(w, i)
      case GiveUp(i) => GivenUp(w, i)
      case Return(i) => ReturnedOne(w, i)
  }

  lemma StepWellFormed(w: World, a: Action)
    requires WellFormed(w)
    ensures WellFormed(Step(w, a))
  {
    var v := Step(w, a);
    forall r | r in v.requests ensures r.both.0 < |v.gates| && r.both.1 < |v.gates| && r.both.0 != r.both.1 {
      var i :| 0 <= i < |v.requests| && v.requests[i] == r;
      assert w.requests[i] in w.requests && v.requests[i].both == w.requests[i].both;
    }
  }

  /** A run from some state; every state on the way is well formed. */
  function Run(w: World, acts: seq<Action>): (v: World)
    requires WellFormed(w)
    ensures WellFormed(v)
    decreases |acts|
  {
    if acts == [] then w else
      StepWellFormed(w, acts[0]);
      Run(Step(w, acts[0]), acts[1..])
  }

  function Start(policies: seq<Policy>, boths: seq<(nat, nat)>): World {
    World(policies, seq(|policies|, g => Gate(0, 0)),
          seq(|boths|, i requires 0 <= i < |boths| => Request(boths[i], Outside)))
  }

  // ---------------------------------------------------------------- counting

  predicate Owes(r: Request, g: nat) {
    (r.phase.Holding? && (g == r.both.0 || g == r.both.1)) || (r.phase.Halved? && g == r.both.0)
  }

  predicate Waits(r: Request, g: nat) {
    r.phase.Waiting? && (g == r.both.0 || g == r.both.1)
  }

  function One(b: bool): nat { if b then 1 else 0 }

  /** How many leases have not yet returned gate `g`. */
  function Owing(rs: seq<Request>, g: nat): nat {
    if rs == [] then 0 else One(Owes(rs[0], g)) + Owing(rs[1..], g)
  }

  /** How many requests wait at gate `g`. */
  function WaitingAt(rs: seq<Request>, g: nat): nat {
    if rs == [] then 0 else One(Waits(rs[0], g)) + WaitingAt(rs[1..], g)
  }

  lemma {:induction false} CountsUpdate(rs: seq<Request>, i: nat, r: Request, g: nat)
    requires i < |rs|
    ensures Owing(rs[i := r], g) + One(Owes(rs[i], g)) == Owing(rs, g) + One(Owes(r, g))
    ensures WaitingAt(rs[i := r], g) + One(Waits(rs[i], g)) == WaitingAt(rs, g) + One(Waits(r, g))
  {
    if i == 0 {
      assert rs[0 := r][1..] == rs[1..];
    } else {
      assert rs[i := r][1..] == rs[1..][i - 1 := r];
      CountsUpdate(rs[1..], i - 1, r, g);
    }
  }

  lemma {:induction false} CountsNotify(rs: seq<Request>, g: nat)
    ensures Owing(NotifyAll(rs), g) == Owing(rs, g)
    ensures WaitingAt(NotifyAll(rs), g) == WaitingAt(rs, g)
  {
    if rs != [] {
      assert NotifyAll(rs)[1..] == NotifyAll(rs[1..]);
      CountsNotify(rs[1..], g);
    }
  }

  lemma {:induction false} CountsZero(rs: seq<Request>, g: nat)
    requires forall r | r in rs :: r.phase.Outside?
    ensures Owing(rs, g) == 0 && WaitingAt(rs, g) == 0
  {
    if rs != [] { CountsZero(rs[1..], g); }
  }

  lemma {:induction false} SomeoneOwes(rs: seq<Request>, g: nat) returns (i: nat)
    requires Owing(rs, g) > 0
    ensures i < |rs| && Owes(rs[i], g)
  {
    if Owes(rs[0], g) {
      i := 0;
    } else {
      var j := SomeoneOwes(rs[1..], g);
      i := j + 1;
    }
  }

  /** A request that owes or waits is counted. */
  lemma {:induction false} Counted(rs: seq<Request>, i: nat, g: nat)
    requires i < |rs|
    ensures One(Owes(rs[i], g)) <= Owing(rs, g) && One(Waits(rs[i], g)) <= WaitingAt(rs, g)
  {
    if i > 0 { Counted(rs[1..], i - 1, g); }
  }

  // ---------------------------------------------------------------- the invariant

  /** The counters of a gate count its leases and its waiters, within the gate's limits. */
  predicate Balanced(w: World, g: nat)
    requires g < |w.gates| == |w.policies|
  {
    && w.gates[g].inflight == Owing(w.requests, g) <= w.policies[g].maxInflight
    && w.gates[g].queued == WaitingAt(w.requests, g) <= w.policies[g].maxQueue
  }

  /** A waiter that no notification is under way for has a full gate. */
  predicate NoLostWakeup(w: World, r: Request)
    requires r.both.0 < |w.gates| == |w.policies| && r.both.1 < |w.gates|
  {
    r.phase == Waiting(false) ==> !Available(w, r)
  }

  /** One of the request's gates has every slot taken. */
  predicate FullGate(w: World, r: Request) {
    exists g | g in {r.both.0, r.both.1} :: g < |w.gates| == |w.policies| && w.gates[g].inflight == w.policies[g].maxInflight
  }

  predicate Inv(w: World) {
    && WellFormed(w)
    && (forall g | 0 <= g < |w.gates| :: Balanced(w, g))
    && (forall r | r in w.requests :: NoLostWakeup(w, r))
  }

  lemma InvStart(policies: seq<Policy>, boths: seq<(nat, nat)>)
    requires WellFormed(Start(policies, boths))
    ensures Inv(Start(policies, boths))
  {
    var w := Start(policies, boths);
    forall g | 0 <= g < |w.gates| ensures Balanced(w, g) { CountsZero(w.requests, g); }
  }

  /** Changing one request's phase, without a change of its counts at `g` beyond what the gate's counters show. */
  lemma BalancedAt(w: World, i: nat, gates: seq<Gate>, phase: Phase, g: nat)
    requires WellFormed(w) && i < |w.requests| && |gates| == |w.gates| && g < |gates| && Balanced(w, g)
    requires var was, now := w.requests[i], w.requests[i].(phase := phase);
      && gates[g].inflight == w.gates[g].inflight + One(Owes(now, g)) - One(Owes(was, g))
      && gates[g].queued == w.gates[g].queued + One(Waits(now, g)) - One(Waits(was, g))
    requires gates[g].inflight <= w.policies[g].maxInflight && gates[g].queued <= w.policies[g].maxQueue
    ensures Balanced(At(w, i, gates, phase), g)
  {
    CountsUpdate(w.requests, i, w.requests[i].(phase := phase), g);
  }

  /** A step that frees no slot cannot make a sleeping waiter's gates available. */
  lemma StillNoLostWakeup(w: World, i: nat, gates: seq<Gate>, phase: Phase)
    requires Inv(w) && i < |w.requests| && |gates| == |w.gates|
    requires forall g | 0 <= g < |gates| :: gates[g].inflight >= w.gates[g].inflight
    requires NoLostWakeup(w, w.requests[i].(phase := phase))
    ensures forall r | r in At(w, i, gates, phase).requests :: NoLostWakeup(At(w, i, gates, phase), r)
  {
    var v := At(w, i, gates, phase);
    forall r | r in v.requests ensures NoLostWakeup(v, r) {
      var j :| 0 <= j < |v.requests| && v.requests[j] == r;
      assert w.requests[j] in w.requests;
    }
  }

  lemma InvArrived(w: World, i: nat)
    requires Inv(w) && i < |w.requests| && w.requests[i].phase.Outside?
    ensures Inv(Arrived(w, i))
  {
    var v := Arrived(w, i);
    assert w.requests[i] in w.requests;
    StepWellFormed(w, Arrive(i));
    var phase := v.requests[i].phase;
    forall g | 0 <= g < |v.gates| ensures Balanced(v, g) { BalancedAt(w, i, v.gates, phase, g); }
    StillNoLostWakeup(w, i, v.gates, phase);
  }

  lemma InvWoken(w: World, i: nat)
    requires Inv(w) && i < |w.requests| && w.requests[i].phase.Waiting?
    ensures Inv(Woken(w, i))
  {
    var v := Woken(w, i);
    assert w.requests[i] in w.requests;
    StepWellFormed(w, Wake(i));
    var phase := v.requests[i].phase;
    forall g | 0 <= g < |v.gates| ensures Balanced(v, g) {
      Counted(w.requests, i, g);
      BalancedAt(w, i, v.gates, phase, g);
    }
    StillNoLostWakeup(w, i, v.gates, phase);
  }

  lemma InvGivenUp(w: World, i: nat)
    requires Inv(w) && i < |w.requests| && w.requests[i].phase.Waiting?
    ensures Inv(GivenUp(w, i))
  {
    var v := GivenUp(w, i);
    assert w.requests[i] in w.requests;
    StepWellFormed(w, GiveUp(i));
    forall g | 0 <= g < |v.gates| ensures Balanced(v, g) {
      Counted(w.requests, i, g);
      BalancedAt(w, i, v.gates, Rejected, g);
    }
    StillNoLostWakeup(w, i, v.gates, Rejected);
  }

  lemma InvReturned(w: World, i: nat)
    requires Inv(w) && i < |w.requests| && (w.requests[i].phase.Holding? || w.requests[i].phase.Halved?)
    ensures Inv(ReturnedOne(w, i))
  {
    var v, r := ReturnedOne(w, i), w.requests[i];
    assert r in w.requests;
    StepWellFormed(w, Return(i));
    var phase := if r.phase.Holding? then Halved else Returned;
    forall g | 0 <= g < |v.gates| ensures Balanced(v, g) {
      Counted(w.requests, i, g);
      BalancedAt(w, i, v.gates, phase, g);
      CountsNotify(At(w, i, v.gates, phase).requests, g);
    }
  }

  lemma InvStep(w: World, a: Action)
    requires Inv(w)
    ensures Inv(Step(w, a))
  {
    hide Inv, Arrived, Woken, GivenUp, ReturnedOne;
    if Enabled(w, a) {
      match a
      case Arrive(i) => InvArrived(w, i);
      case Wake(i) => InvWoken(w, i);
      case GiveUp(i) => InvGivenUp(w, i);
      case Return(i) => InvReturned(w, i);
    }
  }

  lemma {:induction false} InvRun(w: World, acts: seq<Action>)
    requires Inv(w)
    ensures Inv(Run(w, acts))
    decreases |acts|
  {
    if acts != [] {
      InvStep(w, acts[0]);
      InvRun(Step(w, acts[0]), acts[1..]);
    }
  }

  // ---------------------------------------------------------------- main results

  /**
   In every reachable state: a gate's counters are exactly its unreturned leases and its waiters,
   within its limits; a waiter holds no slot; and a sleeping waiter has a full gate, hence a lease
   that will notify it.
   */
  lemma AdmissionIsSafe(policies: seq<Policy>, boths: seq<(nat, nat)>, acts: seq<Action>)
    requires WellFormed(Start(policies, boths))
    ensures var w := Run(Start(policies, boths), acts);
      && |w.gates| == |policies| == |w.policies|
      && (forall g | 0 <= g < |policies| ::
        && w.gates[g].inflight == Owing(w.requests, g) <= w.policies[g].maxInflight
        && w.gates[g].queued == WaitingAt(w.requests, g) <= w.policies[g].maxQueue)
      && (forall r, g: nat | r in w.requests && r.phase.Waiting? :: !Owes(r, g))
      && (forall r | r in w.requests && r.phase == Waiting(false) :: FullGate(w, r))
      && (forall r | r in w.requests && r.phase == Waiting(false) ::
        exists h | h in w.requests :: Owes(h, r.both.0) || Owes(h, r.both.1))
  {
    InvStart(policies, boths);
    InvRun(Start(policies, boths), acts);
    RunKeepsPolicies(Start(policies, boths), acts);
    var w := Run(Start(policies, boths), acts);
    forall g | 0 <= g < |policies|
      ensures w.gates[g].inflight == Owing(w.requests, g) <= w.policies[g].maxInflight
      ensures w.gates[g].queued == WaitingAt(w.requests, g) <= w.policies[g].maxQueue
    {
      assert Balanced(w, g);
    }
    forall r | r in w.requests && r.phase == Waiting(false)
      ensures FullGate(w, r)
      ensures exists h | h in w.requests :: Owes(h, r.both.0) || Owes(h, r.both.1)
    {
      var i := Blocker(w, r);
      assert w.requests[i] in w.requests && NoLostWakeup(w, r);
    }
  }

  /** The lease that a sleeping waiter waits for. */
  lemma Blocker(w: World, r: Request) returns (i: nat)
    requires Inv(w) && r in w.requests && r.phase == Waiting(false)
    ensures i < |w.requests| && (Owes(w.requests[i], r.both.0) || Owes(w.requests[i], r.both.1))
  {
    assert NoLostWakeup(w, r);
    var g := if Full(w, r.both.0) then r.both.0 else r.both.1;
    assert Balanced(w, g) && w.policies[g] in w.policies;
    i := SomeoneOwes(w.requests, g);
  }

  lemma {:induction false} RunKeepsPolicies(w: World, acts: seq<Action>)
    requires WellFormed(w)
    ensures Run(w, acts).policies == w.policies && |Run(w, acts).requests| == |w.requests|
    decreases |acts|
  {
    if acts != [] {
      StepWellFormed(w, acts[0]);
      RunKeepsPolicies(Step(w, acts[0]), acts[1..]);
    }
  }

  // ---------------------------------------------------------------- progress

  /** How far a request still is from its end. */
  function Distance(p: Phase): nat {
    match p
    case Outside => 4
    case Waiting(_) => 3
    case Holding => 2
    case Halved => 1
    case _ => 0
  }

  function TotalDistance(rs: seq<Request>): nat {
    if rs == [] then 0 else Distance(rs[0].phase) + TotalDistance(rs[1..])
  }

  function Awake(rs: seq<Request>): nat {
    if rs == [] then 0 else One(rs[0].phase == Waiting(true)) + Awake(rs[1..])
  }

  lemma {:induction false} DistanceUpdate(rs: seq<Request>, i: nat, r: Request)
    requires i < |rs|
    ensures TotalDistance(rs[i := r]) + Distance(rs[i].phase) == TotalDistance(rs) + Distance(r.phase)
    ensures Awake(rs[i := r]) + One(rs[i].phase == Waiting(true)) == Awake(rs) + One(r.phase == Waiting(true))
  {
    if i == 0 {
      assert rs[0 := r][1..] == rs[1..];
    } else {
      assert rs[i := r][1..] == rs[1..][i - 1 := r];
      DistanceUpdate(rs[1..], i - 1, r);
    }
  }

  lemma {:induction false} DistanceNotify(rs: seq<Request>)
    ensures TotalDistance(NotifyAll(rs)) == TotalDistance(rs)
  {
    if rs != [] {
      assert NotifyAll(rs)[1..] == NotifyAll(rs[1..]);
      DistanceNotify(rs[1..]);
    }
  }

  /** Every enabled step brings the requests closer to their end, so no run of enabled steps is endless. */
  lemma StepsRunOut(w: World, a: Action)
    requires WellFormed(w) && Enabled(w, a)
    ensures var v := Step(w, a);
      || TotalDistance(v.requests) < TotalDistance(w.requests)
      || (TotalDistance(v.requests) == TotalDistance(w.requests) && Awake(v.requests) < Awake(w.requests))
  {
    var v, i := Step(w, a), a.who;
    assert w.requests[i] in w.requests;
    if a.Return? {
      var phase := if w.requests[i].phase.Holding? then Halved else Returned;
      DistanceUpdate(w.requests, i, w.requests[i].(phase := phase));
      DistanceNotify(w.requests[i := w.requests[i].(phase := phase)]);
    } else {
      DistanceUpdate(w.requests, i, v.requests[i]);
    }
  }

  /** Fewer leases than slots at both gates of a request. */
  predicate Room(w: World, r: Request)
    requires r.both.0 < |w.policies| && r.both.1 < |w.policies|
  {
    && Owing(w.requests, r.both.0) < w.policies[r.both.0].maxInflight
    && Owing(w.requests, r.both.1) < w.policies[r.both.1].maxInflight
  }

  /** Fewer waiters than places in both queues of a request. */
  predicate Place(w: World, r: Request)
    requires r.both.0 < |w.policies| && r.both.1 < |w.policies|
  {
    && WaitingAt(w.requests, r.both.0) < w.policies[r.both.0].maxQueue
    && WaitingAt(w.requests, r.both.1) < w.policies[r.both.1].maxQueue
  }

  /** Where an action brings its request. */
  ghost predicate Becomes(w: World, a: Action, r: Request, phase: Phase)
    requires r.both.0 < |w.policies| && r.both.1 < |w.policies|
  {
    match a
    case Arrive(_) => phase == if Room(w, r) then Holding else if Place(w, r) then Waiting(false) else Rejected
    case Wake(_) => phase == if Room(w, r) then Holding else Waiting(false)
    case GiveUp(_) => phase == Rejected
    case Return(_) => phase == if r.phase.Holding? then Halved else Returned
  }

  /**
   In every state that can be reached: who arrives is admitted exactly if fewer leases than slots are out
   at both gates, waits otherwise as long as both queues have places, and is rejected if not; who wakes up
   is admitted or goes on waiting by the same rule. A return wakes all waiters; nothing else touches them.
   */
  lemma AdmissionTells(policies: seq<Policy>, boths: seq<(nat, nat)>, acts: seq<Action>, a: Action)
    requires WellFormed(Start(policies, boths)) && Enabled(Run(Start(policies, boths), acts), a)
    ensures var w := Run(Start(policies, boths), acts); var v := Step(w, a); var r := w.requests[a.who];
      && |v.requests| == |w.requests| && r.both.0 < |w.policies| && r.both.1 < |w.policies|
      && Becomes(w, a, r, v.requests[a.who].phase)
      && forall j | 0 <= j < |w.requests| && j != a.who ::
           v.requests[j].phase == if a.Return? && w.requests[j].phase.Waiting? then Waiting(true) else w.requests[j].phase
  {
    InvStart(policies, boths);
    InvRun(Start(policies, boths), acts);
    var w := Run(Start(policies, boths), acts);
    RoomIs(w, w.requests[a.who]);
    hide Room, Place, Available, QueueFull, Inv, Run, Start, AdmitBoth, EnqueueBoth, DequeueBoth, Free;
  }

  lemma RoomIs(w: World, r: Request)
    requires Inv(w) && r in w.requests
    ensures WellFormed(w) && r.both.0 < |w.policies| && r.both.1 < |w.policies|
    ensures Room(w, r) == Available(w, r) && Place(w, r) == !(QueueFull(w, r.both.0) || QueueFull(w, r.both.1))
  {
    assert Balanced(w, r.both.0) && Balanced(w, r.both.1);
    hide Owing, WaitingAt;
  }

  /** When only timeouts and arrivals could still happen, nobody waits and nobody holds a slot. */
  lemma NobodyIsLeftBehind(policies: seq<Policy>, boths: seq<(nat, nat)>, acts: seq<Action>)
    requires WellFormed(Start(policies, boths))
    requires var w := Run(Start(policies, boths), acts);
      forall i | 0 <= i < |w.requests| :: !Enabled(w, Wake(i)) && !Enabled(w, Return(i))
    ensures var w := Run(Start(policies, boths), acts);
      && (forall r | r in w.requests :: !r.phase.Waiting? && !r.phase.Holding? && !r.phase.Halved?)
      && (forall g | 0 <= g < |w.gates| :: w.gates[g] == Gate(0, 0))
  {
    InvStart(policies, boths);
    InvRun(Start(policies, boths), acts);
    var w := Run(Start(policies, boths), acts);
    forall r | r in w.requests ensures !r.phase.Waiting? && !r.phase.Holding? && !r.phase.Halved? {
      var i :| 0 <= i < |w.requests| && w.requests[i] == r;
      assert !Enabled(w, Wake(i)) && !Enabled(w, Return(i));
      if r.phase == Waiting(false) {
        var j := Blocker(w, r);
        assert Enabled(w, Return(j));
      }
    }
    forall g | 0 <= g < |w.gates| ensures w.gates[g] == Gate(0, 0) {
      assert Balanced(w, g);
      NothingCounted(w.requests, g);
    }
  }

  lemma {:induction false} NothingCounted(rs: seq<Request>, g: nat)
    requires forall r | r in rs :: !r.phase.Waiting? && !r.phase.Holding? && !r.phase.Halved?
    ensures Owing(rs, g) == 0 && WaitingAt(rs, g) == 0
  {
    if rs != [] { NothingCounted(rs[1..], g); }
  }
}
