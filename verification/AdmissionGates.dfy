/** The gate and lease objects of gateway/admission.py, one critical section at a time. */
module AdmissionGates {
  import opened Admission

  class BoundedGate {
    const policy: Policy
    var inflight: nat
    var queued: nat

    constructor (policy: Policy)
      ensures this.policy == policy && State() == Gate(0, 0)
    {
      this.policy, inflight, queued := policy, 0, 0;
    }

    function State(): Gate
      reads this
    {
      Gate(inflight, queued)
    }

    method Release()
      modifies this
      ensures State() == Free(old(State()))
    {
      if inflight > 0 {
        inflight := inflight - 1;
      }
    }
  }

  predicate Distinct(gates: seq<BoundedGate>) {
    forall i, j | 0 <= i < j < |gates| :: gates[i] != gates[j]
  }

  ghost predicate AllAvailable(gates: seq<BoundedGate>)
    reads gates
  {
    forall g | g in gates :: g.inflight < g.policy.maxInflight
  }

  /** How the first critical section of `acquire` ends. */
  datatype Outcome = Admitted | Queued | QueueFullAt(gate: nat)

  /** `available`. */
  method IsAvailable(gates: seq<BoundedGate>) returns (ok: bool)
    ensures ok == AllAvailable(gates)
  {
    for i := 0 to |gates|
      invariant forall k | 0 <= k < i :: gates[k].inflight < gates[k].policy.maxInflight
    {
      if gates[i].inflight >= gates[i].policy.maxInflight { return false; }
    }
    return true;
  }

  method Occupy(gates: seq<BoundedGate>)
    requires Distinct(gates)
    modifies gates
    ensures forall g | g in gates :: g.State() == Admit(old(g.State()))
  {
    for i := 0 to |gates|
      invariant forall k | 0 <= k < i :: gates[k].State() == Admit(old(gates[k].State()))
      invariant forall k | i <= k < |gates| :: gates[k].State() == old(gates[k].State())
    {
      gates[i].inflight := gates[i].inflight + 1;
    }
  }

  /** Either both budgets are reserved, or the request joins both queues, or it changes nothing. */
  method Arrive(gates: seq<BoundedGate>) returns (outcome: Outcome)
    requires Distinct(gates)
    modifies gates
    ensures outcome.Admitted? == old(AllAvailable(gates))
    ensures outcome.Admitted? ==> forall g | g in gates :: g.State() == Admit(old(g.State()))
    ensures outcome.Queued? ==> forall g | g in gates ::
      old(g.queued) < g.policy.maxQueue && g.State() == Enqueue(old(g.State()))
    ensures outcome.QueueFullAt? ==>
      && outcome.gate < |gates|
      && old(gates[outcome.gate].queued) >= gates[outcome.gate].policy.maxQueue
      && forall g | g in gates :: g.State() == old(g.State())
  {
    var available := IsAvailable(gates);
    if available {
      Occupy(gates);
      return Admitted;
    }
    for i := 0 to |gates|
      invariant forall k | 0 <= k < i :: gates[k].queued < gates[k].policy.maxQueue
    {
      if gates[i].queued >= gates[i].policy.maxQueue { return QueueFullAt(i); }
    }
    for i := 0 to |gates|
      invariant forall k | 0 <= k < i :: gates[k].State() == Enqueue(old(gates[k].State()))
      invariant forall k | i <= k < |gates| :: gates[k].State() == old(gates[k].State())
    {
      gates[i].queued := gates[i].queued + 1;
    }
    return Queued;
  }

  /** The `finally` block that ends a wait, however it ended. */
  method LeaveQueues(gates: seq<BoundedGate>)
    requires Distinct(gates) && forall g | g in gates :: g.queued > 0
    modifies gates
    ensures forall g | g in gates :: g.State() == Dequeue(old(g.State()))
  {
    for i := 0 to |gates|
      invariant forall k | 0 <= k < i :: gates[k].State() == Dequeue(old(gates[k].State()))
      invariant forall k | i <= k < |gates| :: gates[k].State() == old(gates[k].State())
    {
      gates[i].queued := gates[i].queued - 1;
    }
  }

  class AdmissionLease {
    const gates: seq<BoundedGate>
    var released: bool

    constructor (gates: seq<BoundedGate>)
      ensures this.gates == gates && !released
    {
      this.gates, released := gates, false;
    }

    /** Returns each gate once, the last one first; a second release changes nothing. */
    method Release()
      requires Distinct(gates)
      modifies this, gates
      ensures released
      ensures forall g | g in gates :: g.State() == if old(released) then old(g.State()) else Free(old(g.State()))
    {
      if released { return; }
      released := true;
      var i := |gates|;
      while i > 0
        invariant 0 <= i <= |gates| && released
        invariant forall k | i <= k < |gates| :: gates[k].State() == Free(old(gates[k].State()))
        invariant forall k | 0 <= k < i :: gates[k].State() == old(gates[k].State())
      {
        i := i - 1;
        gates[i].Release();
      }
    }
  }

  /** Arriving and then releasing the lease twice leaves the gates as they were. */
  method LeaseRoundTrip(gates: seq<BoundedGate>) returns (admitted: bool)
    requires Distinct(gates)
    modifies gates
    ensures admitted ==> forall g | g in gates :: g.State() == old(g.State())
  {
    var outcome := Arrive(gates);
    admitted := outcome.Admitted?;
    if admitted {
      var lease := new AdmissionLease(gates);
      lease.Release();
      lease.Release();
    }
  }
}
