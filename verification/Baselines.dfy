/** Dominant resource fairness, and the five baseline policies behind one interface
    (benchmarks/simulator/baselines.py). */
module Baselines {
  import opened Wrappers
  import opened Resources
  import opened Workload
  import opened Ledger
  import opened CyclicPolicies
  import opened DeficitPolicy

  // ---- dominant resource fairness --------------------------------------------------------

  /** The dominant share of everything a tenant holds. */
  function HeldShare(s: Snapshot, tenant: TenantId): real {
    DominantShare(Use(s.held, Of(tenant)), s.capacity)
  }

  /** Least share first, then larger weight, then earlier job, then smaller identifier. */
  predicate Poorer(s: Snapshot, a: TenantSpec, b: TenantSpec)
    requires Demands(s.candidates, a.id) && Demands(s.candidates, b.id)
  {
    var x, y := HeldShare(s, a.id), HeldShare(s, b.id);
    var p, q := First(s.candidates, a.id).readySequence, First(s.candidates, b.id).readySequence;
    || x < y
    || (x == y && a.weight > b.weight)
    || (x == y && a.weight == b.weight && p < q)
    || (x == y && a.weight == b.weight && p == q && a.id <= b.id)
  }

  /** The poorest demanding tenant among the first `n` listed. */
  function Poorest(s: Snapshot, n: nat): Option<TenantSpec>
    requires n <= |s.tenants|
  {
    if n == 0 then None
    else
      var best := Poorest(s, n - 1);
      var t := s.tenants[n - 1];
      if !Demands(s.candidates, t.id) then best
      else if best.Some? && Demands(s.candidates, best.value.id) && Poorer(s, best.value, t) then best
      else Some(t)
  }

  lemma {:induction false} PoorestIsLeast(s: Snapshot, n: nat)
    requires n <= |s.tenants|
    ensures match Poorest(s, n)
            case None => forall i :: 0 <= i < n ==> !Demands(s.candidates, s.tenants[i].id)
            case Some(best) =>
              && best in s.tenants && Demands(s.candidates, best.id)
              && forall i :: 0 <= i < n && Demands(s.candidates, s.tenants[i].id) ==> Poorer(s, best, s.tenants[i])
  {
    if n > 0 {
      PoorestIsLeast(s, n - 1);
    }
  }

  function Drf(s: Snapshot): Option<JobId> {
    var t := Poorest(s, |s.tenants|);
    if t.Some? && Demands(s.candidates, t.value.id) then Some(First(s.candidates, t.value.id).id) else None
  }

  /** DRF serves a tenant whose dominant share nobody demanding undercuts, ties going to the
      larger weight, then the earlier job, then the smaller identifier. */
  lemma DrfServesPoorest(s: Snapshot)
    requires WellFormed(s)
    ensures Picks(s, Drf(s))
    ensures s.candidates != [] ==>
              exists t :: t in s.tenants && Demands(s.candidates, t.id) && Drf(s) == Some(First(s.candidates, t.id).id)
                          && forall u :: u in s.tenants && Demands(s.candidates, u.id) ==>
                                           HeldShare(s, t.id) <= HeldShare(s, u.id) && Poorer(s, t, u)
  {
    PoorestIsLeast(s, |s.tenants|);
    if s.candidates != [] {
      assert s.candidates[0] in s.candidates;
      var i :| 0 <= i < |s.tenants| && s.tenants[i].id == s.candidates[0].tenant;
      assert Demands(s.candidates, s.tenants[i].id);
      var best := Poorest(s, |s.tenants|).value;
      FirstIsLeast(s.candidates, best.id);
      forall u | u in s.tenants && Demands(s.candidates, u.id)
        ensures HeldShare(s, best.id) <= HeldShare(s, u.id) && Poorer(s, best, u)
      {
        assert Poorer(s, best, u);
      }
    }
  }

  // ---- one interface ---------------------------------------------------------------------

  datatype Policy = FifoPolicy | RoundRobinPolicy(cycle: Cycle) | WeightedPolicy(weighted: Weighted)
                  | DeficitPolicy(drr: Drr) | DrfPolicy

  /** What each policy object keeps true of its own state. */
  ghost predicate PolicyOk(p: Policy, tenants: seq<TenantSpec>)
    requires ValidTenants(tenants)
  {
    match p
    case WeightedPolicy(w) => Consistent(w, tenants)
    case DeficitPolicy(d) => Sane(d)
    case _ => true
  }

  function Choose(p: Policy, s: Snapshot): (Policy, Option<JobId>)
    requires WellFormed(s) && PolicyOk(p, s.tenants)
  {
    match p
    case FifoPolicy => (p, Fifo(s))
    case RoundRobinPolicy(c) =>
      var (c', job) := RoundRobin(c, s);
      (RoundRobinPolicy(c'), job)
    case WeightedPolicy(w) =>
      var (w', job) := WeightedRoundRobin(w, s);
      (WeightedPolicy(w'), job)
    case DeficitPolicy(d) =>
      assert s.candidates != [] ==> s.candidates[0] in s.candidates;
      var (d', job) := DrrSelect(d, s);
      (DeficitPolicy(d'), Id(job))
    case DrfPolicy => (p, Drf(s))
  }

  /** Each baseline, in any state it can reach, picks a candidate whenever there is one. */
  lemma BaselinePicks(p: Policy, s: Snapshot)
    requires WellFormed(s) && PolicyOk(p, s.tenants)
    ensures PolicyOk(Choose(p, s).0, s.tenants) && Picks(s, Choose(p, s).1)
  {
    match p
    case FifoPolicy => FifoPicksEarliest(s);
    case RoundRobinPolicy(c) => RoundRobinPicks(c, s);
    case WeightedPolicy(w) => WeightedPicks(w, s);
    case DeficitPolicy(d) =>
      assert s.candidates != [] ==> s.candidates[0] in s.candidates;
      DrrPicks(d, s);
    case DrfPolicy => DrfServesPoorest(s);
  }

  /** `reset` leaves every policy in such a state. */
  lemma ResetOk(tenants: seq<TenantSpec>, p: Policy)
    requires ValidTenants(tenants)
    requires p in {FifoPolicy, RoundRobinPolicy(Cycle([], 0)), WeightedPolicy(Weighted([], Cycle([], 0))),
                   DeficitPolicy(FRESH), DrfPolicy}
    ensures PolicyOk(p, tenants)
  {
    if p == WeightedPolicy(Weighted([], Cycle([], 0))) && Signature(tenants) == [] {
      assert |Signature(tenants)| == |tenants|;
    }
  }
}
