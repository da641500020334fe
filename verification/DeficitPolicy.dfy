/** Deficit round robin on scheduling snapshots (benchmarks/simulator/baselines.py): bounded
    scans, weighted fairness over runs, and the policy object. */
module DeficitPolicy {
  import opened Basics
  import opened Wrappers
  import opened Resources
  import opened Workload
  import opened CyclicPolicies
  import Kernel = DeficitKernel

  type Drr = Kernel.Drr

  const FRESH: Drr := Kernel.Drr(0, [], map[], None)

  // ---- bids and quanta -----------------------------------------------------------------

  function CandidateTenants(s: Snapshot): set<TenantId> {
    set c | c in s.candidates :: c.tenant
  }

  lemma DemandsIffCandidate(s: Snapshot, t: TenantId)
    ensures t in CandidateTenants(s) <==> Demands(s.candidates, t)
  {
  }

  function Cost(s: Snapshot, tenant: TenantId): real
    requires Demands(s.candidates, tenant)
  {
    DominantShare(First(s.candidates, tenant).resources, s.capacity)
  }

  function BidsOf(s: Snapshot): Kernel.Bids {
    map t | t in CandidateTenants(s) && Demands(s.candidates, t) :: Cost(s, t)
  }

  lemma BidOf(s: Snapshot, t: TenantId)
    ensures t in BidsOf(s) <==> Demands(s.candidates, t)
    ensures t in BidsOf(s) ==> BidsOf(s)[t] == Cost(s, t) >= 0.0
  {
    DemandsIffCandidate(s, t);
  }

  function MaxWeight(tenants: seq<TenantSpec>): int
    requires tenants != []
  {
    var last := tenants[|tenants| - 1].weight;
    if |tenants| == 1 then last
    else
      var rest := MaxWeight(tenants[..|tenants| - 1]);
      if rest < last then last else rest
  }

  lemma {:induction false} MaxWeightIsGreatest(tenants: seq<TenantSpec>)
    requires tenants != []
    ensures forall i :: 0 <= i < |tenants| ==> tenants[i].weight <= MaxWeight(tenants)
    ensures exists i :: 0 <= i < |tenants| && tenants[i].weight == MaxWeight(tenants)
  {
    var n := |tenants| - 1;
    if n > 0 {
      MaxWeightIsGreatest(tenants[..n]);
      var k :| 0 <= k < n && tenants[..n][k].weight == MaxWeight(tenants[..n]);
      assert tenants[k].weight == MaxWeight(tenants[..n]);
    }
    assert tenants[n].weight <= MaxWeight(tenants);
  }

  lemma PositiveMax(tenants: seq<TenantSpec>)
    requires tenants != [] && forall t :: t in tenants ==> t.weight > 0
    ensures MaxWeight(tenants) > 0
  {
    MaxWeightIsGreatest(tenants);
    assert tenants[0] in tenants;
  }

  /** What one visit adds to each tenant's deficit: its weight over the largest weight. */
  function Quanta(tenants: seq<TenantSpec>): seq<real>
    requires forall t :: t in tenants ==> t.weight > 0
  {
    if tenants == [] then []
    else
      PositiveMax(tenants);
      seq(|tenants|, i requires 0 <= i < |tenants| => tenants[i].weight as real / MaxWeight(tenants) as real)
  }

  lemma QuotientUnit(w: real, m: real)
    requires 0.0 < w <= m
    ensures 0.0 < w / m <= 1.0
  {
  }

  lemma QuantaInUnit(tenants: seq<TenantSpec>)
    requires forall t :: t in tenants ==> t.weight > 0
    ensures |Quanta(tenants)| == |tenants|
    ensures forall i :: 0 <= i < |tenants| ==> 0.0 < Quanta(tenants)[i] <= 1.0
  {
    forall i | 0 <= i < |tenants| ensures 0.0 < Quanta(tenants)[i] <= 1.0 {
      MaxWeightIsGreatest(tenants);
      assert tenants[i] in tenants;
      QuotientUnit(tenants[i].weight as real, MaxWeight(tenants) as real);
    }
  }

  // ---- one decision --------------------------------------------------------------------

  /** What every policy object satisfies, whatever snapshots it has seen. */
  ghost predicate Sane(p: Drr) {
    && Kernel.Distinct(p.order)
    && (forall i :: 0 <= i < |p.order| ==> p.order[i] in p.deficits && p.deficits[p.order[i]] >= 0.0)
    && (p.order != [] ==> p.cursor < |p.order|)
    && (p.active.Some? ==> p.active.value in p.order)
  }

  /** A changed tenant list clears all deficits. */
  function Refresh(p: Drr, tenants: seq<TenantSpec>): Drr {
    var order := TenantIds(tenants);
    if order != p.order then Kernel.Drr(0, order, map t | t in order :: 0.0, None) else p
  }

  lemma RefreshUsable(p: Drr, tenants: seq<TenantSpec>)
    requires Sane(p) && ValidTenants(tenants)
    ensures Sane(Refresh(p, tenants)) && Kernel.Usable(Refresh(p, tenants), Quanta(tenants))
    ensures Refresh(p, tenants).order == TenantIds(tenants)
  {
    QuantaInUnit(tenants);
  }

  /** Somebody listed can be served: without that the loop would never return. */
  ghost predicate Serviceable(s: Snapshot) {
    s.candidates != [] ==> KnownTenant(s.tenants, s.candidates[0].tenant)
  }

  lemma SomebodyBids(s: Snapshot)
    requires s.candidates != [] && Serviceable(s)
    ensures Kernel.AnyBid(TenantIds(s.tenants), BidsOf(s))
  {
    var t := s.candidates[0].tenant;
    var i :| 0 <= i < |s.tenants| && s.tenants[i].id == t;
    BidOf(s, t);
    assert TenantIds(s.tenants)[i] in BidsOf(s);
  }

  function DrrSelect(p: Drr, s: Snapshot): (Drr, Option<JobSpec>)
    requires Sane(p) && ValidTenants(s.tenants) && Serviceable(s)
  {
    RefreshUsable(p, s.tenants);
    var ready := Refresh(p, s.tenants);
    if s.candidates == [] then (ready, None)
    else
      SomebodyBids(s);
      var (next, t) := Kernel.Decide(ready, Quanta(s.tenants), BidsOf(s));
      (next, if Demands(s.candidates, t) then Some(First(s.candidates, t)) else None)
  }

  function Id(job: Option<JobSpec>): Option<JobId> {
    if job.Some? then Some(job.value.id) else None
  }

  lemma {:induction false} ScanNonNegative(p: Drr, quanta: seq<real>, bids: Kernel.Bids)
    requires Kernel.Usable(p, quanta) && Kernel.AnyBid(p.order, bids)
    requires forall i :: 0 <= i < |p.order| ==> p.deficits[p.order[i]] >= 0.0
    ensures var p' := Kernel.Scan(p, quanta, bids).0;
            forall i :: 0 <= i < |p.order| ==> p.order[i] in p'.deficits && p'.deficits[p.order[i]] >= 0.0
    decreases Kernel.Potential(p, quanta, bids, Kernel.Target(p.order, bids)),
              Kernel.Hops(p.cursor, Kernel.Target(p.order, bids), |p.order|)
  {
    if Kernel.Visit(p, quanta, bids).1.None? {
      Kernel.VisitProgress(p, quanta, bids, Kernel.Target(p.order, bids));
      ScanNonNegative(Kernel.Visit(p, quanta, bids).0, quanta, bids);
    }
  }

  lemma DecideSane(p: Drr, quanta: seq<real>, bids: Kernel.Bids)
    requires Sane(p) && Kernel.Usable(p, quanta) && Kernel.AnyBid(p.order, bids)
    ensures Sane(Kernel.Decide(p, quanta, bids).0)
  {
    Kernel.DecideServes(p, quanta, bids);
    if !Kernel.Continues(p, bids) {
      ScanNonNegative(p.(active := None), quanta, bids);
    }
  }

  /** Every decision picks a candidate of a listed tenant and leaves no negative deficit. */
  lemma DrrPicks(p: Drr, s: Snapshot)
    requires Sane(p) && ValidTenants(s.tenants) && Serviceable(s)
    ensures Sane(DrrSelect(p, s).0) && Picks(s, Id(DrrSelect(p, s).1))
  {
    RefreshUsable(p, s.tenants);
    var ready := Refresh(p, s.tenants);
    if s.candidates != [] {
      SomebodyBids(s);
      DecideSane(ready, Quanta(s.tenants), BidsOf(s));
      Kernel.DecideServes(ready, Quanta(s.tenants), BidsOf(s));
      var t := Kernel.Decide(ready, Quanta(s.tenants), BidsOf(s)).1;
      BidOf(s, t);
      FirstIsLeast(s.candidates, t);
    }
  }

  /** The `while True` loop makes at most tenants x ceil(maxWeight / weight) visits, for every
      demanding tenant whose next job fits the machine. */
  lemma ScanIsShort(p: Drr, s: Snapshot, i: nat)
    requires Sane(p) && ValidTenants(s.tenants) && i < |s.tenants|
    requires Demands(s.candidates, s.tenants[i].id) && Cost(s, s.tenants[i].id) <= 1.0
    ensures var ready := Refresh(p, s.tenants);
            && s.tenants[i].weight > 0
            && Kernel.Usable(ready.(active := None), Quanta(s.tenants)) && Kernel.AnyBid(ready.order, BidsOf(s))
            && Kernel.Visits(ready.(active := None), Quanta(s.tenants), BidsOf(s))
               <= |s.tenants| * Kernel.Ceil(MaxWeight(s.tenants) as real / s.tenants[i].weight as real)
  {
    hide DominantShare;
    hide Kernel.Scan;
    hide Kernel.Visits;
    hide First;
    RefreshUsable(p, s.tenants);
    var ready, quanta, bids := Refresh(p, s.tenants).(active := None), Quanta(s.tenants), BidsOf(s);
    assert ready.order[i] == s.tenants[i].id && s.tenants[i] in s.tenants;
    BidOf(s, s.tenants[i].id);
    Kernel.VisitsBound(ready, quanta, bids, i);
    MaxWeightIsGreatest(s.tenants);
    Reciprocal(s.tenants[i].weight as real, MaxWeight(s.tenants) as real);
    Kernel.RoundsMono(bids[ready.order[i]] - ready.deficits[ready.order[i]], 1.0, quanta[i]);
    Kernel.BudgetTotal(Kernel.Hops(ready.cursor, i, |ready.order|), Kernel.Potential(ready, quanta, bids, i),
                       Kernel.Ceil(MaxWeight(s.tenants) as real / s.tenants[i].weight as real), |ready.order|);
  }

  lemma Reciprocal(w: real, m: real)
    requires 0.0 < w <= m
    ensures w / m > 0.0 && 1.0 / (w / m) == m / w && m / w >= 1.0
  {
    assert w / m * (m / w) == 1.0;
  }

  // ---- fairness over a run -------------------------------------------------------------

  /** Everybody in `who` has a job, and none of their next jobs is larger than the machine. */
  ghost predicate AllDemand(s: Snapshot, tenants: seq<TenantSpec>, who: set<TenantId>) {
    && s.tenants == tenants
    && forall i :: 0 <= i < |tenants| && tenants[i].id in who ==> UnitBid(s, tenants[i].id)
  }

  ghost predicate UnitBid(s: Snapshot, t: TenantId) {
    Demands(s.candidates, t) && Cost(s, t) <= 1.0
  }

  /** One decision of the policy, in a state it can be in. */
  ghost predicate StepsTo(p: Drr, s: Snapshot, p': Drr, job: JobSpec) {
    Sane(p) && ValidTenants(s.tenants) && Serviceable(s) && DrrSelect(p, s) == (p', Some(job))
  }

  /** `jobs` are the selections of a fresh policy over a run, `states` its states in between. */
  ghost predicate Produces(run: seq<Snapshot>, states: seq<Drr>, jobs: seq<JobSpec>) {
    && |states| == |run| + 1 && |jobs| == |run| && states[0] == FRESH
    && forall k :: 0 <= k < |run| ==> StepsTo(states[k], run[k], states[k + 1], jobs[k])
  }

  ghost predicate AlwaysDemand(run: seq<Snapshot>, tenants: seq<TenantSpec>, who: set<TenantId>) {
    forall k :: 0 <= k < |run| ==> AllDemand(run[k], tenants, who)
  }

  /** The dominant share of the selected job, if it is the tenant's. */
  function Charge(s: Snapshot, job: JobSpec, t: TenantId): real {
    if job.tenant == t then DominantShare(job.resources, s.capacity) else 0.0
  }

  /** The dominant shares a tenant has been given over the run. */
  function Service(run: seq<Snapshot>, jobs: seq<JobSpec>, t: TenantId): real
    requires |run| == |jobs|
  {
    if run == [] then 0.0
    else
      var n := |run| - 1;
      Service(run[..n], jobs[..n], t) + Charge(run[n], jobs[n], t)
  }

  ghost function Ledger(run: seq<Snapshot>, jobs: seq<JobSpec>, tenants: seq<TenantSpec>): map<TenantId, real>
    requires |run| == |jobs|
  {
    map t | t in TenantIds(tenants) :: Service(run, jobs, t)
  }

  lemma AllDemandBids(s: Snapshot, tenants: seq<TenantSpec>, who: set<TenantId>)
    requires AllDemand(s, tenants, who)
    ensures Kernel.AllBid(TenantIds(tenants), BidsOf(s), who)
  {
    forall i | 0 <= i < |tenants| && tenants[i].id in who
      ensures tenants[i].id in BidsOf(s) && 0.0 <= BidsOf(s)[tenants[i].id] <= 1.0 {
      assert UnitBid(s, tenants[i].id);
      BidOf(s, tenants[i].id);
    }
  }

  lemma FreshBalanced(tenants: seq<TenantSpec>, who: set<TenantId>)
    requires ValidTenants(tenants)
    ensures Kernel.Balanced(Refresh(FRESH, tenants), Quanta(tenants), Ledger([], [], tenants), 0, who)
  {
    RefreshUsable(FRESH, tenants);
    QuantaInUnit(tenants);
  }

  /** What a decision amounts to: the kernel decides among the bids, and the selected job
      costs what its tenant bid. */
  ghost predicate Decides(ready: Drr, quanta: seq<real>, bids: Kernel.Bids, p': Drr, t: TenantId, cost: real) {
    && Kernel.Usable(ready, quanta) && Kernel.AnyBid(ready.order, bids)
    && Kernel.Decide(ready, quanta, bids) == (p', t)
    && t in bids && bids[t] == cost && t in ready.order
  }

  lemma StepDecides(p: Drr, s: Snapshot, p': Drr, job: JobSpec)
    requires StepsTo(p, s, p', job)
    ensures Decides(Refresh(p, s.tenants), Quanta(s.tenants), BidsOf(s), p', job.tenant,
                    DominantShare(job.resources, s.capacity))
    ensures p'.order == TenantIds(s.tenants) && job in s.candidates
  {
    RefreshUsable(p, s.tenants);
    SomebodyBids(s);
    var ready := Refresh(p, s.tenants);
    Kernel.DecideServes(ready, Quanta(s.tenants), BidsOf(s));
    var t := Kernel.Decide(ready, Quanta(s.tenants), BidsOf(s)).1;
    BidOf(s, t);
    FirstIsLeast(s.candidates, t);
  }

  lemma DecidesBalanced(ready: Drr, quanta: seq<real>, bids: Kernel.Bids, p': Drr, t: TenantId, cost: real,
                        spent: map<TenantId, real>, r: nat, who: set<TenantId>)
    returns (r': nat)
    requires Decides(ready, quanta, bids, p', t, cost)
    requires Kernel.AllBid(ready.order, bids, who) && Kernel.Balanced(ready, quanta, spent, r, who)
    ensures t in spent && Kernel.Balanced(p', quanta, spent[t := spent[t] + cost], r', who)
  {
    r' := Kernel.DecideBalanced(ready, quanta, bids, spent, r, who);
  }

  /** One decision from a balanced state keeps the balance. */
  lemma StepBalanced(p: Drr, s: Snapshot, p': Drr, job: JobSpec, spent: map<TenantId, real>, r: nat, who: set<TenantId>)
    returns (r': nat)
    requires StepsTo(p, s, p', job) && AllDemand(s, s.tenants, who)
    requires Kernel.Balanced(Refresh(p, s.tenants), Quanta(s.tenants), spent, r, who)
    ensures job.tenant in spent && job.tenant in TenantIds(s.tenants)
    ensures p'.order == TenantIds(s.tenants)
    ensures Kernel.Balanced(p', Quanta(s.tenants),
                            spent[job.tenant := spent[job.tenant] + DominantShare(job.resources, s.capacity)], r', who)
  {
    AllDemandBids(s, s.tenants, who);
    StepDecides(p, s, p', job);
    r' := DecidesBalanced(Refresh(p, s.tenants), Quanta(s.tenants), BidsOf(s), p', job.tenant,
                          DominantShare(job.resources, s.capacity), spent, r, who);
  }

  /** Conservation over any run, for the tenants that always demand and whatever the others do:
      what was credited is what was served plus the deficit left. */
  lemma {:induction false} RunBalanced(run: seq<Snapshot>, states: seq<Drr>, jobs: seq<JobSpec>,
                                       tenants: seq<TenantSpec>, who: set<TenantId>)
    returns (r: nat)
    requires ValidTenants(tenants) && AlwaysDemand(run, tenants, who) && Produces(run, states, jobs)
    ensures Kernel.Balanced(Refresh(states[|run|], tenants), Quanta(tenants), Ledger(run, jobs, tenants), r, who)
  {
    hide *;
    if run == [] {
      StartsFresh(run, states, jobs);
      FreshBalanced(tenants, who);
      r := 0;
    } else {
      var n := |run| - 1;
      RunPrefix(run, states, jobs, tenants, who);
      r := RunBalanced(run[..n], states[..n + 1], jobs[..n], tenants, who);
      r := StepBalanced(states[n], run[n], states[n + 1], jobs[n], Ledger(run[..n], jobs[..n], tenants), r, who);
      LedgerStep(run, jobs, tenants);
      RefreshSame(states[n + 1], tenants);
    }
  }

  lemma StartsFresh(run: seq<Snapshot>, states: seq<Drr>, jobs: seq<JobSpec>)
    requires Produces(run, states, jobs)
    ensures |states| == |run| + 1 && |jobs| == |run| && states[0] == FRESH
    ensures run == [] ==> jobs == []
  {
  }

  lemma RefreshSame(p: Drr, tenants: seq<TenantSpec>)
    requires p.order == TenantIds(tenants)
    ensures Refresh(p, tenants) == p
  {
  }

  lemma RunPrefix(run: seq<Snapshot>, states: seq<Drr>, jobs: seq<JobSpec>, tenants: seq<TenantSpec>,
                  who: set<TenantId>)
    requires run != [] && AlwaysDemand(run, tenants, who) && Produces(run, states, jobs)
    ensures var n := |run| - 1;
            && |states| == |run| + 1 && |jobs| == |run| && states[..n + 1][n] == states[n]
            && AlwaysDemand(run[..n], tenants, who) && Produces(run[..n], states[..n + 1], jobs[..n])
            && AllDemand(run[n], tenants, who) && run[n].tenants == tenants
            && StepsTo(states[n], run[n], states[n + 1], jobs[n])
  {
    var n := |run| - 1;
    forall k | 0 <= k < n
      ensures StepsTo(states[..n + 1][k], run[..n][k], states[..n + 1][k + 1], jobs[..n][k])
    {
      assert StepsTo(states[k], run[k], states[k + 1], jobs[k]);
    }
  }

  lemma LedgerStep(run: seq<Snapshot>, jobs: seq<JobSpec>, tenants: seq<TenantSpec>)
    requires |run| == |jobs| > 0
    requires jobs[|run| - 1].tenant in TenantIds(tenants)
    ensures var n := |run| - 1;
            var before := Ledger(run[..n], jobs[..n], tenants);
            Ledger(run, jobs, tenants) ==
            before[jobs[n].tenant := before[jobs[n].tenant] + DominantShare(jobs[n].resources, run[n].capacity)]
  {
  }

  /** Service per weight is at most 1/m + 2/min(weight) ahead. */
  predicate Within(si: real, wi: real, sj: real, wj: real, m: real)
    requires wi > 0.0 && wj > 0.0 && m > 0.0
  {
    si / wi - sj / wj < 1.0 / m + 2.0 / (if wi < wj then wi else wj)
  }

  /** `n` top-ups of w/m cover the service given and the deficit left. */
  predicate Covers(n: nat, w: real, m: real, service: real, deficit: real)
    requires m > 0.0
  {
    deficit + service == n as real * (w / m)
  }

  /** Weighted fairness: over any run in which two tenants always demand, their service per unit
      of weight never differs by as much as 1/maxWeight + 2/min(weight), whatever the others do. */
  lemma DrrFairness(run: seq<Snapshot>, states: seq<Drr>, jobs: seq<JobSpec>, tenants: seq<TenantSpec>, i: nat, j: nat)
    requires ValidTenants(tenants) && Produces(run, states, jobs) && i < |tenants| && j < |tenants|
    requires AlwaysDemand(run, tenants, {tenants[i].id, tenants[j].id})
    ensures tenants[i].weight > 0 && tenants[j].weight > 0 && MaxWeight(tenants) > 0
    ensures Within(Service(run, jobs, tenants[i].id), tenants[i].weight as real,
                   Service(run, jobs, tenants[j].id), tenants[j].weight as real, MaxWeight(tenants) as real)
  {
    var ni, nj, di, dj := RunNumbers(run, states, jobs, tenants, i, j);
    FairnessArithmetic(ni, nj, MaxWeight(tenants) as real, tenants[i].weight as real, tenants[j].weight as real,
                       Service(run, jobs, tenants[i].id), Service(run, jobs, tenants[j].id), di, dj);
  }

  /** Top-up counts differ by at most one, the earlier listed tenant never being behind, and
      account for all service up to the deficits. */
  lemma RunNumbers(run: seq<Snapshot>, states: seq<Drr>, jobs: seq<JobSpec>, tenants: seq<TenantSpec>, i: nat, j: nat)
    returns (ni: nat, nj: nat, di: real, dj: real)
    requires ValidTenants(tenants) && Produces(run, states, jobs) && i < |tenants| && j < |tenants|
    requires AlwaysDemand(run, tenants, {tenants[i].id, tenants[j].id})
    ensures tenants[i].weight > 0 && tenants[j].weight > 0 && MaxWeight(tenants) > 0
    ensures if i <= j then nj <= ni <= nj + 1 else ni <= nj <= ni + 1
    ensures 0.0 <= di < 2.0 && 0.0 <= dj < 2.0
    ensures Covers(ni, tenants[i].weight as real, MaxWeight(tenants) as real, Service(run, jobs, tenants[i].id), di)
    ensures Covers(nj, tenants[j].weight as real, MaxWeight(tenants) as real, Service(run, jobs, tenants[j].id), dj)
  {
    var who := {tenants[i].id, tenants[j].id};
    var r := RunBalanced(run, states, jobs, tenants, who);
    assert tenants[i] in tenants && tenants[j] in tenants;
    PositiveMax(tenants);
    var p := Refresh(states[|run|], tenants);
    var s;
    ni, di, s := BalanceOf(p, tenants, Ledger(run, jobs, tenants), r, i, who);
    nj, dj, s := BalanceOf(p, tenants, Ledger(run, jobs, tenants), r, j, who);
  }

  /** A balanced state read off at one tenant. */
  lemma BalanceOf(p: Drr, tenants: seq<TenantSpec>, spent: map<TenantId, real>, r: nat, i: nat, who: set<TenantId>)
    returns (n: nat, d: real, s: real)
    requires ValidTenants(tenants) && i < |tenants| && p.order == TenantIds(tenants) && MaxWeight(tenants) > 0
    requires Kernel.Balanced(p, Quanta(tenants), spent, r, who) && tenants[i].id in who
    ensures n == Kernel.TopUps(r, p.cursor, i) && 0.0 <= d < 2.0 && tenants[i].id in spent && s == spent[tenants[i].id]
    ensures Covers(n, tenants[i].weight as real, MaxWeight(tenants) as real, s, d)
  {
    assert p.order[i] == tenants[i].id && p.order[i] in spent;
    assert Kernel.BalancedAt(p, Quanta(tenants), spent, r, i);
    n := Kernel.TopUps(r, p.cursor, i);
    d := p.deficits[tenants[i].id];
    s := spent[tenants[i].id];
    Kernel.CreditIsProduct(n, Quanta(tenants)[i]);
  }

  lemma PerWeight(n: nat, m: real, w: real, spent: real, d: real)
    requires m > 0.0 && w > 0.0 && Covers(n, w, m, spent, d)
    ensures spent / w == n as real / m - d / w
  {
    var a, b := n as real / m, d / w;
    assert b * w == d && a * m == n as real;
    assert n as real * (w / m) == a * w by {
      assert w / m * m == w;
      assert n as real * (w / m) == a * m * (w / m) == a * (w / m * m);
    }
    assert (a - b) * w == spent;
    Kernel.QuotientUnique(spent, w, a - b);
  }

  lemma FairnessArithmetic(ni: nat, nj: nat, m: real, wi: real, wj: real, si: real, sj: real, di: real, dj: real)
    requires m > 0.0 && wi > 0.0 && wj > 0.0 && ni <= nj + 1
    requires Covers(ni, wi, m, si, di) && Covers(nj, wj, m, sj, dj)
    requires 0.0 <= di && 0.0 <= dj < 2.0
    ensures Within(si, wi, sj, wj, m)
  {
    PerWeight(ni, m, wi, si, di);
    PerWeight(nj, m, wj, sj, dj);
    assert ni as real / m <= nj as real / m + 1.0 / m by {
      Kernel.QuotientMono(ni as real, nj as real + 1.0, m);
      Kernel.QuotientUnique(nj as real + 1.0, m, nj as real / m + 1.0 / m);
    }
    assert di / wi >= 0.0 by {
      Kernel.QuotientMono(0.0, di, wi);
    }
    LessQuotient(dj, wj, if wi < wj then wi else wj);
  }

  lemma LessQuotient(d: real, v: real, w: real)
    requires 0.0 <= d < 2.0 && 0.0 < w <= v
    ensures d / v < 2.0 / w
  {
    var x, y := d / v, 2.0 / w;
    assert x * v == d && y * w == 2.0;
    if x >= y {
      assert (x - y) * w >= 0.0;
      assert x * (v - w) >= 0.0 by {
        Kernel.QuotientMono(0.0, d, v);
      }
    }
  }

  // ---- windows -----------------------------------------------------------------------------

  lemma {:induction false} ServiceSplits(run: seq<Snapshot>, jobs: seq<JobSpec>, m: nat, t: TenantId)
    requires |run| == |jobs| && m <= |run|
    ensures Service(run, jobs, t) == Service(run[..m], jobs[..m], t) + Service(run[m..], jobs[m..], t)
    decreases |run| - m
  {
    if m == |run| {
      assert run[..m] == run && jobs[..m] == jobs;
    } else {
      var n := |run| - 1;
      ServiceSplits(run[..n], jobs[..n], m, t);
      assert run[..n][..m] == run[..m] && jobs[..n][..m] == jobs[..m];
      assert run[m..][..n - m] == run[..n][m..] && jobs[m..][..n - m] == jobs[..n][m..];
    }
  }

  lemma PrefixRun(run: seq<Snapshot>, states: seq<Drr>, jobs: seq<JobSpec>, tenants: seq<TenantSpec>,
                  who: set<TenantId>, m: nat)
    requires AlwaysDemand(run, tenants, who) && Produces(run, states, jobs) && m <= |run|
    ensures AlwaysDemand(run[..m], tenants, who) && Produces(run[..m], states[..m + 1], jobs[..m])
  {
    hide StepsTo;
    hide AllDemand;
    forall k | 0 <= k < m ensures StepsTo(states[..m + 1][k], run[..m][k], states[..m + 1][k + 1], jobs[..m][k]) {
      assert StepsTo(states[k], run[k], states[k + 1], jobs[k]);
    }
  }

  /** Service per weight in a window is at most 1/m + 2/wi + 2/wj ahead. */
  predicate WithinWindow(si: real, wi: real, sj: real, wj: real, m: real)
    requires wi > 0.0 && wj > 0.0 && m > 0.0
  {
    si / wi - sj / wj < 1.0 / m + 2.0 / wi + 2.0 / wj
  }

  /** Weighted fairness over any window: between any two decisions of such a run, the service per
      weight of the two tenants differs by less than 1/maxWeight + 2/weight + 2/weight. */
  lemma DrrWindowFairness(run: seq<Snapshot>, states: seq<Drr>, jobs: seq<JobSpec>, tenants: seq<TenantSpec>,
                          i: nat, j: nat, m: nat)
    requires ValidTenants(tenants) && Produces(run, states, jobs) && i < |tenants| && j < |tenants| && m <= |run|
    requires AlwaysDemand(run, tenants, {tenants[i].id, tenants[j].id})
    ensures tenants[i].weight > 0 && tenants[j].weight > 0 && MaxWeight(tenants) > 0
    ensures WithinWindow(Service(run[m..], jobs[m..], tenants[i].id), tenants[i].weight as real,
                         Service(run[m..], jobs[m..], tenants[j].id), tenants[j].weight as real,
                         MaxWeight(tenants) as real)
  {
    hide *;
    StartsFresh(run, states, jobs);
    var t, u := tenants[i].id, tenants[j].id;
    PrefixRun(run, states, jobs, tenants, {t, u}, m);
    var ni, nj, di, dj := RunNumbers(run[..m], states[..m + 1], jobs[..m], tenants, i, j);
    var ni', nj', di', dj' := RunNumbers(run, states, jobs, tenants, i, j);
    ServiceSplits(run, jobs, m, t);
    ServiceSplits(run, jobs, m, u);
    WindowArithmetic(ni, ni', nj, nj', MaxWeight(tenants) as real, tenants[i].weight as real, tenants[j].weight as real,
                     Service(run[..m], jobs[..m], t), Service(run[m..], jobs[m..], t),
                     Service(run[..m], jobs[..m], u), Service(run[m..], jobs[m..], u), di, di', dj, dj');
  }

  /** Service in a window as top-ups in it minus the change of the deficit, per weight. */
  lemma WindowPerWeight(n: nat, n': nat, m: real, w: real, before: real, inside: real, d: real, d': real)
    requires m > 0.0 && w > 0.0 && Covers(n, w, m, before, d) && Covers(n', w, m, before + inside, d')
    ensures inside / w == (n' as real - n as real) / m - (d' - d) / w
  {
    hide Covers;
    PerWeight(n, m, w, before, d);
    PerWeight(n', m, w, before + inside, d');
    QuotientSum(before, inside, w);
    QuotientSum(n as real, n' as real - n as real, m);
    QuotientSum(d, d' - d, w);
  }

  lemma WindowArithmetic(ni: nat, ni': nat, nj: nat, nj': nat, m: real, wi: real, wj: real,
                         bi: real, si: real, bj: real, sj: real, di: real, di': real, dj: real, dj': real)
    requires m > 0.0 && wi > 0.0 && wj > 0.0
    requires (nj <= ni <= nj + 1 && nj' <= ni' <= nj' + 1) || (ni <= nj <= ni + 1 && ni' <= nj' <= ni' + 1)
    requires Covers(ni, wi, m, bi, di) && Covers(ni', wi, m, bi + si, di')
    requires Covers(nj, wj, m, bj, dj) && Covers(nj', wj, m, bj + sj, dj')
    requires 0.0 <= di < 2.0 && 0.0 <= di' < 2.0 && 0.0 <= dj < 2.0 && 0.0 <= dj' < 2.0
    ensures WithinWindow(si, wi, sj, wj, m)
  {
    hide Covers;
    WindowPerWeight(ni, ni', m, wi, bi, si, di, di');
    WindowPerWeight(nj, nj', m, wj, bj, sj, dj, dj');
    var x, y := ni' as real - ni as real, nj' as real - nj as real;
    assert x <= y + 1.0;
    Kernel.QuotientMono(x, y + 1.0, m);
    QuotientSum(y, 1.0, m);
    LessThanTwo(-(di' - di), wi);
    LessThanTwo(dj' - dj, wj);
    assert -(di' - di) / wi == -((di' - di) / wi) by {
      QuotientSum(di' - di, -(di' - di), wi);
    }
  }

  lemma LessThanTwo(d: real, w: real)
    requires d < 2.0 && w > 0.0
    ensures d / w < 2.0 / w
  {
    var x, y := d / w, 2.0 / w;
    assert x * w == d && y * w == 2.0;
    Kernel.QuotientMono(d, 2.0, w);
  }

  // ---- the policy object ---------------------------------------------------------------

  class DeficitRoundRobinPolicy {
    var cursor: nat
    var tenantOrder: seq<TenantId>
    var deficits: map<TenantId, real>
    var activeTenant: Option<TenantId>

    ghost function State(): Drr
      reads this
    {
      Kernel.Drr(cursor, tenantOrder, deficits, activeTenant)
    }

    constructor ()
      ensures State() == FRESH && Sane(State())
    {
      cursor, tenantOrder, deficits, activeTenant := 0, [], map[], None;
    }

    method Choose(s: Snapshot) returns (r: Option<JobId>)
      requires Sane(State()) && ValidTenants(s.tenants) && Serviceable(s)
      modifies this
      ensures Sane(State())
      ensures State() == DrrSelect(old(State()), s).0 && r == Id(DrrSelect(old(State()), s).1)
    {
      hide Kernel.Scan;
      hide DominantShare;
      hide First;
      RefreshUsable(State(), s.tenants);
      DrrPicks(State(), s);
      var order := TenantIds(s.tenants);
      if order != tenantOrder {
        tenantOrder := order;
        cursor := 0;
        deficits := map t | t in order :: 0.0;
        activeTenant := None;
      }
      if s.candidates == [] {
        return None;
      }
      SomebodyBids(s);
      var quanta, bids := Quanta(s.tenants), BidsOf(s);
      if activeTenant.Some? {
        if activeTenant.value in bids {
          var t := activeTenant.value;
          BidOf(s, t);
          if bids[t] <= deficits[t] {
            deficits := deficits[t := deficits[t] - bids[t]];
            return Some(First(s.candidates, t).id);
          }
        }
        activeTenant := None;
      }
      var t := ScanLoop(quanta, bids);
      BidOf(s, t);
      r := Some(First(s.candidates, t).id);
    }

    /** The `while True` loop of a decision, over the costs of the tenants' first jobs. */
    method ScanLoop(quanta: seq<real>, bids: Kernel.Bids) returns (t: TenantId)
      requires Kernel.Usable(State(), quanta) && Kernel.AnyBid(tenantOrder, bids)
      modifies this
      ensures (State(), t) == Kernel.Scan(old(State()), quanta, bids)
      ensures t in bids
    {
      while true
        invariant Kernel.Usable(State(), quanta) && tenantOrder == old(tenantOrder)
        invariant Kernel.Scan(State(), quanta, bids) == Kernel.Scan(old(State()), quanta, bids)
        decreases Kernel.Potential(State(), quanta, bids, Kernel.Target(tenantOrder, bids)),
                  Kernel.Hops(cursor, Kernel.Target(tenantOrder, bids), |tenantOrder|)
      {
        ghost var before := State();
        var served := VisitOnce(quanta, bids);
        if served.Some? {
          return served.value;
        }
        Kernel.VisitProgress(before, quanta, bids, Kernel.Target(tenantOrder, bids));
      }
    }

    /** One pass through its body. */
    method VisitOnce(quanta: seq<real>, bids: Kernel.Bids) returns (served: Option<TenantId>)
      requires Kernel.Usable(State(), quanta) && tenantOrder != []
      modifies this
      ensures (State(), served) == Kernel.Visit(old(State()), quanta, bids)
    {
      var i := cursor;
      var t := tenantOrder[i];
      cursor := Kernel.Next(cursor, |tenantOrder|);
      if t !in bids {
        return None;
      }
      deficits := deficits[t := deficits[t] + quanta[i]];
      if bids[t] <= deficits[t] {
        deficits := deficits[t := deficits[t] - bids[t]];
        assert deficits == old(deficits)[t := old(deficits[t]) + quanta[i] - bids[t]];
        activeTenant := Some(t);
        return Some(t);
      }
      served := None;
    }
  }
}
