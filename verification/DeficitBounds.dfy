/** How far a deficit can grow under deficit round robin (benchmarks/simulator/baselines.py): not
    at all beyond two units while its tenant is never stranded, and without limit otherwise. */
module DeficitBounds {
  import opened Wrappers
  import opened Resources
  import opened Workload
  import opened CyclicPolicies
  import opened DeficitPolicy

  /** The tenant's deficit is below one, or below two while it is active. */
  ghost predicate Kept(p: Drr, t: TenantId) {
    t in p.order ==> Kernel.Bounded(p, t)
  }

  /** The guard that takes the turn away: the active tenant has no candidate while somebody else
      does, and still holds a unit. */
  predicate Strands(p: Drr, s: Snapshot, t: TenantId) {
    && TenantIds(s.tenants) == p.order && s.candidates != []
    && p.active == Some(t) && !Demands(s.candidates, t) && t in p.deficits && p.deficits[t] >= 1.0
  }

  ghost predicate Selectable(p: Drr, s: Snapshot) {
    Sane(p) && ValidTenants(s.tenants) && Serviceable(s)
  }

  /** The state after one call. */
  ghost function After(p: Drr, s: Snapshot): Drr
    requires Selectable(p, s)
  {
    DrrSelect(p, s).0
  }

  lemma RefreshKept(p: Drr, tenants: seq<TenantSpec>, t: TenantId)
    requires Kept(p, t)
    ensures Kept(Refresh(p, tenants), t)
  {
  }

  lemma SelectDecides(p: Drr, s: Snapshot)
    requires Selectable(p, s) && s.candidates != []
    ensures var ready := Refresh(p, s.tenants);
            && Kernel.Usable(ready, Quanta(s.tenants)) && Kernel.AnyBid(ready.order, BidsOf(s))
            && ready.order == TenantIds(s.tenants)
            && DrrSelect(p, s).0 == Kernel.Decide(ready, Quanta(s.tenants), BidsOf(s)).0
            && DrrSelect(p, s).0.order == ready.order
  {
    RefreshUsable(p, s.tenants);
    SomebodyBids(s);
    Kernel.DecideServes(Refresh(p, s.tenants), Quanta(s.tenants), BidsOf(s));
  }

  /** One decision, whatever the other tenants do: a bounded deficit stays bounded exactly when
      the decision does not strand its tenant. */
  lemma SelectBounded(p: Drr, s: Snapshot, t: TenantId)
    requires Selectable(p, s) && Kept(p, t) && (Demands(s.candidates, t) ==> Cost(s, t) <= 1.0)
    ensures Kept(After(p, s), t) <==> !Strands(p, s, t)
  {
    var ready, order := Refresh(p, s.tenants), TenantIds(s.tenants);
    RefreshKept(p, s.tenants, t);
    RefreshUsable(p, s.tenants);
    if s.candidates != [] {
      SelectDecides(p, s);
      BidOf(s, t);
      if t in order {
        var i :| 0 <= i < |order| && order[i] == t;
        QuantaInUnit(s.tenants);
        Kernel.DecideBounded(ready, Quanta(s.tenants), BidsOf(s), i);
      }
    }
  }

  // ---- runs --------------------------------------------------------------------------------------

  /** The states of a fresh policy over any run, with or without candidates, tenant lists changing
      or not. */
  ghost predicate Runs(run: seq<Snapshot>, states: seq<Drr>) {
    && |states| == |run| + 1 && states[0] == FRESH
    && forall k :: 0 <= k < |run| ==> Selects(states[k], run[k], states[k + 1])
  }

  ghost predicate Selects(p: Drr, s: Snapshot, p': Drr) {
    Selectable(p, s) && After(p, s) == p'
  }

  /** The tenant's own jobs never exceed the machine; nothing is asked of the others. */
  ghost predicate UnitCosts(run: seq<Snapshot>, t: TenantId) {
    forall k :: 0 <= k < |run| ==> UnitCost(run[k], t)
  }

  ghost predicate UnitCost(s: Snapshot, t: TenantId) {
    Demands(s.candidates, t) ==> Cost(s, t) <= 1.0
  }

  /** Over any run, a tenant's deficit is bounded in every state exactly when no decision strands
      the tenant. */
  lemma {:induction false} BoundedIffNeverStranded(run: seq<Snapshot>, states: seq<Drr>, t: TenantId)
    requires Runs(run, states) && UnitCosts(run, t)
    ensures (forall k :: 0 <= k < |states| ==> Kept(states[k], t)) <==>
            (forall k :: 0 <= k < |run| ==> !Strands(states[k], run[k], t))
  {
    hide Kept;
    hide Strands;
    if forall k :: 0 <= k < |states| ==> Kept(states[k], t) {
      forall k | 0 <= k < |run| ensures !Strands(states[k], run[k], t) {
        StepBounded(run, states, t, k);
      }
    }
    if forall k :: 0 <= k < |run| ==> !Strands(states[k], run[k], t) {
      forall k | 0 <= k < |states| ensures Kept(states[k], t) {
        KeptUpTo(run, states, t, k);
      }
    }
  }

  lemma StepBounded(run: seq<Snapshot>, states: seq<Drr>, t: TenantId, k: nat)
    requires Runs(run, states) && UnitCosts(run, t) && k < |run| && Kept(states[k], t)
    ensures Kept(states[k + 1], t) <==> !Strands(states[k], run[k], t)
  {
    hide Kept;
    hide Strands;
    assert Selects(states[k], run[k], states[k + 1]) && UnitCost(run[k], t);
    SelectBounded(states[k], run[k], t);
  }

  lemma {:induction false} KeptUpTo(run: seq<Snapshot>, states: seq<Drr>, t: TenantId, k: nat)
    requires Runs(run, states) && UnitCosts(run, t) && k <= |run|
    requires forall i :: 0 <= i < |run| ==> !Strands(states[i], run[i], t)
    ensures Kept(states[k], t)
  {
    hide Strands;
    if k > 0 {
      KeptUpTo(run, states, t, k - 1);
      StepBounded(run, states, t, k - 1);
    }
  }

  /** In particular, a tenant that always has a candidate keeps its deficit below two units, and
      below one whenever it is not active, whatever the other tenants do. */
  lemma DemandingIsBounded(run: seq<Snapshot>, states: seq<Drr>, t: TenantId, k: nat)
    requires Runs(run, states) && UnitCosts(run, t) && k <= |run|
    requires forall i :: 0 <= i < |run| ==> Demands(run[i].candidates, t)
    ensures Kept(states[k], t)
  {
    KeptUpTo(run, states, t, k);
  }

  // ---- growth ------------------------------------------------------------------------------------

  const CAPACITY := ResourceVector(4, 0, 0)

  const PAIR := [TenantSpec(1, 1, CAPACITY, 1), TenantSpec(2, 1, CAPACITY, 1)]

  /** Only tenant `t` has a job, worth a quarter of the machine. */
  function Only(t: TenantId): Snapshot {
    Snapshot(0, CAPACITY, CAPACITY, [], [JobSpec(t, t, 0, 0, ResourceVector(1, 0, 0), 1)], [], PAIR)
  }

  /** Both deficits at `d`, tenant 2 active. */
  function Both(d: real): Drr {
    Kernel.Drr(0, [1, 2], map[1 := d, 2 := d], Some(2))
  }

  lemma PairFacts()
    ensures ValidTenants(PAIR) && TenantIds(PAIR) == [1, 2] && Quanta(PAIR) == [1.0, 1.0]
  {
    assert MaxWeight(PAIR[..1]) == 1;
    assert MaxWeight(PAIR) == 1;
  }

  /** The two tenants share a machine on which only this job, worth a quarter of it, can start. */
  predicate Offers(s: Snapshot, job: JobSpec) {
    && s.tenants == PAIR && s.capacity == CAPACITY && s.candidates == [job]
    && (job.tenant == 1 || job.tenant == 2) && job.resources == ResourceVector(1, 0, 0)
  }

  lemma OfferBids(s: Snapshot, job: JobSpec)
    requires Offers(s, job)
    ensures BidsOf(s) == map[job.tenant := 0.25] && Serviceable(s) && First(s.candidates, job.tenant) == job
    ensures Demands(s.candidates, job.tenant) && Cost(s, job.tenant) == 0.25
    ensures !Demands(s.candidates, 3 - job.tenant)
  {
    var t := job.tenant;
    assert s.candidates[0].tenant == t;
    FirstIsLeast(s.candidates, t);
    assert First(s.candidates, t) == s.candidates[0];
    assert s.candidates[0] in s.candidates;
    forall u ensures u in BidsOf(s) <==> u == t {
      BidOf(s, u);
    }
    BidOf(s, t);
    assert s.tenants[t - 1].id == t;
  }

  lemma CallDecides(p: Drr, s: Snapshot, job: JobSpec)
    requires Offers(s, job) && Sane(p)
    ensures Selectable(p, s) && DrrSelect(p, s).1 == Some(job)
    ensures var ready := Refresh(p, PAIR);
            && Kernel.Usable(ready, [1.0, 1.0]) && Kernel.AnyBid(ready.order, map[job.tenant := 0.25])
            && After(p, s) == Kernel.Decide(ready, [1.0, 1.0], map[job.tenant := 0.25]).0
  {
    hide Kernel.Decide;
    PairFacts();
    OfferBids(s, job);
    SelectDecides(p, s);
    Kernel.DecideServes(Refresh(p, PAIR), [1.0, 1.0], BidsOf(s));
  }

  /** With nobody continuing, the tenant at the cursor is topped up and served. */
  lemma DecideNext(p: Drr, t: TenantId, d: real, e: real)
    requires (t == 1 || t == 2) && d >= 0.0 && p.active != Some(t)
    requires p == Kernel.Drr(t - 1, [1, 2], map[t := d, 3 - t := e], p.active)
    requires Kernel.Usable(p, [1.0, 1.0]) && Kernel.AnyBid(p.order, map[t := 0.25])
    ensures Kernel.Decide(p, [1.0, 1.0], map[t := 0.25]).0 ==
            Kernel.Drr(2 - t, [1, 2], map[t := d + 0.75, 3 - t := e], Some(t))
  {
    var idle := p.(active := None);
    assert idle.order[idle.cursor] == t;
    Kernel.ScanServesAtOnce(idle, [1.0, 1.0], map[t := 0.25]);
  }

  /** The tenant that has the turn has no job, so the other one is topped up and served. */
  lemma Alternate(p: Drr, s: Snapshot, job: JobSpec, d: real, e: real)
    requires Offers(s, job) && d >= 0.0 && e >= 0.0
    requires var t := job.tenant; p == Kernel.Drr(t - 1, [1, 2], map[t := d, 3 - t := e], Some(3 - t))
    ensures Selectable(p, s) && DrrSelect(p, s).1 == Some(job)
    ensures var t := job.tenant;
            After(p, s) == Kernel.Drr(2 - t, [1, 2], map[t := d + 0.75, 3 - t := e], Some(t))
  {
    hide After;
    hide Selectable;
    hide Kernel.Decide;
    CallDecides(p, s, job);
    PairFacts();
    assert Refresh(p, PAIR) == p;
    DecideNext(p, job.tenant, d, e);
  }

  lemma FirstCall(s: Snapshot, job: JobSpec)
    requires Offers(s, job) && job.tenant == 1
    ensures Selectable(FRESH, s) && DrrSelect(FRESH, s).1 == Some(job)
    ensures After(FRESH, s) == Kernel.Drr(1, [1, 2], map[2 := 0.0, 1 := 0.75], Some(1))
  {
    hide After;
    hide Selectable;
    hide Kernel.Decide;
    CallDecides(FRESH, s, job);
    PairFacts();
    var start := Refresh(FRESH, PAIR);
    assert start == Kernel.Drr(0, [1, 2], map[1 := 0.0, 2 := 0.0], None);
    DecideNext(start, 1, 0.0, 0.0);
  }

  lemma OnlyOffers(t: TenantId)
    requires t == 1 || t == 2
    ensures |Only(t).candidates| == 1 && Offers(Only(t), Only(t).candidates[0]) && Only(t).candidates[0].tenant == t
  {
  }

  /** Two alternating calls add three quarters to both deficits. */
  lemma TwoCalls(d: real)
    requires d >= 0.0
    ensures Selectable(Both(d), Only(1)) && Selectable(After(Both(d), Only(1)), Only(2))
    ensures After(After(Both(d), Only(1)), Only(2)) == Both(d + 0.75)
  {
    hide After;
    hide Selectable;
    hide Offers;
    hide Only;
    hide DrrSelect;
    OnlyOffers(1);
    OnlyOffers(2);
    Alternate(Both(d), Only(1), Only(1).candidates[0], d, d);
    Alternate(After(Both(d), Only(1)), Only(2), Only(2).candidates[0], d, d + 0.75);
  }

  /** The first two calls after reset. */
  lemma FirstCalls()
    ensures Selectable(FRESH, Only(1)) && Selectable(After(FRESH, Only(1)), Only(2))
    ensures After(After(FRESH, Only(1)), Only(2)) == Both(0.75)
  {
    hide After;
    hide Selectable;
    hide Offers;
    hide Only;
    hide DrrSelect;
    OnlyOffers(1);
    OnlyOffers(2);
    FirstCall(Only(1), Only(1).candidates[0]);
    Alternate(After(FRESH, Only(1)), Only(2), Only(2).candidates[0], 0.0, 0.75);
  }

  function Alternating(n: nat): seq<Snapshot> {
    if n == 0 then [] else Alternating(n - 1) + [Only(1), Only(2)]
  }

  lemma {:induction false} GrowsBy(n: nat) returns (states: seq<Drr>)
    requires n > 0
    ensures |Alternating(n)| == 2 * n && Runs(Alternating(n), states)
    ensures states[2 * n] == Both(0.75 * n as real)
  {
    hide After;
    hide Selectable;
    hide Only;
    if n == 1 {
      FirstCalls();
      var middle := After(FRESH, Only(1));
      states := [FRESH, middle, Both(0.75)];
      assert Alternating(1) == [Only(1), Only(2)];
    } else {
      var before := GrowsBy(n - 1);
      var d := 0.75 * (n - 1) as real;
      TwoCalls(d);
      var middle := After(Both(d), Only(1));
      states := before + [middle, Both(d + 0.75)];
      RunsOn(Alternating(n - 1), before, Only(1), middle, Only(2), Both(d + 0.75));
    }
  }

  lemma RunsOn(run: seq<Snapshot>, states: seq<Drr>, s: Snapshot, p: Drr, s': Snapshot, p': Drr)
    requires Runs(run, states) && Selects(states[|run|], s, p) && Selects(p, s', p')
    ensures Runs(run + [s, s'], states + [p, p'])
  {
    hide Selects;
    var n, run', states' := |run|, run + [s, s'], states + [p, p'];
    forall k | 0 <= k < |run'| ensures Selects(states'[k], run'[k], states'[k + 1]) {
      if k < n {
        assert Selects(states[k], run[k], states[k + 1]);
      }
    }
  }

  /** Without that condition there is no bound: for every number some run of jobs worth a quarter
      of the machine brings a deficit above it. */
  lemma DeficitsUnbounded(bound: real) returns (run: seq<Snapshot>, states: seq<Drr>)
    ensures Runs(run, states) && UnitCosts(run, 1) && UnitCosts(run, 2)
    ensures 1 in states[|run|].deficits && states[|run|].deficits[1] > bound
  {
    var n := if bound < 0.0 then 1 else 2 * (bound.Floor + 1);
    run := Alternating(n);
    states := GrowsBy(n);
    AlternatingCosts(n);
  }

  lemma {:induction false} AlternatingCosts(n: nat)
    ensures UnitCosts(Alternating(n), 1) && UnitCosts(Alternating(n), 2)
  {
    if n > 0 {
      AlternatingCosts(n - 1);
      OnlyOffers(1);
      OnlyOffers(2);
      OfferBids(Only(1), Only(1).candidates[0]);
      OfferBids(Only(2), Only(2).candidates[0]);
    }
  }
}
