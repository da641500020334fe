/** Sums over held allocations, and the allocation ledger of benchmarks/simulator/engine.py. */
module Ledger {
  import opened Basics
  import opened Wrappers
  import opened Resources
  import opened Workload

  /** Whose allocations are counted: everybody's, or one tenant's. */
  datatype Scope = Whole | Of(tenant: TenantId)

  predicate InScope(a: Allocation, scope: Scope) {
    scope == Whole || scope == Of(a.tenant)
  }

  /** What one allocation contributes to a scope. */
  function Part(a: Allocation, scope: Scope): ResourceVector {
    if InScope(a, scope) then a.resources else ZERO
  }

  function Unit(a: Allocation, scope: Scope): nat {
    if InScope(a, scope) then 1 else 0
  }

  /** Resources held in a scope. */
  function Use(held: seq<Allocation>, scope: Scope): ResourceVector {
    if held == [] then ZERO else Use(held[..|held| - 1], scope).Add(Part(held[|held| - 1], scope))
  }

  /** Allocations held in a scope. */
  function Count(held: seq<Allocation>, scope: Scope): nat {
    if held == [] then 0 else Count(held[..|held| - 1], scope) + Unit(held[|held| - 1], scope)
  }

  lemma UseAppend(held: seq<Allocation>, a: Allocation, scope: Scope)
    ensures Use(held + [a], scope) == Use(held, scope).Add(Part(a, scope))
    ensures Count(held + [a], scope) == Count(held, scope) + Unit(a, scope)
  {
    assert (held + [a])[..|held|] == held;
  }

  /** The held allocations of the given jobs, in order. */
  function Select(held: seq<Allocation>, jobs: set<JobId>): seq<Allocation> {
    if held == [] then []
    else
      var rest := Select(held[..|held| - 1], jobs);
      if held[|held| - 1].job in jobs then rest + [held[|held| - 1]] else rest
  }

  /** The ledger dictionary after popping one job's key. */
  function Without(held: seq<Allocation>, job: JobId): seq<Allocation> {
    if held == [] then []
    else
      var rest := Without(held[..|held| - 1], job);
      if held[|held| - 1].job != job then rest + [held[|held| - 1]] else rest
  }

  // ---- holdings in job order ---------------------------------------------------------------

  function InsertByJob(a: Allocation, held: seq<Allocation>): seq<Allocation> {
    if held == [] || held[|held| - 1].job <= a.job then held + [a]
    else InsertByJob(a, held[..|held| - 1]) + [held[|held| - 1]]
  }

  /** `held_allocations`: what is held, sorted by job. */
  function ByJob(held: seq<Allocation>): seq<Allocation> {
    if held == [] then [] else InsertByJob(held[|held| - 1], ByJob(held[..|held| - 1]))
  }

  ghost predicate JobOrder(held: seq<Allocation>) {
    forall i, j :: 0 <= i < j < |held| ==> held[i].job <= held[j].job
  }

  lemma {:induction false} InsertMember(a: Allocation, held: seq<Allocation>, x: Allocation)
    ensures x in InsertByJob(a, held) <==> x in held || x == a
  {
    if !(held == [] || held[|held| - 1].job <= a.job) {
      var n := |held| - 1;
      InsertMember(a, held[..n], x);
      assert held == held[..n] + [held[n]];
    }
  }

  lemma {:induction false} InsertOrdered(a: Allocation, held: seq<Allocation>)
    requires JobOrder(held)
    ensures JobOrder(InsertByJob(a, held))
  {
    if !(held == [] || held[|held| - 1].job <= a.job) {
      var n := |held| - 1;
      var rest := InsertByJob(a, held[..n]);
      InsertOrdered(a, held[..n]);
      forall i | 0 <= i < |rest| ensures rest[i].job <= held[n].job {
        InsertMember(a, held[..n], rest[i]);
      }
    }
  }

  lemma {:induction false} InsertSame(a: Allocation, held: seq<Allocation>)
    ensures multiset(InsertByJob(a, held)) == multiset(held) + multiset{a}
  {
    if !(held == [] || held[|held| - 1].job <= a.job) {
      InsertSame(a, held[..|held| - 1]);
      assert held == held[..|held| - 1] + [held[|held| - 1]];
    }
  }

  lemma {:induction false} InsertUse(a: Allocation, held: seq<Allocation>, scope: Scope)
    ensures Use(InsertByJob(a, held), scope) == Use(held, scope).Add(Part(a, scope))
  {
    if held == [] || held[|held| - 1].job <= a.job {
      UseAppend(held, a, scope);
    } else {
      var n := |held| - 1;
      InsertUse(a, held[..n], scope);
      UseAppend(InsertByJob(a, held[..n]), held[n], scope);
      UseAppend(held[..n], held[n], scope);
      assert held == held[..n] + [held[n]];
      hide Use;
      hide Part;
      AddSwap(Use(held[..n], scope), Part(a, scope), Part(held[n], scope));
    }
  }

  lemma AddSwap(u: ResourceVector, v: ResourceVector, w: ResourceVector)
    ensures u.Add(v).Add(w) == u.Add(w).Add(v)
  {
  }

  lemma {:induction false} ByJobOrdered(held: seq<Allocation>)
    ensures JobOrder(ByJob(held))
  {
    hide InsertByJob;
    if held != [] {
      var n := |held| - 1;
      ByJobOrdered(held[..n]);
      InsertOrdered(held[n], ByJob(held[..n]));
    }
  }

  lemma {:induction false} ByJobSame(held: seq<Allocation>)
    ensures multiset(ByJob(held)) == multiset(held)
  {
    hide InsertByJob;
    if held != [] {
      var n := |held| - 1;
      ByJobSame(held[..n]);
      InsertSame(held[n], ByJob(held[..n]));
      assert held == held[..n] + [held[n]];
    }
  }

  lemma {:induction false} ByJobUse(held: seq<Allocation>, scope: Scope)
    ensures Use(ByJob(held), scope) == Use(held, scope)
  {
    hide InsertByJob;
    if held != [] {
      var n := |held| - 1;
      ByJobUse(held[..n], scope);
      InsertUse(held[n], ByJob(held[..n]), scope);
    }
  }

  /** Sorting changes the order and nothing else: the same allocations, the same sums. */
  lemma ByJobIs(held: seq<Allocation>, scope: Scope)
    ensures JobOrder(ByJob(held)) && multiset(ByJob(held)) == multiset(held)
    ensures Use(ByJob(held), scope) == Use(held, scope)
  {
    hide *;
    ByJobOrdered(held);
    ByJobSame(held);
    ByJobUse(held, scope);
  }

  lemma ByJobMember(held: seq<Allocation>, x: Allocation)
    ensures x in ByJob(held) <==> x in held
  {
    ByJobSame(held);
    assert x in multiset(ByJob(held)) <==> x in multiset(held);
  }

  ghost predicate DistinctJobs(held: seq<Allocation>) {
    forall i, j :: 0 <= i < j < |held| ==> held[i].job != held[j].job
  }

  predicate Holds(held: seq<Allocation>, job: JobId) {
    exists i :: 0 <= i < |held| && held[i].job == job
  }

  function HeldGpus(held: seq<Allocation>): set<GpuId> {
    if held == [] then {} else HeldGpus(held[..|held| - 1]) + Elements(held[|held| - 1].gpus)
  }

  /** The configured GPUs nobody holds, in configured (sorted) order. */
  function FreeGpus(gpus: seq<GpuId>, taken: set<GpuId>): seq<GpuId> {
    if gpus == [] then []
    else
      var rest := FreeGpus(gpus[..|gpus| - 1], taken);
      if gpus[|gpus| - 1] !in taken then rest + [gpus[|gpus| - 1]] else rest
  }

  /** Everything the ledger keeps true about what it holds. */
  ghost predicate Sound(capacity: ResourceVector, gpus: seq<GpuId>, held: seq<Allocation>) {
    && DistinctJobs(held)
    && Use(held, Whole).FitsWithin(capacity)
    && (forall i :: 0 <= i < |held| ==> GpusWellFormed(gpus, held[i]))
    && (forall i, j :: 0 <= i < j < |held| ==> DisjointGpus(held[i], held[j]))
  }

  ghost predicate GpusWellFormed(gpus: seq<GpuId>, a: Allocation) {
    && |a.gpus| == a.resources.gpu
    && StrictlyIncreasing(a.gpus)
    && (forall g :: g in a.gpus ==> g in gpus)
  }

  ghost predicate DisjointGpus(a: Allocation, b: Allocation) {
    forall g :: g in a.gpus ==> g !in b.gpus
  }

  ghost predicate ValidInventory(capacity: ResourceVector, gpus: seq<GpuId>) {
    capacity.gpu == |gpus| && StrictlyIncreasing(gpus)
  }

  // ---- membership ----------------------------------------------------------------------

  lemma {:induction false} WithoutMember(held: seq<Allocation>, job: JobId, a: Allocation)
    ensures a in Without(held, job) <==> a in held && a.job != job
  {
    if held != [] {
      WithoutMember(held[..|held| - 1], job, a);
      assert held == held[..|held| - 1] + [held[|held| - 1]];
    }
  }

  lemma {:induction false} HeldGpusMember(held: seq<Allocation>, g: GpuId)
    ensures g in HeldGpus(held) <==> exists i :: 0 <= i < |held| && g in held[i].gpus
  {
    if held != [] {
      HeldGpusMember(held[..|held| - 1], g);
    }
  }

  lemma {:induction false} FreeGpusMember(gpus: seq<GpuId>, taken: set<GpuId>, g: GpuId)
    ensures g in FreeGpus(gpus, taken) <==> g in gpus && g !in taken
  {
    if gpus != [] {
      FreeGpusMember(gpus[..|gpus| - 1], taken, g);
      assert gpus == gpus[..|gpus| - 1] + [gpus[|gpus| - 1]];
    }
  }

  lemma {:induction false} FreeGpusIncreasing(gpus: seq<GpuId>, taken: set<GpuId>)
    requires StrictlyIncreasing(gpus)
    ensures StrictlyIncreasing(FreeGpus(gpus, taken))
  {
    if gpus != [] {
      var n := |gpus| - 1;
      var rest := FreeGpus(gpus[..n], taken);
      FreeGpusIncreasing(gpus[..n], taken);
      forall i | 0 <= i < |rest| ensures rest[i] < gpus[n] {
        FreeGpusMember(gpus[..n], taken, rest[i]);
      }
    }
  }

  // ---- cardinalities -------------------------------------------------------------------

  lemma ElementsSnoc(s: seq<int>)
    requires s != []
    ensures Elements(s) == Elements(s[..|s| - 1]) + {s[|s| - 1]}
  {
    assert s == s[..|s| - 1] + [s[|s| - 1]];
  }

  lemma {:induction false} IncreasingSize(s: seq<int>)
    requires StrictlyIncreasing(s)
    ensures |Elements(s)| == |s|
  {
    if s != [] {
      IncreasingSize(s[..|s| - 1]);
      ElementsSnoc(s);
    }
  }

  lemma {:induction false} HeldGpuSize(gpus: seq<GpuId>, held: seq<Allocation>)
    requires forall i :: 0 <= i < |held| ==> GpusWellFormed(gpus, held[i])
    requires forall i, j :: 0 <= i < j < |held| ==> DisjointGpus(held[i], held[j])
    ensures |HeldGpus(held)| == Use(held, Whole).gpu
  {
    if held != [] {
      var n := |held| - 1;
      var rest, a := held[..n], held[n];
      HeldGpuSize(gpus, rest);
      IncreasingSize(a.gpus);
      forall g | g in HeldGpus(rest) ensures g !in Elements(a.gpus) {
        HeldGpusMember(rest, g);
        var i :| 0 <= i < n && g in held[i].gpus;
        assert DisjointGpus(held[i], held[n]);
      }
      assert HeldGpus(rest) !! Elements(a.gpus);
    }
  }

  lemma MeetGrows(taken: set<int>, s: set<int>, x: int)
    requires x !in s
    ensures |taken * (s + {x})| == |taken * s| + if x in taken then 1 else 0
  {
    if x in taken {
      assert forall y :: y in taken * (s + {x}) <==> y in taken * s + {x};
      assert taken * (s + {x}) == taken * s + {x};
    } else {
      assert forall y :: y in taken * (s + {x}) <==> y in taken * s;
      assert taken * (s + {x}) == taken * s;
    }
  }

  lemma {:induction false} FreeSize(gpus: seq<GpuId>, taken: set<GpuId>)
    requires StrictlyIncreasing(gpus)
    ensures |FreeGpus(gpus, taken)| + |taken * Elements(gpus)| == |gpus|
  {
    if gpus == [] {
      assert forall g :: g !in taken * Elements(gpus);
      assert taken * Elements(gpus) == {};
    } else {
      var n := |gpus| - 1;
      FreeSize(gpus[..n], taken);
      ElementsSnoc(gpus);
      hide Elements;
      MeetGrows(taken, Elements(gpus[..n]), gpus[n]);
    }
  }

  /** The free GPU list is exactly as long as the GPU component of the remaining capacity. */
  lemma FreeGpuCount(capacity: ResourceVector, gpus: seq<GpuId>, held: seq<Allocation>)
    requires ValidInventory(capacity, gpus) && Sound(capacity, gpus, held)
    ensures |FreeGpus(gpus, HeldGpus(held))| == capacity.gpu - Use(held, Whole).gpu
  {
    HeldGpuSize(gpus, held);
    FreeSize(gpus, HeldGpus(held));
    forall g | g in HeldGpus(held) ensures g in Elements(gpus) {
      HeldGpusMember(held, g);
    }
    assert HeldGpus(held) * Elements(gpus) == HeldGpus(held);
  }

  // ---- removal -------------------------------------------------------------------------

  lemma {:induction false} WithoutAbsent(held: seq<Allocation>, job: JobId)
    requires !Holds(held, job)
    ensures Without(held, job) == held
  {
    if held != [] {
      var n := |held| - 1;
      WithoutAbsent(held[..n], job);
      assert held == held[..n] + [held[n]];
    }
  }

  lemma {:induction false} WithoutSum(held: seq<Allocation>, k: nat, scope: Scope)
    requires DistinctJobs(held) && k < |held|
    ensures Use(held, scope) == Use(Without(held, held[k].job), scope).Add(Part(held[k], scope))
    ensures Count(held, scope) == Count(Without(held, held[k].job), scope) + Unit(held[k], scope)
  {
    var n := |held| - 1;
    if k == n {
      WithoutAbsent(held[..n], held[n].job);
    } else {
      WithoutSum(held[..n], k, scope);
      UseAppend(Without(held[..n], held[k].job), held[n], scope);
    }
  }

  lemma {:induction false} WithoutPairs(held: seq<Allocation>, job: JobId)
    requires DistinctJobs(held)
    requires forall i, j :: 0 <= i < j < |held| ==> DisjointGpus(held[i], held[j])
    ensures DistinctJobs(Without(held, job))
    ensures var r := Without(held, job); forall i, j :: 0 <= i < j < |r| ==> DisjointGpus(r[i], r[j])
  {
    if held != [] {
      var n := |held| - 1;
      WithoutPairs(held[..n], job);
      var rest := Without(held[..n], job);
      forall i | 0 <= i < |rest| ensures rest[i].job != held[n].job && DisjointGpus(rest[i], held[n]) {
        WithoutMember(held[..n], job, rest[i]);
        var k :| 0 <= k < n && held[k] == rest[i];
        assert DisjointGpus(held[k], held[n]);
      }
    }
  }

  lemma ReleaseSound(capacity: ResourceVector, gpus: seq<GpuId>, held: seq<Allocation>, k: nat)
    requires Sound(capacity, gpus, held) && k < |held|
    ensures Sound(capacity, gpus, Without(held, held[k].job))
    ensures Use(held, Whole) == Use(Without(held, held[k].job), Whole).Add(held[k].resources)
  {
    var r := Without(held, held[k].job);
    WithoutSum(held, k, Whole);
    WithoutPairs(held, held[k].job);
    forall i | 0 <= i < |r| ensures GpusWellFormed(gpus, r[i]) {
      WithoutMember(held, held[k].job, r[i]);
    }
  }

  /** The allocation the ledger builds for a job, with the first free GPUs. */
  function Grant(gpus: seq<GpuId>, held: seq<Allocation>, job: JobSpec, now: int): Allocation {
    var free := FreeGpus(gpus, HeldGpus(held));
    Allocation(job.id, job.tenant, job.resources,
               if job.resources.gpu <= |free| then free[..job.resources.gpu] else free,
               now, now + job.duration)
  }

  lemma GrantGpus(capacity: ResourceVector, gpus: seq<GpuId>, held: seq<Allocation>, job: JobSpec, now: int)
    requires ValidInventory(capacity, gpus) && Sound(capacity, gpus, held)
    requires Use(held, Whole).Add(job.resources).FitsWithin(capacity)
    ensures GpusWellFormed(gpus, Grant(gpus, held, job, now))
    ensures forall i :: 0 <= i < |held| ==> DisjointGpus(held[i], Grant(gpus, held, job, now))
  {
    FreeGpuCount(capacity, gpus, held);
    FreeGpusIncreasing(gpus, HeldGpus(held));
    var a := Grant(gpus, held, job, now);
    forall g | g in a.gpus ensures g in gpus && g !in HeldGpus(held) {
      FreeGpusMember(gpus, HeldGpus(held), g);
    }
    forall i, g | 0 <= i < |held| && g in held[i].gpus ensures g in HeldGpus(held) {
      HeldGpusMember(held, g);
    }
  }

  lemma AllocateSound(capacity: ResourceVector, gpus: seq<GpuId>, held: seq<Allocation>, job: JobSpec, now: int)
    requires ValidInventory(capacity, gpus) && Sound(capacity, gpus, held)
    requires !Holds(held, job.id)
    requires Use(held, Whole).Add(job.resources).FitsWithin(capacity)
    ensures Sound(capacity, gpus, held + [Grant(gpus, held, job, now)])
  {
    GrantGpus(capacity, gpus, held, job, now);
    UseAppend(held, Grant(gpus, held, job, now), Whole);
  }

  // ---- the ledger object ---------------------------------------------------------------

  datatype LedgerError = AlreadyHeld | ExceedsCapacity | ExceedsGpus | NotHeld

  class AllocationLedger {
    const capacity: ResourceVector
    const gpus: seq<GpuId>
    var inUse: ResourceVector
    var held: seq<Allocation>

    ghost predicate Valid()
      reads this
    {
      && ValidInventory(capacity, gpus)
      && Sound(capacity, gpus, held)
      && inUse == Use(held, Whole)
    }

    constructor (capacity: ResourceVector, gpus: seq<GpuId>)
      requires ValidInventory(capacity, gpus)
      ensures Valid() && held == [] && this.capacity == capacity && this.gpus == gpus
    {
      this.capacity := capacity;
      this.gpus := gpus;
      inUse := ZERO;
      held := [];
    }

    /** Fails exactly on a second hold or a request beyond the remaining capacity; running
        short of GPUs is impossible once the capacity test has passed. */
    method Allocate(job: JobSpec, now: int) returns (r: Result<Allocation, LedgerError>)
      requires Valid()
      modifies this
      ensures Valid()
      ensures r.Ok? <==> old(!Holds(held, job.id) && Use(held, Whole).Add(job.resources).FitsWithin(capacity))
      ensures r.Err? ==> r.error in {AlreadyHeld, ExceedsCapacity} && held == old(held)
      ensures r.Ok? ==> r.value == Grant(gpus, old(held), job, now) && held == old(held) + [r.value]
    {
      if Holds(held, job.id) {
        return Err(AlreadyHeld);
      }
      if !job.resources.FitsWithin(capacity.Subtract(inUse)) {
        return Err(ExceedsCapacity);
      }
      GrantGpus(capacity, gpus, held, job, now);
      AllocateSound(capacity, gpus, held, job, now);
      var a := Grant(gpus, held, job, now);
      if |a.gpus| != job.resources.gpu {
        return Err(ExceedsGpus);
      }
      UseAppend(held, a, Whole);
      inUse := inUse.Add(job.resources);
      held := held + [a];
      r := Ok(a);
    }

    /** Undoes one Allocate: the job's allocation leaves the ledger and its resources return. */
    method Release(job: JobId) returns (r: Result<Allocation, LedgerError>)
      requires Valid()
      modifies this
      ensures Valid()
      ensures r.Ok? <==> Holds(old(held), job)
      ensures r.Err? ==> r.error == NotHeld && held == old(held)
      ensures r.Ok? ==> r.value in old(held) && r.value.job == job && held == Without(old(held), job)
      ensures r.Ok? ==> old(inUse) == inUse.Add(r.value.resources)
    {
      if !Holds(held, job) {
        return Err(NotHeld);
      }
      var k :| 0 <= k < |held| && held[k].job == job;
      ReleaseSound(capacity, gpus, held, k);
      r := Ok(held[k]);
      held := Without(held, job);
      inUse := inUse.Subtract(r.value.resources);
    }
  }
}
