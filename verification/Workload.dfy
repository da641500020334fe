/** Tenants, jobs, allocations and the snapshot a policy sees
    (benchmarks/simulator/model.py, policy.py, trace.py). Identifiers are only compared,
    so they are integers here. */
module Workload {
  import opened Resources

  type TenantId = int
  type JobId = int
  type GpuId = int

  datatype TenantSpec = TenantSpec(id: TenantId, weight: int, quota: ResourceVector, maxRunning: int)

  datatype JobSpec = JobSpec(id: JobId, tenant: TenantId, readySequence: int, arrival: int,
                             resources: ResourceVector, duration: int)

  datatype Allocation = Allocation(job: JobId, tenant: TenantId, resources: ResourceVector,
                                   gpus: seq<GpuId>, start: int, release: int)

  datatype Config = Config(capacity: ResourceVector, gpus: seq<GpuId>, tenants: seq<TenantSpec>)

  datatype Trace = Trace(config: Config, jobs: seq<JobSpec>)

  ghost predicate StrictlyIncreasing(s: seq<int>) {
    forall i, j :: 0 <= i < j < |s| ==> s[i] < s[j]
  }

  predicate KnownTenant(tenants: seq<TenantSpec>, id: TenantId) {
    exists i :: 0 <= i < |tenants| && tenants[i].id == id
  }

  /** `tenants[tenant_id]` of the source's dictionary built from the tenant tuple. */
  function FindTenant(tenants: seq<TenantSpec>, id: TenantId): (t: TenantSpec)
    requires KnownTenant(tenants, id)
    ensures t in tenants && t.id == id
  {
    if tenants[0].id == id then tenants[0] else FindTenant(tenants[1..], id)
  }

  ghost predicate DistinctTenants(tenants: seq<TenantSpec>) {
    forall i, j :: 0 <= i < j < |tenants| ==> tenants[i].id != tenants[j].id
  }

  ghost predicate ValidTenants(tenants: seq<TenantSpec>) {
    && DistinctTenants(tenants)
    && (forall t :: t in tenants ==> t.weight > 0)
  }

  /** What trace loading and materialization guarantee of every trace they hand over. */
  ghost predicate ValidTrace(trace: Trace) {
    && trace.config.capacity.gpu == |trace.config.gpus|
    && StrictlyIncreasing(trace.config.gpus)
    && ValidTenants(trace.config.tenants)
    && (forall t :: t in trace.config.tenants ==> t.maxRunning >= 1)
    && (forall i, j :: 0 <= i < j < |trace.jobs| ==>
          trace.jobs[i].id != trace.jobs[j].id && ReadyBefore(trace.jobs[i], trace.jobs[j]))
    && (forall j :: j in trace.jobs ==>
          j.arrival >= 0 && j.duration > 0 && KnownTenant(trace.config.tenants, j.tenant))
  }

  /** The order every queue of the simulator uses: ready sequence, then job identifier. */
  predicate ReadyBefore(a: JobSpec, b: JobSpec) {
    a.readySequence < b.readySequence || (a.readySequence == b.readySequence && a.id <= b.id)
  }

  datatype Snapshot = Snapshot(now: int, capacity: ResourceVector, remaining: ResourceVector,
                               freeGpus: seq<GpuId>, candidates: seq<JobSpec>, held: seq<Allocation>,
                               tenants: seq<TenantSpec>)

  /** Snapshots the engine can build: candidates and holders belong to listed tenants. */
  ghost predicate WellFormed(s: Snapshot) {
    && ValidTenants(s.tenants)
    && (forall c :: c in s.candidates ==> KnownTenant(s.tenants, c.tenant))
    && (forall a :: a in s.held ==> KnownTenant(s.tenants, a.tenant))
  }

  ghost predicate IsCandidate(s: Snapshot, id: JobId) {
    exists c :: c in s.candidates && c.id == id
  }
}
