/** The state of Simulator.run (benchmarks/simulator/engine.py) as one value, its three
    transitions, and the invariant every transition keeps. */
module SimulationState {
  import opened Wrappers
  import opened Workload
  import opened Clock
  import opened Ledger

  datatype JobState = Pending | Queued | Running | Completed | Infeasible

  datatype Reason = RequestExceedsCapacity | RequestExceedsTenantQuota

  datatype Runtime = Runtime(spec: JobSpec, state: JobState, dispatch: Option<int>,
                             completion: Option<int>, reason: Option<Reason>)

  /** `history` is the list of all allocations ever made, `log` the events popped so far. */
  datatype Sim = Sim(now: int, nextSequence: nat, events: set<Event>, jobs: map<JobId, Runtime>,
                     held: seq<Allocation>, history: seq<Allocation>, log: seq<Event>)

  // ---- what the run promises -----------------------------------------------------------

  predicate Feasible(config: Config, job: JobSpec)
    requires KnownTenant(config.tenants, job.tenant)
  {
    job.resources.FitsWithin(config.capacity) && job.resources.FitsWithin(FindTenant(config.tenants, job.tenant).quota)
  }

  function WhyInfeasible(config: Config, job: JobSpec): Reason {
    if !job.resources.FitsWithin(config.capacity) then RequestExceedsCapacity else RequestExceedsTenantQuota
  }

  predicate ActiveIn(a: Allocation, instant: int) {
    a.start <= instant < a.release
  }

  /** The allocations in force at an instant. */
  function ActiveAt(history: seq<Allocation>, instant: int): seq<Allocation> {
    if history == [] then []
    else
      var rest := ActiveAt(history[..|history| - 1], instant);
      if ActiveIn(history[|history| - 1], instant) then rest + [history[|history| - 1]] else rest
  }

  /** Capacity, tenant quota and tenant concurrency all hold for a set of allocations. */
  ghost predicate Safe(config: Config, active: seq<Allocation>) {
    && Use(active, Whole).FitsWithin(config.capacity)
    && (forall t :: t in config.tenants ==>
          Use(active, Of(t.id)).FitsWithin(t.quota) && Count(active, Of(t.id)) <= t.maxRunning)
  }

  /** One more job would still be within capacity, quota and concurrency. */
  predicate HasRoom(config: Config, active: seq<Allocation>, job: JobSpec)
    requires KnownTenant(config.tenants, job.tenant)
  {
    var tenant := FindTenant(config.tenants, job.tenant);
    && Use(active, Whole).Add(job.resources).FitsWithin(config.capacity)
    && Use(active, Of(job.tenant)).Add(job.resources).FitsWithin(tenant.quota)
    && Count(active, Of(job.tenant)) < tenant.maxRunning
  }

  predicate Overlap(a: Allocation, b: Allocation) {
    a.start < b.release && b.start < a.release
  }

  /** No GPU serves two allocations whose intervals meet. */
  ghost predicate ExclusiveGpus(history: seq<Allocation>) {
    forall i, j :: 0 <= i < j < |history| && Overlap(history[i], history[j]) ==> DisjointGpus(history[i], history[j])
  }

  ghost predicate AlwaysSafe(config: Config, history: seq<Allocation>) {
    forall instant :: Safe(config, ActiveAt(history, instant))
  }

  /** Before instant `until`, a feasible job that has arrived and is not started has no room. */
  ghost predicate WorkConserving(config: Config, jobs: map<JobId, Runtime>, history: seq<Allocation>, until: int) {
    forall id, instant {:trigger jobs[id], ActiveAt(history, instant)} ::
      id in jobs && WaitingAt(config, jobs[id], instant) && instant < until
      ==> !HasRoom(config, ActiveAt(history, instant), jobs[id].spec)
  }

  ghost predicate WaitingAt(config: Config, r: Runtime, instant: int) {
    && KnownTenant(config.tenants, r.spec.tenant)
    && Feasible(config, r.spec)
    && r.spec.arrival <= instant
    && (r.dispatch.Some? ==> instant < r.dispatch.value)
  }

  ghost predicate Ordered(log: seq<Event>) {
    forall i, j :: 0 <= i < j < |log| ==> Earlier(log[i], log[j])
  }

  // ---- the invariant -------------------------------------------------------------------

  function JobIds(jobs: seq<JobSpec>): set<JobId> {
    set j | j in jobs :: j.id
  }

  function RunningJobs(jobs: map<JobId, Runtime>): set<JobId> {
    set id | id in jobs && jobs[id].state == Running
  }

  /** Which fields a job in each state carries, and what they say. */
  ghost predicate RuntimeOk(config: Config, r: Runtime, now: int)
    requires KnownTenant(config.tenants, r.spec.tenant)
  {
    match r.state
    case Pending => r.dispatch.None? && r.completion.None? && r.reason.None?
    case Queued =>
      Feasible(config, r.spec) && r.spec.arrival <= now && r.dispatch.None? && r.completion.None? && r.reason.None?
    case Running =>
      && Feasible(config, r.spec) && r.completion.None? && r.reason.None?
      && r.dispatch.Some? && r.spec.arrival <= r.dispatch.value <= now
    case Completed =>
      && Feasible(config, r.spec) && r.reason.None?
      && r.dispatch.Some? && r.spec.arrival <= r.dispatch.value
      && r.completion == Some(r.dispatch.value + r.spec.duration)
      && r.completion.value <= now
    case Infeasible =>
      && !Feasible(config, r.spec) && r.dispatch.None? && r.completion.None?
      && r.reason == Some(WhyInfeasible(config, r.spec))
  }

  ghost predicate JobsOk(trace: Trace, s: Sim) {
    && s.jobs.Keys == JobIds(trace.jobs)
    && (forall id :: id in s.jobs ==>
          && s.jobs[id].spec.id == id && s.jobs[id].spec in trace.jobs
          && KnownTenant(trace.config.tenants, s.jobs[id].spec.tenant)
          && s.jobs[id].spec.duration > 0
          && RuntimeOk(trace.config, s.jobs[id], s.now))
  }

  /** The one event a job still owes: its arrival while pending, its release while running. */
  ghost predicate Owed(s: Sim, e: Event) {
    && e.job in s.jobs
    && e.sequence < s.nextSequence && s.now <= e.time
    && match e.phase
       case Arrival => s.jobs[e.job].state == Pending && e.time == s.jobs[e.job].spec.arrival
       case Release => s.jobs[e.job].state == Running && s.jobs[e.job].dispatch.Some?
                       && e.time == s.jobs[e.job].dispatch.value + s.jobs[e.job].spec.duration
  }

  ghost predicate HasEvent(s: Sim, id: JobId) {
    exists e :: e in s.events && e.job == id
  }

  ghost predicate EventsOk(s: Sim) {
    && DistinctSequences(s.events)
    && (forall e :: e in s.events ==> Owed(s, e))
    && (forall e, f :: e in s.events && f in s.events && e.job == f.job ==> e == f)
    && (forall id :: id in s.jobs && (s.jobs[id].state == Pending || s.jobs[id].state == Running) ==> HasEvent(s, id))
  }

  ghost predicate HeldOk(config: Config, s: Sim) {
    && Sound(config.capacity, config.gpus, s.held)
    && Safe(config, s.held)
    && s.held == Select(s.history, RunningJobs(s.jobs))
  }

  ghost predicate Records(jobs: map<JobId, Runtime>, a: Allocation) {
    && a.job in jobs
    && var r := jobs[a.job];
    && (r.state == Running || r.state == Completed)
    && a.tenant == r.spec.tenant && a.resources == r.spec.resources
    && r.dispatch == Some(a.start) && a.release == a.start + r.spec.duration
  }

  /** Every job ever started has exactly one allocation, and the allocation is its own. */
  ghost predicate HistoryOk(jobs: map<JobId, Runtime>, history: seq<Allocation>) {
    && DistinctJobs(history)
    && (forall i :: 0 <= i < |history| ==> Records(jobs, history[i]))
    && (forall id :: id in jobs && (jobs[id].state == Running || jobs[id].state == Completed) ==> Holds(history, id))
  }

  ghost predicate GpusOk(gpus: seq<GpuId>, history: seq<Allocation>) {
    && (forall i :: 0 <= i < |history| ==> GpusWellFormed(gpus, history[i]))
    && ExclusiveGpus(history)
  }

  ghost predicate LogOk(s: Sim) {
    && Ordered(s.log)
    && (forall e, f :: e in s.log && f in s.events ==> Earlier(e, f))
    && (forall e :: e in s.log ==> e.time <= s.now)
    && |s.log| + |s.events| == |s.jobs| + |s.history|
  }

  /** A logged event is the arrival of its job at the time the job asks for, or its release at
      the time the job completed. */
  ghost predicate Logged(jobs: map<JobId, Runtime>, e: Event) {
    && e.job in jobs
    && match e.phase
       case Arrival => jobs[e.job].state != Pending && e.time == jobs[e.job].spec.arrival
       case Release => jobs[e.job].state == Completed && jobs[e.job].completion == Some(e.time)
  }

  predicate HasLogged(log: seq<Event>, id: JobId, phase: Phase) {
    exists i :: 0 <= i < |log| && log[i].job == id && log[i].phase == phase
  }

  /** The log tells what happened: only true events, none twice, and none missing. */
  ghost predicate LogTells(jobs: map<JobId, Runtime>, log: seq<Event>) {
    && (forall i :: 0 <= i < |log| ==> Logged(jobs, log[i]))
    && (forall i, j :: 0 <= i < j < |log| && log[i].job == log[j].job ==> log[i].phase != log[j].phase)
    && (forall id :: id in jobs && jobs[id].state != Pending ==> HasLogged(log, id, Arrival))
    && (forall id :: id in jobs && jobs[id].state == Completed ==> HasLogged(log, id, Release))
  }

  ghost predicate Inv(trace: Trace, s: Sim) {
    && JobsOk(trace, s) && EventsOk(s) && LogOk(s) && LogTells(s.jobs, s.log) && HeldOk(trace.config, s)
    && HistoryOk(s.jobs, s.history)
    && GpusOk(trace.config.gpus, s.history) && AlwaysSafe(trace.config, s.history)
  }

  /** Nothing queued could be started now. */
  ghost predicate Quiet(config: Config, s: Sim) {
    forall id :: id in s.jobs && s.jobs[id].state == Queued && KnownTenant(config.tenants, s.jobs[id].spec.tenant)
                 ==> !HasRoom(config, s.held, s.jobs[id].spec)
  }

  // ---- the transitions -----------------------------------------------------------------

  function Pop(s: Sim, e: Event): Sim {
    s.(now := e.time, events := s.events - {e}, log := s.log + [e])
  }

  /** An arrival queues the job, or marks it infeasible for good. */
  function Arrive(config: Config, s: Sim, e: Event): Sim
    requires e.job in s.jobs && KnownTenant(config.tenants, s.jobs[e.job].spec.tenant)
  {
    var r := s.jobs[e.job];
    Pop(s, e).(jobs := s.jobs[e.job :=
      if Feasible(config, r.spec) then r.(state := Queued)
      else r.(state := Infeasible, reason := Some(WhyInfeasible(config, r.spec)))])
  }

  /** A release completes the job and returns its resources. */
  function Finish(s: Sim, e: Event): Sim
    requires e.job in s.jobs
  {
    Pop(s, e).(held := Without(s.held, e.job),
               jobs := s.jobs[e.job := s.jobs[e.job].(state := Completed, completion := Some(e.time))])
  }

  /** A dispatch starts the job now and schedules its release. */
  function Start(config: Config, s: Sim, id: JobId): Sim
    requires id in s.jobs
  {
    var job := s.jobs[id].spec;
    var a := Grant(config.gpus, s.held, job, s.now);
    s.(nextSequence := s.nextSequence + 1,
       events := s.events + {Event(s.now + job.duration, Release, s.nextSequence, id)},
       jobs := s.jobs[id := s.jobs[id].(state := Running, dispatch := Some(s.now))],
       held := s.held + [a],
       history := s.history + [a])
  }

  // ---- relating history and ledger -----------------------------------------------------

  lemma {:induction false} ActiveWithin(history: seq<Allocation>, instant: int, jobs: set<JobId>, scope: Scope)
    requires forall i :: 0 <= i < |history| && ActiveIn(history[i], instant) ==> history[i].job in jobs
    ensures Use(ActiveAt(history, instant), scope).FitsWithin(Use(Select(history, jobs), scope))
    ensures Count(ActiveAt(history, instant), scope) <= Count(Select(history, jobs), scope)
  {
    if history != [] {
      var n := |history| - 1;
      ActiveWithin(history[..n], instant, jobs, scope);
      UseAppend(ActiveAt(history[..n], instant), history[n], scope);
      UseAppend(Select(history[..n], jobs), history[n], scope);
    }
  }

  lemma {:induction false} ActiveExactly(history: seq<Allocation>, instant: int, jobs: set<JobId>)
    requires forall i :: 0 <= i < |history| ==> (ActiveIn(history[i], instant) <==> history[i].job in jobs)
    ensures ActiveAt(history, instant) == Select(history, jobs)
  {
    if history != [] {
      ActiveExactly(history[..|history| - 1], instant, jobs);
    }
  }

  lemma ActiveAppend(history: seq<Allocation>, a: Allocation, instant: int)
    ensures ActiveAt(history + [a], instant) ==
            if ActiveIn(a, instant) then ActiveAt(history, instant) + [a] else ActiveAt(history, instant)
  {
    assert (history + [a])[..|history|] == history;
  }

  lemma {:induction false} SelectMinus(history: seq<Allocation>, jobs: set<JobId>, job: JobId)
    ensures Without(Select(history, jobs), job) == Select(history, jobs - {job})
  {
    if history != [] {
      var n := |history| - 1;
      SelectMinus(history[..n], jobs, job);
      var rest := Select(history[..n], jobs);
      if history[n].job in jobs {
        assert (rest + [history[n]])[..|rest|] == rest;
      }
    }
  }

  lemma {:induction false} SelectSame(history: seq<Allocation>, jobs: set<JobId>, jobs': set<JobId>)
    requires forall i :: 0 <= i < |history| ==> (history[i].job in jobs <==> history[i].job in jobs')
    ensures Select(history, jobs) == Select(history, jobs')
  {
    if history != [] {
      SelectSame(history[..|history| - 1], jobs, jobs');
    }
  }

  lemma {:induction false} SelectMember(history: seq<Allocation>, jobs: set<JobId>, i: nat)
    requires i < |history| && history[i].job in jobs
    ensures exists k :: 0 <= k < |Select(history, jobs)| && Select(history, jobs)[k] == history[i]
  {
    var n := |history| - 1;
    var rest := Select(history[..n], jobs);
    if i == n {
      assert Select(history, jobs)[|rest|] == history[i];
    } else {
      SelectMember(history[..n], jobs, i);
      var k :| 0 <= k < |rest| && rest[k] == history[i];
      assert Select(history, jobs)[k] == history[i];
    }
  }

  lemma {:induction false} SelectFrom(history: seq<Allocation>, jobs: set<JobId>, k: nat)
    requires k < |Select(history, jobs)|
    ensures exists i :: 0 <= i < |history| && history[i] == Select(history, jobs)[k] && history[i].job in jobs
  {
    var n := |history| - 1;
    var rest := Select(history[..n], jobs);
    if k < |rest| {
      SelectFrom(history[..n], jobs, k);
      var i :| 0 <= i < n && history[..n][i] == rest[k] && history[..n][i].job in jobs;
      assert history[i] == Select(history, jobs)[k];
    } else {
      assert history[n] == Select(history, jobs)[k];
    }
  }
}
