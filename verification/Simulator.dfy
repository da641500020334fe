/** What Simulator.run (benchmarks/simulator/engine.py) is made of besides its steps: eligible
    candidates, the initial state, the measure that bounds a run, and the policies it accepts.
    The mutable simulation and the theorem about its schedule are in SimulatorRun. */
module Simulator {
  import opened Wrappers
  import opened Workload
  import opened Clock
  import opened Ledger
  import opened SimulationState
  import opened SimulationSteps
  import CyclicPolicies

  // ---- eligible candidates ---------------------------------------------------------------

  /** The four tests of `_eligible_candidates` on a queued job. */
  predicate Eligible(config: Config, held: seq<Allocation>, job: JobSpec)
    requires KnownTenant(config.tenants, job.tenant) && Use(held, Whole).FitsWithin(config.capacity)
  {
    var tenant := FindTenant(config.tenants, job.tenant);
    && Count(held, Of(job.tenant)) < tenant.maxRunning
    && Use(held, Of(job.tenant)).Add(job.resources).FitsWithin(tenant.quota)
    && job.resources.FitsWithin(config.capacity.Subtract(Use(held, Whole)))
    && job.resources.gpu <= |FreeGpus(config.gpus, HeldGpus(held))|
  }

  /** The GPU test never rejects what the capacity test accepts. */
  lemma EligibleIffRoom(config: Config, held: seq<Allocation>, job: JobSpec)
    requires KnownTenant(config.tenants, job.tenant)
    requires ValidInventory(config.capacity, config.gpus) && Sound(config.capacity, config.gpus, held)
    ensures Eligible(config, held, job) <==> HasRoom(config, held, job)
  {
    FreeGpuCount(config.capacity, config.gpus, held);
  }

  ghost predicate AllKnown(config: Config, specs: seq<JobSpec>) {
    forall i :: 0 <= i < |specs| ==> KnownTenant(config.tenants, specs[i].tenant)
  }

  /** Queued jobs that pass, in trace order, which is ready order. */
  function Candidates(config: Config, jobs: map<JobId, Runtime>, held: seq<Allocation>,
                      specs: seq<JobSpec>): seq<JobSpec>
    requires AllKnown(config, specs) && Use(held, Whole).FitsWithin(config.capacity)
  {
    if specs == [] then []
    else
      var n := |specs| - 1;
      var rest := Candidates(config, jobs, held, specs[..n]);
      if specs[n].id in jobs && jobs[specs[n].id].state == Queued && Eligible(config, held, specs[n])
      then rest + [specs[n]]
      else rest
  }

  lemma {:induction false} CandidatesMember(config: Config, jobs: map<JobId, Runtime>, held: seq<Allocation>,
                                            specs: seq<JobSpec>, c: JobSpec)
    requires AllKnown(config, specs) && Use(held, Whole).FitsWithin(config.capacity)
    ensures c in Candidates(config, jobs, held, specs) <==>
            c in specs && KnownTenant(config.tenants, c.tenant)
            && c.id in jobs && jobs[c.id].state == Queued && Eligible(config, held, c)
  {
    if specs != [] {
      var n := |specs| - 1;
      CandidatesMember(config, jobs, held, specs[..n], c);
      assert specs == specs[..n] + [specs[n]];
    }
  }

  // ---- the initial state -----------------------------------------------------------------

  function InitialJobs(specs: seq<JobSpec>): map<JobId, Runtime> {
    if specs == [] then map[]
    else
      var n := |specs| - 1;
      InitialJobs(specs[..n])[specs[n].id := Runtime(specs[n], Pending, None, None, None)]
  }

  function InitialEvents(specs: seq<JobSpec>): set<Event> {
    if specs == [] then {}
    else
      var n := |specs| - 1;
      InitialEvents(specs[..n]) + {Event(specs[n].arrival, Arrival, n, specs[n].id)}
  }

  function Initial(trace: Trace): Sim {
    Sim(0, |trace.jobs|, InitialEvents(trace.jobs), InitialJobs(trace.jobs), [], [], [])
  }

  ghost predicate DistinctIds(specs: seq<JobSpec>) {
    forall i, j :: 0 <= i < j < |specs| ==> specs[i].id != specs[j].id
  }

  lemma {:induction false} InitialJobAt(specs: seq<JobSpec>, i: nat)
    requires DistinctIds(specs) && i < |specs|
    ensures specs[i].id in InitialJobs(specs)
    ensures InitialJobs(specs)[specs[i].id] == Runtime(specs[i], Pending, None, None, None)
  {
    if i < |specs| - 1 {
      InitialJobAt(specs[..|specs| - 1], i);
    }
  }

  lemma {:induction false} InitialJobFrom(specs: seq<JobSpec>, id: JobId) returns (i: nat)
    requires id in InitialJobs(specs)
    ensures i < |specs| && specs[i].id == id
  {
    i := |specs| - 1;
    if specs[i].id != id {
      i := InitialJobFrom(specs[..i], id);
    }
  }

  lemma {:induction false} InitialEventAt(specs: seq<JobSpec>, i: nat)
    requires i < |specs|
    ensures Event(specs[i].arrival, Arrival, i, specs[i].id) in InitialEvents(specs)
  {
    if i < |specs| - 1 {
      InitialEventAt(specs[..|specs| - 1], i);
    }
  }

  lemma {:induction false} InitialEventFrom(specs: seq<JobSpec>, e: Event)
    requires e in InitialEvents(specs)
    ensures e.sequence < |specs|
    ensures e == Event(specs[e.sequence].arrival, Arrival, e.sequence, specs[e.sequence].id)
  {
    var n := |specs| - 1;
    if e != Event(specs[n].arrival, Arrival, n, specs[n].id) {
      InitialEventFrom(specs[..n], e);
    }
  }

  lemma {:induction false} InitialSizes(specs: seq<JobSpec>)
    requires DistinctIds(specs)
    ensures |InitialJobs(specs)| == |specs| == |InitialEvents(specs)|
  {
    if specs != [] {
      var n := |specs| - 1;
      var jobs, events := InitialJobs(specs[..n]), InitialEvents(specs[..n]);
      InitialSizes(specs[..n]);
      if specs[n].id in jobs {
        var i := InitialJobFrom(specs[..n], specs[n].id);
      }
      if Event(specs[n].arrival, Arrival, n, specs[n].id) in events {
        InitialEventFrom(specs[..n], Event(specs[n].arrival, Arrival, n, specs[n].id));
      }
      assert InitialJobs(specs).Keys == jobs.Keys + {specs[n].id};
      assert |InitialJobs(specs)| == |InitialJobs(specs).Keys| && |jobs| == |jobs.Keys|;
    }
  }

  lemma InitialEventsOk(specs: seq<JobSpec>)
    requires DistinctIds(specs) && forall i :: 0 <= i < |specs| ==> specs[i].arrival >= 0
    ensures EventsOk(Sim(0, |specs|, InitialEvents(specs), InitialJobs(specs), [], [], []))
  {
    var s := Sim(0, |specs|, InitialEvents(specs), InitialJobs(specs), [], [], []);
    forall id | id in s.jobs ensures HasEvent(s, id) {
      var i := InitialJobFrom(specs, id);
      InitialEventAt(specs, i);
    }
    forall e | e in s.events ensures Owed(s, e) {
      InitialEventFrom(specs, e);
      InitialJobAt(specs, e.sequence);
    }
    forall e, f | e in s.events && f in s.events && (e.sequence == f.sequence || e.job == f.job) ensures e == f {
      InitialEventFrom(specs, e);
      InitialEventFrom(specs, f);
    }
  }

  lemma InitialJobsOk(trace: Trace)
    requires ValidTrace(trace)
    ensures JobsOk(trace, Initial(trace))
    ensures forall id :: id in Initial(trace).jobs ==>
              Initial(trace).jobs[id].state == Pending && Initial(trace).jobs[id].spec.arrival >= 0
  {
    var specs, s := trace.jobs, Initial(trace);
    forall id | id in s.jobs
      ensures id in JobIds(specs) && s.jobs[id].spec.id == id && s.jobs[id].spec in specs
              && s.jobs[id] == Runtime(s.jobs[id].spec, Pending, None, None, None)
    {
      var i := InitialJobFrom(specs, id);
      InitialJobAt(specs, i);
      assert specs[i] in specs;
    }
    forall id | id in JobIds(specs) ensures id in s.jobs {
      var i :| 0 <= i < |specs| && specs[i].id == id;
      InitialJobAt(specs, i);
    }
  }

  lemma InitialHeldOk(trace: Trace)
    requires forall id :: id in Initial(trace).jobs ==> Initial(trace).jobs[id].state == Pending
    requires forall t :: t in trace.config.tenants ==> t.maxRunning >= 1
    ensures HeldOk(trace.config, Initial(trace)) && HistoryOk(Initial(trace).jobs, [])
    ensures GpusOk(trace.config.gpus, []) && AlwaysSafe(trace.config, [])
  {
  }

  lemma InitialInv(trace: Trace)
    requires ValidTrace(trace)
    ensures Inv(trace, Initial(trace))
    ensures WorkConserving(trace.config, Initial(trace).jobs, [], 0)
    ensures Quiet(trace.config, Initial(trace))
  {
    InitialJobsOk(trace);
    InitialEventsOk(trace.jobs);
    InitialSizes(trace.jobs);
    InitialHeldOk(trace);
  }

  // ---- progress ----------------------------------------------------------------------------

  function InState(jobs: map<JobId, Runtime>, state: JobState): set<JobId> {
    set id | id in jobs && jobs[id].state == state
  }

  /** Transitions a job in this state still has ahead of it. */
  function Rank(state: JobState): nat {
    match state
    case Pending => 3
    case Queued => 2
    case Running => 1
    case _ => 0
  }

  function Remaining(jobs: map<JobId, Runtime>): nat {
    3 * |InState(jobs, Pending)| + 2 * |InState(jobs, Queued)| + |InState(jobs, Running)|
  }

  lemma InStateUpdate(jobs: map<JobId, Runtime>, id: JobId, r: Runtime, state: JobState)
    requires id in jobs
    ensures |InState(jobs[id := r], state)| ==
            |InState(jobs, state)| - (if jobs[id].state == state then 1 else 0) + (if r.state == state then 1 else 0)
  {
    var others := InState(jobs, state) - {id};
    var before, after := InState(jobs, state), InState(jobs[id := r], state);
    assert forall j :: j != id ==> (j in after <==> j in others);
    assert forall j :: j != id ==> (j in before <==> j in others);
    assert InState(jobs, state) == if jobs[id].state == state then others + {id} else others;
    assert InState(jobs[id := r], state) == if r.state == state then others + {id} else others;
  }

  /** Every transition lowers the number of transitions left. */
  lemma RemainingUpdate(jobs: map<JobId, Runtime>, id: JobId, r: Runtime)
    requires id in jobs
    ensures Remaining(jobs[id := r]) == Remaining(jobs) - Rank(jobs[id].state) + Rank(r.state)
  {
    InStateUpdate(jobs, id, r, Pending);
    InStateUpdate(jobs, id, r, Queued);
    InStateUpdate(jobs, id, r, Running);
  }

  /** The state after handling one event, whichever its phase. */
  function Handle(config: Config, s: Sim, e: Event): Sim
    requires e.job in s.jobs && KnownTenant(config.tenants, s.jobs[e.job].spec.tenant)
  {
    if e.phase == Arrival then Arrive(config, s, e) else Finish(s, e)
  }

  lemma HandlePreserves(trace: Trace, s: Sim, e: Event)
    requires Inv(trace, s) && IsNext(s.events, e)
    ensures Owed(s, e) && KnownTenant(trace.config.tenants, s.jobs[e.job].spec.tenant)
    ensures Inv(trace, Handle(trace.config, s, e))
    ensures e.phase == Release ==> Holds(s.held, e.job)
  {
    if e.phase == Arrival {
      ArrivePreserves(trace, s, e);
    } else {
      FinishPreserves(trace, s, e);
    }
  }

  lemma HandleProgress(config: Config, s: Sim, e: Event)
    requires Owed(s, e) && KnownTenant(config.tenants, s.jobs[e.job].spec.tenant)
    ensures Remaining(Handle(config, s, e).jobs) < Remaining(s.jobs)
  {
    RemainingUpdate(s.jobs, e.job, Handle(config, s, e).jobs[e.job]);
    assert Handle(config, s, e).jobs == s.jobs[e.job := Handle(config, s, e).jobs[e.job]];
  }

  lemma HandleSettles(trace: Trace, s: Sim, e: Event)
    requires Inv(trace, s) && IsNext(s.events, e)
    requires Owed(s, e) && KnownTenant(trace.config.tenants, s.jobs[e.job].spec.tenant)
    requires WorkConserving(trace.config, s.jobs, s.history, s.now)
    requires e.time > s.now ==> Quiet(trace.config, s)
    ensures var t := Handle(trace.config, s, e); WorkConserving(trace.config, t.jobs, t.history, t.now)
  {
    hide JobsOk;
    hide EventsOk;
    hide HistoryOk;
    hide HeldOk;
    hide GpusOk;
    hide LogOk;
    hide AlwaysSafe;
    hide WorkConserving;
    hide Quiet;
    hide Feasible;
    PopConserving(trace, s, e, Handle(trace.config, s, e));
  }

  lemma StartProgress(config: Config, s: Sim, id: JobId)
    requires id in s.jobs && s.jobs[id].state == Queued
    ensures Remaining(Start(config, s, id).jobs) < Remaining(s.jobs)
  {
    RemainingUpdate(s.jobs, id, Start(config, s, id).jobs[id]);
  }

  // ---- policies ------------------------------------------------------------------------------

  /** A policy function that keeps its own state well formed on the snapshots of one run. */
  ghost predicate Admissible<P(!new)>(choose: (P, Snapshot) --> (P, Option<JobId>), ok: P -> bool,
                                      tenants: seq<TenantSpec>) {
    forall p, s :: ok(p) && WellFormed(s) && s.tenants == tenants ==> choose.requires(p, s) && ok(choose(p, s).0)
  }

  /** It also never passes when somebody can run. */
  ghost predicate Productive<P(!new)>(choose: (P, Snapshot) --> (P, Option<JobId>), ok: P -> bool,
                                      tenants: seq<TenantSpec>)
    requires Admissible(choose, ok, tenants)
  {
    forall p, s :: ok(p) && WellFormed(s) && s.tenants == tenants ==> CyclicPolicies.Picks(s, choose(p, s).1)
  }

  datatype Violation = ReleaseNotRunning | ArrivalNotPending | OutsideSnapshot | LedgerRefused | ClockRefused
                     | Stalled | HeldAtEnd

  /** Everything held belongs to a listed tenant. */
  lemma HeldKnown(trace: Trace, s: Sim, k: nat)
    requires JobsOk(trace, s) && HistoryOk(s.jobs, s.history) && s.held == Select(s.history, RunningJobs(s.jobs))
    requires k < |s.held|
    ensures KnownTenant(trace.config.tenants, s.held[k].tenant)
  {
    SelectFrom(s.history, RunningJobs(s.jobs), k);
    var i :| 0 <= i < |s.history| && s.history[i] == s.held[k];
    assert Records(s.jobs, s.history[i]);
  }

  ghost predicate QueuedWithRoom(trace: Trace, s: Sim, c: JobSpec) {
    && c in trace.jobs && KnownTenant(trace.config.tenants, c.tenant)
    && c.id in s.jobs && s.jobs[c.id].state == Queued && s.jobs[c.id].spec == c && HasRoom(trace.config, s.held, c)
  }

  lemma SpecOf(trace: Trace, s: Sim, c: JobSpec)
    requires DistinctIds(trace.jobs) && JobsOk(trace, s) && c in trace.jobs
    ensures c.id in s.jobs && s.jobs[c.id].spec == c
  {
    assert c.id in JobIds(trace.jobs);
  }

  /** The candidate list holds exactly the queued jobs there is room for. */
  lemma CandidatesExact(trace: Trace, s: Sim, c: JobSpec)
    requires ValidTrace(trace) && JobsOk(trace, s) && HeldOk(trace.config, s)
    requires AllKnown(trace.config, trace.jobs)
    ensures c in Candidates(trace.config, s.jobs, s.held, trace.jobs) <==> QueuedWithRoom(trace, s, c)
  {
    CandidatesMember(trace.config, s.jobs, s.held, trace.jobs, c);
    if c in trace.jobs {
      SpecOf(trace, s, c);
      if KnownTenant(trace.config.tenants, c.tenant) {
        EligibleIffRoom(trace.config, s.held, c);
      }
    }
  }

  /** No candidates means nothing queued could be started. */
  lemma NoCandidatesIsQuiet(trace: Trace, s: Sim)
    requires ValidTrace(trace) && JobsOk(trace, s) && HeldOk(trace.config, s) && AllKnown(trace.config, trace.jobs)
    requires Candidates(trace.config, s.jobs, s.held, trace.jobs) == []
    ensures Quiet(trace.config, s)
  {
    forall id | id in s.jobs && s.jobs[id].state == Queued && KnownTenant(trace.config.tenants, s.jobs[id].spec.tenant)
      ensures !HasRoom(trace.config, s.held, s.jobs[id].spec)
    {
      CandidatesExact(trace, s, s.jobs[id].spec);
    }
  }
}
