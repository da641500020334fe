/** The simulator object and its run loop (benchmarks/simulator/engine.py). */
module SimulatorRun {
  import opened Wrappers
  import opened Workload
  import opened Clock
  import opened Ledger
  import opened SimulationState
  import opened SimulationSteps
  import opened Simulator
  import opened SimulatorRecord
  import Baselines

  datatype Outcome = Finished(jobs: map<JobId, Runtime>, history: seq<Allocation>, log: seq<Event>)
                   | Violated(violation: Violation)

  /** What a finished run delivers: every job settled, one allocation per feasible job, no
      limit ever exceeded, GPUs exclusive, and at most two events per job in heap order. */
  ghost predicate Delivered(trace: Trace, jobs: map<JobId, Runtime>, history: seq<Allocation>, log: seq<Event>) {
    && jobs.Keys == JobIds(trace.jobs)
    && (forall id :: id in jobs ==> SettledJob(trace, id, jobs[id]))
    && HistoryOk(jobs, history)
    && GpusOk(trace.config.gpus, history)
    && AlwaysSafe(trace.config, history)
    && Ordered(log) && LogTells(jobs, log) && (forall i :: 0 <= i < |history| ==> ReleaseLogged(log, history[i]))
    && (forall id :: id in jobs ==> HasLogged(log, id, Arrival))
    && |log| == |trace.jobs| + |history|
    && |history| <= |trace.jobs|
  }

  ghost predicate ReleaseLogged(log: seq<Event>, a: Allocation) {
    exists i :: 0 <= i < |log| && log[i].job == a.job && log[i].phase == Release && log[i].time == a.release
  }

  lemma EndLogs(trace: Trace, jobs: map<JobId, Runtime>, history: seq<Allocation>, log: seq<Event>, k: nat)
    requires LogTells(jobs, log) && HistoryOk(jobs, history) && k < |history|
    requires forall id :: id in jobs ==> SettledJob(trace, id, jobs[id])
    ensures ReleaseLogged(log, history[k])
  {
    var a := history[k];
    assert Records(jobs, history[k]) && SettledJob(trace, a.job, jobs[a.job]);
    var i :| 0 <= i < |log| && log[i].job == a.job && log[i].phase == Release;
    assert Logged(jobs, log[i]);
  }

  ghost predicate SettledJob(trace: Trace, id: JobId, r: Runtime) {
    && r.spec in trace.jobs && r.spec.id == id && KnownTenant(trace.config.tenants, r.spec.tenant)
    && if Feasible(trace.config, r.spec) then
         && r.state == Completed && r.reason.None?
         && r.dispatch.Some? && r.spec.arrival <= r.dispatch.value
         && r.completion == Some(r.dispatch.value + r.spec.duration)
       else
         && r.state == Infeasible && r.reason == Some(WhyInfeasible(trace.config, r.spec))
         && r.dispatch.None? && r.completion.None?
  }

  // ---- the end of the run ----------------------------------------------------------------

  lemma {:induction false} DistinctJobsSize(history: seq<Allocation>)
    requires DistinctJobs(history)
    ensures |set a | a in history :: a.job| == |history|
  {
    var ids := set a | a in history :: a.job;
    if history != [] {
      var n := |history| - 1;
      DistinctJobsSize(history[..n]);
      var before := set a | a in history[..n] :: a.job;
      assert history == history[..n] + [history[n]];
      assert ids == before + {history[n].job};
      assert history[n].job !in before;
    }
  }

  lemma HistorySize(jobs: map<JobId, Runtime>, history: seq<Allocation>)
    requires HistoryOk(jobs, history)
    ensures |history| <= |jobs|
  {
    DistinctJobsSize(history);
    var ids := set a | a in history :: a.job;
    forall id | id in ids ensures id in jobs.Keys {
      var i :| 0 <= i < |history| && history[i].job == id;
      assert Records(jobs, history[i]);
    }
    SubsetSize(ids, jobs.Keys);
    assert |jobs| == |jobs.Keys|;
  }

  lemma {:induction false} SubsetSize<T>(a: set<T>, b: set<T>)
    requires a <= b
    ensures |a| <= |b|
  {
    if a != {} {
      var x :| x in a;
      SubsetSize(a - {x}, b - {x});
    }
  }

  /** When no event is left nothing is pending, running or held. */
  lemma NothingRuns(s: Sim, id: JobId)
    requires EventsOk(s) && s.events == {} && id in s.jobs
    ensures s.jobs[id].state != Pending && s.jobs[id].state != Running
  {
    if s.jobs[id].state == Pending || s.jobs[id].state == Running {
      assert false;
    }
  }

  lemma NothingHeld(s: Sim)
    requires EventsOk(s) && HistoryOk(s.jobs, s.history) && s.events == {}
    requires s.held == Select(s.history, RunningJobs(s.jobs))
    ensures s.held == []
  {
    if s.held != [] {
      SelectFrom(s.history, RunningJobs(s.jobs), 0);
      var i :| 0 <= i < |s.history| && s.history[i] == s.held[0] && s.history[i].job in RunningJobs(s.jobs);
      NothingRuns(s, s.history[i].job);
    }
  }

  lemma RoomWhenIdle(trace: Trace, s: Sim, id: JobId)
    requires ValidTrace(trace) && JobsOk(trace, s) && id in s.jobs && s.jobs[id].state == Queued
    ensures KnownTenant(trace.config.tenants, s.jobs[id].spec.tenant)
    ensures HasRoom(trace.config, [], s.jobs[id].spec)
  {
    assert RuntimeOk(trace.config, s.jobs[id], s.now);
    assert FindTenant(trace.config.tenants, s.jobs[id].spec.tenant).maxRunning >= 1;
  }

  /** An idle machine has room for every feasible job, so a quiet end leaves nobody queued. */
  lemma NoStall(trace: Trace, s: Sim, id: JobId)
    requires ValidTrace(trace) && JobsOk(trace, s) && EventsOk(s) && HistoryOk(s.jobs, s.history) && s.events == {}
    requires s.held == Select(s.history, RunningJobs(s.jobs)) && Quiet(trace.config, s)
    requires id in s.jobs
    ensures s.jobs[id].state != Queued
  {
    hide HistoryOk;
    hide EventsOk;
    if s.jobs[id].state == Queued {
      NothingHeld(s);
      hide RunningJobs;
      hide Select;
      RoomWhenIdle(trace, s, id);
      assert false;
    }
  }

  lemma EndSettled(trace: Trace, s: Sim, id: JobId)
    requires JobsOk(trace, s) && EventsOk(s) && s.events == {} && id in s.jobs && s.jobs[id].state != Queued
    ensures SettledJob(trace, id, s.jobs[id])
  {
    NothingRuns(s, id);
    assert RuntimeOk(trace.config, s.jobs[id], s.now);
  }

  lemma EndDelivers(trace: Trace, s: Sim)
    requires ValidTrace(trace) && Inv(trace, s) && s.events == {}
    requires forall id :: id in s.jobs ==> s.jobs[id].state != Queued
    requires |s.jobs| == |trace.jobs|
    ensures Delivered(trace, s.jobs, s.history, s.log)
  {
    forall id | id in s.jobs ensures SettledJob(trace, id, s.jobs[id]) {
      EndSettled(trace, s, id);
    }
    forall i | 0 <= i < |s.history| ensures ReleaseLogged(s.log, s.history[i]) {
      EndLogs(trace, s.jobs, s.history, s.log, i);
    }
    HistorySize(s.jobs, s.history);
  }

  // ---- one event ---------------------------------------------------------------------------

  /** What handling event `e` does to a state: the transition itself, progress, time never
      going back, and earlier instants staying settled. */
  ghost predicate Handles(trace: Trace, s: Sim, e: Event, t: Sim) {
    && e.job in s.jobs && KnownTenant(trace.config.tenants, s.jobs[e.job].spec.tenant)
    && t == Handle(trace.config, s, e)
    && Remaining(t.jobs) < Remaining(s.jobs)
    && s.now <= t.now
    && (WorkConserving(trace.config, s.jobs, s.history, s.now) && (t.now > s.now ==> Quiet(trace.config, s))
        ==> WorkConserving(trace.config, t.jobs, t.history, t.now))
  }

  /** The next event finds its job in the state it expects. */
  ghost predicate Ready(trace: Trace, s: Sim) {
    forall e :: IsNext(s.events, e) ==>
      && e.job in s.jobs && KnownTenant(trace.config.tenants, s.jobs[e.job].spec.tenant)
      && (e.phase == Release ==> s.jobs[e.job].state == Running && Holds(s.held, e.job))
      && (e.phase == Arrival ==> s.jobs[e.job].state == Pending)
  }

  lemma HandleReady(trace: Trace, s: Sim)
    requires Inv(trace, s)
    ensures Ready(trace, s)
  {
    forall e | IsNext(s.events, e)
      ensures Owed(s, e) && KnownTenant(trace.config.tenants, s.jobs[e.job].spec.tenant)
      ensures e.phase == Release ==> Holds(s.held, e.job)
    {
      HandlePreserves(trace, s, e);
    }
  }

  lemma HandleFacts(trace: Trace, s: Sim, e: Event)
    requires Inv(trace, s) && IsNext(s.events, e)
    requires e.job in s.jobs && KnownTenant(trace.config.tenants, s.jobs[e.job].spec.tenant)
    ensures Inv(trace, Handle(trace.config, s, e)) && Handles(trace, s, e, Handle(trace.config, s, e))
    ensures |Handle(trace.config, s, e).jobs| == |s.jobs|
  {
    HandlePreserves(trace, s, e);
    HandleProgress(trace.config, s, e);
    var t := Handle(trace.config, s, e);
    if WorkConserving(trace.config, s.jobs, s.history, s.now) && (t.now > s.now ==> Quiet(trace.config, s)) {
      HandleSettles(trace, s, e);
    }
    assert t.jobs.Keys == s.jobs.Keys;
    assert |t.jobs| == |t.jobs.Keys| && |s.jobs| == |s.jobs.Keys|;
  }

  lemma TimeOfNext(events: set<Event>, e: Event, time: int)
    requires IsNext(events, e) && IsNextTime(events, time)
    ensures e.time == time
  {
  }

  datatype Answer = Idle | Passed | Outside | Pick(job: JobId)

  /** Ask a policy about a snapshot and check its answer against the candidates. */
  method Consult<P(!new)>(policy: P, snapshot: Snapshot, choose: (P, Snapshot) --> (P, Option<JobId>),
                          ghost ok: P -> bool)
    returns (next: P, answer: Answer)
    requires ok(policy) && WellFormed(snapshot) && Admissible(choose, ok, snapshot.tenants)
    ensures ok(next)
    ensures answer.Idle? <==> snapshot.candidates == []
    ensures answer.Pick? ==> IsCandidate(snapshot, answer.job)
    ensures Productive(choose, ok, snapshot.tenants) ==> answer.Idle? || answer.Pick?
    ensures answer.Idle? ==> next == policy
    ensures !answer.Idle? ==> choose.requires(policy, snapshot) && next == choose(policy, snapshot).0
    ensures answer.Passed? ==> choose(policy, snapshot).1.None?
    ensures answer.Pick? ==> choose(policy, snapshot).1 == Some(answer.job)
    ensures answer.Outside? ==>
              choose(policy, snapshot).1.Some? && !IsCandidate(snapshot, choose(policy, snapshot).1.value)
  {
    next := policy;
    if snapshot.candidates == [] {
      return next, Idle;
    }
    var (after, choice) := choose(policy, snapshot);
    assert Productive(choose, ok, snapshot.tenants) ==> CyclicPolicies.Picks(snapshot, choice);
    next := after;
    if choice.None? {
      return next, Passed;
    }
    if !(exists i :: 0 <= i < |snapshot.candidates| && snapshot.candidates[i].id == choice.value) {
      return next, Outside;
    }
    answer := Pick(choice.value);
  }

  // ---- the object --------------------------------------------------------------------------

  class Simulation {
    const trace: Trace
    const clock: VirtualClock
    const ledger: AllocationLedger
    var jobs: map<JobId, Runtime>
    var history: seq<Allocation>
    var log: seq<Event>

    ghost function View(): Sim
      reads this, clock, ledger
    {
      Sim(clock.now, clock.nextSequence, clock.events, jobs, ledger.held, history, log)
    }

    ghost predicate Valid()
      reads this, clock, ledger
    {
      && ValidTrace(trace) && clock.Valid() && ledger.Valid()
      && ledger.capacity == trace.config.capacity && ledger.gpus == trace.config.gpus
      && |jobs| == |trace.jobs|
      && Inv(trace, View())
    }

    /** All instants before now are work-conserving. */
    ghost predicate Settled()
      reads this, clock
    {
      WorkConserving(trace.config, jobs, history, clock.now)
    }

    constructor (trace: Trace)
      requires ValidTrace(trace)
      ensures Valid() && this.trace == trace && View() == Initial(trace)
      ensures Settled() && Quiet(trace.config, View())
      ensures fresh(clock) && fresh(ledger)
    {
      this.trace := trace;
      clock := new VirtualClock(0);
      ledger := new AllocationLedger(trace.config.capacity, trace.config.gpus);
      jobs, history, log := map[], [], [];
      new;
      LoadJobs();
      Loaded();
    }

    lemma Loaded()
      requires ValidTrace(trace) && clock.Valid() && ledger.Valid()
      requires ledger.capacity == trace.config.capacity && ledger.gpus == trace.config.gpus
      requires View() == Initial(trace)
      ensures Valid() && Settled() && Quiet(trace.config, View())
    {
      hide SimulationState.Inv;
      hide WorkConserving;
      hide Quiet;
      hide InitialJobs;
      hide InitialEvents;
      InitialInv(trace);
      InitialSizes(trace.jobs);
    }

    /** Every job starts pending, with its arrival scheduled. */
    method LoadJobs()
      requires clock.Valid() && clock.now == 0 && clock.nextSequence == 0 && clock.events == {} && jobs == map[]
      requires forall j :: j in trace.jobs ==> j.arrival >= 0
      modifies this`jobs, clock
      ensures clock.Valid() && clock.now == 0 && clock.nextSequence == |trace.jobs|
      ensures clock.events == InitialEvents(trace.jobs) && jobs == InitialJobs(trace.jobs)
    {
      var i := 0;
      while i < |trace.jobs|
        invariant 0 <= i <= |trace.jobs|
        invariant clock.Valid() && clock.now == 0 && clock.nextSequence == i
                  && clock.events == InitialEvents(trace.jobs[..i])
        invariant jobs == InitialJobs(trace.jobs[..i])
      {
        var job := trace.jobs[i];
        assert job in trace.jobs;
        jobs := jobs[job.id := Runtime(job, Pending, None, None, None)];
        var ok := clock.Schedule(job.arrival, Arrival, job.id);
        assert trace.jobs[..i + 1][..i] == trace.jobs[..i];
        i := i + 1;
      }
      assert trace.jobs[..i] == trace.jobs;
    }

    /** A release completes the job; the ledger is sure to hold its allocation. */
    method ApplyRelease(e: Event) returns (bad: Option<Violation>)
      requires ledger.Valid() && e.job in jobs && jobs[e.job].state == Running && Holds(ledger.held, e.job)
      modifies this, ledger
      ensures bad.None? && ledger.Valid() && ledger.held == Without(old(ledger.held), e.job)
      ensures jobs == old(jobs)[e.job := old(jobs)[e.job].(state := Completed, completion := Some(clock.now))]
      ensures history == old(history) && log == old(log) + [e]
    {
      log := log + [e];
      var r := jobs[e.job];
      if r.state != Running {
        return Some(ReleaseNotRunning);
      }
      var released := ledger.Release(e.job);
      if released.Err? {
        return Some(LedgerRefused);
      }
      jobs := jobs[e.job := r.(state := Completed, completion := Some(clock.now))];
      bad := None;
    }

    /** An arrival queues the job or rejects it for good. */
    method ApplyArrival(e: Event) returns (bad: Option<Violation>)
      requires e.job in jobs && jobs[e.job].state == Pending
               && KnownTenant(trace.config.tenants, jobs[e.job].spec.tenant)
      modifies this
      ensures bad.None? && history == old(history) && log == old(log) + [e]
      ensures var r := old(jobs)[e.job];
              jobs == old(jobs)[e.job :=
                if Feasible(trace.config, r.spec) then r.(state := Queued)
                else r.(state := Infeasible, reason := Some(WhyInfeasible(trace.config, r.spec)))]
    {
      log := log + [e];
      var r := jobs[e.job];
      if r.state != Pending {
        return Some(ArrivalNotPending);
      }
      if !r.spec.resources.FitsWithin(trace.config.capacity) {
        jobs := jobs[e.job := r.(state := Infeasible, reason := Some(RequestExceedsCapacity))];
      } else if !r.spec.resources.FitsWithin(FindTenant(trace.config.tenants, r.spec.tenant).quota) {
        jobs := jobs[e.job := r.(state := Infeasible, reason := Some(RequestExceedsTenantQuota))];
      } else {
        jobs := jobs[e.job := r.(state := Queued)];
      }
      bad := None;
    }

    /** Pop one event and apply it. The source's state checks never fire. */
    method PopAndApply() returns (bad: Option<Violation>, e: Event)
      requires clock.Valid() && ledger.Valid() && clock.events != {} && Ready(trace, View())
      modifies this, clock, ledger
      ensures bad.None? && clock.Valid() && ledger.Valid()
      ensures IsNext(old(clock.events), e) && View() == Handle(trace.config, old(View()), e)
    {
      var popped := clock.PopNext();
      e := popped.value;
      if e.phase == Release {
        bad := ApplyRelease(e);
      } else {
        bad := ApplyArrival(e);
      }
    }

    method HandleNext() returns (bad: Option<Violation>, ghost e: Event)
      requires Valid() && clock.events != {}
      modifies this, clock, ledger
      ensures bad.None? && Valid()
      ensures IsNext(old(clock.events), e) && Handles(trace, old(View()), e, View())
    {
      ghost var s := View();
      HandleReady(trace, s);
      bad, e := PopAndApply();
      HandleFacts(trace, s, e);
    }

    /** Handle one event of the instant `current`, the time of the next event. */
    method HandleAt(current: int) returns (bad: Option<Violation>, ghost e: Event)
      requires Valid() && IsNextTime(clock.events, current)
      modifies this, clock, ledger
      ensures bad.None? && Valid() && clock.now == current && old(clock.now) <= current
      ensures Pops(trace, old(View()), e, View()) && e.time == current
      ensures Remaining(jobs) < Remaining(old(jobs))
      ensures old(Settled()) && (current > old(clock.now) ==> old(Quiet(trace.config, View()))) ==> Settled()
    {
      hide SimulationState.Inv;
      bad, e := HandleNext();
      TimeOfNext(old(clock.events), e, current);
    }

    /** Allocate, record and schedule; neither the ledger nor the clock refuses. */
    method ApplyStart(id: JobId) returns (bad: Option<Violation>)
      requires clock.Valid() && ledger.Valid() && id in jobs && jobs[id].spec.id == id && jobs[id].spec.duration > 0
      requires !Holds(ledger.held, id)
               && Use(ledger.held, Whole).Add(jobs[id].spec.resources).FitsWithin(ledger.capacity)
      requires ledger.gpus == trace.config.gpus
      modifies this, clock, ledger
      ensures bad.None? && clock.Valid() && ledger.Valid()
      ensures View() == Start(trace.config, old(View()), id)
    {
      var granted := ledger.Allocate(jobs[id].spec, clock.now);
      if granted.Err? {
        return Some(LedgerRefused);
      }
      history := history + [granted.value];
      jobs := jobs[id := jobs[id].(state := Running, dispatch := Some(clock.now))];
      var ok := clock.Schedule(granted.value.release, Release, id);
      if !ok {
        return Some(ClockRefused);
      }
      bad := None;
    }

    /** Start one queued job there is room for. */
    method Dispatch(id: JobId) returns (bad: Option<Violation>)
      requires Valid() && Startable(trace.config, View(), id)
      modifies this, clock, ledger
      ensures bad.None? && Valid()
      ensures View() == Start(trace.config, old(View()), id)
      ensures Starts(trace.config, old(View()), View())
    {
      ghost var s := View();
      StartPreserves(trace, s, id);
      StartFacts(trace, s, id);
      bad := ApplyStart(id);
    }

    /** What the policy is shown: exactly the queued jobs there is room for. */
    method Observe() returns (snapshot: Snapshot)
      requires Valid()
      ensures WellFormed(snapshot) && Shows(trace, View(), snapshot)
      ensures snapshot.candidates == [] ==> Quiet(trace.config, View())
    {
      SnapshotShows(trace, View());
      var candidates := Candidates(trace.config, jobs, ledger.held, trace.jobs);
      snapshot := Snapshot(clock.now, trace.config.capacity, trace.config.capacity.Subtract(ledger.inUse),
                           FreeGpus(trace.config.gpus, HeldGpus(ledger.held)), candidates, ByJob(ledger.held),
                           trace.config.tenants);
      if candidates == [] {
        NoCandidatesIsQuiet(trace, View());
      }
    }

    /** One decision of the policy on the current snapshot. A policy that never passes while
        somebody can run is only ever idle or picks a job that can be started. */
    method Ask<P(!new)>(policy: P, choose: (P, Snapshot) --> (P, Option<JobId>), ghost ok: P -> bool)
      returns (next: P, answer: Answer, ghost shown: Snapshot)
      requires Valid() && ok(policy) && Admissible(choose, ok, trace.config.tenants)
      ensures ok(next)
      ensures answer.Pick? ==> Startable(trace.config, View(), answer.job)
      ensures answer.Idle? ==> Quiet(trace.config, View())
      ensures Productive(choose, ok, trace.config.tenants) ==> answer.Idle? || answer.Pick?
      ensures Shows(trace, View(), shown)
      ensures answer.Pick? ==> Accepts(choose, policy, shown, answer.job, next)
      ensures answer.Idle? || answer.Passed? ==> Stops(trace, choose, policy, View(), shown, next)
      ensures answer.Outside? ==> Strays(trace, choose, policy, View(), shown, next)
    {
      var snapshot := Observe();
      shown := snapshot;
      next, answer := Consult(policy, snapshot, choose, ok);
      if answer.Pick? {
        ghost var c :| c in snapshot.candidates && c.id == answer.job;
        assert QueuedWithRoom(trace, View(), c);
      }
    }

    /** Decide and dispatch at the current instant until nothing can start or the policy passes. */
    method DispatchAll<P(!new)>(policy: P, choose: (P, Snapshot) --> (P, Option<JobId>), ghost ok: P -> bool)
      returns (next: P, bad: Option<Violation>, ghost run: Dispatching<P>, ghost last: Snapshot)
      requires Valid() && ok(policy) && Admissible(choose, ok, trace.config.tenants)
      modifies this, clock, ledger
      ensures bad.Some? ==> bad.value == OutsideSnapshot
      ensures Follows(trace, choose, policy, old(View()), run) && run.states[|run.shown|] == View()
      ensures bad.None? ==> Stops(trace, choose, run.policies[|run.shown|], View(), last, next)
      ensures bad.Some? ==> Strays(trace, choose, run.policies[|run.shown|], View(), last, next)
      ensures bad.None? ==> Valid() && ok(next) && Dispatched(trace.config, old(View()), View())
      ensures Productive(choose, ok, trace.config.tenants) ==> bad.None? && Quiet(trace.config, View())
    {
      hide SimulationState.Inv;
      hide Shows;
      hide WorkConserving;
      hide Quiet;
      hide Startable;
      hide SimulationState.Start;
      hide Accepts;
      hide Stops;
      hide Strays;
      hide ValidTrace;
      hide VirtualClock.Valid;
      hide AllocationLedger.Valid;
      next := policy;
      run := Dispatching([policy], [View()], [], []);
      while true
        invariant Valid() && ok(next) && Dispatched(trace.config, old(View()), View())
        invariant Follows(trace, choose, policy, old(View()), run)
        invariant run.states[|run.shown|] == View() && run.policies[|run.shown|] == next
        decreases Remaining(jobs)
      {
        var answer;
        next, answer, last := Ask(next, choose, ok);
        match answer
        case Idle => return next, None, run, last;
        case Passed => return next, None, run, last;
        case Outside => return next, Some(OutsideSnapshot), run, last;
        case Pick(job) =>
          bad := Dispatch(job);
          FollowsMore(trace, choose, policy, old(View()), run, last, next, View(), job);
          run := Dispatching(run.policies + [next], run.states + [View()], run.shown + [last],
                             run.choices + [Choice(job, clock.now)]);
      }
    }
  }

  // ---- dispatching -------------------------------------------------------------------------

  /** Dispatching takes no time and keeps earlier instants settled. */
  ghost predicate Dispatched(config: Config, s: Sim, t: Sim) {
    && t.now == s.now && Remaining(t.jobs) <= Remaining(s.jobs)
    && (WorkConserving(config, s.jobs, s.history, s.now) ==> WorkConserving(config, t.jobs, t.history, t.now))
  }

  ghost predicate Starts(config: Config, s: Sim, t: Sim) {
    Dispatched(config, s, t) && Remaining(t.jobs) < Remaining(s.jobs)
  }

  lemma StartFacts(trace: Trace, s: Sim, id: JobId)
    requires JobsOk(trace, s) && Startable(trace.config, s, id)
    ensures Starts(trace.config, s, Start(trace.config, s, id))
    ensures |Start(trace.config, s, id).jobs| == |s.jobs|
  {
    var t := Start(trace.config, s, id);
    StartProgress(trace.config, s, id);
    if WorkConserving(trace.config, s.jobs, s.history, s.now) {
      QueuedHasNoDispatch(trace, s, id);
      StartConserving(trace.config, s, id);
    }
    assert t.jobs.Keys == s.jobs.Keys;
    assert |t.jobs| == |t.jobs.Keys| && |s.jobs| == |s.jobs.Keys|;
  }

  lemma QueuedHasNoDispatch(trace: Trace, s: Sim, id: JobId)
    requires JobsOk(trace, s) && id in s.jobs && s.jobs[id].state == Queued
    ensures s.jobs[id].dispatch.None?
  {
    assert RuntimeOk(trace.config, s.jobs[id], s.now);
  }

  // ---- the run -------------------------------------------------------------------------------

  /** Handle every event of the next instant. */
  method HandleInstant(sim: Simulation) returns (bad: Option<Violation>, ghost taken: Taking)
    requires sim.Valid() && sim.clock.events != {}
    modifies sim, sim.clock, sim.ledger
    ensures bad.None? && sim.Valid()
    ensures Remaining(sim.jobs) < Remaining(old(sim.jobs)) && old(sim.clock.now) <= sim.clock.now
    ensures old(sim.Settled() && Quiet(sim.trace.config, sim.View())) ==> sim.Settled()
    ensures IsNextTime(old(sim.clock.events), sim.clock.now)
    ensures forall e :: e in sim.clock.events ==> sim.clock.now < e.time
    ensures Takes(sim.trace, old(sim.View()), taken) && taken.states[|taken.events|] == sim.View()
  {
    hide SimulationState.Inv;
    hide Pops;
    hide WorkConserving;
    hide Quiet;
    hide Remaining;
    hide ValidTrace;
    hide AllocationLedger.Valid;
    var first := sim.clock.NextTime();
    var current := first.value;
    ghost var e;
    taken := Taking([], [sim.View()]);
    bad, e := sim.HandleAt(current);
    TakesMore(sim.trace, old(sim.View()), taken, current, e, sim.View());
    taken := Taking(taken.events + [e], taken.states + [sim.View()]);
    while true
      invariant sim.Valid() && bad.None? && sim.clock.now == current
      invariant TakesAt(sim.trace, old(sim.View()), taken, current) && taken.events != []
      invariant taken.states[|taken.events|] == sim.View()
      invariant Remaining(sim.jobs) < Remaining(old(sim.jobs))
      invariant old(sim.Settled() && Quiet(sim.trace.config, sim.View())) ==> sim.Settled()
      decreases Remaining(sim.jobs)
    {
      var next := sim.clock.NextTime();
      if next.None? || next.value != current {
        break;
      }
      bad, e := sim.HandleAt(current);
      TakesMore(sim.trace, old(sim.View()), taken, current, e, sim.View());
      taken := Taking(taken.events + [e], taken.states + [sim.View()]);
    }
  }

  /** The simulator run. Under any policy the only violations that can surface are the
      policy's own: a choice outside its snapshot, or a stall it caused by passing. Under a
      policy that never passes while somebody can run, the run finishes, everything promised
      is delivered, and at no instant did a waiting job have room. The rounds tell the run: the
      events of each instant, then the jobs the policy chose on the snapshots it was shown; what
      was started is exactly what it chose. */
  method Run<P(!new)>(trace: Trace, policy: P, choose: (P, Snapshot) --> (P, Option<JobId>), ghost ok: P -> bool)
    returns (r: Outcome, ghost rounds: seq<Round<P>>, ghost stray: Option<Round<P>>)
    requires ValidTrace(trace) && ok(policy) && Admissible(choose, ok, trace.config.tenants)
    ensures IsSchedule(trace, choose, policy, rounds)
    ensures r.Finished? ==> Ends(trace, rounds, r.jobs, r.history, r.log) && Started(r.history) == ChosenBy(rounds)
    ensures r == Violated(OutsideSnapshot) ==>
              && stray.Some?
              && IsStray(trace, choose, PolicyAt(policy, rounds, |rounds|), SimAt(trace, rounds, |rounds|), stray.value)
    ensures r == Violated(Stalled) ==>
              SimAt(trace, rounds, |rounds|).events == {} && SomebodyQueued(SimAt(trace, rounds, |rounds|))
    ensures r.Violated? ==> r.violation == OutsideSnapshot || r.violation == Stalled
    ensures r.Finished? ==> Delivered(trace, r.jobs, r.history, r.log)
    ensures Productive(choose, ok, trace.config.tenants) ==>
              r.Finished? && forall until :: WorkConserving(trace.config, r.jobs, r.history, until)
  {
    hide SimulationState.Inv;
    hide IsRound;
    hide IsStray;
    hide Stops;
    hide Strays;
    hide WorkConserving;
    hide Quiet;
    hide Delivered;
    hide Remaining;
    hide Started;
    hide ChosenBy;
    hide Takes;
    hide Follows;
    hide Initial;
    hide VirtualClock.Valid;
    hide AllocationLedger.Valid;
    var sim := new Simulation(trace);
    var p := policy;
    rounds, stray := [], None;
    while sim.clock.events != {}
      invariant sim.Valid() && sim.trace == trace && ok(p) && fresh(sim) && fresh(sim.clock) && fresh(sim.ledger)
      invariant Productive(choose, ok, trace.config.tenants) ==> sim.Settled() && Quiet(trace.config, sim.View())
      invariant IsSchedule(trace, choose, policy, rounds)
      invariant SimAt(trace, rounds, |rounds|) == sim.View() && PolicyAt(policy, rounds, |rounds|) == p
      decreases Remaining(sim.jobs)
    {
      ghost var s, was := sim.View(), p;
      var bad;
      ghost var taken, run, last;
      bad, taken := HandleInstant(sim);
      assert bad.None?;
      p, bad, run, last := sim.DispatchAll(p, choose, ok);
      ghost var round := Round(taken, run, last, p, sim.View());
      RoundSo(trace, choose, was, s, round);
      if bad.Some? {
        return Violated(bad.value), rounds, Some(round);
      }
      ScheduleMore(trace, choose, policy, rounds, round);
      rounds := rounds + [round];
    }
    r := Conclude(sim);
    ScheduleHistory(trace, choose, policy, rounds);
    if Productive(choose, ok, trace.config.tenants) {
      QuietEnd(trace, sim.View());
    }
  }

  /** A quiet run without events left has stalled nobody and wasted no instant. */
  lemma QuietEnd(trace: Trace, s: Sim)
    requires ValidTrace(trace) && Inv(trace, s) && s.events == {} && Quiet(trace.config, s)
    requires WorkConserving(trace.config, s.jobs, s.history, s.now)
    ensures forall id :: id in s.jobs ==> s.jobs[id].state != Queued
    ensures forall until :: WorkConserving(trace.config, s.jobs, s.history, until)
  {
    forall id | id in s.jobs ensures s.jobs[id].state != Queued {
      NoStall(trace, s, id);
    }
    forall until ensures WorkConserving(trace.config, s.jobs, s.history, until) {
      ConservedForever(trace, s, until);
    }
  }

  /** The final checks: somebody left queued is a stall; allocations left over are impossible. */
  method Conclude(sim: Simulation) returns (r: Outcome)
    requires sim.Valid() && sim.clock.events == {}
    ensures r.Finished? <==> forall id :: id in sim.jobs ==> sim.jobs[id].state != Queued
    ensures r.Violated? ==> r.violation == Stalled && SomebodyQueued(sim.View())
    ensures r.Finished? ==>
              r == Finished(sim.jobs, sim.history, sim.log) && Delivered(sim.trace, r.jobs, r.history, r.log)
  {
    if exists id :: id in sim.jobs && sim.jobs[id].state == Queued {
      return Violated(Stalled);
    }
    NothingHeld(sim.View());
    if sim.ledger.held != [] {
      return Violated(HeldAtEnd);
    }
    EndDelivers(sim.trace, sim.View());
    r := Finished(sim.jobs, sim.history, sim.log);
  }

  lemma ConservedForever(trace: Trace, s: Sim, until: int)
    requires Inv(trace, s) && s.events == {} && Quiet(trace.config, s)
    requires WorkConserving(trace.config, s.jobs, s.history, s.now)
    ensures WorkConserving(trace.config, s.jobs, s.history, until)
  {
    if s.now <= until {
      QuietUntil(trace, s, until);
    }
  }

  /** Each of the five baselines, from any state its object can be in: the run finishes with
      every feasible job completed, and "stalled" and "held allocations" never surface. */
  method RunBaseline(trace: Trace, policy: Baselines.Policy)
    returns (r: Outcome, ghost rounds: seq<Round<Baselines.Policy>>)
    requires ValidTrace(trace) && Baselines.PolicyOk(policy, trace.config.tenants)
    ensures r.Finished? && Delivered(trace, r.jobs, r.history, r.log)
    ensures forall until :: WorkConserving(trace.config, r.jobs, r.history, until)
    ensures IsSchedule(trace, Baselines.Choose, policy, rounds) && Ends(trace, rounds, r.jobs, r.history, r.log)
    ensures Started(r.history) == ChosenBy(rounds)
  {
    ghost var ok: Baselines.Policy -> bool := p => Baselines.PolicyOk(p, trace.config.tenants);
    assert && Admissible(Baselines.Choose, ok, trace.config.tenants)
           && Productive(Baselines.Choose, ok, trace.config.tenants) by {
      forall p, s | ok(p) && WellFormed(s) && s.tenants == trace.config.tenants
        ensures ok(Baselines.Choose(p, s).0) && CyclicPolicies.Picks(s, Baselines.Choose(p, s).1)
      {
        Baselines.BaselinePicks(p, s);
      }
    }
    ghost var stray;
    r, rounds, stray := Run(trace, policy, Baselines.Choose, ok);
  }
}
