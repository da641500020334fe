/** Every transition of the simulator keeps its invariant, and settled instants stay settled. */
module SimulationSteps {
  import opened Wrappers
  import opened Workload
  import opened Clock
  import opened Ledger
  import opened SimulationState

  ghost predicate ValidConfig(config: Config) {
    ValidInventory(config.capacity, config.gpus) && DistinctTenants(config.tenants)
  }

  // ---- popping an event ----------------------------------------------------------------

  /** The log stays ordered when the least event is moved onto it. */
  lemma PopLog(s: Sim, t: Sim, e: Event)
    requires LogOk(s) && IsNext(s.events, e) && s.now <= e.time
    requires t.log == s.log + [e] && t.events == s.events - {e} && t.now == e.time
    requires |t.jobs| == |s.jobs| && t.history == s.history
    ensures LogOk(t)
  {
    forall x, f | x in t.log && f in t.events ensures Earlier(x, f) {
      if x != e {
        assert x in s.log;
      }
    }
  }

  lemma PopEvents(s: Sim, t: Sim, e: Event)
    requires EventsOk(s) && IsNext(s.events, e)
    requires t.events == s.events - {e} && t.now == e.time && t.nextSequence == s.nextSequence
    requires e.job in s.jobs && e.job in t.jobs && t.jobs == s.jobs[e.job := t.jobs[e.job]]
    requires t.jobs[e.job].state != Pending && t.jobs[e.job].state != Running
    ensures EventsOk(t)
  {
    forall f | f in t.events ensures Owed(t, f) {
      assert Owed(s, f) && Earlier(e, f);
    }
    forall id | id in t.jobs && (t.jobs[id].state == Pending || t.jobs[id].state == Running) ensures HasEvent(t, id) {
      assert HasEvent(s, id);
      var f :| f in s.events && f.job == id;
      assert f in t.events;
    }
  }

  lemma LogMore(log: seq<Event>, e: Event)
    ensures forall id, phase :: HasLogged(log + [e], id, phase) <==>
              HasLogged(log, id, phase) || (id == e.job && phase == e.phase)
  {
    var more := log + [e];
    assert more[|log|] == e;
    forall id, phase | HasLogged(log, id, phase) ensures HasLogged(more, id, phase) {
      var i :| 0 <= i < |log| && log[i].job == id && log[i].phase == phase;
      assert more[i].job == id;
    }
  }

  /** Handling an event logs it: its job had logged none of that phase before. */
  lemma PopTells(jobs: map<JobId, Runtime>, log: seq<Event>, e: Event, r: Runtime)
    requires LogTells(jobs, log) && e.job in jobs && r.spec == jobs[e.job].spec
    requires e.phase == Arrival ==>
               && jobs[e.job].state == Pending && e.time == r.spec.arrival
               && (r.state == Queued || r.state == Infeasible)
    requires e.phase == Release ==>
               jobs[e.job].state == Running && r.state == Completed && r.completion == Some(e.time)
    ensures LogTells(jobs[e.job := r], log + [e])
  {
    hide HasLogged;
    var jobs', more := jobs[e.job := r], log + [e];
    LogMore(log, e);
    forall i | 0 <= i < |more|
      ensures Logged(jobs', more[i]) && (i < |log| && more[i].job == e.job ==> more[i].phase != e.phase)
    {
      if i < |log| {
        assert Logged(jobs, log[i]);
      }
    }
  }

  lemma StartTells(jobs: map<JobId, Runtime>, log: seq<Event>, id: JobId, r: Runtime)
    requires LogTells(jobs, log) && id in jobs && jobs[id].state == Queued
    requires r.spec == jobs[id].spec && r.state == Running
    ensures LogTells(jobs[id := r], log)
  {
    hide HasLogged;
    var jobs' := jobs[id := r];
    forall i | 0 <= i < |log| ensures Logged(jobs', log[i]) {
      assert Logged(jobs, log[i]);
    }
  }

  /** One job's record changes; every other fact about jobs only ages. */
  lemma PopJobs(trace: Trace, s: Sim, t: Sim, id: JobId)
    requires JobsOk(trace, s) && s.now <= t.now
    requires id in s.jobs && id in t.jobs && t.jobs == s.jobs[id := t.jobs[id]]
    requires t.jobs[id].spec == s.jobs[id].spec && RuntimeOk(trace.config, t.jobs[id], t.now)
    ensures JobsOk(trace, t) && |t.jobs| == |s.jobs|
  {
    hide Feasible;
    hide KnownTenant;
    assert t.jobs.Keys == s.jobs.Keys;
    assert |t.jobs| == |t.jobs.Keys| && |s.jobs| == |s.jobs.Keys|;
  }

  lemma ArriveHeld(config: Config, s: Sim, e: Event)
    requires HeldOk(config, s) && HistoryOk(s.jobs, s.history)
    requires e.job in s.jobs && s.jobs[e.job].state == Pending
    requires KnownTenant(config.tenants, s.jobs[e.job].spec.tenant)
    ensures var t := Arrive(config, s, e); HeldOk(config, t) && HistoryOk(t.jobs, t.history)
  {
    var t := Arrive(config, s, e);
    assert RunningJobs(t.jobs) == RunningJobs(s.jobs);
    forall i | 0 <= i < |t.history| ensures Records(t.jobs, t.history[i]) {
      assert Records(s.jobs, s.history[i]);
    }
  }

  lemma ArrivePreserves(trace: Trace, s: Sim, e: Event)
    requires Inv(trace, s) && IsNext(s.events, e) && e.phase == Arrival
    ensures Owed(s, e) && Inv(trace, Arrive(trace.config, s, e))
  {
    hide HeldOk;
    hide HistoryOk;
    hide GpusOk;
    hide AlwaysSafe;
    hide LogOk;
    var t := Arrive(trace.config, s, e);
    PopJobs(trace, s, t, e.job);
    hide LogTells;
    PopLog(s, t, e);
    PopTells(s.jobs, s.log, e, t.jobs[e.job]);
    PopEvents(s, t, e);
    ArriveHeld(trace.config, s, e);
  }

  lemma FinishHeld(config: Config, s: Sim, e: Event)
    requires HeldOk(config, s) && HistoryOk(s.jobs, s.history)
    requires e.job in s.jobs && s.jobs[e.job].state == Running
    ensures Holds(s.held, e.job) && HeldOk(config, Finish(s, e))
  {
    hide Safe;
    hide Select;
    hide Records;
    var t := Finish(s, e);
    var running := RunningJobs(s.jobs);
    var i :| 0 <= i < |s.history| && s.history[i].job == e.job;
    SelectMember(s.history, running, i);
    var k :| 0 <= k < |s.held| && s.held[k] == s.history[i];
    ReleaseSound(config.capacity, config.gpus, s.held, k);
    SelectMinus(s.history, running, e.job);
    assert RunningJobs(t.jobs) == running - {e.job};
    ReleaseSafe(config, s.held, k);
  }

  lemma ReleaseSafe(config: Config, held: seq<Allocation>, k: nat)
    requires DistinctJobs(held) && k < |held| && Safe(config, held)
    ensures Safe(config, Without(held, held[k].job))
  {
    WithoutSum(held, k, Whole);
    forall p | p in config.tenants
      ensures Use(Without(held, held[k].job), Of(p.id)).FitsWithin(p.quota)
              && Count(Without(held, held[k].job), Of(p.id)) <= p.maxRunning
    {
      WithoutSum(held, k, Of(p.id));
    }
  }

  lemma FinishHistory(s: Sim, e: Event)
    requires HistoryOk(s.jobs, s.history) && e.job in s.jobs && s.jobs[e.job].state == Running
    ensures var t := Finish(s, e); HistoryOk(t.jobs, t.history)
  {
    forall i | 0 <= i < |s.history| ensures Records(Finish(s, e).jobs, s.history[i]) {
      assert Records(s.jobs, s.history[i]);
    }
  }

  lemma FinishPreserves(trace: Trace, s: Sim, e: Event)
    requires Inv(trace, s) && IsNext(s.events, e) && e.phase == Release
    ensures Owed(s, e) && Inv(trace, Finish(s, e)) && Holds(s.held, e.job)
  {
    hide Feasible;
    hide HeldOk;
    hide HistoryOk;
    hide GpusOk;
    hide AlwaysSafe;
    hide LogOk;
    var t := Finish(s, e);
    PopJobs(trace, s, t, e.job);
    hide LogTells;
    PopLog(s, t, e);
    PopTells(s.jobs, s.log, e, t.jobs[e.job]);
    PopEvents(s, t, e);
    FinishHeld(trace.config, s, e);
    FinishHistory(s, e);
  }

  // ---- dispatching ---------------------------------------------------------------------

  lemma StartEvents(config: Config, s: Sim, id: JobId)
    requires EventsOk(s)
    requires id in s.jobs && s.jobs[id].state == Queued && s.jobs[id].spec.duration > 0
    ensures EventsOk(Start(config, s, id))
    ensures Event(s.now + s.jobs[id].spec.duration, Release, s.nextSequence, id) !in s.events
  {
    var t := Start(config, s, id);
    var n := Event(s.now + s.jobs[id].spec.duration, Release, s.nextSequence, id);
    forall e | e in s.events ensures e.job != id && e.sequence < n.sequence {
      assert Owed(s, e);
    }
    forall e | e in t.events ensures Owed(t, e) {
      if e != n {
        assert Owed(s, e);
      }
    }
    forall j | j in t.jobs && (t.jobs[j].state == Pending || t.jobs[j].state == Running) ensures HasEvent(t, j) {
      if j == id {
        assert n in t.events;
      } else {
        assert HasEvent(s, j);
        var f :| f in s.events && f.job == j;
        assert f in t.events;
      }
    }
  }

  lemma StartLog(config: Config, s: Sim, id: JobId)
    requires LogOk(s) && id in s.jobs && s.jobs[id].spec.duration > 0
    requires Event(s.now + s.jobs[id].spec.duration, Release, s.nextSequence, id) !in s.events
    ensures LogOk(Start(config, s, id))
  {
    var t := Start(config, s, id);
    assert t.jobs.Keys == s.jobs.Keys;
    assert |t.events| == |s.events| + 1;
  }

  /** A queued job has no allocation yet. */
  lemma NotStarted(s: Sim, id: JobId)
    requires HistoryOk(s.jobs, s.history) && id in s.jobs && s.jobs[id].state == Queued
    requires s.held == Select(s.history, RunningJobs(s.jobs))
    ensures !Holds(s.history, id) && !Holds(s.held, id)
  {
    forall i | 0 <= i < |s.history| ensures s.history[i].job != id {
      assert Records(s.jobs, s.history[i]);
    }
    if Holds(s.held, id) {
      var k :| 0 <= k < |s.held| && s.held[k].job == id;
      SelectFrom(s.history, RunningJobs(s.jobs), k);
    }
  }

  /** Room for a job means the larger set of allocations is safe. */
  lemma RoomIsSafe(config: Config, active: seq<Allocation>, job: JobSpec, a: Allocation)
    requires DistinctTenants(config.tenants) && KnownTenant(config.tenants, job.tenant)
    requires Safe(config, active) && HasRoom(config, active, job)
    requires a.tenant == job.tenant && a.resources == job.resources
    ensures Safe(config, active + [a])
  {
    UseAppend(active, a, Whole);
    forall p | p in config.tenants
      ensures Use(active + [a], Of(p.id)).FitsWithin(p.quota) && Count(active + [a], Of(p.id)) <= p.maxRunning
    {
      UseAppend(active, a, Of(p.id));
      if p.id == job.tenant {
        assert p == FindTenant(config.tenants, job.tenant);
      }
    }
  }

  lemma StartHeld(config: Config, s: Sim, id: JobId)
    requires ValidConfig(config) && HeldOk(config, s) && HistoryOk(s.jobs, s.history)
    requires id in s.jobs && s.jobs[id].state == Queued && KnownTenant(config.tenants, s.jobs[id].spec.tenant)
    requires s.jobs[id].spec.id == id && HasRoom(config, s.held, s.jobs[id].spec)
    ensures HeldOk(config, Start(config, s, id)) && !Holds(s.history, id) && !Holds(s.held, id)
  {
    var t := Start(config, s, id);
    var job := s.jobs[id].spec;
    var a := Grant(config.gpus, s.held, job, s.now);
    var running := RunningJobs(s.jobs);
    NotStarted(s, id);
    AllocateSound(config.capacity, config.gpus, s.held, job, s.now);
    RoomIsSafe(config, s.held, job, a);
    assert RunningJobs(t.jobs) == running + {id};
    SelectSame(s.history, running, running + {id});
    assert t.history[..|s.history|] == s.history;
  }

  /** From now on only held allocations can be in force. */
  lemma StillHeld(trace: Trace, s: Sim, instant: int)
    requires JobsOk(trace, s) && HistoryOk(s.jobs, s.history) && s.now <= instant
    ensures forall i :: 0 <= i < |s.history| && ActiveIn(s.history[i], instant) ==>
              s.history[i].job in RunningJobs(s.jobs)
  {
    forall i | 0 <= i < |s.history| && ActiveIn(s.history[i], instant)
      ensures s.history[i].job in RunningJobs(s.jobs)
    {
      assert Records(s.jobs, s.history[i]);
      assert RuntimeOk(trace.config, s.jobs[s.history[i].job], s.now);
    }
  }

  /** The new allocation meets only allocations that are still held. */
  lemma StartSafe(config: Config, s: Sim, id: JobId, instant: int)
    requires Safe(config, ActiveAt(s.history, instant)) && id in s.jobs
    requires Safe(config, Start(config, s, id).held) && s.held == Select(s.history, RunningJobs(s.jobs))
    requires s.now <= instant ==>
               forall i :: 0 <= i < |s.history| && ActiveIn(s.history[i], instant) ==>
                 s.history[i].job in RunningJobs(s.jobs)
    ensures Safe(config, ActiveAt(Start(config, s, id).history, instant))
  {
    var a := Grant(config.gpus, s.held, s.jobs[id].spec, s.now);
    var active := ActiveAt(s.history, instant);
    ActiveAppend(s.history, a, instant);
    if ActiveIn(a, instant) {
      ActiveWithin(s.history, instant, RunningJobs(s.jobs), Whole);
      UseAppend(active, a, Whole);
      UseAppend(s.held, a, Whole);
      forall p | p in config.tenants
        ensures Use(active + [a], Of(p.id)).FitsWithin(p.quota) && Count(active + [a], Of(p.id)) <= p.maxRunning
      {
        ActiveWithin(s.history, instant, RunningJobs(s.jobs), Of(p.id));
        UseAppend(active, a, Of(p.id));
        UseAppend(s.held, a, Of(p.id));
      }
    }
  }

  lemma StartGpus(config: Config, s: Sim, id: JobId)
    requires ValidConfig(config) && HeldOk(config, s) && GpusOk(config.gpus, s.history)
    requires id in s.jobs && KnownTenant(config.tenants, s.jobs[id].spec.tenant)
             && HasRoom(config, s.held, s.jobs[id].spec)
    requires forall i :: 0 <= i < |s.history| ==> s.history[i].start <= s.now
    requires forall i :: 0 <= i < |s.history| && ActiveIn(s.history[i], s.now) ==>
               s.history[i].job in RunningJobs(s.jobs)
    ensures GpusOk(config.gpus, Start(config, s, id).history)
  {
    var job := s.jobs[id].spec;
    var a := Grant(config.gpus, s.held, job, s.now);
    GrantGpus(config.capacity, config.gpus, s.held, job, s.now);
    forall i | 0 <= i < |s.history| && Overlap(s.history[i], a) ensures DisjointGpus(s.history[i], a) {
      assert ActiveIn(s.history[i], s.now);
      SelectMember(s.history, RunningJobs(s.jobs), i);
    }
  }

  lemma StartHistory(config: Config, s: Sim, id: JobId)
    requires HistoryOk(s.jobs, s.history) && !Holds(s.history, id)
    requires id in s.jobs && s.jobs[id].spec.id == id
    ensures var t := Start(config, s, id); HistoryOk(t.jobs, t.history)
  {
    var t := Start(config, s, id);
    forall i | 0 <= i < |t.history| ensures Records(t.jobs, t.history[i]) {
      if i < |s.history| {
        assert Records(s.jobs, s.history[i]);
      }
    }
    forall j | j in t.jobs && (t.jobs[j].state == Running || t.jobs[j].state == Completed) ensures Holds(t.history, j) {
      if j == id {
        assert t.history[|s.history|].job == id;
      } else {
        assert Holds(s.history, j);
        var i :| 0 <= i < |s.history| && s.history[i].job == j;
        assert t.history[i].job == j;
      }
    }
  }

  lemma StartedBefore(trace: Trace, s: Sim)
    requires JobsOk(trace, s) && HistoryOk(s.jobs, s.history)
    ensures forall i :: 0 <= i < |s.history| ==> s.history[i].start <= s.now
  {
    forall i | 0 <= i < |s.history| ensures s.history[i].start <= s.now {
      assert Records(s.jobs, s.history[i]);
      assert RuntimeOk(trace.config, s.jobs[s.history[i].job], s.now);
    }
  }

  lemma StartPreserves(trace: Trace, s: Sim, id: JobId)
    requires ValidConfig(trace.config) && Inv(trace, s)
    requires id in s.jobs && s.jobs[id].state == Queued && HasRoom(trace.config, s.held, s.jobs[id].spec)
    ensures Inv(trace, Start(trace.config, s, id)) && !Holds(s.held, id)
  {
    hide EventsOk;
    hide HistoryOk;
    hide GpusOk;
    hide LogOk;
    hide HasRoom;
    var t := Start(trace.config, s, id);
    PopJobs(trace, s, t, id);
    StartEvents(trace.config, s, id);
    StartLog(trace.config, s, id);
    hide LogTells;
    StartTells(s.jobs, s.log, id, t.jobs[id]);
    StartHeld(trace.config, s, id);
    StartHistory(trace.config, s, id);
    StartedBefore(trace, s);
    StillHeld(trace, s, s.now);
    StartGpus(trace.config, s, id);
    forall instant ensures Safe(trace.config, ActiveAt(t.history, instant)) {
      if s.now <= instant {
        StillHeld(trace, s, instant);
      }
      StartSafe(trace.config, s, id, instant);
    }
  }

  // ---- work conservation ---------------------------------------------------------------

  /** Between now and the next event, what is in force is exactly what is held. */
  lemma ActiveIsHeld(trace: Trace, s: Sim, instant: int)
    requires JobsOk(trace, s) && EventsOk(s) && HistoryOk(s.jobs, s.history) && s.now <= instant
    requires forall e :: e in s.events ==> instant < e.time
    ensures ActiveAt(s.history, instant) == Select(s.history, RunningJobs(s.jobs))
  {
    StillHeld(trace, s, instant);
    forall i | 0 <= i < |s.history| && s.history[i].job in RunningJobs(s.jobs)
      ensures ActiveIn(s.history[i], instant)
    {
      var id := s.history[i].job;
      assert Records(s.jobs, s.history[i]) && HasEvent(s, id);
      var e :| e in s.events && e.job == id;
      assert Owed(s, e) && RuntimeOk(trace.config, s.jobs[id], s.now);
    }
    ActiveExactly(s.history, instant, RunningJobs(s.jobs));
  }

  lemma PendingNotArrived(s: Sim, id: JobId, instant: int)
    requires EventsOk(s) && id in s.jobs && s.jobs[id].state == Pending
    requires forall e :: e in s.events ==> instant < e.time
    ensures instant < s.jobs[id].spec.arrival
  {
    assert HasEvent(s, id);
    var e :| e in s.events && e.job == id;
    assert Owed(s, e);
  }

  /** A waiting job is queued as long as no event has passed. */
  lemma WaitingIsQueued(trace: Trace, s: Sim, id: JobId, instant: int)
    requires JobsOk(trace, s) && EventsOk(s) && s.now <= instant
    requires forall e :: e in s.events ==> instant < e.time
    requires id in s.jobs && WaitingAt(trace.config, s.jobs[id], instant)
    ensures s.jobs[id].state == Queued
  {
    assert RuntimeOk(trace.config, s.jobs[id], s.now);
    if s.jobs[id].state == Pending {
      PendingNotArrived(s, id, instant);
      assert false;
    }
  }

  /** A quiet state stays settled up to the time of its next event. */
  lemma QuietUntil(trace: Trace, s: Sim, until: int)
    requires JobsOk(trace, s) && EventsOk(s) && HistoryOk(s.jobs, s.history)
    requires s.held == Select(s.history, RunningJobs(s.jobs))
    requires WorkConserving(trace.config, s.jobs, s.history, s.now)
    requires Quiet(trace.config, s) && s.now <= until
    requires forall e :: e in s.events ==> until <= e.time
    ensures WorkConserving(trace.config, s.jobs, s.history, until)
  {
    forall id, instant | id in s.jobs && WaitingAt(trace.config, s.jobs[id], instant) && instant < until
      ensures !HasRoom(trace.config, ActiveAt(s.history, instant), s.jobs[id].spec)
    {
      if s.now <= instant {
        ActiveIsHeld(trace, s, instant);
        WaitingIsQueued(trace, s, id, instant);
      }
    }
  }

  /** Records whose specification and dispatch time agree wait at the same instants. */
  lemma SameWaiting(config: Config, jobs: map<JobId, Runtime>, jobs': map<JobId, Runtime>, history: seq<Allocation>,
                    until: int)
    requires WorkConserving(config, jobs, history, until)
    requires jobs'.Keys == jobs.Keys
    requires forall id :: id in jobs ==> jobs'[id].spec == jobs[id].spec && jobs'[id].dispatch == jobs[id].dispatch
    ensures WorkConserving(config, jobs', history, until)
  {
    forall id, instant | id in jobs' && WaitingAt(config, jobs'[id], instant) && instant < until
      ensures !HasRoom(config, ActiveAt(history, instant), jobs'[id].spec)
    {
      assert WaitingAt(config, jobs[id], instant);
    }
  }

  /** Handling an event at a later time keeps earlier instants settled. */
  lemma PopConserving(trace: Trace, s: Sim, e: Event, t: Sim)
    requires JobsOk(trace, s) && EventsOk(s) && HistoryOk(s.jobs, s.history) && HeldOk(trace.config, s)
             && IsNext(s.events, e)
    requires WorkConserving(trace.config, s.jobs, s.history, s.now)
    requires e.time > s.now ==> Quiet(trace.config, s)
    requires e.job in s.jobs && t.now == e.time && t.history == s.history
    requires e.job in t.jobs && t.jobs == s.jobs[e.job := t.jobs[e.job]]
    requires t.jobs[e.job].spec == s.jobs[e.job].spec && t.jobs[e.job].dispatch == s.jobs[e.job].dispatch
    ensures WorkConserving(trace.config, t.jobs, t.history, t.now)
  {
    NextFacts(trace, s, e);
    hide *;
    if e.time > s.now {
      QuietUntil(trace, s, e.time);
    }
    SameWaiting(trace.config, s.jobs, t.jobs, s.history, e.time);
  }

  lemma NextFacts(trace: Trace, s: Sim, e: Event)
    requires EventsOk(s) && HeldOk(trace.config, s) && IsNext(s.events, e)
    ensures s.now <= e.time && (forall f :: f in s.events ==> e.time <= f.time)
    ensures s.held == Select(s.history, RunningJobs(s.jobs))
  {
    hide Safe;
    hide Sound;
    assert Owed(s, e);
  }

  lemma StartConserving(config: Config, s: Sim, id: JobId)
    requires WorkConserving(config, s.jobs, s.history, s.now)
    requires id in s.jobs && s.jobs[id].dispatch.None?
    ensures var t := Start(config, s, id); WorkConserving(config, t.jobs, t.history, t.now)
  {
    var t := Start(config, s, id);
    forall j, instant | j in t.jobs && WaitingAt(config, t.jobs[j], instant) && instant < t.now
      ensures !HasRoom(config, ActiveAt(t.history, instant), t.jobs[j].spec)
    {
      ActiveAppend(s.history, t.history[|s.history|], instant);
      assert WaitingAt(config, s.jobs[j], instant);
    }
  }
}
