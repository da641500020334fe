/** The single steps of the product-policy engine (benchmarks/b04/engine.py) and the invariants
    each of them keeps. */
module ProductSteps {
  import opened Wrappers
  import opened Resources
  import opened Workload
  import opened Ledger
  import opened SimulationState
  import opened WaitHistory
  import opened EligibleWait
  import Simulator

  predicate Stops(d: Decision) {
    d.DrainForReservation? || d.NoDecision?
  }

  /** The answers of one instant: the loop goes on asking until one of them stops it. */
  predicate Ends(answers: seq<Decision>) {
    answers != [] && Stops(answers[|answers| - 1])
  }

  predicate WithinLimits(config: Config, held: seq<Allocation>) {
    forall i :: 0 <= i < |config.tenants| ==>
      var t := config.tenants[i];
      Use(held, Of(t.id)).FitsWithin(t.quota) && Count(held, Of(t.id)) <= t.maxRunning
  }

  /** The checks of a dispatch, once met, stay met when an allocation is released. */
  lemma LimitsAfterRelease(config: Config, ledger: AllocationLedger, id: JobId)
    requires ledger.Valid() && WithinLimits(config, ledger.held) && Holds(ledger.held, id)
    ensures WithinLimits(config, Ledger.Without(ledger.held, id))
  {
    var held := ledger.held;
    var k :| 0 <= k < |held| && held[k].job == id;
    forall i | 0 <= i < |config.tenants| ensures
      var t, rest := config.tenants[i], Ledger.Without(held, id);
      Use(rest, Of(t.id)).FitsWithin(t.quota) && Count(rest, Of(t.id)) <= t.maxRunning
    {
      WithoutSum(held, k, Of(config.tenants[i].id));
    }
  }

  lemma NoLimits(trace: Trace)
    requires ValidTrace(trace)
    ensures WithinLimits(trace.config, [])
  {
    forall i | 0 <= i < |trace.config.tenants| ensures trace.config.tenants[i].maxRunning >= 1 {
      assert trace.config.tenants[i] in trace.config.tenants;
    }
  }

  /** At most one reservation is active at a time. */
  function ReservedAfter(d: Decision, reserved: bool): bool {
    match d
    case Dispatch(_, fromReservation) => reserved && !fromReservation
    case CreateReservation => true
    case InvalidateReservation => false
    case _ => reserved
  }

  /** What the events of this instant make of a job. */
  function StateAfter(config: Config, j: MutableJob, taken: set<Moment>, now: int): JobState
    requires KnownTenant(config.tenants, j.spec.tenant)
  {
    if Moment(now, Arrives(j.spec.id)) in taken then ArrivalState(config, j.spec)
    else if Moment(now, Releases(j.spec.id)) in taken then Completed
    else j.state
  }

  ghost predicate Taken(config: Config, jobs: map<JobId, MutableJob>, taken: set<Moment>, now: int,
                        jobs': map<JobId, MutableJob>)
    requires JobsKnown(config, jobs)
  {
    && jobs'.Keys == jobs.Keys
    && forall id :: id in jobs ==> jobs'[id] == jobs[id].(state := StateAfter(config, jobs[id], taken, now))
  }

  /** The allocations of the jobs released at this instant are gone, all others are held. */
  function Kept(held: seq<Allocation>, taken: set<Moment>, now: int): seq<Allocation> {
    if held == [] then []
    else
      var rest := Kept(held[..|held| - 1], taken, now);
      if Moment(now, Releases(held[|held| - 1].job)) in taken then rest else rest + [held[|held| - 1]]
  }

  lemma {:induction false} KeptStep(held: seq<Allocation>, taken: set<Moment>, now: int, e: Moment)
    requires e.time == now
    ensures Kept(held, taken + {e}, now) ==
            if e.what.Releases? then Ledger.Without(Kept(held, taken, now), e.what.job) else Kept(held, taken, now)
  {
    if held != [] {
      var n := |held| - 1;
      KeptStep(held[..n], taken, now, e);
      var rest := Kept(held[..n], taken, now);
      assert (rest + [held[n]])[..|rest|] == rest;
    }
  }

  lemma {:induction false} KeptSame(held: seq<Allocation>, events: set<Moment>, left: set<Moment>, now: int)
    requires forall e :: e in left ==> e.time != now
    ensures Kept(held, events - left, now) == Kept(held, events, now)
  {
    if held != [] {
      KeptSame(held[..|held| - 1], events, left, now);
      assert Moment(now, Releases(held[|held| - 1].job)) !in left;
    }
  }

  lemma {:induction false} KeptAll(held: seq<Allocation>, now: int)
    ensures Kept(held, {}, now) == held
  {
    if held != [] {
      KeptAll(held[..|held| - 1], now);
    }
  }

  lemma TakenNone(config: Config, jobs: map<JobId, MutableJob>, now: int)
    requires JobsKnown(config, jobs)
    ensures Taken(config, jobs, {}, now, jobs)
  {
  }

  lemma TakenStep(config: Config, jobs: map<JobId, MutableJob>, held: seq<Allocation>, events: set<Moment>,
                  taken: set<Moment>, now: int, jobs': map<JobId, MutableJob>, e: Moment, state: JobState)
    requires JobsKnown(config, jobs) && MomentsOk(jobs, held, events) && Taken(config, jobs, taken, now, jobs')
    requires taken <= events && e in events && e !in taken && e.time == now
    requires (e.what.Arrives? || e.what.Releases?) && e.what.job in jobs
    requires state == if e.what.Arrives? then ArrivalState(config, jobs[e.what.job].spec) else Completed
    ensures Taken(config, jobs, taken + {e}, now, jobs'[e.what.job := jobs'[e.what.job].(state := state)])
  {
    hide ArrivalState;
    var id := e.what.job;
    var done, after := taken + {e}, jobs'[id := jobs'[id].(state := state)];
    var other := if e.what.Arrives? then Moment(now, Releases(id)) else Moment(now, Arrives(id));
    assert AboutJob(e, id) && AboutJob(other, id);
    assert other in events ==> other == e;
    forall k | k in jobs ensures after[k] == jobs[k].(state := StateAfter(config, jobs[k], done, now)) {
      assert jobs[k].spec.id == k;
    }
  }

  lemma TakenSame(config: Config, jobs: map<JobId, MutableJob>, taken: set<Moment>, now: int,
                  jobs': map<JobId, MutableJob>, e: Moment)
    requires JobsKnown(config, jobs) && Taken(config, jobs, taken, now, jobs') && (e.what.Wakes? || e.what.Ticks?)
    ensures Taken(config, jobs, taken + {e}, now, jobs')
  {
  }

  /** The job an event is about as it is found, and how the event leaves all jobs. */
  lemma TakenAny(config: Config, jobs: map<JobId, MutableJob>, held: seq<Allocation>, events: set<Moment>,
                 taken: set<Moment>, now: int, jobs': map<JobId, MutableJob>, e: Moment)
    requires JobsKnown(config, jobs) && MomentsOk(jobs, held, events) && Taken(config, jobs, taken, now, jobs')
    requires taken <= events && e in events && e !in taken && e.time == now
    ensures e.what.Releases? ==>
              && e.what.job in jobs'
              && Taken(config, jobs, taken + {e}, now, jobs'[e.what.job := jobs'[e.what.job].(state := Completed)])
    ensures e.what.Arrives? ==>
              && e.what.job in jobs' && KnownTenant(config.tenants, jobs'[e.what.job].spec.tenant)
              && Taken(config, jobs, taken + {e}, now,
                       jobs'[e.what.job := jobs'[e.what.job].(state := ArrivalState(config, jobs'[e.what.job].spec))])
    ensures e.what.Wakes? || e.what.Ticks? ==> Taken(config, jobs, taken + {e}, now, jobs')
  {
    hide ArrivalState;
    if e.what.Wakes? || e.what.Ticks? {
      TakenSame(config, jobs, taken, now, jobs', e);
    } else {
      assert MomentOk(jobs, held, e);
      TakenStep(config, jobs, held, events, taken, now, jobs', e,
                if e.what.Arrives? then ArrivalState(config, jobs[e.what.job].spec) else Completed);
    }
  }

  /** What a dispatch must meet: the ledger accepts the job and no tenant limit is exceeded. */
  predicate CanStart(config: Config, capacity: ResourceVector, gpus: seq<GpuId>, held: seq<Allocation>, job: JobSpec,
                     now: int) {
    && !Holds(held, job.id) && Use(held, Whole).Add(job.resources).FitsWithin(capacity)
    && WithinLimits(config, held + [Grant(gpus, held, job, now)])
  }

  /** Only wakeups of later moments were added. */
  ghost predicate OnlyWakeups(events: set<Moment>, events': set<Moment>, now: int) {
    events <= events' && forall e :: e in events' && e !in events ==> e.what.Wakes? && now < e.time
  }

  lemma MoreWakes(events: set<Moment>, events': set<Moment>, events'': set<Moment>, now: int)
    ensures OnlyWakeups(events, events, now)
    ensures OnlyWakeups(events, events', now) && OnlyWakeups(events', events'', now) ==>
              OnlyWakeups(events, events'', now)
  {
  }

  function ArrivalState(config: Config, job: JobSpec): JobState
    requires KnownTenant(config.tenants, job.tenant)
  {
    if Feasible(config, job) then Queued else Infeasible
  }

  // ---- single changes and the invariants ---------------------------------------------------------

  lemma WakeupsKeepMoments(jobs: map<JobId, MutableJob>, held: seq<Allocation>, events: set<Moment>,
                           events': set<Moment>, now: int)
    requires MomentsOk(jobs, held, events) && OnlyWakeups(events, events', now)
    ensures MomentsOk(jobs, held, events')
  {
  }

  lemma SameStatesKeepMoments(jobs: map<JobId, MutableJob>, jobs': map<JobId, MutableJob>, held: seq<Allocation>,
                              events: set<Moment>)
    requires MomentsOk(jobs, held, events) && jobs'.Keys == jobs.Keys
    requires forall id :: id in jobs ==> jobs'[id].state == jobs[id].state
    ensures MomentsOk(jobs', held, events)
  {
    forall e | e in events ensures MomentOk(jobs', held, e) {
      assert MomentOk(jobs, held, e);
    }
  }

  /** After a job's own event is taken, changing that job disturbs no other event. */
  lemma TakeMoment(jobs: map<JobId, MutableJob>, jobs': map<JobId, MutableJob>, held: seq<Allocation>,
                   held': seq<Allocation>, events: set<Moment>, e: Moment, id: JobId)
    requires MomentsOk(jobs, held, events) && e in events && AboutJob(e, id)
    requires jobs'.Keys == jobs.Keys && forall k :: k in jobs && k != id ==> jobs'[k].state == jobs[k].state
    requires forall k :: k != id && Holds(held, k) ==> Holds(held', k)
    ensures MomentsOk(jobs', held', events - {e})
  {
    forall f | f in events - {e} ensures MomentOk(jobs', held', f) {
      assert MomentOk(jobs, held, f);
      assert !AboutJob(f, id);
    }
  }

  lemma OneFewer(jobs: map<JobId, MutableJob>, held: seq<Allocation>, events: set<Moment>, e: Moment)
    requires MomentsOk(jobs, held, events)
    ensures MomentsOk(jobs, held, events - {e})
  {
  }

  /** Starting a queued job adds its release, its only event. */
  lemma StartMoment(jobs: map<JobId, MutableJob>, held: seq<Allocation>, a: Allocation, events: set<Moment>, time: int,
                    id: JobId)
    requires MomentsOk(jobs, held, events) && id in jobs && jobs[id].state == Queued && a.job == id
    ensures MomentsOk(jobs[id := jobs[id].(state := Running)], held + [a], events + {Moment(time, Releases(id))})
  {
    var jobs' := jobs[id := jobs[id].(state := Running)];
    var held' := held + [a];
    assert held'[|held|] == a;
    forall e | e in events ensures MomentOk(jobs', held', e) && !AboutJob(e, id) {
      assert MomentOk(jobs, held, e);
      if e.what.Releases? {
        var k :| 0 <= k < |held| && held[k].job == e.what.job;
        assert held'[k].job == e.what.job;
      }
    }
  }

  lemma StillHolds(held: seq<Allocation>, job: JobId, k: JobId)
    requires k != job && Holds(held, k)
    ensures Holds(Ledger.Without(held, job), k)
  {
    var i :| 0 <= i < |held| && held[i].job == k;
    WithoutMember(held, job, held[i]);
    assert held[i] in Ledger.Without(held, job);
    var rest := Ledger.Without(held, job);
    var j :| 0 <= j < |rest| && rest[j] == held[i];
  }

  /** A change of state alone changes no wait and no wakeup. */
  lemma StateOnly(config: Config, jobs: map<JobId, MutableJob>, id: JobId, state: JobState, history: History, now: int,
                  wakeups: set<Wakeup>)
    requires id in jobs && JobsKnown(config, jobs) && WaitsOk(jobs, history, now) && LiveOk(jobs, now, wakeups)
    ensures var jobs' := jobs[id := jobs[id].(state := state)];
            JobsKnown(config, jobs') && WaitsOk(jobs', history, now) && LiveOk(jobs', now, wakeups)
  {
    hide TotalMs;
    var jobs' := jobs[id := jobs[id].(state := state)];
    forall k | k in jobs' ensures WaitOk(jobs'[k], TotalMs(history, k), now) && Live(jobs'[k], now, wakeups) {
      assert WaitOk(jobs[k], TotalMs(history, k), now) && Live(jobs[k], now, wakeups);
    }
  }

  lemma RefreshOne(config: Config, jobs: map<JobId, MutableJob>, id: JobId, eligible: bool, history: History, now: int,
                   wakeups: set<Wakeup>, wakeups': set<Wakeup>)
    requires id in jobs && JobsKnown(config, jobs) && WaitsOk(jobs, history, now) && LiveOk(jobs, now, wakeups)
             && wakeups <= wakeups'
    requires jobs[id].since.Some? ==> jobs[id].since.value <= now
    requires Live(Refreshed(jobs[id], eligible, now), now, wakeups')
    ensures var jobs' := jobs[id := Refreshed(jobs[id], eligible, now)];
            JobsKnown(config, jobs') && WaitsOk(jobs', history, now) && LiveOk(jobs', now, wakeups')
  {
    hide TotalMs;
    hide Live;
    hide WaitOk;
    var j := Refreshed(jobs[id], eligible, now);
    var jobs' := jobs[id := j];
    RefreshKeepsWait(jobs[id], eligible, now, TotalMs(history, id));
    forall k | k in jobs' ensures WaitOk(jobs'[k], TotalMs(history, k), now) && Live(jobs'[k], now, wakeups') {
      assert WaitOk(jobs[k], TotalMs(history, k), now) && Live(jobs[k], now, wakeups);
      MoreWakeups(jobs[k], now, wakeups, wakeups');
    }
  }

  lemma TickApart(events: set<Moment>, events': set<Moment>, wakeups: set<Wakeup>)
    requires WakeupsOk(events, wakeups) && forall e: Moment :: e.what.Wakes? ==> (e in events <==> e in events')
    ensures WakeupsOk(events', wakeups)
  {
    forall w ensures w in wakeups <==> Moment(w.time, Wakes(w.kind)) in events' {
      var e := Moment(w.time, Wakes(w.kind));
      assert e in events <==> e in events';
    }
  }

  lemma WakeApart(events: set<Moment>, events': set<Moment>, nextTick: Option<int>)
    requires TickOk(events, nextTick) && forall e: Moment :: e.what.Ticks? ==> (e in events <==> e in events')
    ensures TickOk(events', nextTick)
  {
    forall time ensures Moment(time, Ticks) in events' <==> nextTick == Some(time) {
      var e := Moment(time, Ticks);
      assert e in events <==> e in events';
    }
  }

  lemma WaitAt(jobs: map<JobId, MutableJob>, history: History, now: int, id: JobId)
    requires WaitsOk(jobs, history, now) && id in jobs
    ensures WaitOk(jobs[id], TotalMs(history, id), now)
  {
  }

  function InitialJobs(specs: seq<JobSpec>): map<JobId, MutableJob> {
    if specs == [] then map[]
    else
      var job := specs[|specs| - 1];
      InitialJobs(specs[..|specs| - 1])[job.id := MutableJob(job, Pending, 0, None)]
  }

  function InitialMoments(specs: seq<JobSpec>): set<Moment> {
    set i | 0 <= i < |specs| :: Moment(specs[i].arrival, Arrives(specs[i].id))
  }

  lemma {:induction false} InitialJob(specs: seq<JobSpec>)
    ensures forall i :: 0 <= i < |specs| ==> specs[i].id in InitialJobs(specs)
    ensures forall id :: id in InitialJobs(specs) ==>
              var j := InitialJobs(specs)[id];
              j.spec in specs && j.spec.id == id && j.state == Pending && j.waited == 0 && j.since == None
  {
    if specs != [] {
      var n := |specs| - 1;
      InitialJob(specs[..n]);
      assert specs == specs[..n] + [specs[n]];
    }
  }

  lemma InitialFacts(trace: Trace, held: seq<Allocation>)
    requires ValidTrace(trace)
    ensures var jobs, events := InitialJobs(trace.jobs), InitialMoments(trace.jobs);
            && JobsKnown(trace.config, jobs) && WaitsOk(jobs, [], 0) && LiveOk(jobs, 0, {})
            && WakeupsOk(events, {}) && TickOk(events, None) && MomentsOk(jobs, held, events)
            && (forall e :: e in events ==> 0 <= e.time)
            && (forall id :: id in jobs ==> jobs[id].spec.duration > 0)
            && FlagsOk(trace.config, held, jobs) && Judged(trace.config, jobs)
  {
    InitialJob(trace.jobs);
  }

  lemma InitialOwed(specs: seq<JobSpec>)
    requires forall i, j :: 0 <= i < j < |specs| ==> specs[i].id != specs[j].id
    ensures OwedMoments(InitialJobs(specs), [], InitialMoments(specs))
  {
    var jobs, events := InitialJobs(specs), InitialMoments(specs);
    InitialJob(specs);
    forall id | id in jobs ensures Moment(jobs[id].spec.arrival, Arrives(id)) in events {
      var i :| 0 <= i < |specs| && specs[i] == jobs[id].spec;
      assert Moment(specs[i].arrival, Arrives(specs[i].id)) in events;
    }
  }

  lemma MoreTick(jobs: map<JobId, MutableJob>, held: seq<Allocation>, events: set<Moment>, e: Moment)
    requires MomentsOk(jobs, held, events) && e.what.Ticks?
    ensures MomentsOk(jobs, held, events + {e})
  {
  }

  /** The two wakeups refresh_eligibility schedules are the ones a running wait needs. */
  lemma NowLive(j: MutableJob, now: int, wakeups: set<Wakeup>)
    requires j.since.Some? ==>
               var wait := j.waited + now - j.since.value;
               && (wait < Threshold(Aging) ==> Wakeup(now + Threshold(Aging) - wait, Aging) in wakeups)
               && (wait < Threshold(Reservation) ==>
                   Wakeup(now + Threshold(Reservation) - wait, Reservation) in wakeups)
    ensures Live(j, now, wakeups)
  {
  }

  ghost predicate SameStates(jobs: map<JobId, MutableJob>, jobs': map<JobId, MutableJob>) {
    && jobs'.Keys == jobs.Keys
    && forall id :: id in jobs ==> jobs'[id].state == jobs[id].state && jobs'[id].spec == jobs[id].spec
  }

  ghost predicate FlagsExcept(config: Config, held: seq<Allocation>, jobs: map<JobId, MutableJob>, pending: set<JobId>)
    requires JobsKnown(config, jobs)
  {
    forall id :: id in jobs && id !in pending ==> (jobs[id].since.Some? <==> IsEligible(config, held, jobs[id]))
  }

  lemma SameEligible(config: Config, held: seq<Allocation>, j: MutableJob, j': MutableJob)
    requires KnownTenant(config.tenants, j.spec.tenant) && j'.spec == j.spec && j'.state == j.state
    ensures IsEligible(config, held, j') <==> IsEligible(config, held, j)
  {
  }

  lemma RefreshBegins(config: Config, held: seq<Allocation>, jobs: map<JobId, MutableJob>)
    requires JobsKnown(config, jobs)
    ensures SameStates(jobs, jobs) && FlagsExcept(config, held, jobs, jobs.Keys)
  {
  }

  lemma RefreshEnds(config: Config, held: seq<Allocation>, jobs0: map<JobId, MutableJob>, jobs: map<JobId, MutableJob>)
    requires JobsKnown(config, jobs) && FlagsExcept(config, held, jobs, {}) && SameStates(jobs0, jobs)
    ensures FlagsOk(config, held, jobs) && forall id :: id in jobs0 <==> id in jobs
  {
    hide IsEligible;
  }

  lemma FlagAt(config: Config, held: seq<Allocation>, jobs: map<JobId, MutableJob>, id: JobId)
    requires JobsKnown(config, jobs) && id in jobs
    ensures FlagsOk(config, held, jobs) ==> (jobs[id].since.Some? <==> IsEligible(config, held, jobs[id]))
  {
  }

  lemma FlagStep(config: Config, held: seq<Allocation>, jobs0: map<JobId, MutableJob>, jobs: map<JobId, MutableJob>,
                 id: JobId, history: History, now: int, pending: set<JobId>)
    requires JobsKnown(config, jobs) && WaitsOk(jobs, history, now) && id in jobs
    requires FlagsExcept(config, held, jobs, pending) && SameStates(jobs0, jobs)
    ensures jobs[id].since.Some? ==> jobs[id].since.value <= now
    ensures var jobs' := jobs[id := Refreshed(jobs[id], IsEligible(config, held, jobs[id]), now)];
            JobsKnown(config, jobs') && FlagsExcept(config, held, jobs', pending - {id}) && SameStates(jobs0, jobs')
  {
    hide IsEligible;
    hide TotalMs;
    assert WaitOk(jobs[id], TotalMs(history, id), now);
    var eligible := IsEligible(config, held, jobs[id]);
    RefreshKeepsWait(jobs[id], eligible, now, TotalMs(history, id));
    SameEligible(config, held, jobs[id], Refreshed(jobs[id], eligible, now));
  }

  lemma AfterRelease(config: Config, jobs: map<JobId, MutableJob>, held: seq<Allocation>, events: set<Moment>,
                     e: Moment, history: History, now: int, wakeups: set<Wakeup>, nextTick: Option<int>)
    requires JobsKnown(config, jobs) && WaitsOk(jobs, history, now) && LiveOk(jobs, now, wakeups)
    requires WakeupsOk(events, wakeups) && TickOk(events, nextTick) && MomentsOk(jobs, held, events)
    requires e in events && e.what.Releases?
    ensures var id := e.what.job;
            && id in jobs && jobs[id].state == Running && Holds(held, id)
            && var jobs' := jobs[id := jobs[id].(state := Completed)];
            && JobsKnown(config, jobs') && WaitsOk(jobs', history, now) && LiveOk(jobs', now, wakeups)
            && WakeupsOk(events - {e}, wakeups) && TickOk(events - {e}, nextTick)
            && MomentsOk(jobs', Ledger.Without(held, id), events - {e})
  {
    var id := e.what.job;
    assert MomentOk(jobs, held, e);
    forall k | k != id && Holds(held, k) ensures Holds(Ledger.Without(held, id), k) {
      StillHolds(held, id, k);
    }
    TickApart(events, events - {e}, wakeups);
    WakeApart(events, events - {e}, nextTick);
    hide *;
    TakeMoment(jobs, jobs[id := jobs[id].(state := Completed)], held, Ledger.Without(held, id), events, e, id);
    StateOnly(config, jobs, id, Completed, history, now, wakeups);
  }

  lemma LaterStill(events: set<Moment>, events': set<Moment>, now: int)
    requires OnlyWakeups(events, events', now) && forall e :: e in events ==> now < e.time
    ensures events <= events' && forall e :: e in events' ==> now < e.time
  {
  }

  // ---- crossings and reports ---------------------------------------------------------------------

  lemma StillPending(history: History, reports: seq<Report>, jobs: map<JobId, MutableJob>, events: set<Moment>,
                     e: Moment, now: int)
    requires CrossingsPending(history, reports, jobs, events, now) && e.time == now && e.what.Ticks?
    ensures CrossingsPending(history, reports, jobs, events - {e}, now)
  {
    hide Crosses;
    hide Told;
  }

  lemma NonePending(history: History, reports: seq<Report>, jobs: map<JobId, MutableJob>, events: set<Moment>, now: int)
    requires CrossingsPending(history, reports, jobs, events, now) && forall e :: e in events ==> e.time != now
    ensures CrossingsTold(history, reports)
  {
    hide Crosses;
    hide Told;
  }

  lemma PendingBut(history: History, reports: seq<Report>, jobs: map<JobId, MutableJob>, events: set<Moment>, now: int)
    requires CrossingsPending(history, reports, jobs, events, now)
    ensures CrossingsBut(history, reports, jobs, now)
  {
    hide Crosses;
    hide Told;
  }

  /** Jobs that stay queued keep the account of untold crossings right. */
  lemma ButLater(history: History, reports: seq<Report>, jobs: map<JobId, MutableJob>, jobs': map<JobId, MutableJob>,
                 now: int)
    requires CrossingsBut(history, reports, jobs, now) && forall id :: IsQueued(jobs, id) ==> IsQueued(jobs', id)
    ensures CrossingsBut(history, reports, jobs', now)
  {
    hide Crosses;
    hide Told;
  }

  lemma ToldBut(history: History, reports: seq<Report>, jobs: map<JobId, MutableJob>, now: int)
    requires CrossingsTold(history, reports)
    ensures CrossingsBut(history, reports, jobs, now)
  {
    hide Crosses;
    hide Told;
  }

  /** A queued job has no event of its own, so the events of an instant leave it queued. */
  lemma QueuedStays(config: Config, jobs: map<JobId, MutableJob>, held: seq<Allocation>, events: set<Moment>,
                    taken: set<Moment>, now: int, jobs': map<JobId, MutableJob>)
    requires JobsKnown(config, jobs) && MomentsOk(jobs, held, events) && taken <= events
    requires Taken(config, jobs, taken, now, jobs')
    ensures forall id :: IsQueued(jobs, id) ==> IsQueued(jobs', id)
  {
    hide ArrivalState;
    forall id | IsQueued(jobs, id) ensures IsQueued(jobs', id) {
      var a, r := Moment(now, Arrives(id)), Moment(now, Releases(id));
      assert a in events ==> MomentOk(jobs, held, a);
      assert r in events ==> MomentOk(jobs, held, r);
      assert jobs[id].spec.id == id;
    }
  }

  lemma ToldMore(reports: seq<Report>, r: Report)
    ensures forall id, at :: Told(reports, id, at) ==> Told(reports + [r], id, at)
    ensures forall id :: id in r.waits ==> Told(reports + [r], id, r.time)
  {
    var more := reports + [r];
    assert more[|reports|] == r;
    forall id, at | Told(reports, id, at) ensures Told(more, id, at) {
      var i :| 0 <= i < |reports| && reports[i].time == at && id in reports[i].waits;
      assert more[i].time == at;
    }
  }

  /** A report of the exact waits of the queued jobs tells of every crossing of this instant. */
  lemma AddReport(history: History, reports: seq<Report>, jobs: map<JobId, MutableJob>, r: Report)
    requires ReportsOk(history, reports) && r.time == |history|
    requires forall id :: id in r.waits <==> id in QueuedIds(jobs)
    requires forall id :: id in r.waits ==> r.waits[id] == TotalMs(history, id) / 1000
    requires CrossingsBut(history, reports, jobs, r.time)
    ensures ReportsOk(history, reports + [r]) && CrossingsTold(history, reports + [r])
  {
    hide Crosses;
    hide TotalMs;
    hide Told;
    var more := reports + [r];
    assert history[..r.time] == history;
    ToldMore(reports, r);
    forall i | 0 <= i < |more| ensures ReportOk(history, more[i]) {
      if i < |reports| {
        assert more[i] == reports[i];
      }
    }
    forall id | IsQueued(jobs, id) ensures id in r.waits {
      assert id in QueuedIds(jobs);
    }
  }

  /** At every crossing the policy was asked, and told of the crossing job that it has waited
      exactly the threshold. */
  lemma CrossingReported(history: History, reports: seq<Report>, id: JobId, kind: Kind, at: int) returns (i: nat)
    requires CrossingsTold(history, reports) && ReportsOk(history, reports)
    requires Crosses(history, id, Threshold(kind), at)
    ensures i < |reports| && reports[i].time == at
    ensures id in reports[i].waits && reports[i].waits[id] == Threshold(kind) / 1000
  {
    hide TotalMs;
    assert Told(reports, id, at);
    i :| 0 <= i < |reports| && reports[i].time == at && id in reports[i].waits;
    assert ReportOk(history, reports[i]);
  }

  // ---- events still owed ---------------------------------------------------------------------------

  lemma OwedMore(jobs: map<JobId, MutableJob>, held: seq<Allocation>, events: set<Moment>, events': set<Moment>)
    requires OwedMoments(jobs, held, events)
    requires forall e: Moment :: e in events && (e.what.Arrives? || e.what.Releases?) ==> e in events'
    ensures OwedMoments(jobs, held, events')
  {
    forall k | 0 <= k < |held| ensures OwedRelease(jobs, events', held[k]) {
      assert OwedRelease(jobs, events, held[k]);
    }
  }

  lemma OwedSame(jobs: map<JobId, MutableJob>, jobs': map<JobId, MutableJob>, held: seq<Allocation>,
                 events: set<Moment>)
    requires OwedMoments(jobs, held, events) && SameStates(jobs, jobs')
    ensures OwedMoments(jobs', held, events)
  {
    forall k | 0 <= k < |held| ensures OwedRelease(jobs', events, held[k]) {
      assert OwedRelease(jobs, events, held[k]);
    }
  }

  /** Taking a job's event and moving the job on leaves the events of the others. */
  lemma OwedTake(jobs: map<JobId, MutableJob>, held: seq<Allocation>, events: set<Moment>, e: Moment, j: MutableJob)
    requires OwedMoments(jobs, held, events) && (e.what.Arrives? || e.what.Releases?) && e.what.job in jobs
    requires e.what.Arrives? ==> jobs[e.what.job].state == Pending
    requires j.state != Pending && j.state != Running
    ensures var id := e.what.job;
            OwedMoments(jobs[id := j], if e.what.Releases? then Ledger.Without(held, id) else held, events - {e})
  {
    var id := e.what.job;
    var jobs', held' := jobs[id := j], if e.what.Releases? then Ledger.Without(held, id) else held;
    forall k | 0 <= k < |held'| ensures OwedRelease(jobs', events - {e}, held'[k]) {
      var a := held'[k];
      assert a in held';
      if e.what.Releases? {
        WithoutMember(held, id, a);
      }
      var i :| 0 <= i < |held| && held[i] == a;
      assert OwedRelease(jobs, events, held[i]);
    }
    forall k | k in jobs' && jobs'[k].state == Running ensures Holds(held', k) {
      assert Holds(held, k);
      if e.what.Releases? {
        StillHolds(held, id, k);
      }
    }
  }

  lemma OwedStart(jobs: map<JobId, MutableJob>, held: seq<Allocation>, events: set<Moment>, id: JobId, a: Allocation)
    requires OwedMoments(jobs, held, events) && id in jobs && jobs[id].state == Queued && a.job == id
    ensures OwedMoments(jobs[id := jobs[id].(state := Running)], held + [a], events + {Moment(a.release, Releases(id))})
  {
    var jobs', held' := jobs[id := jobs[id].(state := Running)], held + [a];
    var events' := events + {Moment(a.release, Releases(id))};
    forall k | 0 <= k < |held'| ensures OwedRelease(jobs', events', held'[k]) {
      if k < |held| {
        assert OwedRelease(jobs, events, held[k]);
      }
    }
    assert held'[|held|].job == id;
    forall k | k in jobs' && jobs'[k].state == Running ensures Holds(held', k) {
      if k != id {
        var i :| 0 <= i < |held| && held[i].job == k;
        assert held'[i].job == k;
      }
    }
  }

  lemma JudgedSame(config: Config, jobs: map<JobId, MutableJob>, jobs': map<JobId, MutableJob>)
    requires JobsKnown(config, jobs) && JobsKnown(config, jobs') && Judged(config, jobs) && SameStates(jobs, jobs')
    ensures Judged(config, jobs')
  {
    hide Feasible;
  }

  lemma JudgedMove(config: Config, jobs: map<JobId, MutableJob>, id: JobId, state: JobState)
    requires JobsKnown(config, jobs) && Judged(config, jobs) && id in jobs
    requires if jobs[id].state == Pending then state == ArrivalState(config, jobs[id].spec)
             else (jobs[id].state == Queued && state == Running) || (jobs[id].state == Running && state == Completed)
    ensures var jobs' := jobs[id := jobs[id].(state := state)]; JobsKnown(config, jobs') && Judged(config, jobs')
  {
    hide Feasible;
  }

  /** While something is held, or some job is pending or running, there is an event ahead. */
  lemma SomethingOwed(jobs: map<JobId, MutableJob>, held: seq<Allocation>, events: set<Moment>)
    requires OwedMoments(jobs, held, events)
    ensures held != [] ==> events != {}
    ensures forall id :: id in jobs && (jobs[id].state == Pending || jobs[id].state == Running) ==> events != {}
  {
    assert held != [] ==> OwedRelease(jobs, events, held[0]);
  }

  // ---- progress ------------------------------------------------------------------------------------

  function Plain(jobs: map<JobId, MutableJob>): map<JobId, Runtime> {
    map id | id in jobs :: Runtime(jobs[id].spec, jobs[id].state, None, None, None)
  }

  /** Job transitions left. */
  function Left(jobs: map<JobId, MutableJob>): nat {
    Simulator.Remaining(Plain(jobs))
  }

  lemma LeftMove(jobs: map<JobId, MutableJob>, id: JobId, state: JobState)
    requires id in jobs
    ensures Left(jobs[id := jobs[id].(state := state)])
            == Left(jobs) - Simulator.Rank(jobs[id].state) + Simulator.Rank(state)
  {
    hide Simulator.Remaining;
    var jobs' := jobs[id := jobs[id].(state := state)];
    assert Plain(jobs') == Plain(jobs)[id := Plain(jobs')[id]];
    Simulator.RemainingUpdate(Plain(jobs), id, Plain(jobs')[id]);
  }

  lemma LeftSame(a: map<JobId, MutableJob>, b: map<JobId, MutableJob>)
    requires SameStates(a, b)
    ensures Left(a) == Left(b)
  {
    assert Plain(a).Keys == a.Keys == b.Keys == Plain(b).Keys;
    forall id | id in Plain(a) ensures Plain(a)[id] == Plain(b)[id] {
      assert id in a;
    }
    assert Plain(a) == Plain(b);
  }

  /** The latest release among some allocations. */
  function Latest(held: seq<Allocation>): int
    requires held != []
  {
    var last := held[|held| - 1].release;
    if |held| == 1 then last
    else
      var rest := Latest(held[..|held| - 1]);
      if rest < last then last else rest
  }

  lemma {:induction false} LatestIsOne(held: seq<Allocation>) returns (k: nat)
    requires held != []
    ensures k < |held| && Latest(held) == held[k].release
  {
    k := |held| - 1;
    if |held| > 1 && Latest(held) != held[k].release {
      k := LatestIsOne(held[..|held| - 1]);
    }
  }

  /** How long ticks can go on: until the latest release, or once more when nothing is held. */
  function TicksLeft(held: seq<Allocation>, now: int, nextTick: Option<int>): int {
    if held == [] then (if nextTick.Some? then 1 else 0) else Latest(held) - now
  }

  /** Nothing taken yet, or fewer wakeups than before, or just the tick taken. */
  ghost predicate Quieter(wakeups: set<Wakeup>, nextTick: Option<int>, events: set<Moment>,
                          wakeups': set<Wakeup>, nextTick': Option<int>, events': set<Moment>, now: int) {
    || (events' == events && wakeups' == wakeups && nextTick' == nextTick)
    || |wakeups'| < |wakeups|
    || (wakeups' == wakeups && nextTick == Some(now) && nextTick'.None?)
  }

  lemma FewerWakeups(wakeups: set<Wakeup>, w: Wakeup)
    requires w in wakeups
    ensures |wakeups - {w}| == |wakeups| - 1
  {
  }

  /** The measure of a run: job transitions left, then wakeups, then ticks. */
  ghost predicate Lower(left: nat, wakeups: set<Wakeup>, ticks: int, left': nat, wakeups': set<Wakeup>, ticks': int) {
    || left' < left
    || (left' == left && |wakeups'| < |wakeups|)
    || (left' == left && |wakeups'| == |wakeups| && 0 <= ticks' < ticks)
  }

  /** An instant that moves no job takes a wakeup, or only a tick; a tick comes back only while
      something is held, closer to its release. */
  lemma QuietLowers(jobs: map<JobId, MutableJob>, held: seq<Allocation>, events: set<Moment>,
                    now: int, wakeups: set<Wakeup>, nextTick: Option<int>, now': int, wakeups': set<Wakeup>,
                    taken: Option<int>, nextTick': Option<int>)
    requires OwedMoments(jobs, held, events) && (forall e :: e in events ==> now' <= e.time)
    requires |wakeups'| < |wakeups| || (wakeups' == wakeups && nextTick == Some(now') && taken.None? && now < now')
    requires nextTick' == if held != [] && taken.None? then Some(now' + 1000) else taken
    ensures Lower(Left(jobs), wakeups, TicksLeft(held, now, nextTick),
                  Left(jobs), wakeups', TicksLeft(held, now', nextTick'))
  {
    if held != [] {
      var k := LatestIsOne(held);
      assert OwedRelease(jobs, events, held[k]);
    }
  }

  // ---- facts for whole methods ---------------------------------------------------------------------

  /** Refreshing one job changes no state and only adds wakeups, so the other accounts stay right. */
  lemma RefreshedEvents(config: Config, jobs: map<JobId, MutableJob>, id: JobId, j: MutableJob, held: seq<Allocation>,
                        events: set<Moment>, events': set<Moment>, now: int, nextTick: Option<int>)
    requires JobsKnown(config, jobs) && id in jobs && j.spec == jobs[id].spec && j.state == jobs[id].state
    requires TickOk(events, nextTick) && MomentsOk(jobs, held, events) && OwedMoments(jobs, held, events)
    requires Judged(config, jobs) && OnlyWakeups(events, events', now)
    ensures TickOk(events', nextTick) && MomentsOk(jobs[id := j], held, events')
    ensures OwedMoments(jobs[id := j], held, events')
    ensures JobsKnown(config, jobs[id := j]) && Judged(config, jobs[id := j])
  {
    hide Feasible;
    assert SameStates(jobs, jobs[id := j]);
    assert JobsKnown(config, jobs[id := j]);
    WakeApart(events, events', nextTick);
    WakeupsKeepMoments(jobs, held, events, events', now);
    SameStatesKeepMoments(jobs, jobs[id := j], held, events');
    OwedMore(jobs, held, events, events');
    OwedSame(jobs, jobs[id := j], held, events');
    JudgedSame(config, jobs, jobs[id := j]);
  }

  lemma AfterArrival(config: Config, jobs: map<JobId, MutableJob>, held: seq<Allocation>, events: set<Moment>,
                     e: Moment, history: History, now: int, wakeups: set<Wakeup>, nextTick: Option<int>)
    requires JobsKnown(config, jobs) && WaitsOk(jobs, history, now) && LiveOk(jobs, now, wakeups)
    requires WakeupsOk(events, wakeups) && TickOk(events, nextTick) && MomentsOk(jobs, held, events)
    requires e in events && e.what.Arrives?
    ensures var id := e.what.job;
            && id in jobs && jobs[id].state == Pending
            && var jobs' := jobs[id := jobs[id].(state := ArrivalState(config, jobs[id].spec))];
            && JobsKnown(config, jobs') && WaitsOk(jobs', history, now) && LiveOk(jobs', now, wakeups)
            && WakeupsOk(events - {e}, wakeups) && TickOk(events - {e}, nextTick)
            && MomentsOk(jobs', held, events - {e})
            && jobs'[id].state != Pending && jobs'[id].state != Running
  {
    hide Feasible;
    var id := e.what.job;
    assert MomentOk(jobs, held, e);
    var state := ArrivalState(config, jobs[id].spec);
    assert state == Queued || state == Infeasible;
    TickApart(events, events - {e}, wakeups);
    WakeApart(events, events - {e}, nextTick);
    hide *;
    TakeMoment(jobs, jobs[id := jobs[id].(state := state)], held, held, events, e, id);
    StateOnly(config, jobs, id, state, history, now, wakeups);
  }

  lemma ArrivalLowers(config: Config, jobs: map<JobId, MutableJob>, id: JobId)
    requires id in jobs && jobs[id].state == Pending && KnownTenant(config.tenants, jobs[id].spec.tenant)
    ensures Left(jobs[id := jobs[id].(state := ArrivalState(config, jobs[id].spec))]) < Left(jobs)
  {
    hide Left;
    LeftMove(jobs, id, ArrivalState(config, jobs[id].spec));
  }

  /** What a refresh leaves as it was. */
  lemma RefreshFacts(a: map<JobId, MutableJob>, b: map<JobId, MutableJob>, history: History, reports: seq<Report>,
                     now: int)
    requires SameStates(a, b)
    ensures Left(a) == Left(b)
    ensures CrossingsBut(history, reports, a, now) ==> CrossingsBut(history, reports, b, now)
  {
    hide Crosses;
    hide Told;
    LeftSame(a, b);
  }

  /** The state a job may be in when the run is over. */
  predicate Settled(config: Config, j: MutableJob) {
    && KnownTenant(config.tenants, j.spec.tenant)
    && if Feasible(config, j.spec) then j.state == Queued || j.state == Completed else j.state == Infeasible
  }

  /** An instant lowers the measure of the run. */
  lemma Lowered(jobs: map<JobId, MutableJob>, held: seq<Allocation>, events: set<Moment>, now: int,
                wakeups: set<Wakeup>, nextTick: Option<int>, taken: map<JobId, MutableJob>, woken: set<Wakeup>,
                tick: Option<int>, left: set<Moment>, now': int, jobs': map<JobId, MutableJob>, held': seq<Allocation>,
                wakeups': set<Wakeup>, nextTick': Option<int>)
    requires OwedMoments(jobs, held, events) && (forall e :: e in events ==> now' <= e.time) && now <= now'
    requires (exists e :: e in events && e.time == now') && (forall e :: e in left ==> e.time != now')
    requires nextTick.Some? ==> now < nextTick.value
    requires Left(taken) < Left(jobs)
             || (taken == jobs && Quieter(wakeups, nextTick, events, woken, tick, left, now'))
    requires Left(jobs') < Left(taken)
             || (Left(jobs') <= Left(taken) && (taken == jobs ==>
                   jobs' == jobs && held' == held && wakeups' == woken
                   && nextTick' == if held != [] && tick.None? then Some(now' + 1000) else tick))
    ensures Lower(Left(jobs), wakeups, TicksLeft(held, now, nextTick), Left(jobs'), wakeups',
                  TicksLeft(held', now', nextTick'))
  {
    hide OwedMoments;
    hide Left;
    if Left(taken) >= Left(jobs) && Left(jobs') >= Left(taken) {
      QuietLowers(jobs, held, events, now, wakeups, nextTick, now', wakeups', tick, nextTick');
    }
  }
}
