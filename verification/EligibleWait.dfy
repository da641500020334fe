/** The product-policy engine's eligible-wait accounting (benchmarks/b04/engine.py): whatever the
    policy decides, every report of a wait is exact and every threshold crossing is a decision
    instant. Events at one instant may be taken in any order. */
module EligibleWait {
  import opened Wrappers
  import opened Workload
  import opened Ledger
  import opened SimulationState
  import opened WaitHistory

  datatype Kind = Aging | Reservation

  function Threshold(kind: Kind): nat {
    match kind
    case Aging => 60_000
    case Reservation => 120_000
  }

  datatype Wakeup = Wakeup(time: int, kind: Kind)

  datatype What = Arrives(job: JobId) | Releases(job: JobId) | Wakes(kind: Kind) | Ticks

  datatype Moment = Moment(time: int, what: What)

  datatype MutableJob = MutableJob(spec: JobSpec, state: JobState, waited: nat, since: Option<int>)

  /** What the policy may answer; the first three make the loop ask again. */
  datatype Decision =
    | Dispatch(job: JobId, fromReservation: bool)
    | CreateReservation
    | InvalidateReservation
    | DrainForReservation
    | NoDecision

  datatype Violation = NotQueued | LedgerRefused | LimitExceeded | SecondReservation | NoReservation
                     | Stalled | HeldAtEnd

  /** The waits handed to the policy at one decision. */
  datatype Report = Report(time: int, waits: map<JobId, int>)

  // ---- one job ---------------------------------------------------------------------------------

  predicate IsEligible(config: Config, held: seq<Allocation>, j: MutableJob)
    requires KnownTenant(config.tenants, j.spec.tenant)
  {
    var tenant := FindTenant(config.tenants, j.spec.tenant);
    && j.state == Queued
    && Use(held, Of(j.spec.tenant)).Add(j.spec.resources).FitsWithin(tenant.quota)
    && Count(held, Of(j.spec.tenant)) < tenant.maxRunning
  }

  function WaitedMs(j: MutableJob, at: int): int {
    j.waited + if j.since.Some? then at - j.since.value else 0
  }

  /** The job's part of refresh_eligibility: start or stop the running wait. */
  function Refreshed(j: MutableJob, eligible: bool, now: int): MutableJob
    requires j.since.Some? ==> j.since.value <= now
  {
    if eligible && j.since.None? then j.(since := Some(now))
    else if !eligible && j.since.Some? then j.(waited := j.waited + (now - j.since.value), since := None)
    else j
  }

  /** When a running wait reaches a threshold. */
  function CrossTime(j: MutableJob, kind: Kind): int
    requires j.since.Some?
  {
    j.since.value + Threshold(kind) - j.waited
  }

  ghost predicate LiveFor(j: MutableJob, now: int, wakeups: set<Wakeup>, kind: Kind) {
    j.since.Some? && WaitedMs(j, now) < Threshold(kind) ==> Wakeup(CrossTime(j, kind), kind) in wakeups
  }

  /** Each threshold still ahead of a running wait has its wakeup. */
  ghost predicate Live(j: MutableJob, now: int, wakeups: set<Wakeup>) {
    LiveFor(j, now, wakeups, Aging) && LiveFor(j, now, wakeups, Reservation)
  }

  // ---- the invariants --------------------------------------------------------------------------

  ghost predicate JobsKnown(config: Config, jobs: map<JobId, MutableJob>) {
    forall id :: id in jobs ==> jobs[id].spec.id == id && KnownTenant(config.tenants, jobs[id].spec.tenant)
  }

  ghost predicate WaitOk(j: MutableJob, total: nat, now: int) {
    WaitedMs(j, now) == total && (j.since.Some? ==> j.since.value <= now)
  }

  /** Every job's wait so far is its total in the history. */
  ghost predicate WaitsOk(jobs: map<JobId, MutableJob>, history: History, now: int) {
    |history| == now && forall id :: id in jobs ==> WaitOk(jobs[id], TotalMs(history, id), now)
  }

  ghost predicate WakeupsOk(events: set<Moment>, wakeups: set<Wakeup>) {
    forall w :: w in wakeups <==> Moment(w.time, Wakes(w.kind)) in events
  }

  ghost predicate TickOk(events: set<Moment>, nextTick: Option<int>) {
    forall time :: Moment(time, Ticks) in events <==> nextTick == Some(time)
  }

  predicate AboutJob(e: Moment, id: JobId) {
    (e.what.Arrives? || e.what.Releases?) && e.what.job == id
  }

  ghost predicate MomentOk(jobs: map<JobId, MutableJob>, held: seq<Allocation>, e: Moment) {
    match e.what
    case Arrives(id) => id in jobs && jobs[id].state == Pending
    case Releases(id) => id in jobs && jobs[id].state == Running && Holds(held, id)
    case _ => true
  }

  /** Arrivals are of pending jobs, releases of running ones, and each job has at most one. */
  ghost predicate MomentsOk(jobs: map<JobId, MutableJob>, held: seq<Allocation>, events: set<Moment>) {
    && (forall e :: e in events ==> MomentOk(jobs, held, e))
    && (forall e, f, id :: e in events && f in events && AboutJob(e, id) && AboutJob(f, id) ==> e == f)
  }

  ghost predicate LiveOk(jobs: map<JobId, MutableJob>, now: int, wakeups: set<Wakeup>) {
    forall id :: id in jobs ==> Live(jobs[id], now, wakeups)
  }

  ghost predicate FlagsOk(config: Config, held: seq<Allocation>, jobs: map<JobId, MutableJob>)
    requires JobsKnown(config, jobs)
  {
    forall id :: id in jobs ==> (jobs[id].since.Some? <==> IsEligible(config, held, jobs[id]))
  }

  ghost predicate ReportOk(history: History, r: Report) {
    0 <= r.time <= |history| && forall id :: id in r.waits ==> r.waits[id] == TotalMs(history[..r.time], id) / 1000
  }

  ghost predicate ReportsOk(history: History, reports: seq<Report>) {
    forall i :: 0 <= i < |reports| ==> ReportOk(history, reports[i])
  }

  /** The policy was asked at this instant and given the job's wait. */
  ghost predicate Told(reports: seq<Report>, id: JobId, at: int) {
    exists i :: 0 <= i < |reports| && reports[i].time == at && id in reports[i].waits
  }

  /** At every crossing so far the policy was told of the crossing job. */
  ghost predicate CrossingsTold(history: History, reports: seq<Report>) {
    forall id, kind, at :: Crosses(history, id, Threshold(kind), at) ==> Told(reports, id, at)
  }

  predicate IsQueued(jobs: map<JobId, MutableJob>, id: JobId) {
    id in jobs && jobs[id].state == Queued
  }

  function QueuedIds(jobs: map<JobId, MutableJob>): set<JobId> {
    set id | id in jobs && jobs[id].state == Queued
  }

  /** Every pending job has its arrival ahead, every held allocation belongs to a running job and
      has its release ahead, and every running job is held. */
  ghost predicate OwedMoments(jobs: map<JobId, MutableJob>, held: seq<Allocation>, events: set<Moment>) {
    && (forall id :: id in jobs && jobs[id].state == Pending ==> Moment(jobs[id].spec.arrival, Arrives(id)) in events)
    && (forall k :: 0 <= k < |held| ==> OwedRelease(jobs, events, held[k]))
    && (forall id :: id in jobs && jobs[id].state == Running ==> Holds(held, id))
  }

  ghost predicate OwedRelease(jobs: map<JobId, MutableJob>, events: set<Moment>, a: Allocation) {
    a.job in jobs && jobs[a.job].state == Running && Moment(a.release, Releases(a.job)) in events
  }

  /** Arrived jobs are infeasible exactly when they do not fit. */
  ghost predicate Judged(config: Config, jobs: map<JobId, MutableJob>)
    requires JobsKnown(config, jobs)
  {
    forall id :: id in jobs && jobs[id].state != Pending ==>
      (jobs[id].state == Infeasible <==> !Feasible(config, jobs[id].spec))
  }

  ghost function EligibleNow(config: Config, held: seq<Allocation>, jobs: map<JobId, MutableJob>): set<JobId>
    requires JobsKnown(config, jobs)
  {
    set id | id in jobs && IsEligible(config, held, jobs[id])
  }

  // ---- time passes -------------------------------------------------------------------------------

  lemma WaitsAdvance(config: Config, held: seq<Allocation>, jobs: map<JobId, MutableJob>, history: History, now: int,
                     time: int)
    requires JobsKnown(config, jobs) && FlagsOk(config, held, jobs) && WaitsOk(jobs, history, now) && now <= time
    ensures WaitsOk(jobs, history + Repeat(EligibleNow(config, held, jobs), time - now), time)
  {
    hide IsEligible;
    hide TotalMs;
    var eligible := EligibleNow(config, held, jobs);
    var history' := history + Repeat(eligible, time - now);
    forall id | id in jobs ensures WaitOk(jobs[id], TotalMs(history', id), time) {
      TotalRepeat(history, eligible, time - now, id);
      assert WaitOk(jobs[id], TotalMs(history, id), now);
    }
  }

  /** A crossing while time passes has its wakeup at exactly that moment. */
  lemma CrossingHasWakeup(config: Config, held: seq<Allocation>, jobs: map<JobId, MutableJob>, history: History,
                          now: int, time: int, events: set<Moment>, wakeups: set<Wakeup>, id: JobId, kind: Kind,
                          at: int)
    requires JobsKnown(config, jobs) && FlagsOk(config, held, jobs) && WaitsOk(jobs, history, now)
    requires LiveOk(jobs, now, wakeups) && WakeupsOk(events, wakeups)
    requires now < at <= time
    requires Crosses(history + Repeat(EligibleNow(config, held, jobs), time - now), id, Threshold(kind), at)
    ensures Moment(at, Wakes(kind)) in events && IsQueued(jobs, id)
  {
    hide TotalMs;
    hide Crosses;
    CrossesInStretch(history, EligibleNow(config, held, jobs), time - now, id, Threshold(kind), at);
    assert WaitOk(jobs[id], TotalMs(history, id), now);
    assert Live(jobs[id], now, wakeups);
    assert LiveFor(jobs[id], now, wakeups, kind) by {
      match kind
      case Aging =>
      case Reservation =>
    }
  }

  /** Time moves to the next event only, so earlier crossings are none and the present ones
      are about to be popped. */
  ghost predicate CrossingsPending(history: History, reports: seq<Report>, jobs: map<JobId, MutableJob>,
                                   events: set<Moment>, now: int) {
    forall id, kind, at :: Crosses(history, id, Threshold(kind), at) ==>
      Told(reports, id, at) || (at == now && Moment(now, Wakes(kind)) in events && IsQueued(jobs, id))
  }

  /** The crossings the policy has not been told of are of this instant and of queued jobs. */
  ghost predicate CrossingsBut(history: History, reports: seq<Report>, jobs: map<JobId, MutableJob>, now: int) {
    forall id, kind, at :: Crosses(history, id, Threshold(kind), at) ==>
      Told(reports, id, at) || (at == now && IsQueued(jobs, id))
  }

  lemma CrossingsAdvance(config: Config, held: seq<Allocation>, jobs: map<JobId, MutableJob>, history: History,
                         now: int, time: int, events: set<Moment>, wakeups: set<Wakeup>, reports: seq<Report>)
    requires JobsKnown(config, jobs) && FlagsOk(config, held, jobs) && WaitsOk(jobs, history, now)
    requires LiveOk(jobs, now, wakeups) && WakeupsOk(events, wakeups) && CrossingsTold(history, reports)
    requires now <= time && forall e :: e in events ==> time <= e.time
    ensures CrossingsPending(history + Repeat(EligibleNow(config, held, jobs), time - now), reports, jobs, events, time)
  {
    hide FlagsOk;
    hide LiveOk;
    hide WakeupsOk;
    hide Crosses;
    hide EligibleNow;
    hide Told;
    var history' := history + Repeat(EligibleNow(config, held, jobs), time - now);
    assert Extends(history, history');
    forall id, kind, at | Crosses(history', id, Threshold(kind), at)
      ensures Told(reports, id, at) || (at == time && Moment(time, Wakes(kind)) in events && IsQueued(jobs, id))
    {
      CrossesWithin(history', id, Threshold(kind), at);
      if at <= now {
        CrossedBefore(history, history', id, Threshold(kind), at);
      } else {
        CrossingHasWakeup(config, held, jobs, history, now, time, events, wakeups, id, kind, at);
      }
    }
  }

  lemma CrossesWithin(history: History, id: JobId, threshold: nat, at: int)
    requires Crosses(history, id, threshold, at)
    ensures 0 < at <= |history|
  {
  }

  lemma ReportsAdvance(history: History, history': History, reports: seq<Report>)
    requires Extends(history, history') && ReportsOk(history, reports)
    ensures ReportsOk(history', reports)
  {
    forall i | 0 <= i < |reports| ensures ReportOk(history', reports[i]) {
      PrefixSame(history, history', reports[i].time);
    }
  }

  lemma LiveAdvance(jobs: map<JobId, MutableJob>, now: int, time: int, wakeups: set<Wakeup>)
    requires LiveOk(jobs, now, wakeups) && now <= time
    ensures LiveOk(jobs, time, wakeups)
  {
    forall id | id in jobs ensures Live(jobs[id], time, wakeups) {
      assert Live(jobs[id], now, wakeups);
    }
  }

  /** A wakeup of the present moment is of no further use. */
  lemma LiveWithout(jobs: map<JobId, MutableJob>, now: int, wakeups: set<Wakeup>, kind: Kind)
    requires LiveOk(jobs, now, wakeups)
    ensures LiveOk(jobs, now, wakeups - {Wakeup(now, kind)})
  {
    forall id | id in jobs ensures Live(jobs[id], now, wakeups - {Wakeup(now, kind)}) {
      assert Live(jobs[id], now, wakeups);
    }
  }

  // ---- refreshing ----------------------------------------------------------------------------------

  lemma RefreshKeepsWait(j: MutableJob, eligible: bool, now: int, total: nat)
    requires WaitOk(j, total, now)
    ensures WaitOk(Refreshed(j, eligible, now), total, now)
    ensures Refreshed(j, eligible, now).since.Some? <==> eligible
    ensures Refreshed(j, eligible, now).spec == j.spec && Refreshed(j, eligible, now).state == j.state
  {
  }

  lemma MoreWakeups(j: MutableJob, now: int, wakeups: set<Wakeup>, wakeups': set<Wakeup>)
    requires Live(j, now, wakeups) && wakeups <= wakeups'
    ensures Live(j, now, wakeups')
  {
  }
}
