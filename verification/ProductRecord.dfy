/** The product-policy engine (benchmarks/b04/engine.py) without its bookkeeping: what one instant
    makes of the engine, as a function of the answers given. The event queue, the running waits
    and the wakeup keys are gone; eligible time is counted millisecond by millisecond. */
module ProductRecord {
  import opened Wrappers
  import opened Workload
  import opened Ledger
  import opened SimulationState
  import opened WaitHistory
  import opened EligibleWait
  import opened ProductSteps

  // ---- jobs, allocations and the reservation -------------------------------------------------------

  datatype Standing = Standing(spec: JobSpec, state: JobState)

  /** What an answer of the policy meets. */
  datatype Question = Question(jobs: map<JobId, Standing>, held: seq<Allocation>, reserved: bool)

  function Standings(jobs: map<JobId, MutableJob>): map<JobId, Standing> {
    map id | id in jobs :: Standing(jobs[id].spec, jobs[id].state)
  }

  lemma StandingsMove(jobs: map<JobId, MutableJob>, id: JobId, state: JobState)
    requires id in jobs
    ensures Standings(jobs[id := jobs[id].(state := state)]) ==
            Standings(jobs)[id := Standings(jobs)[id].(state := state)]
  {
  }

  lemma StandingsHave(jobs: map<JobId, MutableJob>, id: JobId)
    requires id in jobs
    ensures id in Standings(jobs) && Standings(jobs)[id] == Standing(jobs[id].spec, jobs[id].state)
  {
  }

  lemma HeldIffRunning(jobs: map<JobId, MutableJob>, held: seq<Allocation>, reserved: bool, events: set<Moment>)
    requires OwedMoments(jobs, held, events)
    ensures var q := Question(Standings(jobs), held, reserved);
            forall id :: Holds(held, id) <==> id in q.jobs && q.jobs[id].state == Running
  {
    forall id | Holds(held, id) ensures id in jobs && jobs[id].state == Running {
      var k :| 0 <= k < |held| && held[k].job == id;
      assert OwedRelease(jobs, events, held[k]);
    }
  }

  lemma StandingsSame(a: map<JobId, MutableJob>, b: map<JobId, MutableJob>)
    requires SameStates(a, b)
    ensures Standings(a) == Standings(b)
  {
    assert Standings(a).Keys == a.Keys == b.Keys == Standings(b).Keys;
    forall id | id in Standings(a) ensures Standings(a)[id] == Standings(b)[id] {
      assert id in a;
    }
  }

  predicate InQueue(q: Question, id: JobId) {
    id in q.jobs && q.jobs[id].state == Queued
  }

  /** Queued, and its tenant would stay within quota and concurrency. */
  predicate Waits(config: Config, q: Question, id: JobId) {
    && InQueue(q, id) && KnownTenant(config.tenants, q.jobs[id].spec.tenant)
    && var spec := q.jobs[id].spec;
       var tenant := FindTenant(config.tenants, spec.tenant);
       && Use(q.held, Of(spec.tenant)).Add(spec.resources).FitsWithin(tenant.quota)
       && Count(q.held, Of(spec.tenant)) < tenant.maxRunning
  }

  function WaitingIn(config: Config, q: Question): set<JobId> {
    set id | id in q.jobs && Waits(config, q, id)
  }

  lemma WaitsIffEligible(config: Config, jobs: map<JobId, MutableJob>, held: seq<Allocation>, reserved: bool, id: JobId)
    requires JobsKnown(config, jobs) && id in jobs
    ensures Waits(config, Question(Standings(jobs), held, reserved), id) <==> IsEligible(config, held, jobs[id])
  {
  }

  lemma WaitingIsEligible(config: Config, jobs: map<JobId, MutableJob>, held: seq<Allocation>, reserved: bool)
    requires JobsKnown(config, jobs)
    ensures WaitingIn(config, Question(Standings(jobs), held, reserved)) == EligibleNow(config, held, jobs)
  {
    hide Waits;
    hide IsEligible;
    var q := Question(Standings(jobs), held, reserved);
    forall id ensures id in WaitingIn(config, q) <==> id in EligibleNow(config, held, jobs) {
      if id in jobs {
        WaitsIffEligible(config, jobs, held, reserved, id);
      }
    }
  }

  // ---- events ----------------------------------------------------------------------------------------

  /** Every pending job arrives and every allocation is released, besides the wakeups and the tick. */
  function EventsOf(q: Question, wakeups: set<Wakeup>, tick: Option<int>): set<Moment> {
    (set id | id in q.jobs && q.jobs[id].state == Pending :: Moment(q.jobs[id].spec.arrival, Arrives(id)))
    + (set a | a in q.held :: Moment(a.release, Releases(a.job)))
    + (set w | w in wakeups :: Moment(w.time, Wakes(w.kind)))
    + (if tick.Some? then {Moment(tick.value, Ticks)} else {})
  }

  lemma EventsAre(jobs: map<JobId, MutableJob>, held: seq<Allocation>, reserved: bool, events: set<Moment>,
                  wakeups: set<Wakeup>, tick: Option<int>)
    requires MomentsOk(jobs, held, events) && OwedMoments(jobs, held, events)
    requires WakeupsOk(events, wakeups) && TickOk(events, tick)
    ensures events == EventsOf(Question(Standings(jobs), held, reserved), wakeups, tick)
  {
    var q := Question(Standings(jobs), held, reserved);
    forall e ensures e in events <==> e in EventsOf(q, wakeups, tick) {
      match e.what
      case Arrives(id) =>
        ArrivalKnown(jobs, held, events, e);
      case Releases(id) =>
        ReleaseKnown(jobs, held, events, e);
      case Wakes(kind) =>
        assert Wakeup(e.time, kind) in wakeups <==> e in events;
      case Ticks =>
        assert e == Moment(e.time, Ticks);
    }
  }

  lemma ArrivalKnown(jobs: map<JobId, MutableJob>, held: seq<Allocation>, events: set<Moment>, e: Moment)
    requires MomentsOk(jobs, held, events) && OwedMoments(jobs, held, events) && e.what.Arrives?
    ensures e in events <==>
            e.what.job in jobs && jobs[e.what.job].state == Pending && e.time == jobs[e.what.job].spec.arrival
  {
    if e in events {
      assert MomentOk(jobs, held, e);
      var f := Moment(jobs[e.what.job].spec.arrival, Arrives(e.what.job));
      assert AboutJob(e, e.what.job) && AboutJob(f, e.what.job);
    }
  }

  lemma ReleaseKnown(jobs: map<JobId, MutableJob>, held: seq<Allocation>, events: set<Moment>, e: Moment)
    requires MomentsOk(jobs, held, events) && OwedMoments(jobs, held, events) && e.what.Releases?
    ensures e in events <==> exists a :: a in held && a.job == e.what.job && a.release == e.time
  {
    if e in events {
      assert MomentOk(jobs, held, e);
      var k :| 0 <= k < |held| && held[k].job == e.what.job;
      assert OwedRelease(jobs, events, held[k]);
      var f := Moment(held[k].release, Releases(e.what.job));
      assert AboutJob(e, e.what.job) && AboutJob(f, e.what.job);
      assert held[k] in held;
    }
    if a :| a in held && a.job == e.what.job && a.release == e.time {
      var k :| 0 <= k < |held| && held[k] == a;
      assert OwedRelease(jobs, events, held[k]);
    }
  }

  ghost predicate IsNextMoment(events: set<Moment>, now: int) {
    (exists e :: e in events && e.time == now) && forall e :: e in events ==> now <= e.time
  }

  /** An event other than a tick is due. */
  ghost predicate DecisionDue(events: set<Moment>, now: int) {
    exists e :: e in events && e.time == now && !e.what.Ticks?
  }

  function ArrivedState(config: Config, spec: JobSpec): JobState {
    if KnownTenant(config.tenants, spec.tenant) && Feasible(config, spec) then Queued else Infeasible
  }

  function StandingAfter(config: Config, s: Standing, events: set<Moment>, now: int): Standing {
    if Moment(now, Arrives(s.spec.id)) in events then s.(state := ArrivedState(config, s.spec))
    else if Moment(now, Releases(s.spec.id)) in events then s.(state := Completed)
    else s
  }

  /** The events of a moment: arrived jobs are queued or infeasible, released ones complete and
      give back what they held. */
  function TakenBy(config: Config, q: Question, events: set<Moment>, now: int): Question {
    Question(map id | id in q.jobs :: StandingAfter(config, q.jobs[id], events, now),
             Kept(q.held, events, now), q.reserved)
  }

  lemma TakenSo(config: Config, jobs: map<JobId, MutableJob>, held: seq<Allocation>, reserved: bool,
                events: set<Moment>, left: set<Moment>, now: int, jobs': map<JobId, MutableJob>)
    requires JobsKnown(config, jobs) && Taken(config, jobs, events - left, now, jobs')
    requires forall e :: e in left ==> e.time != now
    ensures Question(Standings(jobs'), Kept(held, events - left, now), reserved) ==
            TakenBy(config, Question(Standings(jobs), held, reserved), events, now)
  {
    hide Feasible;
    KeptSame(held, events, left, now);
    var q := Question(Standings(jobs), held, reserved);
    var taken := TakenBy(config, q, events, now);
    assert taken.jobs.Keys == q.jobs.Keys == jobs.Keys == jobs'.Keys == Standings(jobs').Keys;
    forall id | id in taken.jobs ensures taken.jobs[id] == Standings(jobs')[id] {
      assert id in jobs;
      assert Moment(now, Arrives(jobs[id].spec.id)) !in left && Moment(now, Releases(jobs[id].spec.id)) !in left;
    }
  }

  // ---- answers ---------------------------------------------------------------------------------------

  /** What an accepted answer does. */
  function Answered(config: Config, q: Question, d: Decision, now: int): Question {
    if d.Dispatch? && d.job in q.jobs then
      Question(q.jobs[d.job := q.jobs[d.job].(state := Running)],
               q.held + [Grant(config.gpus, q.held, q.jobs[d.job].spec, now)], ReservedAfter(d, q.reserved))
    else q.(reserved := ReservedAfter(d, q.reserved))
  }

  function Answering(config: Config, q: Question, answers: seq<Decision>, now: int): Question {
    if answers == [] then q
    else
      var n := |answers| - 1;
      Answered(config, Answering(config, q, answers[..n], now), answers[n], now)
  }

  /** The engine raises an error on this answer. */
  predicate Refused(config: Config, d: Decision, q: Question, now: int) {
    match d
    case Dispatch(id, _) =>
      !(InQueue(q, id) && CanStart(config, config.capacity, config.gpus, q.held, q.jobs[id].spec, now))
    case CreateReservation => q.reserved
    case InvalidateReservation => !q.reserved
    case _ => false
  }

  /** The error it raises. */
  function Why(config: Config, d: Decision, q: Question): Violation {
    match d
    case Dispatch(id, _) =>
      if !InQueue(q, id) then NotQueued
      else
        var spec := q.jobs[id].spec;
        if Holds(q.held, spec.id) || !Use(q.held, Whole).Add(spec.resources).FitsWithin(config.capacity)
        then LedgerRefused else LimitExceeded
    case CreateReservation => SecondReservation
    case _ => NoReservation
  }

  /** None of the answers is refused in its turn. */
  ghost predicate Accepted(config: Config, q: Question, answers: seq<Decision>, now: int) {
    forall k :: 0 <= k < |answers| ==> !Refused(config, answers[k], Answering(config, q, answers[..k], now), now)
  }

  /** The first n answers are accepted and the next one is refused, for this reason. */
  ghost predicate RefusedAt(config: Config, q: Question, answers: seq<Decision>, n: int, now: int, why: Violation) {
    && 0 <= n < |answers| && Accepted(config, q, answers[..n], now)
    && var met := Answering(config, q, answers[..n], now);
       Refused(config, answers[n], met, now) && why == Why(config, answers[n], met)
  }

  /** The answers up to the first one that stops the loop. */
  function UpToStop(answers: seq<Decision>): seq<Decision> {
    if answers == [] || Stops(answers[0]) then answers[..if answers == [] then 0 else 1]
    else [answers[0]] + UpToStop(answers[1..])
  }

  lemma {:induction false} UpToStopIs(answers: seq<Decision>, n: nat)
    requires n < |answers| && (forall k :: 0 <= k < n ==> !Stops(answers[k]))
    ensures Stops(answers[n]) ==> UpToStop(answers) == answers[..n + 1]
    ensures n < |UpToStop(answers)| && UpToStop(answers)[..n] == answers[..n] && UpToStop(answers)[n] == answers[n]
  {
    if n > 0 {
      UpToStopIs(answers[1..], n - 1);
      assert answers[..n + 1] == [answers[0]] + answers[1..][..n];
      assert answers[..n] == [answers[0]] + answers[1..][..n - 1];
    }
  }

  lemma AnsweringMore(config: Config, q: Question, answers: seq<Decision>, n: nat, now: int)
    requires n < |answers|
    ensures Answering(config, q, answers[..n + 1], now) ==
            Answered(config, Answering(config, q, answers[..n], now), answers[n], now)
  {
    assert answers[..n + 1][..n] == answers[..n];
  }

  lemma AcceptedMore(config: Config, q: Question, answers: seq<Decision>, n: nat, now: int)
    requires n < |answers| && Accepted(config, q, answers[..n], now)
    requires !Refused(config, answers[n], Answering(config, q, answers[..n], now), now)
    ensures Accepted(config, q, answers[..n + 1], now)
  {
    hide Refused;
    hide Answering;
    var less, more := answers[..n], answers[..n + 1];
    forall k | 0 <= k < |more| ensures !Refused(config, more[k], Answering(config, q, more[..k], now), now) {
      if k < n {
        assert more[..k] == less[..k] && more[k] == less[k];
      } else {
        assert more[..k] == less;
      }
    }
  }

  lemma StopChangesNothing(config: Config, q: Question, d: Decision, now: int)
    requires Stops(d)
    ensures Answered(config, q, d, now) == q
  {
  }

  // ---- reports and wakeups ---------------------------------------------------------------------------

  /** What the policy is told: the whole seconds every queued job has waited. */
  function ReportOf(q: Question, history: History, now: int): Report {
    Report(now, map id | id in q.jobs && InQueue(q, id) :: TotalMs(history, id) / 1000)
  }

  lemma ReportIs(jobs: map<JobId, MutableJob>, held: seq<Allocation>, reserved: bool, history: History, now: int,
                 waits: map<JobId, int>)
    requires forall id :: id in waits <==> id in QueuedIds(jobs)
    requires forall id :: id in waits ==> waits[id] == TotalMs(history, id) / 1000
    ensures Report(now, waits) == ReportOf(Question(Standings(jobs), held, reserved), history, now)
  {
    hide TotalMs;
    var told := ReportOf(Question(Standings(jobs), held, reserved), history, now).waits;
    assert forall id :: id in told <==> id in waits;
    assert told == waits;
  }

  /** One report before every answer. */
  function ReportsOf(config: Config, q: Question, answers: seq<Decision>, history: History, now: int): seq<Report> {
    if answers == [] then []
    else
      var less := answers[..|answers| - 1];
      ReportsOf(config, q, less, history, now) + [ReportOf(Answering(config, q, less, now), history, now)]
  }

  lemma ReportsMore(config: Config, q: Question, answers: seq<Decision>, n: nat, history: History, now: int)
    requires n < |answers|
    ensures ReportsOf(config, q, answers[..n + 1], history, now) ==
            ReportsOf(config, q, answers[..n], history, now)
            + [ReportOf(Answering(config, q, answers[..n], now), history, now)]
  {
    hide ReportOf;
    hide Answering;
    assert answers[..n + 1][..n] == answers[..n];
  }

  lemma {:induction false} ReportsCount(config: Config, q: Question, answers: seq<Decision>, history: History, now: int)
    ensures |ReportsOf(config, q, answers, history, now)| == |answers|
    ensures forall i :: 0 <= i < |answers| ==> ReportsOf(config, q, answers, history, now)[i].time == now
  {
    hide Answering;
    if answers != [] {
      ReportsCount(config, q, answers[..|answers| - 1], history, now);
    }
  }

  function CrossingsOf(wait: int, now: int): set<Wakeup> {
    (if wait < Threshold(Aging) then {Wakeup(now + Threshold(Aging) - wait, Aging)} else {})
    + (if wait < Threshold(Reservation) then {Wakeup(now + Threshold(Reservation) - wait, Reservation)} else {})
  }

  /** When the job will cross the thresholds still ahead, should it go on waiting. */
  function JobCrossings(config: Config, q: Question, history: History, now: int, id: JobId): set<Wakeup> {
    if Waits(config, q, id) then CrossingsOf(TotalMs(history, id), now) else {}
  }

  function CrossingsAmong(config: Config, q: Question, history: History, now: int, ids: set<JobId>): set<Wakeup> {
    set id, w | id in ids && w in JobCrossings(config, q, history, now, id) :: w
  }

  function Crossings(config: Config, q: Question, history: History, now: int): set<Wakeup> {
    CrossingsAmong(config, q, history, now, q.jobs.Keys)
  }

  lemma CrossingsMore(config: Config, q: Question, history: History, now: int, ids: set<JobId>, id: JobId)
    ensures CrossingsAmong(config, q, history, now, ids + {id}) ==
            CrossingsAmong(config, q, history, now, ids) + JobCrossings(config, q, history, now, id)
  {
    hide JobCrossings;
    var more := CrossingsAmong(config, q, history, now, ids + {id});
    forall w ensures w in more <==>
      w in CrossingsAmong(config, q, history, now, ids) || w in JobCrossings(config, q, history, now, id)
    {
      if w in JobCrossings(config, q, history, now, id) {
        assert id in ids + {id};
      }
      if i :| i in ids && w in JobCrossings(config, q, history, now, i) {
        assert i in ids + {id};
      }
    }
  }

  lemma CrossingsAll(config: Config, jobs: map<JobId, MutableJob>, held: seq<Allocation>, reserved: bool,
                     history: History, now: int, seen: set<JobId>)
    requires forall id :: id in jobs <==> id in seen
    ensures var q := Question(Standings(jobs), held, reserved);
            Crossings(config, q, history, now) == CrossingsAmong(config, q, history, now, seen)
  {
    hide CrossingsAmong;
    assert forall id :: id in seen <==> id in Standings(jobs).Keys;
    assert seen == Standings(jobs).Keys;
  }

  lemma CrossingsNone(config: Config, q: Question, history: History, now: int)
    ensures CrossingsAmong(config, q, history, now, {}) == {}
  {
  }

  /** The crossings foreseen before, between and after the answers. */
  function Foreseen(config: Config, q: Question, answers: seq<Decision>, history: History, now: int): set<Wakeup> {
    Crossings(config, Answering(config, q, answers, now), history, now)
    + if answers == [] then {} else Foreseen(config, q, answers[..|answers| - 1], history, now)
  }

  lemma {:induction false} ForeseenFirst(config: Config, q: Question, answers: seq<Decision>, history: History,
                                         now: int)
    ensures Crossings(config, q, history, now) <= Foreseen(config, q, answers, history, now)
  {
    hide Crossings;
    if answers != [] {
      ForeseenFirst(config, q, answers[..|answers| - 1], history, now);
    }
  }

  /** What was foreseen up to the latest question. */
  function ForeseenBy(config: Config, q: Question, answers: seq<Decision>, n: nat, history: History,
                      now: int): set<Wakeup>
    requires n <= |answers|
  {
    if n == 0 then {} else Foreseen(config, q, answers[..n - 1], history, now)
  }

  function Later(wakeups: set<Wakeup>, now: int): set<Wakeup> {
    set w | w in wakeups && w.time != now
  }

  function TickAfter(tick: Option<int>, now: int): Option<int> {
    if tick == Some(now) then None else tick
  }

  /** While something is held there is a tick ahead. */
  function TickFor(tick: Option<int>, held: seq<Allocation>, now: int): Option<int> {
    if tick.None? && held != [] then Some(now + 1000) else tick
  }

  /** A tick was added, if at all, because something is held. */
  predicate TickGrows(tick: Option<int>, tick': Option<int>, held: seq<Allocation>, now: int) {
    tick' == tick || (held != [] && tick' == TickFor(tick, held, now))
  }

  lemma LaterIs(events: set<Moment>, wakeups: set<Wakeup>, tick: Option<int>, events': set<Moment>,
                wakeups': set<Wakeup>, tick': Option<int>, now: int)
    requires WakeupsOk(events, wakeups) && TickOk(events, tick)
    requires WakeupsOk(events', wakeups') && TickOk(events', tick')
    requires forall e :: e in events' <==> e in events && e.time != now
    ensures wakeups' == Later(wakeups, now) && tick' == TickAfter(tick, now)
  {
    forall w ensures w in wakeups' <==> w in Later(wakeups, now) {
      var e := Moment(w.time, Wakes(w.kind));
      assert e in events' <==> e in events && e.time != now;
    }
    assert tick.Some? ==> Moment(tick.value, Ticks) in events;
    assert tick'.Some? ==> Moment(tick'.value, Ticks) in events';
  }

  /** The engine between two instants. */
  datatype Scene = Scene(now: int, q: Question, tick: Option<int>, wakeups: set<Wakeup>, history: History,
                         reports: seq<Report>)

  // ---- the decision loop -----------------------------------------------------------------------------

  /** The first n answers were carried out, and n questions asked. */
  ghost predicate Carried(config: Config, q: Question, answers: seq<Decision>, n: int, history: History, now: int,
                          a: Scene, b: Scene) {
    && 0 <= n <= |answers| && a.q == q
    && b.q == Answering(config, q, answers[..n], now) && Accepted(config, q, answers[..n], now)
    && b.reports == a.reports + ReportsOf(config, q, answers[..n], history, now)
    && b.wakeups == a.wakeups + ForeseenBy(config, q, answers, n, history, now)
    && TickGrows(a.tick, b.tick, b.q.held, now)
  }

  lemma CarriedNone(config: Config, answers: seq<Decision>, history: History, now: int, a: Scene)
    ensures Carried(config, a.q, answers, 0, history, now, a, a)
  {
    assert answers[..0] == [];
    assert a.reports == a.reports + [];
    assert a.wakeups == a.wakeups + {};
  }

  /** One question and its answer more. */
  lemma CarriedMore(config: Config, answers: seq<Decision>, n: nat, history: History, now: int, a: Scene, b: Scene,
                    c: Scene)
    requires Carried(config, a.q, answers, n, history, now, a, b) && n < |answers|
    requires !Refused(config, answers[n], b.q, now) && c.q == Answered(config, b.q, answers[n], now)
    requires c.reports == b.reports + [ReportOf(b.q, history, now)]
    requires c.wakeups == b.wakeups + Crossings(config, b.q, history, now)
    requires TickGrows(b.tick, c.tick, c.q.held, now) && (b.q.held != [] ==> c.q.held != [])
    ensures Carried(config, a.q, answers, n + 1, history, now, a, c)
  {
    hide Refused;
    hide Answered;
    hide ReportOf;
    hide Crossings;
    hide Accepted;
    hide ReportsOf;
    hide ForeseenBy;
    var q := a.q;
    AnsweringMore(config, q, answers, n, now);
    AcceptedMore(config, q, answers, n, now);
    ReportsMore(config, q, answers, n, history, now);
    ForeseenMore(config, q, answers, n, history, now);
  }

  lemma ForeseenMore(config: Config, q: Question, answers: seq<Decision>, n: nat, history: History, now: int)
    requires n < |answers|
    ensures ForeseenBy(config, q, answers, n + 1, history, now) ==
            ForeseenBy(config, q, answers, n, history, now)
            + Crossings(config, Answering(config, q, answers[..n], now), history, now)
  {
    hide Crossings;
    hide Answering;
    if n > 0 {
      assert answers[..n][..n - 1] == answers[..n - 1];
    } else {
      assert answers[..0] == [];
    }
  }

  /** After the answer that stops the loop, everything foreseen between the answers was foreseen. */
  lemma ForeseenAtStop(config: Config, q: Question, answers: seq<Decision>, n: nat, history: History, now: int)
    requires n < |answers| && Stops(answers[n])
    ensures ForeseenBy(config, q, answers, n + 1, history, now) ==
            Foreseen(config, q, answers[..n + 1], history, now)
  {
    hide Crossings;
    AnsweringMore(config, q, answers, n, now);
    StopChangesNothing(config, q, answers[n], now);
    assert answers[..n + 1][..n] == answers[..n];
  }

  /** The loop as a whole: all these answers were carried out. */
  ghost predicate Decided(config: Config, a: Scene, given: seq<Decision>, history: History, now: int, b: Scene) {
    && b.q == Answering(config, a.q, given, now) && Accepted(config, a.q, given, now)
    && b.reports == a.reports + ReportsOf(config, a.q, given, history, now)
    && b.wakeups == a.wakeups + Foreseen(config, a.q, given, history, now)
    && TickGrows(a.tick, b.tick, b.q.held, now)
  }

  /** The loop ended with the error of answer n; the reports up to that answer were made. */
  ghost predicate Broken(config: Config, q: Question, given: seq<Decision>, n: int, history: History, now: int,
                         reports: seq<Report>, reports': seq<Report>, why: Violation) {
    && RefusedAt(config, q, given, n, now, why)
    && reports' == reports + ReportsOf(config, q, given[..n + 1], history, now)
  }

  lemma BrokenParts(config: Config, q: Question, given: seq<Decision>, n: int, history: History, now: int,
                    reports: seq<Report>, reports': seq<Report>, why: Violation)
    requires Broken(config, q, given, n, history, now, reports, reports', why)
    ensures RefusedAt(config, q, given, n, now, why) && reports <= reports'
  {
  }

  lemma CarriedEnds(config: Config, answers: seq<Decision>, n: nat, history: History, now: int, a: Scene, b: Scene)
    requires n < |answers| && Stops(answers[n]) && (forall k :: 0 <= k < n ==> !Stops(answers[k]))
    requires Carried(config, a.q, answers, n + 1, history, now, a, b)
    ensures Decided(config, a, UpToStop(answers), history, now, b)
  {
    hide Answering;
    hide Accepted;
    hide ReportsOf;
    hide Foreseen;
    UpToStopIs(answers, n);
    ForeseenAtStop(config, a.q, answers, n, history, now);
  }

  /** The refused answer ends the loop with its error, after the report made for it. */
  lemma CarriedRefused(config: Config, answers: seq<Decision>, n: nat, history: History, now: int, a: Scene, b: Scene,
                       reports: seq<Report>)
    requires n < |answers| && (forall k :: 0 <= k < n ==> !Stops(answers[k]))
    requires Carried(config, a.q, answers, n, history, now, a, b) && Refused(config, answers[n], b.q, now)
    requires reports == b.reports + [ReportOf(b.q, history, now)]
    ensures |reports| == |a.reports| + n + 1
    ensures Broken(config, a.q, UpToStop(answers), n, history, now, a.reports, reports, Why(config, answers[n], b.q))
  {
    hide Answering;
    hide Accepted;
    hide Refused;
    hide Why;
    hide ReportOf;
    hide ReportsOf;
    hide ForeseenBy;
    hide TickGrows;
    hide UpToStop;
    hide Stops;
    UpToStopIs(answers, n);
    ReportsLast(config, a.q, UpToStop(answers), n, history, now, a.reports, b.reports, reports);
  }

  lemma ReportsLast(config: Config, q: Question, given: seq<Decision>, n: nat, history: History, now: int,
                    before: seq<Report>, made: seq<Report>, reports: seq<Report>)
    requires n < |given| && made == before + ReportsOf(config, q, given[..n], history, now)
    requires reports == made + [ReportOf(Answering(config, q, given[..n], now), history, now)]
    ensures reports == before + ReportsOf(config, q, given[..n + 1], history, now) && |reports| == |before| + n + 1
  {
    hide *;
    ReportsCount(config, q, given[..n], history, now);
    ReportsMore(config, q, given, n, history, now);
  }

  /** A refresh before the loop foresees nothing the loop would not. */
  lemma DecidedSince(config: Config, a: Scene, b: Scene, given: seq<Decision>, history: History, now: int, c: Scene)
    requires Decided(config, b, given, history, now, c)
    requires b.q == a.q && b.reports == a.reports && b.tick == a.tick
    requires b.wakeups == a.wakeups + Crossings(config, a.q, history, now)
    ensures Decided(config, a, given, history, now, c)
  {
    hide Answering;
    hide Accepted;
    hide ReportsOf;
    hide Foreseen;
    hide Crossings;
    ForeseenFirst(config, a.q, given, history, now);
  }

  lemma DecidedNothing(config: Config, a: Scene, history: History, now: int, b: Scene)
    requires b.q == a.q && b.reports == a.reports && b.tick == a.tick
    requires b.wakeups == a.wakeups + Crossings(config, a.q, history, now)
    ensures Decided(config, a, [], history, now, b)
  {
    hide Crossings;
    assert a.reports + [] == a.reports;
    assert Foreseen(config, a.q, [], history, now) == Crossings(config, a.q, history, now);
  }

  lemma DecidedReports(config: Config, a: Scene, given: seq<Decision>, history: History, now: int, b: Scene)
    requires Decided(config, a, given, history, now, b)
    ensures a.reports <= b.reports
  {
  }

  lemma AnsweredHolds(config: Config, q: Question, d: Decision, now: int)
    ensures q.held != [] ==> Answered(config, q, d, now).held != []
    ensures d.Dispatch? && InQueue(q, d.job) ==> Answered(config, q, d, now).held != []
  {
    hide Grant;
  }

  // ---- instants ----------------------------------------------------------------------------------------

  function Happening(s: Scene): set<Moment> {
    EventsOf(s.q, s.wakeups, s.tick)
  }

  /** The answers that count: none unless a decision is due. */
  ghost function Given(s: Scene, answers: seq<Decision>, now: int): seq<Decision> {
    if DecisionDue(Happening(s), now) then UpToStop(answers) else []
  }

  ghost function TakenIn(config: Config, s: Scene, now: int): Question {
    TakenBy(config, s.q, Happening(s), now)
  }

  /** The scene one instant later. */
  ghost function After(config: Config, s: Scene, answers: seq<Decision>, now: int): Scene
    requires s.now <= now
  {
    var history := s.history + Repeat(WaitingIn(config, s.q), now - s.now);
    var q, given := TakenIn(config, s, now), Given(s, answers, now);
    var q' := Answering(config, q, given, now);
    Scene(now, q', TickFor(TickAfter(s.tick, now), q'.held, now),
          Later(s.wakeups, now) + Foreseen(config, q, given, history, now),
          history, s.reports + ReportsOf(config, q, given, history, now))
  }

  /** One instant: time moves to the next event, no answer that counts is refused, and the scene
      is then the one those answers make. */
  ghost predicate IsInstant(config: Config, a: Scene, answers: seq<Decision>, b: Scene) {
    && IsNextMoment(Happening(a), b.now) && a.now <= b.now
    && Accepted(config, TakenIn(config, a, b.now), Given(a, answers, b.now), b.now)
    && b == After(config, a, answers, b.now)
  }

  /** An instant that ends with an error on answer n. */
  ghost predicate IsRefusal(config: Config, a: Scene, answers: seq<Decision>, now: int, n: int, why: Violation) {
    && IsNextMoment(Happening(a), now)
    && RefusedAt(config, TakenIn(config, a, now), Given(a, answers, now), n, now, why)
  }

  /** Taking the events of a moment and then deciding is an instant. */
  lemma InstantSo(config: Config, a: Scene, answers: seq<Decision>, b: Scene, c: Scene, d: Scene)
    requires IsNextMoment(Happening(a), b.now) && a.now <= b.now
    requires b.q == TakenIn(config, a, b.now) && b.reports == a.reports
    requires b.wakeups == Later(a.wakeups, b.now) && b.tick == TickAfter(a.tick, b.now)
    requires b.history == a.history + Repeat(WaitingIn(config, a.q), b.now - a.now)
    requires Decided(config, b, Given(a, answers, b.now), b.history, b.now, c)
    requires c.now == b.now && c.history == b.history && d == c.(tick := TickFor(c.tick, c.q.held, c.now))
    ensures IsInstant(config, a, answers, d)
  {
    hide IsNextMoment;
    hide TakenIn;
    hide Given;
    hide Later;
    hide TickAfter;
    hide WaitingIn;
    hide Repeat;
    hide Answering;
    hide Accepted;
    hide ReportsOf;
    hide Foreseen;
  }

  lemma RefusalKind(config: Config, a: Scene, answers: seq<Decision>, now: int, n: int, why: Violation)
    requires IsRefusal(config, a, answers, now, n, why)
    ensures why != Stalled && why != HeldAtEnd
  {
  }

  /** An instant goes one way only. */
  lemma InstantUnique(config: Config, a: Scene, answers: seq<Decision>, b: Scene, c: Scene)
    requires IsInstant(config, a, answers, b) && IsInstant(config, a, answers, c)
    ensures b == c
  {
    NextMomentUnique(Happening(a), b.now, c.now);
  }

  lemma NextMomentUnique(events: set<Moment>, s: int, t: int)
    requires IsNextMoment(events, s) && IsNextMoment(events, t)
    ensures s == t
  {
  }

  /** It either ends well or with one certain error. */
  lemma RefusalUnique(config: Config, a: Scene, answers: seq<Decision>, now: int, n: int, why: Violation, now': int,
                      n': int, why': Violation)
    requires IsRefusal(config, a, answers, now, n, why) && IsRefusal(config, a, answers, now', n', why')
    ensures now == now' && n == n' && why == why'
  {
    hide Refused;
    hide Why;
    hide Answering;
    NextMomentUnique(Happening(a), now, now');
    var q, given := TakenIn(config, a, now), Given(a, answers, now);
    NoEarlierRefusal(config, q, given, n, now, why, n', why');
    NoEarlierRefusal(config, q, given, n', now, why', n, why);
  }

  lemma AcceptedAt(config: Config, q: Question, answers: seq<Decision>, n: int, now: int, k: nat)
    requires k < n <= |answers| && Accepted(config, q, answers[..n], now)
    ensures !Refused(config, answers[k], Answering(config, q, answers[..k], now), now)
  {
    hide Refused;
    hide Answering;
    assert answers[..n][..k] == answers[..k] && answers[..n][k] == answers[k];
  }

  lemma NoEarlierRefusal(config: Config, q: Question, answers: seq<Decision>, n: int, now: int, why: Violation, n': int,
                         why': Violation)
    requires RefusedAt(config, q, answers, n, now, why) && RefusedAt(config, q, answers, n', now, why')
    ensures n' >= n
  {
    hide Refused;
    hide Why;
    hide Accepted;
    if 0 <= n' < n {
      AcceptedAt(config, q, answers, n, now, n');
      assert false;
    }
  }

  lemma NoRefusal(config: Config, a: Scene, answers: seq<Decision>, b: Scene, now: int, n: int, why: Violation)
    requires IsInstant(config, a, answers, b)
    ensures !IsRefusal(config, a, answers, now, n, why)
  {
    hide Refused;
    hide Why;
    hide Answering;
    hide After;
    if IsRefusal(config, a, answers, now, n, why) {
      NextMomentUnique(Happening(a), now, b.now);
      assert false;
    }
  }

  // ---- runs --------------------------------------------------------------------------------------------

  /** Holds of every scene: all reports are exact, the policy was told of every crossing, capacity,
      GPUs and tenant limits are respected, and exactly the running jobs are held. */
  ghost predicate Sane(config: Config, s: Scene) {
    && |s.history| == s.now && ReportsOk(s.history, s.reports) && CrossingsTold(s.history, s.reports)
    && Sound(config.capacity, config.gpus, s.q.held) && WithinLimits(config, s.q.held)
    && (forall id :: Holds(s.q.held, id) <==> id in s.q.jobs && s.q.jobs[id].state == Running)
    && (forall id :: id in s.q.jobs ==> s.q.jobs[id].spec.id == id)
  }

  /** Consecutive scenes are one instant apart, with the answers given for it. */
  ghost predicate IsRun(config: Config, answers: nat -> seq<Decision>, scenes: seq<Scene>) {
    && scenes != []
    && (forall k :: 0 <= k < |scenes| ==> Sane(config, scenes[k]))
    && (forall k :: 0 <= k < |scenes| - 1 ==> IsInstant(config, scenes[k], answers(k), scenes[k + 1]))
  }

  lemma RunBegins(config: Config, answers: nat -> seq<Decision>, s: Scene)
    requires Sane(config, s)
    ensures IsRun(config, answers, [s])
  {
    hide Sane;
    hide IsInstant;
  }

  lemma RunMore(config: Config, answers: nat -> seq<Decision>, scenes: seq<Scene>, s: Scene)
    requires IsRun(config, answers, scenes) && Sane(config, s)
    requires IsInstant(config, scenes[|scenes| - 1], answers(|scenes| - 1), s)
    ensures IsRun(config, answers, scenes + [s])
  {
    hide Sane;
    hide IsInstant;
    var more := scenes + [s];
    forall k | 0 <= k < |more| - 1 ensures IsInstant(config, more[k], answers(k), more[k + 1]) {
      if k < |scenes| - 1 {
        assert IsInstant(config, scenes[k], answers(k), scenes[k + 1]);
      }
    }
  }

  lemma RunPrefix(config: Config, answers: nat -> seq<Decision>, scenes: seq<Scene>, n: nat)
    requires IsRun(config, answers, scenes) && 0 < n <= |scenes|
    ensures IsRun(config, answers, scenes[..n])
  {
    hide Sane;
    hide IsInstant;
    forall k | 0 <= k < n - 1 ensures IsInstant(config, scenes[..n][k], answers(k), scenes[..n][k + 1]) {
      assert IsInstant(config, scenes[k], answers(k), scenes[k + 1]);
    }
  }

  /** The answers fix the run: two runs from one scene agree as far as both go. */
  lemma {:induction false} RunsAgree(config: Config, answers: nat -> seq<Decision>, a: seq<Scene>, b: seq<Scene>,
                                     k: nat)
    requires IsRun(config, answers, a) && IsRun(config, answers, b) && a[0] == b[0] && k < |a| && k < |b|
    ensures a[k] == b[k]
  {
    hide Sane;
    hide IsInstant;
    if k > 0 {
      RunsAgree(config, answers, a, b, k - 1);
      assert IsInstant(config, a[k - 1], answers(k - 1), a[k]);
      assert IsInstant(config, b[k - 1], answers(k - 1), b[k]);
      InstantUnique(config, a[k - 1], answers(k - 1), a[k], b[k]);
    }
  }

  ghost predicate SameSpecs(jobs: map<JobId, Standing>, jobs': map<JobId, Standing>) {
    jobs'.Keys == jobs.Keys && forall id :: id in jobs ==> jobs'[id].spec == jobs[id].spec
  }

  lemma {:induction false} AnsweringKeeps(config: Config, q: Question, answers: seq<Decision>, now: int)
    ensures SameSpecs(q.jobs, Answering(config, q, answers, now).jobs)
  {
    if answers != [] {
      AnsweringKeeps(config, q, answers[..|answers| - 1], now);
    }
  }

  /** No job is lost or changed on the way. */
  lemma {:induction false} RunKeepsJobs(config: Config, answers: nat -> seq<Decision>, scenes: seq<Scene>)
    requires IsRun(config, answers, scenes)
    ensures SameSpecs(scenes[0].q.jobs, scenes[|scenes| - 1].q.jobs)
  {
    hide Sane;
    hide IsInstant;
    var n := |scenes| - 1;
    if n > 0 {
      RunPrefix(config, answers, scenes, n);
      RunKeepsJobs(config, answers, scenes[..n]);
      assert IsInstant(config, scenes[n - 1], answers(n - 1), scenes[n]);
      InstantKeepsJobs(config, scenes[n - 1], answers(n - 1), scenes[n]);
    }
  }

  lemma InstantKeepsJobs(config: Config, a: Scene, answers: seq<Decision>, b: Scene)
    requires IsInstant(config, a, answers, b)
    ensures SameSpecs(a.q.jobs, b.q.jobs)
  {
    hide ArrivedState;
    hide Answering;
    AnsweringKeeps(config, TakenIn(config, a, b.now), Given(a, answers, b.now), b.now);
  }

  /** The history is the true one: in every millisecond of the run, exactly the jobs waiting in the
      scene then in force. */
  lemma {:induction false} HistoryIsTrue(config: Config, answers: nat -> seq<Decision>, scenes: seq<Scene>, m: int)
    returns (k: nat)
    requires IsRun(config, answers, scenes) && scenes[0].now <= m < scenes[|scenes| - 1].now
    ensures k < |scenes| - 1 && scenes[k].now <= m < scenes[k + 1].now
    ensures m < |scenes[|scenes| - 1].history|
    ensures scenes[|scenes| - 1].history[m] == WaitingIn(config, scenes[k].q)
  {
    hide WaitingIn;
    hide Accepted;
    hide IsNextMoment;
    hide TakenIn;
    hide Given;
    hide Answering;
    hide Foreseen;
    hide ReportsOf;
    hide ReportsOk;
    hide CrossingsTold;
    hide Sound;
    hide WithinLimits;
    var n := |scenes| - 1;
    assert Sane(config, scenes[n]) && Sane(config, scenes[0]);
    assert n > 0;
    assert IsInstant(config, scenes[n - 1], answers(n - 1), scenes[n]) && Sane(config, scenes[n - 1]);
    if scenes[n - 1].now <= m {
      k := n - 1;
    } else {
      RunPrefix(config, answers, scenes, n);
      k := HistoryIsTrue(config, answers, scenes[..n], m);
      assert scenes[..n][k] == scenes[k] && scenes[..n][k + 1] == scenes[k + 1];
    }
  }

  // ---- who runs was dispatched -------------------------------------------------------------------------

  predicate Begun(q: Question, id: JobId) {
    id in q.jobs && (q.jobs[id].state == Running || q.jobs[id].state == Completed)
  }

  lemma {:induction false} AnsweringBegins(config: Config, q: Question, answers: seq<Decision>, now: int, id: JobId)
    returns (i: nat)
    requires !Begun(q, id) && Begun(Answering(config, q, answers, now), id)
    ensures i < |answers| && answers[i].Dispatch? && answers[i].job == id
  {
    hide Grant;
    var n := |answers| - 1;
    if Begun(Answering(config, q, answers[..n], now), id) {
      i := AnsweringBegins(config, q, answers[..n], now, id);
    } else {
      i := n;
    }
  }

  lemma TakingBeginsNothing(config: Config, s: Scene, now: int, id: JobId)
    requires Sane(config, s) && Begun(TakenIn(config, s, now), id)
    ensures Begun(s.q, id)
  {
    hide ArrivedState;
    hide Feasible;
    hide ReportsOk;
    hide CrossingsTold;
    hide Sound;
    hide WithinLimits;
    hide Kept;
    assert TakenIn(config, s, now).jobs[id] == StandingAfter(config, s.q.jobs[id], Happening(s), now);
    ArrivedIs(config, s.q.jobs[id].spec);
    if Moment(now, Releases(id)) in Happening(s) {
      var a :| a in s.q.held && a.job == id;
      var k :| 0 <= k < |s.q.held| && s.q.held[k] == a;
      assert Holds(s.q.held, id);
    }
  }

  lemma ArrivedIs(config: Config, spec: JobSpec)
    ensures ArrivedState(config, spec) == Queued || ArrivedState(config, spec) == Infeasible
  {
  }

  /** A job that runs or has completed was dispatched by an answer that counted, unless it had
      begun when the run started. */
  lemma {:induction false} BegunWasDispatched(config: Config, answers: nat -> seq<Decision>, scenes: seq<Scene>,
                                              id: JobId)
    returns (k: nat, i: nat)
    requires IsRun(config, answers, scenes)
    requires !Begun(scenes[0].q, id) && Begun(scenes[|scenes| - 1].q, id)
    ensures k < |scenes| - 1
    ensures var given := Given(scenes[k], answers(k), scenes[k + 1].now);
            i < |given| && given[i].Dispatch? && given[i].job == id
  {
    hide Sane;
    hide IsInstant;
    hide Given;
    hide Begun;
    var n := |scenes| - 1;
    assert n > 0;
    assert IsInstant(config, scenes[n - 1], answers(n - 1), scenes[n]);
    if Begun(scenes[n - 1].q, id) {
      RunPrefix(config, answers, scenes, n);
      k, i := BegunWasDispatched(config, answers, scenes[..n], id);
      assert scenes[..n][k] == scenes[k] && scenes[..n][k + 1] == scenes[k + 1];
    } else {
      k := n - 1;
      i := InstantBegins(config, scenes[k], answers(k), scenes[n], id);
    }
  }

  lemma InstantBegins(config: Config, a: Scene, answers: seq<Decision>, b: Scene, id: JobId) returns (i: nat)
    requires Sane(config, a) && IsInstant(config, a, answers, b) && !Begun(a.q, id) && Begun(b.q, id)
    ensures var given := Given(a, answers, b.now); i < |given| && given[i].Dispatch? && given[i].job == id
  {
    hide Sane;
    hide Begun;
    hide TakenIn;
    hide Given;
    hide Answering;
    var q := TakenIn(config, a, b.now);
    if Begun(q, id) {
      TakingBeginsNothing(config, a, b.now, id);
      assert false;
    }
    i := AnsweringBegins(config, q, Given(a, answers, b.now), b.now, id);
  }
}
