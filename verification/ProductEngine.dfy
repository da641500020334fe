/** The event loop of the product-policy engine (benchmarks/b04/engine.py) around its
    eligible-wait accounting. The policy is arbitrary: its answers at each instant are given. */
module ProductEngine {
  import opened Basics
  import opened Wrappers
  import opened Workload
  import opened Ledger
  import opened SimulationState
  import opened WaitHistory
  import opened EligibleWait
  import opened ProductSteps
  import opened ProductRecord

  class Engine {
    const config: Config
    const ledger: AllocationLedger
    var now: int
    var events: set<Moment>
    var jobs: map<JobId, MutableJob>
    var wakeups: set<Wakeup>
    var nextTick: Option<int>
    var reserved: bool
    var reports: seq<Report>
    /** Which jobs were eligible during each millisecond. */
    ghost var history: History

    /** Holds at every point of the loop. */
    ghost predicate Steady()
      reads this, ledger
    {
      && ledger.Valid() && ledger.capacity == config.capacity && ledger.gpus == config.gpus
      && WithinLimits(config, ledger.held) && 0 <= now == |history|
      && JobsKnown(config, jobs) && WaitsOk(jobs, history, now) && LiveOk(jobs, now, wakeups)
      && WakeupsOk(events, wakeups) && TickOk(events, nextTick)
      && MomentsOk(jobs, ledger.held, events) && OwedMoments(jobs, ledger.held, events)
      && Judged(config, jobs)
      && (forall e :: e in events ==> now <= e.time)
      && (forall id :: id in jobs ==> jobs[id].spec.duration > 0)
      && ReportsOk(history, reports)
    }

    /** Holds between instants: also, exactly the eligible jobs have a running wait, the policy was
        told of every crossing so far, and the next tick is ahead. */
    ghost predicate Valid()
      reads this, ledger
    {
      && Steady() && FlagsOk(config, ledger.held, jobs) && CrossingsTold(history, reports)
      && (nextTick.Some? ==> now < nextTick.value)
    }

    ghost function View(): Scene
      reads this, ledger
    {
      Scene(now, Here(), nextTick, wakeups, history, reports)
    }

    ghost function Here(): Question
      reads this, ledger
    {
      Question(Standings(jobs), ledger.held, reserved)
    }

    constructor (trace: Trace)
      requires ValidTrace(trace)
      ensures Valid() && fresh(ledger) && config == trace.config && ledger.capacity == config.capacity
      ensures jobs == InitialJobs(trace.jobs)
      ensures View() == Scene(0, Question(Standings(jobs), [], false), None, {}, [], [])
    {
      config := trace.config;
      ledger := new AllocationLedger(trace.config.capacity, trace.config.gpus);
      now, wakeups, nextTick, reserved, reports, history := 0, {}, None, false, [], [];
      jobs, events := InitialJobs(trace.jobs), InitialMoments(trace.jobs);
      new;
      Loaded(trace);
    }

    lemma Loaded(trace: Trace)
      requires ValidTrace(trace) && config == trace.config && ledger.Valid() && ledger.held == []
      requires ledger.capacity == config.capacity && ledger.gpus == config.gpus
      requires jobs == InitialJobs(trace.jobs) && events == InitialMoments(trace.jobs)
      requires now == 0 && wakeups == {} && nextTick.None? && reports == [] && history == []
      ensures Valid()
    {
      hide WithinLimits;
      hide InitialJobs;
      hide InitialMoments;
      hide JobsKnown;
      hide LiveOk;
      hide WakeupsOk;
      hide TickOk;
      hide MomentsOk;
      hide OwedMoments;
      hide FlagsOk;
      hide Judged;
      hide WaitsOk;
      hide AllocationLedger.Valid;
      InitialFacts(trace, ledger.held);
      InitialOwed(trace.jobs);
      NoLimits(trace);
    }

    method ScheduleWakeup(time: int, kind: Kind)
      requires WakeupsOk(events, wakeups)
      modifies this`events, this`wakeups
      ensures WakeupsOk(events, wakeups) && OnlyWakeups(old(events), events, now)
      ensures wakeups == old(wakeups) + if now < time then {Wakeup(time, kind)} else {}
      ensures wakeups == old(wakeups) ==> events == old(events)
    {
      var key := Wakeup(time, kind);
      if time <= now || key in wakeups {
        return;
      }
      wakeups := wakeups + {key};
      events := events + {Moment(time, Wakes(kind))};
    }

    method ScheduleNextTick()
      requires Steady()
      modifies this`events, this`nextTick
      ensures Steady()
      ensures nextTick == if ledger.held != [] && old(nextTick).None? then Some(now + 1000) else old(nextTick)
      ensures events == old(events) + if nextTick != old(nextTick) then {Moment(now + 1000, Ticks)} else {}
    {
      hide OwedMoments;
      hide Judged;
      if ledger.held != [] && nextTick.None? {
        nextTick := Some(now + 1000);
        events := events + {Moment(now + 1000, Ticks)};
        TickApart(old(events), events, wakeups);
        MoreTick(jobs, ledger.held, old(events), Moment(now + 1000, Ticks));
        OwedMore(jobs, ledger.held, old(events), events);
      }
    }

    /** The wakeups a running wait needs; nothing changes when they are all there. */
    method ScheduleCrossings(j: MutableJob)
      requires WakeupsOk(events, wakeups)
      modifies this`events, this`wakeups
      ensures WakeupsOk(events, wakeups) && OnlyWakeups(old(events), events, now)
      ensures wakeups == old(wakeups) + (if j.since.Some? then CrossingsOf(WaitedMs(j, now), now) else {})
      ensures Live(j, now, wakeups)
      ensures Live(j, now, old(wakeups)) ==> wakeups == old(wakeups) && events == old(events)
    {
      if j.since.Some? {
        var wait := j.waited + now - j.since.value;
        if wait < Threshold(Aging) {
          ScheduleWakeup(now + Threshold(Aging) - wait, Aging);
        }
        if wait < Threshold(Reservation) {
          ScheduleWakeup(now + Threshold(Reservation) - wait, Reservation);
        }
      }
      NowLive(j, now, wakeups);
    }

    /** One job of refresh_eligibility; nothing changes for a job whose flag is right. */
    method RefreshJob(id: JobId)
      requires Steady() && id in jobs
      modifies this`jobs, this`events, this`wakeups
      ensures Steady() && old(jobs[id].since.Some? ==> jobs[id].since.value <= now)
      ensures jobs == old(jobs)[id := Refreshed(old(jobs[id]), IsEligible(config, ledger.held, old(jobs[id])), now)]
      ensures OnlyWakeups(old(events), events, now)
      ensures wakeups == old(wakeups) + JobCrossings(config, old(Here()), history, now, id)
      ensures old(jobs[id].since.Some? <==> IsEligible(config, ledger.held, jobs[id])) ==>
                jobs == old(jobs) && wakeups == old(wakeups) && events == old(events)
    {
      hide IsEligible;
      hide MomentsOk;
      hide OwedMoments;
      hide Judged;
      hide AllocationLedger.Valid;
      hide WithinLimits;
      hide Live;
      hide ReportsOk;
      hide TickOk;
      hide WaitsOk;
      hide TotalMs;
      ghost var total := TotalMs(history, id);
      WaitAt(jobs, history, now, id);
      assert Live(jobs[id], now, wakeups);
      hide LiveOk;
      var eligible := IsEligible(config, ledger.held, jobs[id]);
      var j := Refreshed(jobs[id], eligible, now);
      RefreshKeepsWait(jobs[id], eligible, now, total);
      WaitsIffEligible(config, jobs, ledger.held, reserved, id);
      hide Waits;
      hide CrossingsOf;
      ScheduleCrossings(j);
      RefreshOne(config, jobs, id, eligible, history, now, old(wakeups), wakeups);
      RefreshedEvents(config, jobs, id, j, ledger.held, old(events), events, now, nextTick);
      jobs := jobs[id := j];
    }

    /** Afterwards exactly the eligible jobs have a running wait; nothing changes if that was so. */
    method Refresh()
      requires Steady()
      modifies this`jobs, this`events, this`wakeups
      ensures Steady() && FlagsOk(config, ledger.held, jobs) && OnlyWakeups(old(events), events, now)
      ensures SameStates(old(jobs), jobs) && JobsKnown(config, old(jobs)) && Here() == old(Here())
      ensures wakeups == old(wakeups) + Crossings(config, Here(), history, now)
      ensures FlagsOk(config, ledger.held, old(jobs)) ==>
                jobs == old(jobs) && wakeups == old(wakeups) && events == old(events)
    {
      hide IsEligible;
      hide Refreshed;
      hide LiveOk;
      hide WakeupsOk;
      hide TickOk;
      hide MomentsOk;
      hide OwedMoments;
      hide Judged;
      hide ReportsOk;
      hide AllocationLedger.Valid;
      hide WithinLimits;
      hide OnlyWakeups;
      hide JobsKnown;
      hide WaitsOk;
      hide JobCrossings;
      hide Crossings;
      hide CrossingsAmong;
      hide Standings;
      hide SameStates;
      hide FlagsExcept;
      hide FlagsOk;
      MoreWakes(events, events, events, now);
      CrossingsNone(config, Here(), history, now);
      RefreshBegins(config, ledger.held, jobs);
      ghost var seen: set<JobId> := {};
      var pending := jobs.Keys;
      while pending != {}
        invariant Steady() && OnlyWakeups(old(events), events, now) && SameStates(old(jobs), jobs)
        invariant pending <= jobs.Keys && Here() == old(Here())
        invariant forall id :: id in old(jobs) <==> id in pending || id in seen
        invariant wakeups == old(wakeups) + CrossingsAmong(config, Here(), history, now, seen)
        invariant FlagsExcept(config, ledger.held, jobs, pending)
        invariant FlagsOk(config, ledger.held, old(jobs)) ==>
                    jobs == old(jobs) && wakeups == old(wakeups) && events == old(events)
        decreases |pending|
      {
        HasElement(pending);
        var id :| id in pending;
        ghost var was := events;
        FlagStep(config, ledger.held, old(jobs), jobs, id, history, now, pending);
        FlagAt(config, ledger.held, old(jobs), id);
        CrossingsMore(config, Here(), history, now, seen, id);
        RefreshJob(id);
        StandingsSame(old(jobs), jobs);
        MoreWakes(old(events), was, events, now);
        pending, seen := pending - {id}, seen + {id};
      }
      RefreshEnds(config, ledger.held, old(jobs), jobs);
      CrossingsAll(config, jobs, ledger.held, reserved, history, now, seen);
    }

    /** eligible_wait_overrides: for every queued job, its total eligible time in whole seconds. */
    method EligibleWaitOverrides() returns (waits: map<JobId, int>)
      requires Steady()
      ensures forall id :: id in waits <==> id in QueuedIds(jobs)
      ensures forall id :: id in waits ==> waits[id] == TotalMs(history, id) / 1000
    {
      hide TotalMs;
      waits := map id | id in jobs && jobs[id].state == Queued :: WaitedMs(jobs[id], now) / 1000;
      forall id | id in waits ensures waits[id] == TotalMs(history, id) / 1000 {
        assert WaitOk(jobs[id], TotalMs(history, id), now);
      }
    }

    /** A release: the job leaves the ledger and completes. */
    method TakeRelease(e: Moment)
      requires Steady() && e in events && e.time == now && e.what.Releases?
      modifies this`events, this`jobs, ledger
      ensures Steady() && events == old(events) - {e}
      ensures e.what.job in old(jobs) && old(jobs[e.what.job].state) == Running
      ensures jobs == old(jobs)[e.what.job := old(jobs[e.what.job]).(state := Completed)]
      ensures ledger.held == Ledger.Without(old(ledger.held), e.what.job)
    {
      hide WaitsOk;
      hide LiveOk;
      hide ReportsOk;
      hide WakeupsOk;
      hide TickOk;
      hide MomentsOk;
      hide OwedMoments;
      hide Judged;
      hide AllocationLedger.Valid;
      hide WithinLimits;
      var id := e.what.job;
      AfterRelease(config, jobs, ledger.held, events, e, history, now, wakeups, nextTick);
      JudgedMove(config, jobs, id, Completed);
      OwedTake(jobs, ledger.held, events, e, jobs[id].(state := Completed));
      LimitsAfterRelease(config, ledger, id);
      var released := ledger.Release(id);
      jobs := jobs[id := jobs[id].(state := Completed)];
      events := events - {e};
    }

    /** An arrival: the job is queued, or infeasible for good. */
    method TakeArrival(e: Moment)
      requires Steady() && e in events && e.time == now && e.what.Arrives?
      modifies this`events, this`jobs
      ensures Steady() && events == old(events) - {e}
      ensures e.what.job in old(jobs) && old(jobs[e.what.job].state) == Pending
      ensures jobs == old(jobs)[e.what.job :=
                        old(jobs[e.what.job]).(state := ArrivalState(config, old(jobs[e.what.job]).spec))]
    {
      hide WaitsOk;
      hide LiveOk;
      hide ReportsOk;
      hide WakeupsOk;
      hide TickOk;
      hide MomentsOk;
      hide OwedMoments;
      hide Judged;
      hide AllocationLedger.Valid;
      hide WithinLimits;
      var id := e.what.job;
      AfterArrival(config, jobs, ledger.held, events, e, history, now, wakeups, nextTick);
      hide ArrivalState;
      var state := ArrivalState(config, jobs[id].spec);
      JudgedMove(config, jobs, id, state);
      OwedTake(jobs, ledger.held, events, e, jobs[id].(state := state));
      jobs := jobs[id := jobs[id].(state := state)];
      events := events - {e};
    }

    /** A wakeup only says that it is time to decide, a tick not even that. */
    method TakeWakeup(e: Moment)
      requires Steady() && e in events && e.time == now && (e.what.Wakes? || e.what.Ticks?)
      modifies this`events, this`wakeups, this`nextTick
      ensures Steady() && events == old(events) - {e}
      ensures e.what.Wakes? ==>
                && Wakeup(now, e.what.kind) in old(wakeups) && wakeups == old(wakeups) - {Wakeup(now, e.what.kind)}
                && nextTick == old(nextTick)
      ensures e.what.Ticks? ==> old(nextTick) == Some(now) && nextTick.None? && wakeups == old(wakeups)
    {
      hide AllocationLedger.Valid;
      hide WithinLimits;
      hide WaitsOk;
      hide ReportsOk;
      hide OwedMoments;
      hide Judged;
      hide JobsKnown;
      hide MomentsOk;
      OneFewer(jobs, ledger.held, events, e);
      OwedMore(jobs, ledger.held, events, events - {e});
      if e.what.Ticks? {
        nextTick := None;
        TickApart(events, events - {e}, wakeups);
      } else {
        LiveWithout(jobs, now, wakeups, e.what.kind);
        wakeups := wakeups - {Wakeup(now, e.what.kind)};
        WakeApart(events, events - {e}, nextTick);
      }
      events := events - {e};
    }

    /** One event of the present instant, and what has been taken of the instant since it began. */
    method TakeOne(e: Moment, ghost jobs0: map<JobId, MutableJob>, ghost held0: seq<Allocation>,
                   ghost events0: set<Moment>)
      requires Steady() && e in events && e.time == now && events <= events0
      requires JobsKnown(config, jobs0) && MomentsOk(jobs0, held0, events0)
      requires Taken(config, jobs0, events0 - events, now, jobs) && ledger.held == Kept(held0, events0 - events, now)
      modifies this`events, this`jobs, this`wakeups, this`nextTick, ledger
      ensures Steady() && events == old(events) - {e}
      ensures Taken(config, jobs0, events0 - events, now, jobs) && ledger.held == Kept(held0, events0 - events, now)
      ensures || Left(jobs) < Left(old(jobs))
              || (jobs == old(jobs) && ledger.held == old(ledger.held)
                  && (|wakeups| < |old(wakeups)|
                      || (wakeups == old(wakeups) && old(nextTick) == Some(now) && nextTick.None?)))
    {
      hide JobsKnown;
      hide WaitsOk;
      hide LiveOk;
      hide WakeupsOk;
      hide TickOk;
      hide MomentsOk;
      hide OwedMoments;
      hide Judged;
      hide ReportsOk;
      hide AllocationLedger.Valid;
      hide WithinLimits;
      hide Taken;
      hide Kept;
      hide ArrivalState;
      hide Left;
      KeptStep(held0, events0 - events, now, e);
      TakenAny(config, jobs0, held0, events0, events0 - events, now, jobs, e);
      assert events0 - (events - {e}) == events0 - events + {e};
      if e.what.Releases? {
        TakeRelease(e);
        LeftMove(old(jobs), e.what.job, Completed);
      } else if e.what.Arrives? {
        TakeArrival(e);
        ArrivalLowers(config, old(jobs), e.what.job);
      } else {
        TakeWakeup(e);
        if e.what.Wakes? {
          FewerWakeups(old(wakeups), Wakeup(now, e.what.kind));
        }
      }
    }

    /** All events of the present instant. If no decision is due, no threshold was crossed. */
    method TakeAll() returns (decide: bool)
      requires Steady() && CrossingsPending(history, reports, jobs, events, now)
      requires exists e :: e in events && e.time == now
      modifies this`events, this`jobs, this`wakeups, this`nextTick, ledger
      ensures Steady() && forall e :: e in events ==> now < e.time
      ensures CrossingsBut(history, reports, jobs, now) && (!decide ==> CrossingsTold(history, reports))
      ensures decide <==> exists e :: e in old(events) && e.time == now && !e.what.Ticks?
      ensures forall e :: e in events <==> e in old(events) && e.time != now
      ensures JobsKnown(config, old(jobs)) && Taken(config, old(jobs), old(events) - events, now, jobs)
      ensures ledger.held == Kept(old(ledger.held), old(events) - events, now)
      ensures Left(jobs) < Left(old(jobs)) ||
              (jobs == old(jobs) && ledger.held == old(ledger.held)
               && Quieter(old(wakeups), old(nextTick), old(events), wakeups, nextTick, events, now))
    {
      hide JobsKnown;
      hide WaitsOk;
      hide LiveOk;
      hide WakeupsOk;
      hide TickOk;
      hide MomentsOk;
      hide OwedMoments;
      hide Judged;
      hide ReportsOk;
      hide CrossingsPending;
      hide CrossingsBut;
      hide CrossingsTold;
      hide AllocationLedger.Valid;
      hide WithinLimits;
      hide Taken;
      hide Kept;
      hide Left;
      TakenNone(config, jobs, now);
      KeptAll(ledger.held, now);
      assert events - events == {};
      decide := false;
      while exists e :: e in events && e.time == now
        invariant Steady() && events <= old(events)
        invariant forall e :: e in old(events) && e !in events ==> e.time == now
        invariant decide <==> exists e :: e in old(events) && e !in events && !e.what.Ticks?
        invariant !decide ==> CrossingsPending(history, reports, old(jobs), events, now)
        invariant Taken(config, old(jobs), old(events) - events, now, jobs)
        invariant ledger.held == Kept(old(ledger.held), old(events) - events, now)
        invariant Left(jobs) < Left(old(jobs)) ||
                  (jobs == old(jobs) && ledger.held == old(ledger.held)
                   && Quieter(old(wakeups), old(nextTick), old(events), wakeups, nextTick, events, now))
        decreases |events|
      {
        var e :| e in events && e.time == now;
        ghost var was := events;
        TakeOne(e, old(jobs), old(ledger.held), old(events));
        decide := decide || !e.what.Ticks?;
        if !decide {
          StillPending(history, reports, old(jobs), was, e, now);
        }
      }
      PendingBut(history, reports, old(jobs), old(events), now);
      QueuedStays(config, old(jobs), old(ledger.held), old(events), old(events) - events, now, jobs);
      ButLater(history, reports, old(jobs), jobs, now);
      if !decide {
        NonePending(history, reports, old(jobs), events, now);
      }
    }

    method Start(id: JobId) returns (violation: Option<Violation>)
      requires Steady() && id in jobs && jobs[id].state == Queued && forall e :: e in events ==> now < e.time
      modifies this`events, this`jobs, ledger
      ensures violation.None? <==> old(CanStart(config, ledger.capacity, ledger.gpus, ledger.held, jobs[id].spec, now))
      ensures violation.Some? ==> violation.value == Why(config, Dispatch(id, false), old(Here()))
      ensures violation.None? ==>
                && Steady() && (forall e :: e in events ==> now < e.time)
                && jobs == old(jobs)[id := old(jobs[id]).(state := Running)]
                && ledger.held == old(ledger.held) + [Grant(ledger.gpus, old(ledger.held), old(jobs[id]).spec, now)]
                && events == old(events) + {Moment(now + old(jobs[id]).spec.duration, Releases(id))}
    {
      hide WaitsOk;
      hide LiveOk;
      hide WakeupsOk;
      hide TickOk;
      hide MomentsOk;
      hide OwedMoments;
      hide Judged;
      hide ReportsOk;
      hide AllocationLedger.Valid;
      hide WithinLimits;
      var job := jobs[id].spec;
      var granted := ledger.Allocate(job, now);
      if granted.Err? {
        return Some(LedgerRefused);
      }
      ghost var a := granted.value;
      var e := Moment(now + job.duration, Releases(id));
      StartMoment(jobs, old(ledger.held), a, events, e.time, id);
      OwedStart(jobs, old(ledger.held), events, id, a);
      StateOnly(config, jobs, id, Running, history, now, wakeups);
      JudgedMove(config, jobs, id, Running);
      TickApart(events, events + {e}, wakeups);
      WakeApart(events, events + {e}, nextTick);
      jobs := jobs[id := jobs[id].(state := Running)];
      events := events + {e};
      if !WithinLimits(config, ledger.held) {
        return Some(LimitExceeded);
      }
      return None;
    }

    /** A dispatch: the job must be queued and startable; then it runs, and one tick is ahead. */
    method Launch(id: JobId) returns (violation: Option<Violation>)
      requires Steady() && forall e :: e in events ==> now < e.time
      modifies this`events, this`jobs, this`nextTick, ledger
      ensures violation.Some? <==> Refused(config, Dispatch(id, false), old(Here()), now)
      ensures violation.Some? ==> violation.value == Why(config, Dispatch(id, false), old(Here()))
      ensures violation.None? ==>
                && Steady() && (forall e :: e in events ==> now < e.time) && IsQueued(old(jobs), id)
                && jobs == old(jobs)[id := old(jobs[id]).(state := Running)]
                && ledger.held == old(ledger.held) + [Grant(config.gpus, old(ledger.held), old(jobs[id]).spec, now)]
                && events == old(events) + {Moment(now + old(jobs[id]).spec.duration, Releases(id))}
                             + if nextTick != old(nextTick) then {Moment(now + 1000, Ticks)} else {}
      ensures violation.None? ==> nextTick == if old(nextTick).None? then Some(now + 1000) else old(nextTick)
    {
      hide JobsKnown;
      hide WaitsOk;
      hide LiveOk;
      hide WakeupsOk;
      hide TickOk;
      hide MomentsOk;
      hide OwedMoments;
      hide Judged;
      hide ReportsOk;
      hide AllocationLedger.Valid;
      hide WithinLimits;
      hide Grant;
      hide CanStart;
      if id !in jobs || jobs[id].state != Queued {
        return Some(NotQueued);
      }
      violation := Start(id);
      if violation.None? {
        ScheduleNextTick();
      }
    }

    /** Carries out one answer, or raises the error it deserves; `again` tells whether the policy is
        asked once more. */
    method Apply(d: Decision) returns (violation: Option<Violation>, again: bool)
      requires Steady() && forall e :: e in events ==> now < e.time
      modifies this`events, this`jobs, this`nextTick, this`reserved, ledger
      ensures violation.Some? <==> Refused(config, d, old(Here()), now)
      ensures violation.Some? ==> violation.value == Why(config, d, old(Here()))
      ensures violation.None? ==>
                && Steady() && (again <==> !Stops(d)) && (forall e :: e in events ==> now < e.time)
                && Here() == Answered(config, old(Here()), d, now)
                && nextTick == (if d.Dispatch? then TickFor(old(nextTick), ledger.held, now) else old(nextTick))
      ensures violation.None? && !d.Dispatch? ==> jobs == old(jobs) && events == old(events)
      ensures violation.None? && d.Dispatch? ==>
                && IsQueued(old(jobs), d.job) && jobs == old(jobs)[d.job := old(jobs[d.job]).(state := Running)]
    {
      hide JobsKnown;
      hide WaitsOk;
      hide LiveOk;
      hide WakeupsOk;
      hide TickOk;
      hide MomentsOk;
      hide OwedMoments;
      hide Judged;
      hide ReportsOk;
      hide AllocationLedger.Valid;
      hide WithinLimits;
      hide Grant;
      hide CanStart;
      hide Standings;
      match d
      case Dispatch(id, fromReservation) =>
        violation := Launch(id);
        if violation.Some? {
          return violation, false;
        }
        StandingsMove(old(jobs), id, Running);
        StandingsHave(old(jobs), id);
        reserved := reserved && !fromReservation;
        again := true;
      case CreateReservation =>
        if reserved {
          return Some(SecondReservation), false;
        }
        reserved := true;
        return None, true;
      case InvalidateReservation =>
        if !reserved {
          return Some(NoReservation), false;
        }
        reserved := false;
        return None, true;
      case _ =>
        return None, false;
    }

    /** Refresh, and report the exact wait of every queued job. */
    method Tell()
      requires Steady() && CrossingsBut(history, reports, jobs, now) && forall e :: e in events ==> now < e.time
      modifies this`events, this`jobs, this`wakeups, this`reports
      ensures Steady() && FlagsOk(config, ledger.held, jobs) && CrossingsTold(history, reports)
      ensures SameStates(old(jobs), jobs) && Here() == old(Here()) && forall e :: e in events ==> now < e.time
      ensures reports == old(reports) + [ReportOf(Here(), history, now)]
      ensures wakeups == old(wakeups) + Crossings(config, Here(), history, now)
      ensures old(FlagsOk(config, ledger.held, jobs)) ==>
                jobs == old(jobs) && wakeups == old(wakeups) && events == old(events)
    {
      hide JobsKnown;
      hide WaitsOk;
      hide LiveOk;
      hide WakeupsOk;
      hide TickOk;
      hide MomentsOk;
      hide OwedMoments;
      hide Judged;
      hide AllocationLedger.Valid;
      hide WithinLimits;
      hide OnlyWakeups;
      hide ReportsOk;
      hide CrossingsBut;
      hide CrossingsTold;
      hide FlagsOk;
      hide SameStates;
      hide QueuedIds;
      hide TotalMs;
      hide Standings;
      hide ReportOf;
      hide Crossings;
      Refresh();
      LaterStill(old(events), events, now);
      RefreshFacts(old(jobs), jobs, history, reports, now);
      var waits := EligibleWaitOverrides();
      AddReport(history, reports, jobs, Report(now, waits));
      ReportIs(jobs, ledger.held, reserved, history, now, waits);
      reports := reports + [Report(now, waits)];
    }

    /** Ask the policy once: refresh, report the exact wait of every queued job, carry out the answer. */
    method AskOnce(d: Decision) returns (violation: Option<Violation>, again: bool)
      requires Steady() && CrossingsBut(history, reports, jobs, now)
      requires forall e :: e in events ==> now < e.time
      modifies this`events, this`jobs, this`wakeups, this`nextTick, this`reserved, this`reports, ledger
      ensures CrossingsTold(history, reports) && reports == old(reports) + [ReportOf(old(Here()), history, now)]
      ensures wakeups == old(wakeups) + Crossings(config, old(Here()), history, now)
      ensures violation.Some? <==> Refused(config, d, old(Here()), now)
      ensures violation.Some? ==> violation.value == Why(config, d, old(Here()))
      ensures violation.None? ==>
                && Steady() && (again <==> !Stops(d)) && (forall e :: e in events ==> now < e.time)
                && Here() == Answered(config, old(Here()), d, now)
                && nextTick == (if d.Dispatch? then TickFor(old(nextTick), ledger.held, now) else old(nextTick))
      ensures violation.None? && !d.Dispatch? ==> FlagsOk(config, ledger.held, jobs)
      ensures violation.None? ==> Left(jobs) <= Left(old(jobs)) && (d.Dispatch? ==> Left(jobs) < Left(old(jobs)))
      ensures violation.None? && !d.Dispatch? && old(FlagsOk(config, ledger.held, jobs)) ==>
                jobs == old(jobs) && ledger.held == old(ledger.held) && wakeups == old(wakeups)
    {
      hide JobsKnown;
      hide WaitsOk;
      hide LiveOk;
      hide WakeupsOk;
      hide TickOk;
      hide MomentsOk;
      hide OwedMoments;
      hide Judged;
      hide AllocationLedger.Valid;
      hide WithinLimits;
      hide ReportsOk;
      hide CrossingsBut;
      hide CrossingsTold;
      hide FlagsOk;
      hide SameStates;
      hide Left;
      hide Standings;
      hide ReportOf;
      hide Crossings;
      hide Refused;
      hide Why;
      hide CanStart;
      hide Grant;
      Tell();
      RefreshFacts(old(jobs), jobs, history, reports, now);
      ghost var refreshed := jobs;
      violation, again := Apply(d);
      if violation.None? && d.Dispatch? {
        LeftMove(refreshed, d.job, Running);
      }
    }

    /** The decision loop of one instant. Before every answer the policy is told the exact waits;
        it is asked until the first answer that stops the loop or is refused. */
    method Decide(answers: seq<Decision>) returns (violation: Option<Violation>)
      requires Steady() && Ends(answers) && forall e :: e in events ==> now < e.time
      requires CrossingsBut(history, reports, jobs, now)
      modifies this`events, this`jobs, this`wakeups, this`nextTick, this`reserved, this`reports, ledger
      ensures violation.None? ==>
                && Steady() && FlagsOk(config, ledger.held, jobs) && CrossingsTold(history, reports)
                && (forall e :: e in events ==> now < e.time)
                && Decided(config, old(View()), UpToStop(answers), history, now, View())
      ensures violation.Some? ==>
                Broken(config, old(Here()), UpToStop(answers), |reports| - |old(reports)| - 1, history, now,
                       old(reports), reports, violation.value)
      ensures violation.None? ==> Left(jobs) <= Left(old(jobs))
      ensures violation.None? && old(FlagsOk(config, ledger.held, jobs)) ==>
                || Left(jobs) < Left(old(jobs))
                || (jobs == old(jobs) && ledger.held == old(ledger.held) && wakeups == old(wakeups)
                    && nextTick == old(nextTick))
    {
      hide JobsKnown;
      hide WaitsOk;
      hide LiveOk;
      hide WakeupsOk;
      hide TickOk;
      hide MomentsOk;
      hide OwedMoments;
      hide Judged;
      hide AllocationLedger.Valid;
      hide WithinLimits;
      hide ReportsOk;
      hide CrossingsBut;
      hide CrossingsTold;
      hide FlagsOk;
      hide Standings;
      hide Carried;
      hide Decided;
      hide Broken;
      hide Refused;
      hide Why;
      hide Answered;
      hide ReportOf;
      hide ReportsOf;
      hide Crossings;
      hide UpToStop;
      hide Left;
      CarriedNone(config, answers, history, now, View());
      assert reports[|reports|..] == [];
      var i := 0;
      while true
        invariant 0 <= i < |answers| && Steady() && (forall e :: e in events ==> now < e.time)
        invariant CrossingsBut(history, reports, jobs, now) && Left(jobs) <= Left(old(jobs))
        invariant forall j :: 0 <= j < i ==> !Stops(answers[j])
        invariant Carried(config, old(Here()), answers, i, history, now, old(View()), View())
        invariant old(FlagsOk(config, ledger.held, jobs)) ==>
                    || Left(jobs) < Left(old(jobs))
                    || (jobs == old(jobs) && ledger.held == old(ledger.held) && wakeups == old(wakeups)
                        && nextTick == old(nextTick))
        decreases |answers| - i
      {
        var again;
        ghost var was := View();
        violation, again := AskOnce(answers[i]);
        if violation.Some? {
          CarriedRefused(config, answers, i, history, now, old(View()), was, reports);
          return;
        }
        AnsweredHolds(config, was.q, answers[i], now);
        CarriedMore(config, answers, i, history, now, old(View()), was, View());
        if !again {
          CarriedEnds(config, answers, i, history, now, old(View()), View());
          return;
        }
        ToldBut(history, reports, jobs, now);
        i := i + 1;
      }
    }

    method NextTime() returns (time: int)
      requires events != {}
      ensures (exists e :: e in events && e.time == time) && forall e :: e in events ==> time <= e.time
    {
      var pending := events;
      var first :| first in pending;
      time := first.time;
      pending := pending - {first};
      while pending != {}
        invariant pending <= events
        invariant exists e :: e in events && e.time == time
        invariant forall e :: e in events && e !in pending ==> time <= e.time
        decreases |pending|
      {
        var e :| e in pending;
        if e.time < time {
          time := e.time;
        }
        pending := pending - {e};
      }
    }

    /** Time moves on; nothing else does. */
    method Advance(time: int)
      requires Valid() && now <= time && forall e :: e in events ==> time <= e.time
      modifies this`now, this`history
      ensures Steady() && now == time
      ensures history == old(history) + Repeat(EligibleNow(config, ledger.held, jobs), time - old(now))
      ensures CrossingsPending(history, reports, jobs, events, now)
    {
      hide TotalMs;
      hide IsEligible;
      hide MomentsOk;
      hide OwedMoments;
      hide Judged;
      hide AllocationLedger.Valid;
      hide WithinLimits;
      hide Live;
      WaitsAdvance(config, ledger.held, jobs, history, now, time);
      CrossingsAdvance(config, ledger.held, jobs, history, now, time, events, wakeups, reports);
      LiveAdvance(jobs, now, time, wakeups);
      ghost var history' := history + Repeat(EligibleNow(config, ledger.held, jobs), time - now);
      assert Extends(history, history');
      ReportsAdvance(history, history', reports);
      history := history';
      now := time;
    }

    /** What follows the events of an instant: a refresh, and the decision loop if one is due. */
    method Respond(decide: bool, answers: seq<Decision>) returns (violation: Option<Violation>)
      requires Steady() && Ends(answers) && forall e :: e in events ==> now < e.time
      requires CrossingsBut(history, reports, jobs, now) && (!decide ==> CrossingsTold(history, reports))
      modifies this`events, this`jobs, this`wakeups, this`nextTick, this`reserved, this`reports, ledger
      ensures violation.None? ==>
                && Steady() && FlagsOk(config, ledger.held, jobs) && CrossingsTold(history, reports)
                && (forall e :: e in events ==> now < e.time)
                && Decided(config, old(View()), if decide then UpToStop(answers) else [], history, now, View())
      ensures violation.Some? ==>
                decide && Broken(config, old(Here()), UpToStop(answers), |reports| - |old(reports)| - 1, history, now,
                                 old(reports), reports, violation.value)
      ensures violation.None? ==> Left(jobs) <= Left(old(jobs))
      ensures violation.None? && old(FlagsOk(config, ledger.held, jobs)) ==>
                || Left(jobs) < Left(old(jobs))
                || (jobs == old(jobs) && ledger.held == old(ledger.held) && wakeups == old(wakeups)
                    && nextTick == old(nextTick))
    {
      hide SameStates;
      hide JobsKnown;
      hide WaitsOk;
      hide LiveOk;
      hide WakeupsOk;
      hide TickOk;
      hide MomentsOk;
      hide OwedMoments;
      hide Judged;
      hide ReportsOk;
      hide CrossingsBut;
      hide CrossingsTold;
      hide FlagsOk;
      hide Left;
      hide Standings;
      hide Decided;
      hide Broken;
      hide ReportsOf;
      hide Crossings;
      hide UpToStop;
      hide Ends;
      hide AllocationLedger.Valid;
      hide WithinLimits;
      hide OnlyWakeups;
      Refresh();
      LaterStill(old(events), events, now);
      RefreshFacts(old(jobs), jobs, history, reports, now);
      ghost var refreshed := View();
      if decide {
        violation := Decide(answers);
        if violation.None? {
          DecidedSince(config, old(View()), refreshed, UpToStop(answers), history, now, View());
        }
      } else {
        violation := None;
        DecidedNothing(config, old(View()), history, now, View());
      }
    }

    /** Time moves to the next event, and all events of that moment are taken. */
    method Gather() returns (decide: bool)
      requires Valid() && events != {}
      modifies this`now, this`history, this`events, this`jobs, this`wakeups, this`nextTick, ledger
      ensures Steady() && old(now) <= now && IsNextMoment(old(events), now)
      ensures history == old(history) + Repeat(WaitingIn(config, old(Here())), now - old(now))
      ensures forall e :: e in events ==> now < e.time
      ensures forall e :: e in events <==> e in old(events) && e.time != now
      ensures CrossingsBut(history, reports, jobs, now) && (!decide ==> CrossingsTold(history, reports))
      ensures decide <==> DecisionDue(old(events), now)
      ensures Here() == TakenBy(config, old(Here()), old(events), now)
      ensures wakeups == Later(old(wakeups), now) && nextTick == TickAfter(old(nextTick), now)
      ensures Left(jobs) < Left(old(jobs)) ||
              (jobs == old(jobs) && ledger.held == old(ledger.held)
               && Quieter(old(wakeups), old(nextTick), old(events), wakeups, nextTick, events, now))
    {
      hide Taken;
      hide Kept;
      hide JobsKnown;
      hide WaitsOk;
      hide LiveOk;
      hide WakeupsOk;
      hide TickOk;
      hide MomentsOk;
      hide OwedMoments;
      hide Judged;
      hide ReportsOk;
      hide CrossingsPending;
      hide CrossingsBut;
      hide CrossingsTold;
      hide FlagsOk;
      hide Left;
      hide AllocationLedger.Valid;
      hide WithinLimits;
      hide EligibleNow;
      hide WaitingIn;
      hide TakenBy;
      hide Later;
      hide TickAfter;
      hide Standings;
      hide Quieter;
      hide Repeat;
      WaitingIsEligible(config, jobs, ledger.held, reserved);
      var time := NextTime();
      Advance(time);
      decide := TakeAll();
      TakenSo(config, old(jobs), old(ledger.held), reserved, old(events), events, now, jobs);
      LaterIs(old(events), old(wakeups), old(nextTick), events, wakeups, nextTick, now);
    }

    /** The events are the ones the scene names. */
    lemma EventsHere()
      requires Steady()
      ensures events == Happening(View())
    {
      EventsAre(jobs, ledger.held, reserved, events, wakeups, nextTick);
    }

    /** One round of the outer loop: everything that happens at the next instant. It makes of the
        scene exactly what the answers say, or raises the error of the first refused one. */
    method Instant(answers: seq<Decision>) returns (violation: Option<Violation>)
      requires Valid() && events != {} && Ends(answers)
      modifies this, ledger
      ensures old(now) <= now && (violation.None? ==> Valid() && forall e :: e in events ==> now < e.time)
      ensures history == old(history) + Repeat(WaitingIn(config, old(Here())), now - old(now))
      ensures old(reports) <= reports
      ensures violation.None? ==> IsInstant(config, old(View()), answers, View())
      ensures violation.Some? ==>
                IsRefusal(config, old(View()), answers, now, |reports| - |old(reports)| - 1, violation.value)
      ensures violation.None? ==>
                Lower(Left(old(jobs)), old(wakeups), TicksLeft(old(ledger.held), old(now), old(nextTick)),
                      Left(jobs), wakeups, TicksLeft(ledger.held, now, nextTick))
    {
      hide JobsKnown;
      hide WaitsOk;
      hide LiveOk;
      hide WakeupsOk;
      hide MomentsOk;
      hide OwedMoments;
      hide Judged;
      hide ReportsOk;
      hide CrossingsBut;
      hide CrossingsTold;
      hide FlagsOk;
      hide Left;
      hide Lower;
      hide TicksLeft;
      hide AllocationLedger.Valid;
      hide WithinLimits;
      hide WaitingIn;
      hide TakenBy;
      hide Standings;
      hide EventsOf;
      hide Decided;
      hide Broken;
      hide ReportsOf;
      hide UpToStop;
      hide Later;
      hide TickAfter;
      hide IsInstant;
      hide Quieter;
      hide Repeat;
      hide DecisionDue;
      hide Ends;
      EventsHere();
      var decide := Gather();
      ghost var was, taken := events, jobs;
      ghost var mid := View();
      violation := Respond(decide, answers);
      if violation.Some? {
        BrokenParts(config, mid.q, UpToStop(answers), |reports| - |mid.reports| - 1, history, now, mid.reports, reports,
                    violation.value);
        return;
      }
      ghost var end := View();
      DecidedReports(config, mid, if decide then UpToStop(answers) else [], history, now, end);
      ScheduleNextTick();
      InstantSo(config, old(View()), answers, mid, end, View());
      Lowered(old(jobs), old(ledger.held), old(events), old(now), old(wakeups), old(nextTick),
              taken, mid.wakeups, mid.tick, was, now, jobs, ledger.held, wakeups, nextTick);
    }

    /** What is left when no event is: nothing held, nothing pending or running. */
    lemma AtEnd()
      requires Valid() && events == {}
      ensures ledger.held == [] && forall id :: id in jobs ==> Settled(config, jobs[id])
    {
      hide Feasible;
      SomethingOwed(jobs, ledger.held, events);
      forall id | id in jobs ensures Settled(config, jobs[id]) {
        assert jobs[id].state != Pending && jobs[id].state != Running;
      }
    }

    lemma ValidIsSane()
      requires Valid()
      ensures Sane(config, View())
    {
      hide WithinLimits;
      hide ReportsOk;
      hide CrossingsTold;
      HeldIffRunning(jobs, ledger.held, reserved, events);
    }

    /** A whole run: whatever the policy answers, as long as it stops answering at each instant,
        the instants come to an end. Each scene is what its answers make of the one before, and an
        error is the one its refused answer deserves. At the end nothing is held, every job is still
        there, and the run has stalled exactly when some job is still queued. */
    method Run(answers: nat -> seq<Decision>)
      returns (violation: Option<Violation>, rounds: nat, ghost scenes: seq<Scene>)
      requires Valid() && forall k :: Ends(answers(k))
      modifies this, ledger
      ensures |scenes| == rounds + 1 && scenes[0] == old(View()) && IsRun(config, answers, scenes)
      ensures violation != Some(HeldAtEnd)
      ensures violation.None? || violation == Some(Stalled) ==>
                && Valid() && View() == scenes[rounds] && SameSpecs(old(Here()).jobs, Here().jobs)
                && Happening(View()) == {} && ledger.held == []
                && (forall id :: id in jobs ==> Settled(config, jobs[id]))
                && (violation == Some(Stalled) <==> exists id :: IsQueued(jobs, id))
      ensures violation.Some? && violation != Some(Stalled) ==>
                IsRefusal(config, scenes[rounds], answers(rounds), now, |reports| - |scenes[rounds].reports| - 1,
                          violation.value)
      ensures old(now) <= now && old(reports) <= reports && Extends(old(history), history)
    {
      hide JobsKnown;
      hide WaitsOk;
      hide LiveOk;
      hide WakeupsOk;
      hide TickOk;
      hide MomentsOk;
      hide OwedMoments;
      hide Judged;
      hide ReportsOk;
      hide CrossingsTold;
      hide FlagsOk;
      hide WithinLimits;
      hide Left;
      hide TicksLeft;
      hide Settled;
      hide Sane;
      hide Standings;
      hide EventsOf;
      hide WaitingIn;
      hide IsInstant;
      hide IsRefusal;
      hide IsRun;
      hide Repeat;
      hide SameSpecs;
      hide AllocationLedger.Valid;
      violation, rounds, scenes := None, 0, [View()];
      ValidIsSane();
      RunBegins(config, answers, View());
      while events != {}
        invariant Valid() && violation.None? && old(now) <= now
        invariant old(reports) <= reports && Extends(old(history), history)
        invariant |scenes| == rounds + 1 && scenes[0] == old(View()) && scenes[rounds] == View()
        invariant IsRun(config, answers, scenes)
        decreases Left(jobs), |wakeups|, TicksLeft(ledger.held, now, nextTick)
      {
        ghost var was := history;
        violation := Instant(answers(rounds));
        ExtendsFurther(old(history), was, history);
        if violation.Some? {
          RefusalKind(config, scenes[rounds], answers(rounds), now, |reports| - |scenes[rounds].reports| - 1,
                      violation.value);
          return;
        }
        ValidIsSane();
        RunMore(config, answers, scenes, View());
        scenes := scenes + [View()];
        rounds := rounds + 1;
      }
      AtEnd();
      EventsHere();
      RunKeepsJobs(config, answers, scenes);
      if exists id :: id in jobs && IsQueued(jobs, id) {
        return Some(Stalled), rounds, scenes;
      }
      if ledger.held != [] {
        return Some(HeldAtEnd), rounds, scenes;
      }
    }
  }
}
