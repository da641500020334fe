/** A run of the simulator (benchmarks/simulator/engine.py) as a record of its instants: the events
    taken, and the jobs the policy chose on the snapshots it was shown. The record fixes the
    schedule, and a policy fixes the record. */
module SimulatorRecord {
  import opened Wrappers
  import opened Workload
  import opened Clock
  import opened Ledger
  import opened SimulationState
  import opened Simulator

  // ---- the events of one instant -------------------------------------------------------------------

  /** The next event is taken and handled. */
  ghost predicate Pops(trace: Trace, s: Sim, e: Event, t: Sim) {
    && IsNext(s.events, e) && e.job in s.jobs && KnownTenant(trace.config.tenants, s.jobs[e.job].spec.tenant)
    && t == Handle(trace.config, s, e)
  }

  datatype Taking = Taking(events: seq<Event>, states: seq<Sim>)

  /** Events of this moment were taken one after the other. */
  ghost predicate TakesAt(trace: Trace, s: Sim, taken: Taking, now: int) {
    && |taken.states| == |taken.events| + 1 && taken.states[0] == s
    && forall k :: 0 <= k < |taken.events| ==>
         taken.events[k].time == now && Pops(trace, taken.states[k], taken.events[k], taken.states[k + 1])
  }

  /** All events of the next moment were taken, and no others. */
  ghost predicate Takes(trace: Trace, s: Sim, taken: Taking) {
    && taken.events != [] && TakesAt(trace, s, taken, taken.events[0].time)
    && forall e :: e in taken.states[|taken.events|].events ==> taken.events[0].time < e.time
  }

  lemma TakesMore(trace: Trace, s: Sim, taken: Taking, now: int, e: Event, t: Sim)
    requires TakesAt(trace, s, taken, now) && e.time == now && Pops(trace, taken.states[|taken.events|], e, t)
    ensures TakesAt(trace, s, Taking(taken.events + [e], taken.states + [t]), now)
  {
    hide Pops;
    var n := |taken.events|;
    var more := Taking(taken.events + [e], taken.states + [t]);
    forall k | 0 <= k < |more.events|
      ensures more.events[k].time == now && Pops(trace, more.states[k], more.events[k], more.states[k + 1])
    {
      if k < n {
        assert Pops(trace, taken.states[k], taken.events[k], taken.states[k + 1]);
      }
    }
  }

  // ---- the decisions of one instant ----------------------------------------------------------------

  /** What the policy is shown of a state. */
  function SnapshotOf(trace: Trace, s: Sim): Snapshot
    requires AllKnown(trace.config, trace.jobs) && Use(s.held, Whole).FitsWithin(trace.config.capacity)
  {
    Snapshot(s.now, trace.config.capacity, trace.config.capacity.Subtract(Use(s.held, Whole)),
             FreeGpus(trace.config.gpus, HeldGpus(s.held)),
             Candidates(trace.config, s.jobs, s.held, trace.jobs), ByJob(s.held), trace.config.tenants)
  }

  ghost predicate Shows(trace: Trace, s: Sim, snapshot: Snapshot) {
    && AllKnown(trace.config, trace.jobs) && Use(s.held, Whole).FitsWithin(trace.config.capacity)
    && snapshot == SnapshotOf(trace, s)
    && (forall c :: c in snapshot.candidates <==> QueuedWithRoom(trace, s, c))
  }

  lemma TraceKnown(trace: Trace)
    requires ValidTrace(trace)
    ensures AllKnown(trace.config, trace.jobs)
  {
    forall i | 0 <= i < |trace.jobs| ensures KnownTenant(trace.config.tenants, trace.jobs[i].tenant) {
      assert trace.jobs[i] in trace.jobs;
    }
  }

  /** In every state of a run the snapshot is well formed and shows exactly the startable jobs. */
  lemma SnapshotShows(trace: Trace, s: Sim)
    requires ValidTrace(trace) && Inv(trace, s)
    ensures AllKnown(trace.config, trace.jobs) && Use(s.held, Whole).FitsWithin(trace.config.capacity)
    ensures WellFormed(SnapshotOf(trace, s)) && Shows(trace, s, SnapshotOf(trace, s))
  {
    hide Candidates;
    hide FreeGpus;
    hide ByJob;
    hide JobOrder;
    hide JobsOk;
    hide EventsOk;
    hide LogOk;
    hide LogTells;
    hide HistoryOk;
    hide GpusOk;
    hide AlwaysSafe;
    hide Safe;
    hide HasRoom;
    TraceKnown(trace);
    var snapshot := SnapshotOf(trace, s);
    forall c ensures c in snapshot.candidates <==> QueuedWithRoom(trace, s, c) {
      CandidatesExact(trace, s, c);
    }
    forall a | a in snapshot.held ensures KnownTenant(snapshot.tenants, a.tenant) {
      ByJobMember(s.held, a);
      var k :| 0 <= k < |s.held| && s.held[k] == a;
      HeldKnown(trace, s, k);
    }
  }

  /** A job chosen, and when. */
  datatype Choice = Choice(job: JobId, at: int)

  /** The dispatches of one instant: policy and simulator states, what was shown in between, and
      what was chosen. */
  datatype Dispatching<P> = Dispatching(policies: seq<P>, states: seq<Sim>, shown: seq<Snapshot>,
                                        choices: seq<Choice>)

  ghost predicate Startable(config: Config, s: Sim, id: JobId) {
    && id in s.jobs && s.jobs[id].spec.id == id && s.jobs[id].state == Queued
    && KnownTenant(config.tenants, s.jobs[id].spec.tenant) && HasRoom(config, s.held, s.jobs[id].spec)
  }

  /** The policy chose this candidate on the snapshot. */
  ghost predicate Accepts<P>(choose: (P, Snapshot) --> (P, Option<JobId>), p: P, shown: Snapshot, job: JobId, p': P) {
    IsCandidate(shown, job) && choose.requires(p, shown) && choose(p, shown) == (p', Some(job))
  }

  /** The policy was shown the state, chose this job, and the job was started. */
  ghost predicate Follow<P>(trace: Trace, choose: (P, Snapshot) --> (P, Option<JobId>), p: P, s: Sim,
                            shown: Snapshot, choice: Choice, p': P, s': Sim) {
    && Shows(trace, s, shown) && Accepts(choose, p, shown, choice.job, p') && choice.at == s.now
    && Startable(trace.config, s, choice.job) && s' == Start(trace.config, s, choice.job)
  }

  ghost predicate Follows<P>(trace: Trace, choose: (P, Snapshot) --> (P, Option<JobId>), policy: P, start: Sim,
                             run: Dispatching<P>) {
    && |run.policies| == |run.states| == |run.shown| + 1 && |run.choices| == |run.shown|
    && run.policies[0] == policy && run.states[0] == start
    && forall k :: 0 <= k < |run.shown| ==>
         Follow(trace, choose, run.policies[k], run.states[k], run.shown[k], run.choices[k],
                run.policies[k + 1], run.states[k + 1])
  }

  /** Nobody could run, or the policy passed. */
  ghost predicate Stops<P>(trace: Trace, choose: (P, Snapshot) --> (P, Option<JobId>), p: P, s: Sim, shown: Snapshot,
                           p': P) {
    && Shows(trace, s, shown)
    && if shown.candidates == [] then p' == p
       else choose.requires(p, shown) && choose(p, shown) == (p', None)
  }

  /** The policy chose what it was not offered. */
  ghost predicate Strays<P>(trace: Trace, choose: (P, Snapshot) --> (P, Option<JobId>), p: P, s: Sim, shown: Snapshot,
                            p': P) {
    && Shows(trace, s, shown) && shown.candidates != [] && choose.requires(p, shown) && choose(p, shown).0 == p'
    && choose(p, shown).1.Some? && !IsCandidate(shown, choose(p, shown).1.value)
  }

  lemma FollowsMore<P>(trace: Trace, choose: (P, Snapshot) --> (P, Option<JobId>), policy: P, start: Sim,
                       run: Dispatching<P>, shown: Snapshot, p: P, s: Sim, job: JobId)
    requires Follows(trace, choose, policy, start, run)
    requires Shows(trace, run.states[|run.shown|], shown)
    requires Accepts(choose, run.policies[|run.shown|], shown, job, p)
    requires Startable(trace.config, run.states[|run.shown|], job)
             && s == Start(trace.config, run.states[|run.shown|], job)
    ensures Follows(trace, choose, policy, start,
                    Dispatching(run.policies + [p], run.states + [s], run.shown + [shown],
                                run.choices + [Choice(job, s.now)]))
  {
    hide Shows;
    hide Startable;
    hide Accepts;
    var n := |run.shown|;
    var more := Dispatching(run.policies + [p], run.states + [s], run.shown + [shown],
                            run.choices + [Choice(job, s.now)]);
    forall k | 0 <= k < |more.shown|
      ensures Follow(trace, choose, more.policies[k], more.states[k], more.shown[k], more.choices[k],
                     more.policies[k + 1], more.states[k + 1])
    {
      if k < n {
        assert Follow(trace, choose, run.policies[k], run.states[k], run.shown[k], run.choices[k],
                      run.policies[k + 1], run.states[k + 1]);
      }
    }
  }

  // ---- whole runs ----------------------------------------------------------------------------------

  /** One instant: its events, its decisions, the snapshot on which they stopped, and the policy
      and the simulator afterwards. */
  datatype Round<P> = Round(taken: Taking, run: Dispatching<P>, last: Snapshot, next: P, end: Sim)

  ghost predicate IsRound<P>(trace: Trace, choose: (P, Snapshot) --> (P, Option<JobId>), p: P, s: Sim,
                             round: Round<P>) {
    && Takes(trace, s, round.taken)
    && Follows(trace, choose, p, round.taken.states[|round.taken.events|], round.run)
    && round.end == round.run.states[|round.run.shown|]
    && Stops(trace, choose, round.run.policies[|round.run.shown|], round.end, round.last, round.next)
  }

  /** An instant that ends with a choice outside the snapshot. */
  ghost predicate IsStray<P>(trace: Trace, choose: (P, Snapshot) --> (P, Option<JobId>), p: P, s: Sim,
                             round: Round<P>) {
    && Takes(trace, s, round.taken)
    && Follows(trace, choose, p, round.taken.states[|round.taken.events|], round.run)
    && round.end == round.run.states[|round.run.shown|]
    && Strays(trace, choose, round.run.policies[|round.run.shown|], round.end, round.last, round.next)
  }

  lemma RoundSo<P>(trace: Trace, choose: (P, Snapshot) --> (P, Option<JobId>), p: P, s: Sim, round: Round<P>)
    requires Takes(trace, s, round.taken)
    requires Follows(trace, choose, p, round.taken.states[|round.taken.events|], round.run)
    requires round.end == round.run.states[|round.run.shown|]
    ensures Stops(trace, choose, round.run.policies[|round.run.shown|], round.end, round.last, round.next) ==>
              IsRound(trace, choose, p, s, round)
    ensures Strays(trace, choose, round.run.policies[|round.run.shown|], round.end, round.last, round.next) ==>
              IsStray(trace, choose, p, s, round)
  {
  }

  /** An instant of one event after which nothing can start. */
  lemma IdleInstant<P>(trace: Trace, choose: (P, Snapshot) --> (P, Option<JobId>), p: P, s: Sim, e: Event, t: Sim,
                       last: Snapshot)
    requires Pops(trace, s, e, t) && (forall f :: f in t.events ==> e.time < f.time)
    requires Shows(trace, t, last) && last.candidates == []
    ensures IsRound(trace, choose, p, s, Round(Taking([e], [s, t]), Dispatching([p], [t], [], []), last, p, t))
  {
    hide Pops;
    hide Shows;
  }

  /** An instant of one event after which one job is chosen and started, and nothing else can. */
  lemma SingleInstant<P>(trace: Trace, choose: (P, Snapshot) --> (P, Option<JobId>), p: P, s: Sim, e: Event, t: Sim,
                         shown: Snapshot, job: JobId, p': P, u: Sim, last: Snapshot)
    requires Pops(trace, s, e, t) && (forall f :: f in t.events ==> e.time < f.time)
    requires Shows(trace, t, shown) && Accepts(choose, p, shown, job, p')
    requires Startable(trace.config, t, job) && u == Start(trace.config, t, job)
    requires Shows(trace, u, last) && last.candidates == []
    ensures var run := Dispatching([p, p'], [t, u], [shown], [Choice(job, t.now)]);
            IsRound(trace, choose, p, s, Round(Taking([e], [s, t]), run, last, p', u))
  {
    hide Pops;
    hide Shows;
    hide Accepts;
    hide Startable;
    hide SimulationState.Start;
  }

  ghost function PolicyAt<P>(policy: P, rounds: seq<Round<P>>, k: nat): P
    requires k <= |rounds|
  {
    if k == 0 then policy else rounds[k - 1].next
  }

  ghost function SimAt<P>(trace: Trace, rounds: seq<Round<P>>, k: nat): Sim
    requires k <= |rounds|
  {
    if k == 0 then Initial(trace) else rounds[k - 1].end
  }

  /** Every instant starts where the one before ended, the first one from the trace. */
  ghost predicate IsSchedule<P>(trace: Trace, choose: (P, Snapshot) --> (P, Option<JobId>), policy: P,
                                rounds: seq<Round<P>>) {
    forall k :: 0 <= k < |rounds| ==>
      IsRound(trace, choose, PolicyAt(policy, rounds, k), SimAt(trace, rounds, k), rounds[k])
  }

  lemma ScheduleMore<P>(trace: Trace, choose: (P, Snapshot) --> (P, Option<JobId>), policy: P, rounds: seq<Round<P>>,
                        round: Round<P>)
    requires IsSchedule(trace, choose, policy, rounds)
    requires IsRound(trace, choose, PolicyAt(policy, rounds, |rounds|), SimAt(trace, rounds, |rounds|), round)
    ensures IsSchedule(trace, choose, policy, rounds + [round])
  {
    hide IsRound;
    var more := rounds + [round];
    forall k | 0 <= k < |more|
      ensures IsRound(trace, choose, PolicyAt(policy, more, k), SimAt(trace, more, k), more[k])
    {
      if k < |rounds| {
        assert IsRound(trace, choose, PolicyAt(policy, rounds, k), SimAt(trace, rounds, k), rounds[k]);
      }
    }
  }

  lemma SchedulePrefix<P>(trace: Trace, choose: (P, Snapshot) --> (P, Option<JobId>), policy: P,
                          rounds: seq<Round<P>>, n: nat)
    requires IsSchedule(trace, choose, policy, rounds) && n <= |rounds|
    ensures IsSchedule(trace, choose, policy, rounds[..n])
  {
    hide IsRound;
    var less := rounds[..n];
    forall k | 0 <= k < n
      ensures IsRound(trace, choose, PolicyAt(policy, less, k), SimAt(trace, less, k), less[k])
    {
      assert IsRound(trace, choose, PolicyAt(policy, rounds, k), SimAt(trace, rounds, k), rounds[k]);
    }
  }

  /** The run is over and left this behind. */
  ghost predicate Ends<P>(trace: Trace, rounds: seq<Round<P>>, jobs: map<JobId, Runtime>, history: seq<Allocation>,
                          log: seq<Event>) {
    var s := SimAt(trace, rounds, |rounds|);
    s.events == {} && s.jobs == jobs && s.history == history && s.log == log
  }

  ghost predicate SomebodyQueued(s: Sim) {
    exists id :: id in s.jobs && s.jobs[id].state == Queued
  }

  // ---- what was started is what was chosen -----------------------------------------------------------

  /** Job and start of every allocation, in order. */
  function Started(history: seq<Allocation>): seq<Choice> {
    seq(|history|, i requires 0 <= i < |history| => Choice(history[i].job, history[i].start))
  }

  /** Everything the policy chose, in order. */
  function ChosenBy<P>(rounds: seq<Round<P>>): seq<Choice> {
    if rounds == [] then [] else ChosenBy(rounds[..|rounds| - 1]) + rounds[|rounds| - 1].run.choices
  }

  lemma {:induction false} TakingStartsNothing(trace: Trace, s: Sim, taken: Taking, now: int, k: nat)
    requires TakesAt(trace, s, taken, now) && k <= |taken.events|
    ensures taken.states[k].history == s.history
  {
    if k > 0 {
      TakingStartsNothing(trace, s, taken, now, k - 1);
      assert Pops(trace, taken.states[k - 1], taken.events[k - 1], taken.states[k]);
    }
  }

  lemma {:induction false} DispatchingStarts<P>(trace: Trace, choose: (P, Snapshot) --> (P, Option<JobId>), p: P,
                                                s: Sim, run: Dispatching<P>, k: nat)
    requires Follows(trace, choose, p, s, run) && k <= |run.shown|
    ensures Started(run.states[k].history) == Started(s.history) + run.choices[..k]
  {
    hide Follow;
    hide Started;
    if k == 0 {
      assert run.choices[..0] == [];
    } else {
      DispatchingStarts(trace, choose, p, s, run, k - 1);
      assert Follow(trace, choose, run.policies[k - 1], run.states[k - 1], run.shown[k - 1], run.choices[k - 1],
                    run.policies[k], run.states[k]);
      FollowStarts(trace, choose, run.policies[k - 1], run.states[k - 1], run.shown[k - 1], run.choices[k - 1],
                   run.policies[k], run.states[k]);
      assert run.choices[..k] == run.choices[..k - 1] + [run.choices[k - 1]];
    }
  }

  lemma FollowStarts<P>(trace: Trace, choose: (P, Snapshot) --> (P, Option<JobId>), p: P, s: Sim, shown: Snapshot,
                        choice: Choice, p': P, s': Sim)
    requires Follow(trace, choose, p, s, shown, choice, p', s')
    ensures Started(s'.history) == Started(s.history) + [choice]
  {
    hide Shows;
    hide Accepts;
    hide FreeGpus;
    var a := Grant(trace.config.gpus, s.held, s.jobs[choice.job].spec, s.now);
    assert s'.history == s.history + [a];
    assert Choice(a.job, a.start) == choice;
  }

  /** The schedule is exactly what the policy chose on the snapshots it was shown. */
  lemma {:induction false} ScheduleHistory<P>(trace: Trace, choose: (P, Snapshot) --> (P, Option<JobId>), policy: P,
                                              rounds: seq<Round<P>>)
    requires IsSchedule(trace, choose, policy, rounds)
    ensures Started(SimAt(trace, rounds, |rounds|).history) == ChosenBy(rounds)
  {
    hide IsRound;
    if rounds == [] {
      assert Initial(trace).history == [];
    } else {
      hide Started;
      var n := |rounds| - 1;
      SchedulePrefix(trace, choose, policy, rounds, n);
      ScheduleHistory(trace, choose, policy, rounds[..n]);
      RoundStarts(trace, choose, PolicyAt(policy, rounds, n), SimAt(trace, rounds, n), rounds[n]);
      assert SimAt(trace, rounds, n) == SimAt(trace, rounds[..n], n);
    }
  }

  lemma RoundStarts<P>(trace: Trace, choose: (P, Snapshot) --> (P, Option<JobId>), p: P, s: Sim, round: Round<P>)
    requires IsRound(trace, choose, p, s, round)
    ensures Started(round.end.history) == Started(s.history) + round.run.choices
  {
    hide TakesAt;
    hide Follows;
    hide Stops;
    hide Started;
    var taken, run := round.taken, round.run;
    assert |taken.states| == |taken.events| + 1 && |run.choices| == |run.shown| by {
      Lengths(trace, choose, p, s, round);
    }
    TakingStartsNothing(trace, s, taken, taken.events[0].time, |taken.events|);
    DispatchingStarts(trace, choose, p, taken.states[|taken.events|], run, |run.shown|);
    assert run.choices[..|run.shown|] == run.choices;
  }

  lemma Lengths<P>(trace: Trace, choose: (P, Snapshot) --> (P, Option<JobId>), p: P, s: Sim, round: Round<P>)
    requires IsRound(trace, choose, p, s, round)
    ensures |round.taken.states| == |round.taken.events| + 1 && |round.run.choices| == |round.run.shown|
  {
  }

  // ---- a policy fixes the run --------------------------------------------------------------------------

  lemma NextUnique(events: set<Event>, e: Event, f: Event)
    requires IsNext(events, e) && IsNext(events, f)
    ensures e == f
  {
  }

  lemma ShowsUnique(trace: Trace, s: Sim, a: Snapshot, b: Snapshot)
    requires Shows(trace, s, a) && Shows(trace, s, b)
    ensures a == b
  {
  }

  lemma {:induction false} TakingSame(trace: Trace, s: Sim, a: Taking, now: int, b: Taking, now': int, k: nat)
    requires TakesAt(trace, s, a, now) && TakesAt(trace, s, b, now') && k <= |a.events| && k <= |b.events|
    ensures a.states[k] == b.states[k] && a.events[..k] == b.events[..k] && a.states[..k] == b.states[..k]
  {
    if k > 0 {
      TakingSame(trace, s, a, now, b, now', k - 1);
      assert Pops(trace, a.states[k - 1], a.events[k - 1], a.states[k]);
      assert Pops(trace, b.states[k - 1], b.events[k - 1], b.states[k]);
      NextUnique(a.states[k - 1].events, a.events[k - 1], b.events[k - 1]);
      assert a.events[..k] == a.events[..k - 1] + [a.events[k - 1]];
      assert b.events[..k] == b.events[..k - 1] + [b.events[k - 1]];
      assert a.states[..k] == a.states[..k - 1] + [a.states[k - 1]];
      assert b.states[..k] == b.states[..k - 1] + [b.states[k - 1]];
    }
  }

  lemma TakingGoesOn(trace: Trace, s: Sim, a: Taking, b: Taking)
    requires a.events != [] && TakesAt(trace, s, a, a.events[0].time)
    requires Takes(trace, s, b) && |a.events| < |b.events|
    ensures exists e :: e in a.states[|a.events|].events && e.time == a.events[0].time
  {
    var n := |a.events|;
    TakingSame(trace, s, a, a.events[0].time, b, b.events[0].time, n);
    assert a.events[..n][0] == b.events[..n][0];
    assert Pops(trace, b.states[n], b.events[n], b.states[n + 1]);
  }

  lemma TakingNotLonger(trace: Trace, s: Sim, a: Taking, b: Taking)
    requires Takes(trace, s, a) && Takes(trace, s, b)
    ensures |b.events| <= |a.events|
  {
    var n := |a.events|;
    if n < |b.events| {
      TakingGoesOn(trace, s, a, b);
      assert false;
    }
  }

  lemma TakingUnique(trace: Trace, s: Sim, a: Taking, b: Taking)
    requires Takes(trace, s, a) && Takes(trace, s, b)
    ensures a == b
  {
    TakingNotLonger(trace, s, a, b);
    TakingNotLonger(trace, s, b, a);
    var n := |a.events|;
    TakingSame(trace, s, a, a.events[0].time, b, b.events[0].time, n);
    assert a.states == a.states[..n] + [a.states[n]] && b.states == b.states[..n] + [b.states[n]];
    assert a.events == a.events[..n] && b.events == b.events[..n];
  }

  lemma FollowUnique<P>(trace: Trace, choose: (P, Snapshot) --> (P, Option<JobId>), p: P, s: Sim, a: Snapshot,
                        c: Choice, p': P, s': Sim, b: Snapshot, d: Choice, p'': P, s'': Sim)
    requires Follow(trace, choose, p, s, a, c, p', s') && Follow(trace, choose, p, s, b, d, p'', s'')
    ensures a == b && c == d && p' == p'' && s' == s''
  {
    hide Shows;
    ShowsUnique(trace, s, a, b);
  }

  lemma {:induction false} DispatchingSame<P>(trace: Trace, choose: (P, Snapshot) --> (P, Option<JobId>), p: P, s: Sim,
                                              a: Dispatching<P>, b: Dispatching<P>, k: nat)
    requires Follows(trace, choose, p, s, a) && Follows(trace, choose, p, s, b) && k <= |a.shown| && k <= |b.shown|
    ensures a.policies[k] == b.policies[k] && a.states[k] == b.states[k]
    ensures forall i :: 0 <= i < k ==>
              a.policies[i] == b.policies[i] && a.states[i] == b.states[i]
              && a.shown[i] == b.shown[i] && a.choices[i] == b.choices[i]
  {
    hide Follow;
    if k > 0 {
      DispatchingSame(trace, choose, p, s, a, b, k - 1);
      var i := k - 1;
      assert Follow(trace, choose, a.policies[i], a.states[i], a.shown[i], a.choices[i], a.policies[i + 1],
                    a.states[i + 1]);
      assert Follow(trace, choose, b.policies[i], b.states[i], b.shown[i], b.choices[i], b.policies[i + 1],
                    b.states[i + 1]);
      FollowUnique(trace, choose, a.policies[i], a.states[i], a.shown[i], a.choices[i], a.policies[k], a.states[k],
                   b.shown[i], b.choices[i], b.policies[k], b.states[k]);
    }
  }

  /** Where the policy stops it does not go on. */
  lemma StopsOrFollows<P>(trace: Trace, choose: (P, Snapshot) --> (P, Option<JobId>), p: P, s: Sim, last: Snapshot,
                          next: P, shown: Snapshot, choice: Choice, p': P, s': Sim)
    requires Stops(trace, choose, p, s, last, next)
    ensures !Follow(trace, choose, p, s, shown, choice, p', s')
  {
    hide Shows;
    if Follow(trace, choose, p, s, shown, choice, p', s') {
      ShowsUnique(trace, s, last, shown);
      assert false;
    }
  }

  lemma DispatchingNotLonger<P>(trace: Trace, choose: (P, Snapshot) --> (P, Option<JobId>), p: P, s: Sim,
                                a: Dispatching<P>, b: Dispatching<P>, last: Snapshot, next: P)
    requires Follows(trace, choose, p, s, a) && Follows(trace, choose, p, s, b)
    requires Stops(trace, choose, a.policies[|a.shown|], a.states[|a.shown|], last, next)
    ensures |b.shown| <= |a.shown|
  {
    hide Follow;
    hide Stops;
    var n := |a.shown|;
    if n < |b.shown| {
      DispatchingSame(trace, choose, p, s, a, b, n);
      StopsOrFollows(trace, choose, a.policies[n], a.states[n], last, next, b.shown[n], b.choices[n],
                     b.policies[n + 1], b.states[n + 1]);
      assert false;
    }
  }

  /** From one policy and one state there is only one way on. */
  lemma RoundUnique<P>(trace: Trace, choose: (P, Snapshot) --> (P, Option<JobId>), p: P, s: Sim, a: Round<P>,
                       b: Round<P>)
    requires IsRound(trace, choose, p, s, a) && IsRound(trace, choose, p, s, b)
    ensures a == b
  {
    hide Takes;
    hide Follows;
    hide Stops;
    Lengths(trace, choose, p, s, a);
    TakingUnique(trace, s, a.taken, b.taken);
    var start := a.taken.states[|a.taken.events|];
    DispatchingUnique(trace, choose, p, start, a.run, b.run, a.last, a.next, b.last, b.next);
  }

  lemma DispatchingUnique<P>(trace: Trace, choose: (P, Snapshot) --> (P, Option<JobId>), p: P, s: Sim,
                             a: Dispatching<P>, b: Dispatching<P>, last: Snapshot, next: P, last': Snapshot, next': P)
    requires Follows(trace, choose, p, s, a) && Follows(trace, choose, p, s, b)
    requires Stops(trace, choose, a.policies[|a.shown|], a.states[|a.shown|], last, next)
    requires Stops(trace, choose, b.policies[|b.shown|], b.states[|b.shown|], last', next')
    ensures a == b && last == last' && next == next'
  {
    hide Follow;
    hide Shows;
    var n := |a.shown|;
    DispatchingNotLonger(trace, choose, p, s, a, b, last, next);
    DispatchingNotLonger(trace, choose, p, s, b, a, last', next');
    DispatchingSame(trace, choose, p, s, a, b, n);
    assert a.policies == b.policies && a.states == b.states && a.shown == b.shown && a.choices == b.choices;
    ShowsUnique(trace, a.states[n], last, last');
  }

  lemma {:induction false} SchedulesAgree<P>(trace: Trace, choose: (P, Snapshot) --> (P, Option<JobId>), policy: P,
                                             a: seq<Round<P>>, b: seq<Round<P>>, k: nat)
    requires IsSchedule(trace, choose, policy, a) && IsSchedule(trace, choose, policy, b) && k <= |a| && k <= |b|
    ensures a[..k] == b[..k]
  {
    hide IsRound;
    if k > 0 {
      SchedulesAgree(trace, choose, policy, a, b, k - 1);
      assert k > 1 ==> a[k - 2] == a[..k - 1][k - 2] && b[k - 2] == b[..k - 1][k - 2];
      RoundUnique(trace, choose, PolicyAt(policy, a, k - 1), SimAt(trace, a, k - 1), a[k - 1], b[k - 1]);
      assert a[..k] == a[..k - 1] + [a[k - 1]] && b[..k] == b[..k - 1] + [b[k - 1]];
    }
  }

  /** The simulator is deterministic: a trace and a policy have at most one complete run. */
  lemma Deterministic<P>(trace: Trace, choose: (P, Snapshot) --> (P, Option<JobId>), policy: P, a: seq<Round<P>>,
                         b: seq<Round<P>>)
    requires IsSchedule(trace, choose, policy, a) && SimAt(trace, a, |a|).events == {}
    requires IsSchedule(trace, choose, policy, b) && SimAt(trace, b, |b|).events == {}
    ensures a == b
  {
    hide IsRound;
    OverIsOver(trace, choose, policy, a, b);
    OverIsOver(trace, choose, policy, b, a);
    SchedulesAgree(trace, choose, policy, a, b, |a|);
    assert a[..|a|] == a && b[..|b|] == b;
  }

  lemma OverIsOver<P>(trace: Trace, choose: (P, Snapshot) --> (P, Option<JobId>), policy: P, a: seq<Round<P>>,
                      b: seq<Round<P>>)
    requires IsSchedule(trace, choose, policy, a) && SimAt(trace, a, |a|).events == {}
    requires IsSchedule(trace, choose, policy, b)
    ensures |b| <= |a|
  {
    hide IsRound;
    var n := |a|;
    if n < |b| {
      SchedulesAgree(trace, choose, policy, a, b, n);
      assert n > 0 ==> a[..n][n - 1] == b[..n][n - 1];
      RoundNeedsEvent(trace, choose, PolicyAt(policy, b, n), SimAt(trace, b, n), b[n]);
      assert false;
    }
  }

  lemma RoundNeedsEvent<P>(trace: Trace, choose: (P, Snapshot) --> (P, Option<JobId>), p: P, s: Sim, round: Round<P>)
    requires IsRound(trace, choose, p, s, round)
    ensures s.events != {}
  {
    hide Follows;
    hide Stops;
    assert Pops(trace, round.taken.states[0], round.taken.events[0], round.taken.states[1]);
    assert round.taken.events[0] in s.events;
  }
}
