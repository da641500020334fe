/** Deficits grow without limit in the simulator itself (benchmarks/simulator/baselines.py,
    benchmarks/simulator/engine.py): jobs of two tenants arrive in turn, each alone on the machine. */
module DeficitGrowth {
  import opened Wrappers
  import opened Resources
  import opened Workload
  import opened Clock
  import opened Ledger
  import opened SimulationState
  import opened SimulationSteps
  import opened Simulator
  import opened SimulatorRecord
  import Baselines
  import DeficitBounds
  import DeficitPolicy

  // ---- the trace -------------------------------------------------------------------------------------

  /** Job i of tenant 1 or 2 in turn: a quarter of the machine for one moment, every second moment. */
  function Turn(i: nat): JobSpec {
    JobSpec(i, 1 + i % 2, i, 2 * i, ResourceVector(1, 0, 0), 1)
  }

  function Turns(n: nat): seq<JobSpec> {
    seq(n, (i: nat) => Turn(i))
  }

  const CONFIG := Config(DeficitBounds.CAPACITY, [], DeficitBounds.PAIR)

  function TurnTrace(n: nat): Trace {
    Trace(CONFIG, Turns(n))
  }

  lemma TurnTraceValid(n: nat)
    ensures ValidTrace(TurnTrace(n)) && ValidConfig(TurnTrace(n).config)
  {
    DeficitBounds.PairFacts();
    forall j | j in Turns(n) ensures KnownTenant(DeficitBounds.PAIR, j.tenant) {
      assert DeficitBounds.PAIR[j.tenant - 1].id == j.tenant;
    }
  }

  // ---- the policy ------------------------------------------------------------------------------------

  /** Deficit round robin after i of the jobs. */
  function DrrAfter(i: nat): DeficitPolicy.Drr {
    if i == 0 then DeficitPolicy.FRESH
    else
      DeficitPolicy.Kernel.Drr(i % 2, [1, 2], map[1 := Credit((i + 1) / 2), 2 := Credit(i / 2)], Some(2 - i % 2))
  }

  function Credit(k: nat): real {
    0.75 * k as real
  }

  lemma DrrCall(i: nat, s: Snapshot)
    requires DeficitBounds.Offers(s, Turn(i))
    ensures DeficitBounds.Selectable(DrrAfter(i), s)
    ensures DeficitPolicy.DrrSelect(DrrAfter(i), s) == (DrrAfter(i + 1), Some(Turn(i)))
  {
    hide DeficitPolicy.DrrSelect;
    hide DeficitBounds.Selectable;
    hide DeficitBounds.Offers;
    var k, job := i / 2, Turn(i);
    assert Credit(k + 1) == Credit(k) + 0.75;
    if i == 0 {
      DeficitBounds.FirstCall(s, job);
      assert DrrAfter(1) == DeficitPolicy.Kernel.Drr(1, [1, 2], map[2 := 0.0, 1 := 0.75], Some(1));
    } else if i % 2 == 0 {
      DrrEven(k);
      DeficitBounds.Alternate(DrrAfter(i), s, job, Credit(k), Credit(k));
    } else {
      DrrOdd(k);
      DeficitBounds.Alternate(DrrAfter(i), s, job, Credit(k), Credit(k + 1));
    }
  }

  lemma DrrEven(k: nat)
    requires k > 0
    ensures DrrAfter(2 * k) == DeficitPolicy.Kernel.Drr(0, [1, 2], map[1 := Credit(k), 2 := Credit(k)], Some(2))
    ensures DrrAfter(2 * k + 1) ==
            DeficitPolicy.Kernel.Drr(1, [1, 2], map[1 := Credit(k) + 0.75, 2 := Credit(k)], Some(1))
  {
  }

  lemma DrrOdd(k: nat)
    ensures DrrAfter(2 * k + 1) ==
            DeficitPolicy.Kernel.Drr(1, [1, 2], map[2 := Credit(k), 1 := Credit(k + 1)], Some(1))
    ensures DrrAfter(2 * k + 2) ==
            DeficitPolicy.Kernel.Drr(0, [1, 2], map[2 := Credit(k) + 0.75, 1 := Credit(k + 1)], Some(2))
  {
    assert (2 * k + 2) / 2 == k + 1 && (2 * k + 3) / 2 == k + 1;
  }

  // ---- the states ------------------------------------------------------------------------------------

  function ArrivalOf(i: nat): Event {
    Event(2 * i, Arrival, i, i)
  }

  /** The arrivals from job i on are ahead. */
  ghost predicate Ahead(n: nat, e: Event, i: nat) {
    i <= e.sequence < n && e == ArrivalOf(e.sequence)
  }

  /** Jobs before i have completed, later ones are still to arrive. */
  ghost predicate JobsAt(n: nat, jobs: map<JobId, Runtime>, i: nat, state: JobState) {
    forall j: nat :: j < n ==>
      j in jobs && jobs[j].spec == Turn(j)
      && jobs[j].state == if j < i then Completed else if j == i then state else Pending
  }

  lemma JobsMove(n: nat, jobs: map<JobId, Runtime>, i: nat, state: JobState, r: Runtime)
    requires JobsAt(n, jobs, i, state) && r.spec == Turn(i)
    ensures JobsAt(n, jobs[i := r], i, r.state)
  {
    hide Turn;
  }

  lemma JobsNext(n: nat, jobs: map<JobId, Runtime>, i: nat)
    requires JobsAt(n, jobs, i, Completed)
    ensures JobsAt(n, jobs, i + 1, Pending)
  {
    hide Turn;
  }

  lemma NextAhead(n: nat, events: set<Event>, i: nat)
    requires i < n && forall e :: e in events <==> Ahead(n, e, i)
    ensures IsNext(events, ArrivalOf(i)) && forall e :: e in events - {ArrivalOf(i)} <==> Ahead(n, e, i + 1)
  {
    assert Ahead(n, ArrivalOf(i), i);
    forall f | f in events ensures f == ArrivalOf(i) || Earlier(ArrivalOf(i), f) {
      assert Ahead(n, f, i);
    }
    forall f ensures f in events - {ArrivalOf(i)} <==> Ahead(n, f, i + 1) {
      assert f in events <==> Ahead(n, f, i);
    }
  }

  lemma ReleaseNext(n: nat, events: set<Event>, i: nat, q: nat)
    requires ReleaseAhead(n, events, i, q)
    ensures var e := Event(2 * i + 1, Release, q, i);
            IsNext(events, e) && forall f :: f in events - {e} <==> Ahead(n, f, i + 1)
  {
    var e := Event(2 * i + 1, Release, q, i);
    forall f | f in events ensures f == e || Earlier(e, f) {
      assert Ahead(n, f, i + 1) || f == e;
    }
    forall f ensures f in events - {e} <==> Ahead(n, f, i + 1) {
      assert f in events <==> Ahead(n, f, i + 1) || f == e;
    }
  }

  /** Nothing runs, and job i is the next to arrive. */
  ghost predicate Idle(n: nat, s: Sim, i: nat) {
    && Inv(TurnTrace(n), s) && s.now <= 2 * i && s.held == [] && JobsAt(n, s.jobs, i, Pending)
    && forall e :: e in s.events <==> Ahead(n, e, i)
  }

  /** Besides the later arrivals, job i is to be released. */
  ghost predicate ReleaseAhead(n: nat, events: set<Event>, i: nat, q: nat) {
    forall e :: e in events <==> Ahead(n, e, i + 1) || e == Event(2 * i + 1, Release, q, i)
  }

  /** Job i runs alone until its release. */
  ghost predicate Busy(n: nat, s: Sim, i: nat) {
    && Inv(TurnTrace(n), s) && s.now == 2 * i && |s.held| == 1 && s.held[0].job == i && JobsAt(n, s.jobs, i, Running)
    && exists q :: ReleaseAhead(n, s.events, i, q)
  }

  lemma IdleParts(n: nat, s: Sim, i: nat)
    requires Idle(n, s, i)
    ensures Inv(TurnTrace(n), s) && JobsAt(n, s.jobs, i, Pending) && forall e :: e in s.events <==> Ahead(n, e, i)
  {
    hide SimulationState.Inv;
  }

  lemma BusyParts(n: nat, s: Sim, i: nat)
    requires Busy(n, s, i)
    ensures Inv(TurnTrace(n), s) && JobsAt(n, s.jobs, i, Running)
  {
    hide SimulationState.Inv;
  }

  lemma InitialIdle(n: nat)
    ensures Idle(n, Initial(TurnTrace(n)), 0)
  {
    hide SimulationState.Inv;
    TurnTraceValid(n);
    InitialInv(TurnTrace(n));
    var s, specs := Initial(TurnTrace(n)), Turns(n);
    forall j: nat | j < n ensures j in s.jobs && s.jobs[j].spec == Turn(j) && s.jobs[j].state == Pending {
      InitialJobAt(specs, j);
    }
    forall e ensures e in s.events <==> Ahead(n, e, 0) {
      if e in s.events {
        InitialEventFrom(specs, e);
      }
      if Ahead(n, e, 0) {
        InitialEventAt(specs, e.sequence);
      }
    }
  }

  // ---- candidates ------------------------------------------------------------------------------------

  ghost predicate CanRun(config: Config, jobs: map<JobId, Runtime>, held: seq<Allocation>, spec: JobSpec)
    requires KnownTenant(config.tenants, spec.tenant) && Use(held, Whole).FitsWithin(config.capacity)
  {
    spec.id in jobs && jobs[spec.id].state == Queued && Eligible(config, held, spec)
  }

  /** If only one job of the trace can start, it is the only candidate. */
  lemma {:induction false} OneCandidate(config: Config, jobs: map<JobId, Runtime>, held: seq<Allocation>,
                                        specs: seq<JobSpec>, i: nat, k: nat)
    requires AllKnown(config, specs) && Use(held, Whole).FitsWithin(config.capacity) && k <= |specs|
    requires forall j :: 0 <= j < |specs| ==> (CanRun(config, jobs, held, specs[j]) <==> j == i)
    ensures AllKnown(config, specs[..k])
    ensures Candidates(config, jobs, held, specs[..k]) == if i < k then [specs[i]] else []
  {
    hide Eligible;
    if k > 0 {
      OneCandidate(config, jobs, held, specs, i, k - 1);
      assert specs[..k][..k - 1] == specs[..k - 1];
      assert CanRun(config, jobs, held, specs[k - 1]) <==> k - 1 == i;
    }
  }

  lemma PairTenant(t: TenantId)
    requires t == 1 || t == 2
    ensures KnownTenant(CONFIG.tenants, t)
    ensures var tenant := FindTenant(CONFIG.tenants, t);
            tenant.quota == DeficitBounds.CAPACITY && tenant.maxRunning == 1
  {
    hide FindTenant;
    assert CONFIG.tenants[t - 1].id == t;
    var tenant := FindTenant(CONFIG.tenants, t);
    var k :| 0 <= k < |CONFIG.tenants| && CONFIG.tenants[k] == tenant;
  }

  lemma QuarterFits(spec: JobSpec)
    requires (spec.tenant == 1 || spec.tenant == 2) && spec.resources == ResourceVector(1, 0, 0)
    ensures KnownTenant(CONFIG.tenants, spec.tenant) && Feasible(CONFIG, spec) && HasRoom(CONFIG, [], spec)
    ensures Use([], Whole).FitsWithin(CONFIG.capacity) && Eligible(CONFIG, [], spec)
  {
    PairTenant(spec.tenant);
    FitsAlone(CONFIG, spec);
  }

  lemma FitsAlone(config: Config, spec: JobSpec)
    requires KnownTenant(config.tenants, spec.tenant)
    requires var tenant := FindTenant(config.tenants, spec.tenant);
             tenant.quota == config.capacity && tenant.maxRunning == 1
    requires spec.resources.FitsWithin(config.capacity) && spec.resources.gpu == 0
    ensures Feasible(config, spec) && HasRoom(config, [], spec)
    ensures Use([], Whole).FitsWithin(config.capacity) && Eligible(config, [], spec)
  {
    hide FindTenant;
    hide KnownTenant;
    hide FreeGpus;
    assert ZERO.Add(spec.resources) == spec.resources;
  }

  lemma TurnFits(n: nat, i: nat)
    ensures TurnTrace(n).config == CONFIG && Turn(i).id == i && Turn(i).duration == 1
    ensures KnownTenant(CONFIG.tenants, Turn(i).tenant) && Feasible(CONFIG, Turn(i)) && HasRoom(CONFIG, [], Turn(i))
    ensures Use([], Whole).FitsWithin(CONFIG.capacity) && Eligible(CONFIG, [], Turn(i))
  {
    QuarterFits(Turn(i));
  }

  /** The snapshot when job `i` has just arrived offers it alone. */
  lemma OffersTurn(n: nat, s: Sim, i: nat)
    requires i < n && s.held == [] && JobsAt(n, s.jobs, i, Queued) && AllKnown(CONFIG, Turns(n))
    requires Use(s.held, Whole).FitsWithin(CONFIG.capacity)
    ensures DeficitBounds.Offers(SnapshotOf(TurnTrace(n), s), Turn(i))
  {
    OnlyTurn(n, s.jobs, i);
    hide Candidates;
  }

  lemma OnlyTurn(n: nat, jobs: map<JobId, Runtime>, i: nat)
    requires i < n && JobsAt(n, jobs, i, Queued)
    requires AllKnown(CONFIG, Turns(n)) && Use([], Whole).FitsWithin(CONFIG.capacity)
    ensures Candidates(CONFIG, jobs, [], Turns(n)) == [Turn(i)]
  {
    hide Eligible;
    hide Candidates;
    hide Turn;
    hide CONFIG;
    hide Feasible;
    hide HasRoom;
    hide KnownTenant;
    forall j | 0 <= j < n
      ensures KnownTenant(CONFIG.tenants, Turns(n)[j].tenant) && (CanRun(CONFIG, jobs, [], Turns(n)[j]) <==> j == i)
    {
      TurnFits(n, j);
    }
    OneCandidate(CONFIG, jobs, [], Turns(n), i, n);
    assert Turns(n)[..n] == Turns(n);
  }

  /** While nothing is queued there is no candidate. */
  lemma OffersNothing(n: nat, s: Sim, i: nat, state: JobState)
    requires JobsAt(n, s.jobs, i, state) && state != Queued
    requires AllKnown(CONFIG, Turns(n)) && Use(s.held, Whole).FitsWithin(CONFIG.capacity)
    ensures SnapshotOf(TurnTrace(n), s).candidates == []
  {
    hide Eligible;
    forall j | 0 <= j < n ensures !CanRun(CONFIG, s.jobs, s.held, Turns(n)[j]) {
      assert Turns(n)[j] == Turn(j);
    }
    OneCandidate(CONFIG, s.jobs, s.held, Turns(n), n, n);
    assert Turns(n)[..n] == Turns(n);
  }

  // ---- the rounds ------------------------------------------------------------------------------------

  lemma Arrives(n: nat, s: Sim, i: nat) returns (t: Sim)
    requires Idle(n, s, i) && i < n
    ensures Pops(TurnTrace(n), s, ArrivalOf(i), t) && Inv(TurnTrace(n), t) && t.now == 2 * i
    ensures t.held == [] && JobsAt(n, t.jobs, i, Queued) && forall e :: e in t.events <==> Ahead(n, e, i + 1)
  {
    hide SimulationState.Inv;
    hide Feasible;
    hide HasRoom;
    hide Eligible;
    hide KnownTenant;
    hide JobsAt;
    hide Ahead;
    hide IsNext;
    hide Turn;
    hide CONFIG;
    hide TurnTrace;
    var trace, e := TurnTrace(n), ArrivalOf(i);
    NextAhead(n, s.events, i);
    TurnFits(n, i);
    HandlePreserves(trace, s, e);
    JobOf(n, s.jobs, i, Pending);
    t := Handle(CONFIG, s, e);
    JobsMove(n, s.jobs, i, Pending, s.jobs[i].(state := Queued));
  }

  lemma JobOf(n: nat, jobs: map<JobId, Runtime>, i: nat, state: JobState)
    requires JobsAt(n, jobs, i, state) && i < n
    ensures i in jobs && jobs[i].spec == Turn(i) && jobs[i].state == state
  {
  }

  lemma Starts(n: nat, s: Sim, i: nat) returns (t: Sim)
    requires i < n && Inv(TurnTrace(n), s) && s.now == 2 * i && s.held == [] && JobsAt(n, s.jobs, i, Queued)
    requires forall e :: e in s.events <==> Ahead(n, e, i + 1)
    ensures Startable(CONFIG, s, i) && t == Start(CONFIG, s, i) && Busy(n, t, i)
  {
    hide SimulationState.Inv;
    hide JobsAt;
    hide Ahead;
    hide HasRoom;
    hide Feasible;
    hide Eligible;
    hide KnownTenant;
    hide FreeGpus;
    hide ValidTrace;
    hide ValidConfig;
    hide Turn;
    hide CONFIG;
    hide TurnTrace;
    TurnTraceValid(n);
    TurnFits(n, i);
    JobOf(n, s.jobs, i, Queued);
    StartPreserves(TurnTrace(n), s, i);
    t := Start(CONFIG, s, i);
    JobsMove(n, s.jobs, i, Queued, s.jobs[i].(state := Running, dispatch := Some(s.now)));
    assert ReleaseAhead(n, t.events, i, s.nextSequence);
  }

  /** Job i arrives, is the only candidate, and deficit round robin chooses it. */
  lemma ArrivalRound(n: nat, s: Sim, i: nat) returns (round: Round<Baselines.Policy>)
    requires Idle(n, s, i) && i < n
    ensures IsRound(TurnTrace(n), Baselines.Choose, Baselines.DeficitPolicy(DrrAfter(i)), s, round)
    ensures round.next == Baselines.DeficitPolicy(DrrAfter(i + 1)) && Busy(n, round.end, i)
  {
    hide *;
    var trace := TurnTrace(n);
    var p, p' := Baselines.DeficitPolicy(DrrAfter(i)), Baselines.DeficitPolicy(DrrAfter(i + 1));
    TurnFits(n, i);
    var t := Arrives(n, s, i);
    AllLater(n, t.events, i);
    var shown := Chooses(n, t, i);
    var u := Starts(n, t, i);
    BusyParts(n, u, i);
    var last := ShowsNothing(n, u, i, Running);
    round := Round(Taking([ArrivalOf(i)], [s, t]), Dispatching([p, p'], [t, u], [shown], [Choice(i, t.now)]), last, p',
                   u);
    SingleInstant(trace, Baselines.Choose, p, s, ArrivalOf(i), t, shown, i, p', u, last);
  }

  lemma AllLater(n: nat, events: set<Event>, i: nat)
    requires forall e :: e in events <==> Ahead(n, e, i + 1)
    ensures forall e :: e in events ==> 2 * i + 1 < e.time && ArrivalOf(i).time < e.time
  {
    forall e | e in events ensures 2 * i + 1 < e.time && ArrivalOf(i).time < e.time {
      assert Ahead(n, e, i + 1);
    }
  }

  lemma Chooses(n: nat, s: Sim, i: nat) returns (shown: Snapshot)
    requires i < n && Inv(TurnTrace(n), s) && s.held == [] && JobsAt(n, s.jobs, i, Queued)
    ensures Shows(TurnTrace(n), s, shown)
    ensures Accepts(Baselines.Choose, Baselines.DeficitPolicy(DrrAfter(i)), shown, i,
                    Baselines.DeficitPolicy(DrrAfter(i + 1)))
  {
    hide SimulationState.Inv;
    hide JobsAt;
    hide ValidTrace;
    hide Shows;
    hide Candidates;
    hide DrrAfter;
    hide CONFIG;
    hide SnapshotOf;
    hide WellFormed;
    hide DeficitBounds.Offers;
    hide DeficitBounds.Selectable;
    hide DeficitPolicy.DrrSelect;
    hide Accepts;
    TurnTraceValid(n);
    SnapshotShows(TurnTrace(n), s);
    shown := SnapshotOf(TurnTrace(n), s);
    OffersTurn(n, s, i);
    DrrCall(i, shown);
    OffersIt(shown, Turn(i));
    ChooseDrr(DrrAfter(i), shown, DrrAfter(i + 1), Turn(i));
  }

  lemma OffersIt(s: Snapshot, job: JobSpec)
    requires DeficitBounds.Offers(s, job)
    ensures IsCandidate(s, job.id)
  {
    assert s.candidates[0] in s.candidates;
  }

  lemma ChooseDrr(p: DeficitPolicy.Drr, s: Snapshot, p': DeficitPolicy.Drr, job: JobSpec)
    requires WellFormed(s) && IsCandidate(s, job.id) && DeficitBounds.Selectable(p, s)
    requires DeficitPolicy.DrrSelect(p, s) == (p', Some(job))
    ensures Accepts(Baselines.Choose, Baselines.DeficitPolicy(p), s, job.id, Baselines.DeficitPolicy(p'))
  {
    hide DeficitPolicy.DrrSelect;
    assert Baselines.PolicyOk(Baselines.DeficitPolicy(p), s.tenants);
    assert Baselines.Choose(Baselines.DeficitPolicy(p), s) == (Baselines.DeficitPolicy(p'), Some(job.id));
  }

  lemma ShowsNothing(n: nat, s: Sim, i: nat, state: JobState) returns (last: Snapshot)
    requires Inv(TurnTrace(n), s) && JobsAt(n, s.jobs, i, state) && state != Queued
    ensures Shows(TurnTrace(n), s, last) && last.candidates == []
  {
    hide SimulationState.Inv;
    hide JobsAt;
    hide ValidTrace;
    hide Shows;
    hide Candidates;
    TurnTraceValid(n);
    SnapshotShows(TurnTrace(n), s);
    last := SnapshotOf(TurnTrace(n), s);
    OffersNothing(n, s, i, state);
  }

  lemma Finishes(n: nat, s: Sim, i: nat) returns (e: Event, t: Sim)
    requires Busy(n, s, i) && i < n
    ensures Pops(TurnTrace(n), s, e, t) && e.time == 2 * i + 1 && Idle(n, t, i + 1)
  {
    hide SimulationState.Inv;
    hide JobsAt;
    hide Ahead;
    hide IsNext;
    hide ReleaseAhead;
    var q :| ReleaseAhead(n, s.events, i, q);
    e := Event(2 * i + 1, Release, q, i);
    ReleaseNext(n, s.events, i, q);
    HandlePreserves(TurnTrace(n), s, e);
    JobOf(n, s.jobs, i, Running);
    t := Handle(CONFIG, s, e);
    assert s.held[..0] == [] && Without([], i) == [];
    assert t.held == [];
    JobsMove(n, s.jobs, i, Running, s.jobs[i].(state := Completed, completion := Some(e.time)));
    JobsNext(n, t.jobs, i);
  }

  /** Job i completes; nothing can start and the policy is not asked. */
  lemma ReleaseRound(n: nat, s: Sim, i: nat, p: Baselines.Policy) returns (round: Round<Baselines.Policy>)
    requires Busy(n, s, i) && i < n
    ensures IsRound(TurnTrace(n), Baselines.Choose, p, s, round) && round.next == p && Idle(n, round.end, i + 1)
  {
    hide *;
    var e, t := Finishes(n, s, i);
    IdleParts(n, t, i + 1);
    AllLater(n, t.events, i);
    var last := ShowsNothing(n, t, i + 1, Pending);
    round := Round(Taking([e], [s, t]), Dispatching([p], [t], [], []), last, p, t);
    IdleInstant(TurnTrace(n), Baselines.Choose, p, s, e, t, last);
  }

  /** The run up to the arrival of job i. */
  lemma {:induction false} RunTo(n: nat, i: nat) returns (rounds: seq<Round<Baselines.Policy>>)
    requires i <= n
    ensures IsSchedule(TurnTrace(n), Baselines.Choose, Baselines.DeficitPolicy(DeficitPolicy.FRESH), rounds)
    ensures Idle(n, SimAt(TurnTrace(n), rounds, |rounds|), i)
    ensures PolicyAt(Baselines.DeficitPolicy(DeficitPolicy.FRESH), rounds, |rounds|)
            == Baselines.DeficitPolicy(DrrAfter(i))
  {
    hide IsRound;
    hide Idle;
    hide Busy;
    hide Initial;
    var trace, start := TurnTrace(n), Baselines.DeficitPolicy(DeficitPolicy.FRESH);
    if i == 0 {
      InitialIdle(n);
      rounds := [];
    } else {
      hide DrrAfter;
      rounds := RunTo(n, i - 1);
      var s := SimAt(trace, rounds, |rounds|);
      var first := ArrivalRound(n, s, i - 1);
      ScheduleMore(trace, Baselines.Choose, start, rounds, first);
      var more := rounds + [first];
      var second := ReleaseRound(n, first.end, i - 1, first.next);
      ScheduleMore(trace, Baselines.Choose, start, more, second);
      rounds := more + [second];
    }
  }

  /** For every bound there is a valid trace whose one and only complete run under deficit round
      robin ends with a deficit beyond it. */
  lemma SchedulesUnbounded(bound: real) returns (trace: Trace)
    ensures ValidTrace(trace)
    ensures forall rounds :: Complete(trace, rounds) ==> EndsBeyond(rounds, bound)
    ensures exists rounds :: Complete(trace, rounds)
  {
    var k := CreditBeyond(bound);
    trace := TurnTrace(2 * k);
    TurnTraceValid(2 * k);
    var run := WholeRun(k);
    hide *;
    forall rounds | Complete(trace, rounds) ensures EndsBeyond(rounds, bound) {
      OnlyRun(trace, run, rounds, k, bound);
    }
  }

  lemma WholeRun(k: nat) returns (run: seq<Round<Baselines.Policy>>)
    requires k > 0
    ensures Complete(TurnTrace(2 * k), run) && EndsWith(run, DrrAfter(2 * k))
  {
    run := RunTo(2 * k, 2 * k);
    NothingAhead(2 * k, SimAt(TurnTrace(2 * k), run, |run|));
    hide IsSchedule;
    hide Idle;
    hide DrrAfter;
    hide TurnTrace;
  }

  lemma OnlyRun(trace: Trace, run: seq<Round<Baselines.Policy>>, rounds: seq<Round<Baselines.Policy>>, k: nat,
                bound: real)
    requires k > 0 && Complete(trace, run) && Complete(trace, rounds)
    requires EndsWith(run, DrrAfter(2 * k)) && Credit(k) > bound
    ensures EndsBeyond(rounds, bound)
  {
    hide IsSchedule;
    hide SimAt;
    Deterministic(trace, Baselines.Choose, Baselines.DeficitPolicy(DeficitPolicy.FRESH), rounds, run);
    DrrEven(k);
    hide DrrAfter;
  }

  lemma CreditBeyond(bound: real) returns (k: nat)
    ensures k > 0 && Credit(k) > bound
  {
    k := if bound < 0.0 then 1 else 2 * (bound.Floor + 1);
  }

  lemma NothingAhead(n: nat, s: Sim)
    requires Idle(n, s, n)
    ensures s.events == {}
  {
    hide SimulationState.Inv;
    assert forall e :: e !in s.events;
  }

  /** A whole run of deficit round robin from reset. */
  ghost predicate Complete(trace: Trace, rounds: seq<Round<Baselines.Policy>>) {
    && IsSchedule(trace, Baselines.Choose, Baselines.DeficitPolicy(DeficitPolicy.FRESH), rounds)
    && SimAt(trace, rounds, |rounds|).events == {}
  }

  ghost predicate EndsWith(rounds: seq<Round<Baselines.Policy>>, p: DeficitPolicy.Drr) {
    PolicyAt(Baselines.DeficitPolicy(DeficitPolicy.FRESH), rounds, |rounds|) == Baselines.DeficitPolicy(p)
  }

  ghost predicate EndsBeyond(rounds: seq<Round<Baselines.Policy>>, bound: real) {
    var p := PolicyAt(Baselines.DeficitPolicy(DeficitPolicy.FRESH), rounds, |rounds|);
    p.DeficitPolicy? && 1 in p.drr.deficits && p.drr.deficits[1] > bound
  }
}
