/** The triggers that keep each tenant's two staircases in step with its policies and
    allocations (migrations/versions/20260925_0017_b13_quota_headroom.py). */
module QuotaDatabase {
  import opened Wrappers
  import opened Staircase

  type TenantId = int

  datatype Resource = Cpu | Memory

  datatype AllocationRow = AllocationRow(tenant: TenantId, cpu: nat, memory: nat, released: bool)

  datatype PolicyRow = PolicyRow(tenant: TenantId, version: int, cpu: int, memory: int, current: bool)

  datatype TenantSteps = TenantSteps(cpu: Stairs, memory: Stairs)

  /** Both headrooms of a tenant were recomputed at one instant. */
  datatype Recount = Recount(cpu: int, memory: int, at: Option<int>)

  // ---- held resources ----------------------------------------------------------------------

  function Amount(row: AllocationRow, t: TenantId, r: Resource): nat {
    if row.tenant != t || row.released then 0 else if r == Cpu then row.cpu else row.memory
  }

  /** `sum(...) WHERE tenant_id = t AND state <> 'RELEASED'`. */
  function Held(rows: seq<AllocationRow>, t: TenantId, r: Resource): nat {
    if rows == [] then 0 else Held(rows[..|rows| - 1], t, r) + Amount(rows[|rows| - 1], t, r)
  }

  lemma HeldAppend(rows: seq<AllocationRow>, row: AllocationRow, t: TenantId, r: Resource)
    ensures Held(rows + [row], t, r) == Held(rows, t, r) + Amount(row, t, r)
  {
    assert (rows + [row])[..|rows|] == rows;
  }

  lemma {:induction false} HeldUpdate(rows: seq<AllocationRow>, i: nat, row: AllocationRow, t: TenantId, r: Resource)
    requires i < |rows|
    ensures Held(rows[i := row], t, r) == Held(rows, t, r) - Amount(rows[i], t, r) + Amount(row, t, r)
  {
    var n := |rows| - 1;
    if i == n {
      assert rows[i := row][..n] == rows[..n];
    } else {
      HeldUpdate(rows[..n], i, row, t, r);
      assert rows[i := row][..n] == rows[..n][i := row];
    }
  }

  // ---- a job's own age -----------------------------------------------------------------------

  function Project(history: seq<Recount>, r: Resource): seq<Change> {
    if history == [] then []
    else
      var last := history[|history| - 1];
      Project(history[..|history| - 1], r) + [Change(if r == Cpu then last.cpu else last.memory, last.at)]
  }

  /** The age the per-job model kept: blocked as a whole, or open since it last became so. */
  function JobAge(history: seq<Recount>, cpu: int, memory: int): Answer {
    if history == [] then Blocked
    else
      var last := history[|history| - 1];
      var before := JobAge(history[..|history| - 1], cpu, memory);
      if cpu > last.cpu || memory > last.memory then Blocked
      else if before.Blocked? then Open(last.at)
      else before
  }

  /** SQL `greatest`, which ignores NULL. */
  function Later(a: Option<int>, b: Option<int>): Option<int> {
    if a.None? then b else if b.None? then a else Some(if a.value < b.value then b.value else a.value)
  }

  function Combine(a: Answer, b: Answer): Answer {
    if a.Blocked? || b.Blocked? then Blocked else Open(Later(a.resumed, b.resumed))
  }

  /** Neither resource of the tenant has any step. */
  ghost predicate NothingOpen(history: seq<Recount>) {
    history == [] || (history[|history| - 1].cpu < 0 && history[|history| - 1].memory < 0)
  }

  ghost predicate NotAfter(history: seq<Recount>, now: int) {
    forall i :: 0 <= i < |history| && history[i].at.Some? ==> history[i].at.value <= now
  }

  /** Times never go back, and a NULL time is only used when nothing was open. */
  ghost predicate Chronological(history: seq<Recount>) {
    history == [] ||
    var n := |history| - 1;
    && Chronological(history[..n])
    && (history[n].at.None? ==> NothingOpen(history[..n]))
    && (history[n].at.Some? ==> NotAfter(history[..n], history[n].at.value))
  }

  lemma ProjectSnoc(history: seq<Recount>, last: Recount, r: Resource)
    ensures Project(history + [last], r)
            == Project(history, r) + [Change(if r == Cpu then last.cpu else last.memory, last.at)]
  {
    assert (history + [last])[..|history|] == history;
  }

  lemma NaiveSnoc(changes: seq<Change>, last: Change, size: int)
    ensures Naive(changes + [last], size) == Rewrite(Naive(changes, size), size, last.headroom, last.at)
    ensures Climb(changes + [last]) == QuotaStep(Climb(changes), last.headroom, last.at)
  {
    assert (changes + [last])[..|changes|] == changes;
  }

  /** Every resume time was some recount's time. */
  lemma {:induction false} ResumeTimesKnown(history: seq<Recount>, r: Resource, size: int, now: int)
    requires NotAfter(history, now)
    ensures var a := Naive(Project(history, r), size); a.Open? && a.resumed.Some? ==> a.resumed.value <= now
  {
    if history != [] {
      var n := |history| - 1;
      ResumeTimesKnown(history[..n], r, size, now);
      NaiveSnoc(Project(history[..n], r), Change(if r == Cpu then history[n].cpu else history[n].memory, history[n].at),
                size);
    }
  }

  lemma NothingOpenBlocks(history: seq<Recount>, r: Resource, size: int)
    requires NothingOpen(history) && size >= 0
    ensures Naive(Project(history, r), size).Blocked?
  {
    if history != [] {
      var n := |history| - 1;
      NaiveSnoc(Project(history[..n], r), Change(if r == Cpu then history[n].cpu else history[n].memory, history[n].at),
                size);
    }
  }

  /** No resume time lies after the recount, and a recount without a time finds all blocked. */
  ghost predicate Precedes(a: Answer, at: Option<int>) {
    match at
    case None => a.Blocked?
    case Some(time) => a.Open? && a.resumed.Some? ==> a.resumed.value <= time
  }

  /** One recount rewrites the combined answer as it rewrites the two parts. */
  lemma CombineStep(a: Answer, b: Answer, cpu: int, memory: int, last: Recount)
    requires Precedes(a, last.at) && Precedes(b, last.at)
    ensures Combine(Rewrite(a, cpu, last.cpu, last.at), Rewrite(b, memory, last.memory, last.at)) ==
            if cpu > last.cpu || memory > last.memory then Blocked
            else if Combine(a, b).Blocked? then Open(last.at) else Combine(a, b)
  {
  }

  lemma AnswerPrecedes(history: seq<Recount>, r: Resource, size: int)
    requires Chronological(history) && history != [] && size >= 0
    ensures var n := |history| - 1;
            && Precedes(Naive(Project(history[..n], r), size), history[n].at)
            && Naive(Project(history, r), size) ==
               Rewrite(Naive(Project(history[..n], r), size), size,
                       if r == Cpu then history[n].cpu else history[n].memory, history[n].at)
  {
    var n := |history| - 1;
    var before, last := history[..n], history[n];
    NaiveSnoc(Project(before, r), Change(if r == Cpu then last.cpu else last.memory, last.at), size);
    if last.at.None? {
      NothingOpenBlocks(before, r, size);
    } else {
      ResumeTimesKnown(before, r, size, last.at.value);
    }
  }

  /** The later of the two resume times is exactly when the job as a whole was last unblocked. */
  lemma {:induction false} JobAgeFromStairs(history: seq<Recount>, cpu: int, memory: int)
    requires Chronological(history) && cpu >= 0 && memory >= 0
    ensures JobAge(history, cpu, memory)
            == Combine(Naive(Project(history, Cpu), cpu), Naive(Project(history, Memory), memory))
  {
    if history != [] {
      var n := |history| - 1;
      var a, b := Naive(Project(history[..n], Cpu), cpu), Naive(Project(history[..n], Memory), memory);
      assert Chronological(history[..n]);
      AnswerPrecedes(history, Cpu, cpu);
      AnswerPrecedes(history, Memory, memory);
      hide Naive;
      hide Project;
      hide Chronological;
      hide Precedes;
      hide Combine;
      hide Rewrite;
      JobAgeFromStairs(history[..n], cpu, memory);
      CombineStep(a, b, cpu, memory, history[n]);
    }
  }

  // ---- one tenant ------------------------------------------------------------------------------

  const NO_STEPS := TenantSteps(map[], map[])

  function StepsOf(steps: map<TenantId, TenantSteps>, t: TenantId): TenantSteps {
    if t in steps then steps[t] else NO_STEPS
  }

  function HistoryOf(history: map<TenantId, seq<Recount>>, t: TenantId): seq<Recount> {
    if t in history then history[t] else []
  }

  /** The staircases are what the tenant's recounts built. */
  ghost predicate Tracked(steps: TenantSteps, history: seq<Recount>, now: int) {
    && Chronological(history) && NotAfter(history, now)
    && steps == TenantSteps(Climb(Project(history, Cpu)), Climb(Project(history, Memory)))
  }

  /** Under a current policy the last recount is the policy's limits minus what is held. */
  ghost predicate UpToDate(policies: seq<PolicyRow>, allocations: seq<AllocationRow>, history: seq<Recount>,
                           t: TenantId) {
    forall i :: 0 <= i < |policies| && policies[i].tenant == t && policies[i].current ==>
      && history != []
      && history[|history| - 1].cpu == policies[i].cpu - Held(allocations, t, Cpu)
      && history[|history| - 1].memory == policies[i].memory - Held(allocations, t, Memory)
  }

  lemma {:induction false} ProjectLast(history: seq<Recount>, r: Resource)
    ensures |Project(history, r)| == |history|
    ensures history != [] ==>
              Project(history, r)[|history| - 1].headroom ==
                if r == Cpu then history[|history| - 1].cpu else history[|history| - 1].memory
  {
    if history != [] {
      ProjectLast(history[..|history| - 1], r);
    }
  }

  /** Steps are absent exactly when nothing is open, and otherwise end at the headroom. */
  lemma TrackedTop(steps: TenantSteps, history: seq<Recount>, now: int)
    requires Tracked(steps, history, now)
    ensures steps == NO_STEPS <==> NothingOpen(history)
    ensures history != [] ==>
              && Top(steps.cpu) == (if history[|history| - 1].cpu >= 0 then history[|history| - 1].cpu else -1)
              && Top(steps.memory) == (if history[|history| - 1].memory >= 0 then history[|history| - 1].memory else -1)
  {
    StaircaseRefines(Project(history, Cpu), 0);
    StaircaseRefines(Project(history, Memory), 0);
    ProjectLast(history, Cpu);
    ProjectLast(history, Memory);
  }

  lemma ChronologicalSnoc(history: seq<Recount>, last: Recount, now: int, clock: int)
    requires Chronological(history) && NotAfter(history, now) && now <= clock
    requires last.at == Some(clock) || (last.at == None && NothingOpen(history))
    ensures Chronological(history + [last]) && NotAfter(history + [last], clock)
  {
    assert (history + [last])[..|history|] == history;
  }

  /** One recount keeps the tenant tracked. */
  lemma RecountTracked(steps: TenantSteps, history: seq<Recount>, now: int, last: Recount, clock: int)
    requires Tracked(steps, history, now) && now <= clock
    requires last.at == Some(clock) || (last.at == None && steps == NO_STEPS)
    ensures Tracked(TenantSteps(QuotaStep(steps.cpu, last.cpu, last.at), QuotaStep(steps.memory, last.memory, last.at)),
                    history + [last], clock)
  {
    TrackedTop(steps, history, now);
    ChronologicalSnoc(history, last, now, clock);
    hide QuotaStep;
    hide Chronological;
    hide NotAfter;
    ProjectSnoc(history, last, Cpu);
    ProjectSnoc(history, last, Memory);
    NaiveSnoc(Project(history, Cpu), Change(last.cpu, last.at), 0);
    NaiveSnoc(Project(history, Memory), Change(last.memory, last.at), 0);
  }

  // ---- the downgrade query ---------------------------------------------------------------------

  /** What the downgrade writes back into a queued job: its own age combined with both resume
      times, or NULL when held quota blocks it. */
  function FoldedAge(steps: TenantSteps, eligibleSince: int, cpu: int, memory: int): Option<int> {
    match (Lookup(steps.cpu, cpu), Lookup(steps.memory, memory))
    case (Open(c), Open(m)) => Later(Later(Some(eligibleSince), c), m)
    case (_, _) => None
  }

  /** The staircases reproduce per-job ages. */
  lemma FoldedAgeIsJobAge(steps: TenantSteps, history: seq<Recount>, now: int, eligibleSince: int, cpu: int,
                          memory: int)
    requires Tracked(steps, history, now) && cpu >= 0 && memory >= 0
    ensures FoldedAge(steps, eligibleSince, cpu, memory) ==
            match JobAge(history, cpu, memory)
            case Blocked => None
            case Open(resumed) => Later(Some(eligibleSince), resumed)
  {
    StaircaseRefines(Project(history, Cpu), cpu);
    StaircaseRefines(Project(history, Memory), memory);
    JobAgeFromStairs(history, cpu, memory);
  }

  /** Resume times rise with the bound through every run of recounts. */
  lemma {:induction false} TrackedRising(steps: TenantSteps, history: seq<Recount>, now: int)
    requires Tracked(steps, history, now)
    ensures Rising(steps.cpu) && Rising(steps.memory)
    ensures Bounded(steps.cpu, Some(now)) && Bounded(steps.memory, Some(now))
    decreases |history|
  {
    if history != [] {
      var n := |history| - 1;
      var before := TenantSteps(Climb(Project(history[..n], Cpu)), Climb(Project(history[..n], Memory)));
      var last := history[n];
      TrackedRising(before, history[..n], if last.at.Some? then last.at.value else now);
      NaiveSnoc(Project(history[..n], Cpu), Change(last.cpu, last.at), 0);
      NaiveSnoc(Project(history[..n], Memory), Change(last.memory, last.at), 0);
      if last.at.None? {
        TrackedTop(before, history[..n], now);
      }
      StepRising(before.cpu, last.cpu, last.at);
      StepRising(before.memory, last.memory, last.at);
    }
  }

  // ---- the tables ------------------------------------------------------------------------------

  predicate HasCurrent(policies: seq<PolicyRow>, t: TenantId) {
    exists i :: 0 <= i < |policies| && policies[i].tenant == t && policies[i].current
  }

  predicate HasVersion(policies: seq<PolicyRow>, row: PolicyRow) {
    exists i :: 0 <= i < |policies| && policies[i].tenant == row.tenant && policies[i].version == row.version
  }

  predicate HasEarlier(policies: seq<PolicyRow>, row: PolicyRow) {
    exists i :: 0 <= i < |policies| && policies[i].tenant == row.tenant && policies[i].version < row.version
  }

  /** Another row than this one is current for the tenant. */
  predicate CurrentElsewhere(policies: seq<PolicyRow>, i: nat, t: TenantId) {
    exists j :: 0 <= j < |policies| && j != i && policies[j].tenant == t && policies[j].current
  }

  /** The unique index on the current policy of a tenant. */
  ghost predicate OneCurrent(policies: seq<PolicyRow>) {
    forall i, j :: 0 <= i < j < |policies| && policies[i].current && policies[j].current ==>
      policies[i].tenant != policies[j].tenant
  }

  ghost predicate TrackedAt(steps: map<TenantId, TenantSteps>, history: map<TenantId, seq<Recount>>, now: int,
                            t: TenantId) {
    Tracked(StepsOf(steps, t), HistoryOf(history, t), now)
  }

  ghost predicate AllTracked(steps: map<TenantId, TenantSteps>, history: map<TenantId, seq<Recount>>, now: int) {
    forall t :: TrackedAt(steps, history, now, t)
  }

  ghost predicate UpToDateAt(policies: seq<PolicyRow>, allocations: seq<AllocationRow>,
                             history: map<TenantId, seq<Recount>>, t: TenantId) {
    UpToDate(policies, allocations, HistoryOf(history, t), t)
  }

  ghost predicate AllUpToDate(policies: seq<PolicyRow>, allocations: seq<AllocationRow>,
                              history: map<TenantId, seq<Recount>>) {
    forall t :: UpToDateAt(policies, allocations, history, t)
  }

  lemma RecountAllTracked(steps: map<TenantId, TenantSteps>, history: map<TenantId, seq<Recount>>, now: int,
                          t: TenantId, last: Recount, clock: int)
    requires AllTracked(steps, history, now) && now <= clock
    requires last.at == Some(clock) || (last.at == None && StepsOf(steps, t) == NO_STEPS)
    ensures var old' := StepsOf(steps, t);
            AllTracked(steps[t := TenantSteps(QuotaStep(old'.cpu, last.cpu, last.at),
                                              QuotaStep(old'.memory, last.memory, last.at))],
                       history[t := HistoryOf(history, t) + [last]], clock)
  {
    var before := StepsOf(steps, t);
    var after := TenantSteps(QuotaStep(before.cpu, last.cpu, last.at), QuotaStep(before.memory, last.memory, last.at));
    var steps', history' := steps[t := after], history[t := HistoryOf(history, t) + [last]];
    forall u ensures TrackedAt(steps', history', clock, u) {
      assert TrackedAt(steps, history, now, u);
      if u == t {
        RecountTracked(before, HistoryOf(history, t), now, last, clock);
      }
    }
  }

  lemma RecountUpToDate(policies: seq<PolicyRow>, allocations: seq<AllocationRow>, history: map<TenantId, seq<Recount>>,
                        i: nat, last: Recount)
    requires OneCurrent(policies) && i < |policies| && policies[i].current
    requires last.cpu == policies[i].cpu - Held(allocations, policies[i].tenant, Cpu)
    requires last.memory == policies[i].memory - Held(allocations, policies[i].tenant, Memory)
    requires forall u :: u != policies[i].tenant ==> UpToDateAt(policies, allocations, history, u)
    ensures var t := policies[i].tenant;
            AllUpToDate(policies, allocations, history[t := HistoryOf(history, t) + [last]])
  {
    var t := policies[i].tenant;
    var history' := history[t := HistoryOf(history, t) + [last]];
    forall u ensures UpToDateAt(policies, allocations, history', u) {
      assert u != t ==> UpToDateAt(policies, allocations, history, u);
    }
  }

  /** Headrooms of tenants whose held amounts did not change stay up to date. */
  lemma SameHeld(policies: seq<PolicyRow>, rows: seq<AllocationRow>, rows': seq<AllocationRow>,
                 history: map<TenantId, seq<Recount>>, t: TenantId)
    requires UpToDateAt(policies, rows, history, t)
    requires Held(rows', t, Cpu) == Held(rows, t, Cpu) && Held(rows', t, Memory) == Held(rows, t, Memory)
    ensures UpToDateAt(policies, rows', history, t)
  {
  }

  function OldAmount(before: Option<AllocationRow>, t: TenantId, r: Resource): nat {
    if before.Some? then Amount(before.value, t, r) else 0
  }

  ghost function CurrentPolicy(policies: seq<PolicyRow>, t: TenantId): PolicyRow
    requires HasCurrent(policies, t)
  {
    var i :| 0 <= i < |policies| && policies[i].tenant == t && policies[i].current;
    policies[i]
  }

  /** One more recount for a tenant: the policy's limits minus what the rows hold. */
  function Recounted(history: map<TenantId, seq<Recount>>, policy: PolicyRow, rows: seq<AllocationRow>, at: Option<int>)
    : map<TenantId, seq<Recount>>
  {
    var t := policy.tenant;
    history[t := HistoryOf(history, t)
            + [Recount(policy.cpu - Held(rows, t, Cpu), policy.memory - Held(rows, t, Memory), at)]]
  }

  /** The allocation trigger records a recount exactly when a held amount changed under a
      current policy; otherwise it leaves steps and history alone. */
  ghost predicate AllocationEffect(before: Option<AllocationRow>, after: AllocationRow, policies: seq<PolicyRow>,
                                   rows: seq<AllocationRow>, clock: int, steps: map<TenantId, TenantSteps>,
                                   steps': map<TenantId, TenantSteps>, history: map<TenantId, seq<Recount>>,
                                   history': map<TenantId, seq<Recount>>) {
    var t := after.tenant;
    if (OldAmount(before, t, Cpu) == Amount(after, t, Cpu) && OldAmount(before, t, Memory) == Amount(after, t, Memory))
       || !HasCurrent(policies, t)
    then steps' == steps && history' == history
    else history' == Recounted(history, CurrentPolicy(policies, t), rows, Some(clock))
  }

  // ---- seeding ---------------------------------------------------------------------------------

  function SeedOne(headroom: int): Stairs {
    if headroom >= 0 then map[headroom := None] else map[]
  }

  /** One step without a time per resource and current policy, none for a negative headroom. */
  function SeededSteps(policies: seq<PolicyRow>, allocations: seq<AllocationRow>): map<TenantId, TenantSteps> {
    if policies == [] then map[]
    else
      var rest, p := SeededSteps(policies[..|policies| - 1], allocations), policies[|policies| - 1];
      if !p.current then rest
      else rest[p.tenant := TenantSteps(SeedOne(p.cpu - Held(allocations, p.tenant, Cpu)),
                                        SeedOne(p.memory - Held(allocations, p.tenant, Memory)))]
  }

  /** What that amounts to: a first recount without a time. */
  function SeededHistory(policies: seq<PolicyRow>, allocations: seq<AllocationRow>): map<TenantId, seq<Recount>> {
    if policies == [] then map[]
    else
      var rest, p := SeededHistory(policies[..|policies| - 1], allocations), policies[|policies| - 1];
      if !p.current then rest
      else rest[p.tenant := [Recount(p.cpu - Held(allocations, p.tenant, Cpu),
                                     p.memory - Held(allocations, p.tenant, Memory), None)]]
  }

  lemma FirstRecountTracked(cpu: int, memory: int, now: int)
    ensures Tracked(TenantSteps(SeedOne(cpu), SeedOne(memory)), [Recount(cpu, memory, None)], now)
  {
    var last := Recount(cpu, memory, None);
    assert Tracked(NO_STEPS, [], now);
    RecountTracked(NO_STEPS, [], now, last, now);
    assert [] + [last] == [last];
    assert QuotaStep(map[], cpu, None) == SeedOne(cpu) && QuotaStep(map[], memory, None) == SeedOne(memory);
  }

  lemma {:induction false} SeedTracked(policies: seq<PolicyRow>, allocations: seq<AllocationRow>, now: int)
    ensures AllTracked(SeededSteps(policies, allocations), SeededHistory(policies, allocations), now)
  {
    hide Tracked;
    var steps, history := SeededSteps(policies, allocations), SeededHistory(policies, allocations);
    if policies == [] {
      NothingTracked(now);
      forall t ensures TrackedAt(steps, history, now, t) {
      }
    } else {
      var n := |policies| - 1;
      var p := policies[n];
      SeedTracked(policies[..n], allocations, now);
      forall t ensures TrackedAt(steps, history, now, t) {
        assert TrackedAt(SeededSteps(policies[..n], allocations), SeededHistory(policies[..n], allocations), now, t);
        FirstRecountTracked(p.cpu - Held(allocations, p.tenant, Cpu), p.memory - Held(allocations, p.tenant, Memory),
                            now);
      }
    }
  }

  lemma NothingTracked(now: int)
    ensures Tracked(NO_STEPS, [], now)
  {
  }

  lemma {:induction false} SeedUpToDate(policies: seq<PolicyRow>, allocations: seq<AllocationRow>)
    requires OneCurrent(policies)
    ensures AllUpToDate(policies, allocations, SeededHistory(policies, allocations))
  {
    var history := SeededHistory(policies, allocations);
    if policies != [] {
      var n := |policies| - 1;
      SeedUpToDate(policies[..n], allocations);
      forall t ensures UpToDateAt(policies, allocations, history, t) {
        assert UpToDateAt(policies[..n], allocations, SeededHistory(policies[..n], allocations), t);
        forall i | 0 <= i < n && policies[i].tenant == t && policies[i].current
          ensures policies[..n][i] == policies[i]
        {
        }
      }
    }
  }

  class QuotaTables {
    var policies: seq<PolicyRow>
    var allocations: seq<AllocationRow>
    var steps: map<TenantId, TenantSteps>
    var now: int
    /** Every recount each tenant has seen. */
    ghost var history: map<TenantId, seq<Recount>>

    ghost predicate Valid()
      reads this
    {
      OneCurrent(policies) && AllTracked(steps, history, now) && AllUpToDate(policies, allocations, history)
    }

    /** The migration fills the steps from whatever policies and allocations there are. */
    constructor (policies: seq<PolicyRow>, allocations: seq<AllocationRow>, clock: int)
      requires OneCurrent(policies)
      ensures Valid() && this.policies == policies && this.allocations == allocations && now == clock
      ensures steps == SeededSteps(policies, allocations) && history == SeededHistory(policies, allocations)
    {
      this.policies, this.allocations, now := policies, allocations, clock;
      steps, history := SeededSteps(policies, allocations), SeededHistory(policies, allocations);
      SeedTracked(policies, allocations, clock);
      SeedUpToDate(policies, allocations);
    }

    /** nexa_b13_set_quota_headroom: recompute both headrooms of one tenant. A first recount
        with no steps at all records no time. */
    method SetHeadroom(t: TenantId, cpuLimit: int, memoryLimit: int, initial: bool, clock: int)
      requires now <= clock && AllTracked(steps, history, now)
      modifies this`steps, this`now, this`history
      ensures now == clock && AllTracked(steps, history, now)
      ensures forall u :: u != t ==> StepsOf(steps, u) == old(StepsOf(steps, u))
      ensures var at := if initial && old(StepsOf(steps, t)) == NO_STEPS then None else Some(clock);
              history == old(history)[t := HistoryOf(old(history), t) +
                [Recount(cpuLimit - Held(allocations, t, Cpu), memoryLimit - Held(allocations, t, Memory), at)]]
    {
      hide Tracked;
      var hc, hm := Held(allocations, t, Cpu), Held(allocations, t, Memory);
      var current := StepsOf(steps, t);
      var boundary := Some(clock);
      if initial && current == NO_STEPS {
        boundary := None;
      }
      ghost var last := Recount(cpuLimit - hc, memoryLimit - hm, boundary);
      RecountAllTracked(steps, history, now, t, last, clock);
      steps := steps[t := TenantSteps(QuotaStep(current.cpu, cpuLimit - hc, boundary),
                                      QuotaStep(current.memory, memoryLimit - hm, boundary))];
      history := history[t := HistoryOf(history, t) + [last]];
      now := clock;
    }

    /** The allocation trigger: nothing to do when the held amounts stay the same or the tenant
        has no current policy. */
    method AllocationChanged(before: Option<AllocationRow>, after: AllocationRow, clock: int)
      requires OneCurrent(policies) && now <= clock && AllTracked(steps, history, now)
      requires before.Some? ==> before.value.tenant == after.tenant
      requires forall u :: u != after.tenant ==> UpToDateAt(policies, allocations, history, u)
      requires OldAmount(before, after.tenant, Cpu) == Amount(after, after.tenant, Cpu)
               && OldAmount(before, after.tenant, Memory) == Amount(after, after.tenant, Memory)
               ==> UpToDateAt(policies, allocations, history, after.tenant)
      modifies this`steps, this`now, this`history
      ensures Valid()
      ensures AllocationEffect(before, after, policies, allocations, clock, old(steps), steps, old(history), history)
    {
      hide Tracked;
      var t := after.tenant;
      var oc, om := 0, 0;
      if before.Some? && !before.value.released {
        oc, om := before.value.cpu, before.value.memory;
      }
      var nc, nm := 0, 0;
      if !after.released {
        nc, nm := after.cpu, after.memory;
      }
      if oc == nc && om == nm {
        return;
      }
      if !HasCurrent(policies, t) {
        assert UpToDateAt(policies, allocations, history, t);
        return;
      }
      var i :| 0 <= i < |policies| && policies[i].tenant == t && policies[i].current;
      assert policies[i] == CurrentPolicy(policies, t);
      RecountUpToDate(policies, allocations, history, i,
                      Recount(policies[i].cpu - Held(allocations, t, Cpu),
                              policies[i].memory - Held(allocations, t, Memory), Some(clock)));
      SetHeadroom(t, policies[i].cpu, policies[i].memory, false, clock);
    }

    method InsertAllocation(row: AllocationRow, clock: int)
      requires Valid() && now <= clock
      modifies this
      ensures Valid() && allocations == old(allocations) + [row] && policies == old(policies)
      ensures AllocationEffect(None, row, policies, allocations, clock, old(steps), steps, old(history), history)
    {
      hide Tracked;
      var extended := allocations + [row];
      forall u | Amount(row, u, Cpu) == 0 && Amount(row, u, Memory) == 0
        ensures UpToDateAt(policies, extended, history, u)
      {
        HeldAppend(allocations, row, u, Cpu);
        HeldAppend(allocations, row, u, Memory);
        SameHeld(policies, allocations, extended, history, u);
      }
      allocations := extended;
      AllocationChanged(None, row, clock);
    }

    /** Resize, quarantine, release or any other update that keeps the row's tenant. */
    method UpdateAllocation(i: nat, row: AllocationRow, clock: int)
      requires Valid() && now <= clock && i < |allocations| && allocations[i].tenant == row.tenant
      modifies this
      ensures Valid() && allocations == old(allocations)[i := row] && policies == old(policies)
      ensures AllocationEffect(Some(old(allocations[i])), row, policies, allocations, clock, old(steps), steps,
                               old(history), history)
    {
      hide Tracked;
      var before := allocations[i];
      var updated := allocations[i := row];
      forall u | Amount(row, u, Cpu) == Amount(before, u, Cpu) && Amount(row, u, Memory) == Amount(before, u, Memory)
        ensures UpToDateAt(policies, updated, history, u)
      {
        HeldUpdate(allocations, i, row, u, Cpu);
        HeldUpdate(allocations, i, row, u, Memory);
        SameHeld(policies, allocations, updated, history, u);
      }
      allocations := updated;
      AllocationChanged(Some(before), row, clock);
    }

    /** A new policy version. A second current row of the tenant, or a reused version, is
        refused by the table's own indexes. */
    method InsertPolicy(row: PolicyRow, clock: int) returns (ok: bool)
      requires Valid() && now <= clock
      modifies this
      ensures Valid() && allocations == old(allocations)
      ensures ok <==> !(row.current && HasCurrent(old(policies), row.tenant)) && !HasVersion(old(policies), row)
      ensures policies == if ok then old(policies) + [row] else old(policies)
      ensures if !ok || !row.current then steps == old(steps) && history == old(history)
              else
                var initial := !HasEarlier(old(policies), row) && StepsOf(old(steps), row.tenant) == NO_STEPS;
                history == Recounted(old(history), row, allocations, if initial then None else Some(clock))
    {
      hide Tracked;
      if (row.current && HasCurrent(policies, row.tenant)) || HasVersion(policies, row) {
        return false;
      }
      ok := true;
      var first := !HasEarlier(policies, row);
      var extended := policies + [row];
      forall u | !row.current || u != row.tenant ensures UpToDateAt(extended, allocations, history, u) {
        assert UpToDateAt(policies, allocations, history, u);
      }
      policies := extended;
      if row.current {
        var t := row.tenant;
        var at := if first && StepsOf(steps, t) == NO_STEPS then None else Some(clock);
        RecountUpToDate(policies, allocations, history, |policies| - 1,
                        Recount(row.cpu - Held(allocations, t, Cpu), row.memory - Held(allocations, t, Memory), at));
        SetHeadroom(t, row.cpu, row.memory, first, clock);
      }
    }

    /** New limits or a change of currency for one policy version. */
    method UpdatePolicy(i: nat, row: PolicyRow, clock: int) returns (ok: bool)
      requires Valid() && now <= clock && i < |policies|
      requires policies[i].tenant == row.tenant && policies[i].version == row.version
      modifies this
      ensures Valid() && allocations == old(allocations)
      ensures ok <==> !(row.current && CurrentElsewhere(old(policies), i, row.tenant))
      ensures policies == if ok then old(policies)[i := row] else old(policies)
      ensures if !ok || !row.current then steps == old(steps) && history == old(history)
              else history == Recounted(old(history), row, allocations, Some(clock))
    {
      hide Tracked;
      if row.current && CurrentElsewhere(policies, i, row.tenant) {
        return false;
      }
      ok := true;
      var updated := policies[i := row];
      forall u | !row.current || u != row.tenant ensures UpToDateAt(updated, allocations, history, u) {
        assert UpToDateAt(policies, allocations, history, u);
      }
      policies := updated;
      if row.current {
        var t := row.tenant;
        RecountUpToDate(policies, allocations, history, i,
                        Recount(row.cpu - Held(allocations, t, Cpu), row.memory - Held(allocations, t, Memory),
                                Some(clock)));
        SetHeadroom(t, row.cpu, row.memory, false, clock);
      }
    }

    /** At any moment, whatever statements came before: the top steps are the headroom under the
        tenant's current policy, and the downgrade query returns each job's own age. */
    lemma Faithful(i: nat, eligibleSince: int, cpu: int, memory: int)
      requires Valid() && i < |policies| && policies[i].current && cpu >= 0 && memory >= 0
      ensures var t := policies[i].tenant;
              var hc, hm := policies[i].cpu - Held(allocations, t, Cpu),
                policies[i].memory - Held(allocations, t, Memory);
              && Top(StepsOf(steps, t).cpu) == (if hc >= 0 then hc else -1)
              && Top(StepsOf(steps, t).memory) == (if hm >= 0 then hm else -1)
              && Rising(StepsOf(steps, t).cpu) && Rising(StepsOf(steps, t).memory)
              && FoldedAge(StepsOf(steps, t), eligibleSince, cpu, memory) ==
                 (match JobAge(HistoryOf(history, t), cpu, memory)
                  case Blocked => None
                  case Open(resumed) => Later(Some(eligibleSince), resumed))
              && (FoldedAge(StepsOf(steps, t), eligibleSince, cpu, memory).None? <==> cpu > hc || memory > hm)
    {
      var t := policies[i].tenant;
      assert TrackedAt(steps, history, now, t) && UpToDateAt(policies, allocations, history, t);
      TrackedTop(StepsOf(steps, t), HistoryOf(history, t), now);
      TrackedRising(StepsOf(steps, t), HistoryOf(history, t), now);
      FoldedAgeIsJobAge(StepsOf(steps, t), HistoryOf(history, t), now, eligibleSince, cpu, memory);
    }
  }
}
