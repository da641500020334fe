/** The largest share a tenant could hold in the fairness window: the state-set search of
    _max_window_share (benchmarks/simulator/metrics.py) against all subsets of its jobs. */
module WindowShare {
  import opened Resources
  import opened Workload
  import opened SimulationState

  /** What bounds a tenant: its quota, the machine, and how many jobs it may run at once. */
  datatype Limits = Limits(quota: ResourceVector, capacity: ResourceVector, maxRunning: int)

  /** One search state: the resources of some chosen jobs and how many they are. */
  datatype Level = Level(total: ResourceVector, count: nat)

  const NOTHING := Level(ZERO, 0)

  predicate InWindow(r: Runtime, t: TenantId, begin: int, end: int) {
    && r.spec.tenant == t && r.reason.None? && r.spec.arrival < end
    && (r.completion.None? || r.completion.value > begin)
  }

  function WindowRecords(records: seq<Runtime>, t: TenantId, begin: int, end: int): seq<Runtime> {
    if records == [] then []
    else
      var rest := WindowRecords(records[..|records| - 1], t, begin, end);
      var r := records[|records| - 1];
      if InWindow(r, t, begin, end) then rest + [r] else rest
  }

  // ---- all subsets --------------------------------------------------------------------------

  /** The jobs marked by `mask`, added up. */
  function Chosen(records: seq<Runtime>, mask: seq<bool>): Level
    requires |mask| == |records|
  {
    if records == [] then NOTHING
    else
      var n := |records| - 1;
      var rest := Chosen(records[..n], mask[..n]);
      if mask[n] then Plus(rest, records[n]) else rest
  }

  function Plus(l: Level, r: Runtime): Level {
    Level(l.total.Add(r.spec.resources), l.count + 1)
  }

  /** Choosing nothing is always allowed. */
  predicate Allowed(limits: Limits, l: Level) {
    l == NOTHING
    || (l.total.FitsWithin(limits.quota) && l.total.FitsWithin(limits.capacity) && l.count <= limits.maxRunning)
  }

  ghost predicate Selects(records: seq<Runtime>, mask: seq<bool>, l: Level) {
    |mask| == |records| && Chosen(records, mask) == l
  }

  /** Some subset within the limits adds up to this level. */
  ghost predicate Reachable(limits: Limits, records: seq<Runtime>, l: Level) {
    Allowed(limits, l) && exists mask :: Selects(records, mask, l)
  }

  /** One search step: one more job, if the guards of the search let it in. */
  predicate Extends(limits: Limits, l: Level, r: Runtime, l': Level) {
    && l.count < limits.maxRunning
    && l' == Plus(l, r)
    && l'.total.FitsWithin(limits.quota) && l'.total.FitsWithin(limits.capacity)
  }

  /** Pruning loses nothing: dropping a job from an allowed choice leaves an allowed choice. */
  lemma DropAllowed(limits: Limits, l: Level, r: Runtime)
    requires Allowed(limits, Plus(l, r))
    ensures Allowed(limits, l) && Extends(limits, l, r, Plus(l, r))
  {
  }

  lemma MaskSnoc(records: seq<Runtime>, mask: seq<bool>, r: Runtime, chosen: bool)
    requires |mask| == |records|
    ensures Chosen(records + [r], mask + [chosen])
            == if chosen then Plus(Chosen(records, mask), r) else Chosen(records, mask)
  {
    var n := |records|;
    assert (records + [r])[..n] == records && (mask + [chosen])[..n] == mask;
  }

  ghost predicate ReachedFrom(limits: Limits, states: set<Level>, r: Runtime, l: Level) {
    l in states || exists s :: s in states && Extends(limits, s, r, l)
  }

  lemma ReachableStep(limits: Limits, records: seq<Runtime>, r: Runtime, states: set<Level>, l: Level)
    requires forall s :: s in states <==> Reachable(limits, records, s)
    ensures Reachable(limits, records + [r], l) <==> ReachedFrom(limits, states, r, l)
  {
    var n := |records|;
    if ReachedFrom(limits, states, r, l) {
      var chosen := l !in states;
      var s :| s in states && if chosen then Extends(limits, s, r, l) else s == l;
      var mask :| Selects(records, mask, s);
      MaskSnoc(records, mask, r, chosen);
      assert Selects(records + [r], mask + [chosen], l);
    }
    if Reachable(limits, records + [r], l) {
      var mask :| Selects(records + [r], mask, l);
      assert mask == mask[..n] + [mask[n]];
      MaskSnoc(records, mask[..n], r, mask[n]);
      var s := Chosen(records, mask[..n]);
      assert Selects(records, mask[..n], s);
      if mask[n] {
        DropAllowed(limits, s, r);
      }
      assert Reachable(limits, records, s);
    }
  }

  lemma ReachableEmpty(limits: Limits, l: Level)
    ensures Reachable(limits, [], l) <==> l == NOTHING
  {
    assert Selects([], [], NOTHING);
  }

  // ---- the search -----------------------------------------------------------------------------

  /** The additions one job makes to the set of states. */
  method Additions(limits: Limits, states: set<Level>, r: Runtime) returns (additions: set<Level>)
    ensures forall l :: l in additions <==> exists s :: s in states && Extends(limits, s, r, l)
  {
    additions := {};
    var pending := states;
    while pending != {}
      invariant pending <= states
      invariant forall l :: l in additions <==> exists s :: s in states - pending && Extends(limits, s, r, l)
      decreases |pending|
    {
      var s :| s in pending;
      ghost var before, done := additions, states - pending;
      pending := pending - {s};
      if s.count < limits.maxRunning {
        var combined := Plus(s, r);
        if combined.total.FitsWithin(limits.quota) && combined.total.FitsWithin(limits.capacity) {
          additions := additions + {combined};
          assert Extends(limits, s, r, combined);
        }
      }
      assert states - pending == done + {s};
      assert forall l :: l in additions <==> l in before || Extends(limits, s, r, l);
    }
    assert states - pending == states;
  }

  method ReachableStates(limits: Limits, records: seq<Runtime>) returns (states: set<Level>)
    ensures forall l :: l in states <==> Reachable(limits, records, l)
  {
    states := {NOTHING};
    forall l ensures l in states <==> Reachable(limits, records[..0], l) {
      ReachableEmpty(limits, l);
    }
    for i := 0 to |records|
      invariant forall l :: l in states <==> Reachable(limits, records[..i], l)
    {
      var additions := Additions(limits, states, records[i]);
      forall l ensures l in states + additions <==> Reachable(limits, records[..i + 1], l) {
        assert records[..i + 1] == records[..i] + [records[i]];
        ReachableStep(limits, records[..i], records[i], states, l);
      }
      states := states + additions;
    }
    assert records[..|records|] == records;
  }

  /** The largest dominant share among some states; zero when there are none. */
  method LargestShare(states: set<Level>, capacity: ResourceVector) returns (share: real)
    ensures states == {} ==> share == 0.0
    ensures states != {} ==> exists l :: l in states && DominantShare(l.total, capacity) == share
    ensures forall l :: l in states ==> DominantShare(l.total, capacity) <= share
  {
    hide DominantShare;
    share := 0.0;
    var pending := states;
    while pending != {}
      invariant pending <= states
      invariant pending == states ==> share == 0.0
      invariant pending != states ==> exists l :: l in states && DominantShare(l.total, capacity) == share
      invariant forall l :: l in states - pending ==> DominantShare(l.total, capacity) <= share
      decreases |pending|
    {
      var s :| s in pending;
      if pending == states || DominantShare(s.total, capacity) > share {
        share := DominantShare(s.total, capacity);
      }
      pending := pending - {s};
    }
  }

  /** `share` is attained by a subset of the window's jobs within the limits, and no such
      subset has a larger one. */
  ghost predicate IsLargest(limits: Limits, records: seq<Runtime>, share: real) {
    && (exists mask :: Within(limits, records, mask) && ShareOf(limits, records, mask) == share)
    && (forall mask :: Within(limits, records, mask) ==> ShareOf(limits, records, mask) <= share)
  }

  predicate Within(limits: Limits, records: seq<Runtime>, mask: seq<bool>) {
    |mask| == |records| && Allowed(limits, Chosen(records, mask))
  }

  function ShareOf(limits: Limits, records: seq<Runtime>, mask: seq<bool>): real
    requires |mask| == |records|
  {
    DominantShare(Chosen(records, mask).total, limits.capacity)
  }

  function LimitsOf(config: Config, t: TenantId): Limits
    requires KnownTenant(config.tenants, t)
  {
    var tenant := FindTenant(config.tenants, t);
    Limits(tenant.quota, config.capacity, tenant.maxRunning)
  }

  method MaxWindowShare(config: Config, records: seq<Runtime>, t: TenantId, begin: int, end: int) returns (share: real)
    requires KnownTenant(config.tenants, t)
    ensures IsLargest(LimitsOf(config, t), WindowRecords(records, t, begin, end), share)
  {
    hide DominantShare;
    hide Allowed;
    hide Chosen;
    hide WindowRecords;
    var limits := LimitsOf(config, t);
    var inside := WindowRecords(records, t, begin, end);
    var states := ReachableStates(limits, inside);
    share := LargestShare(states, config.capacity);
    Attained(limits, inside, states, share);
  }

  lemma Attained(limits: Limits, records: seq<Runtime>, states: set<Level>, share: real)
    requires forall l :: l in states <==> Reachable(limits, records, l)
    requires states != {} ==> exists l :: l in states && DominantShare(l.total, limits.capacity) == share
    requires forall l :: l in states ==> DominantShare(l.total, limits.capacity) <= share
    ensures IsLargest(limits, records, share)
  {
    hide DominantShare;
    NothingReachable(limits, records);
    var l :| l in states && DominantShare(l.total, limits.capacity) == share;
    var mask :| Selects(records, mask, l);
    assert Within(limits, records, mask) && ShareOf(limits, records, mask) == share;
    forall mask | Within(limits, records, mask) ensures ShareOf(limits, records, mask) <= share {
      var l := Chosen(records, mask);
      assert Selects(records, mask, l);
      assert l in states;
    }
  }

  lemma {:induction false} NothingReachable(limits: Limits, records: seq<Runtime>)
    ensures Reachable(limits, records, NOTHING)
  {
    if records == [] {
      ReachableEmpty(limits, NOTHING);
    } else {
      var n := |records| - 1;
      NothingReachable(limits, records[..n]);
      var mask :| Selects(records[..n], mask, NOTHING);
      assert records == records[..n] + [records[n]];
      MaskSnoc(records[..n], mask, records[n], false);
      assert Selects(records, mask + [false], NOTHING);
    }
  }
}
