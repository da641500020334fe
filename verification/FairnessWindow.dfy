/** assess_fairness_window (benchmarks/simulator/metrics.py) as a whole: who is assessed, why
    the others are not, and what the index says. */
module FairnessWindow {
  import opened Basics
  import opened Wrappers
  import opened Resources
  import opened Workload
  import opened SimulationState
  import opened ResourceTime
  import opened WindowShare
  import opened ContinuousDemand
  import opened WeightedShares
  import opened WeightedJain

  datatype Window = Window(begin: int, end: int, tenants: seq<TenantId>)

  datatype Assessment = Assessment(included: seq<TenantId>, excluded: map<TenantId, Exclusion>, jain: Option<real>)

  /** A job arriving in the window was refused because of the tenant's quota. */
  predicate RefusedInWindow(r: Runtime, t: TenantId, w: Window) {
    r.spec.tenant == t && r.reason == Some(RequestExceedsTenantQuota) && w.begin <= r.spec.arrival < w.end
  }

  predicate Blocked(records: seq<Runtime>, t: TenantId, w: Window) {
    exists i :: 0 <= i < |records| && RefusedInWindow(records[i], t, w)
  }

  ghost predicate AlwaysInDemand(records: seq<Runtime>, t: TenantId, w: Window) {
    forall instant :: w.begin <= instant < w.end ==> InDemand(records, t, instant)
  }

  ghost predicate Qualifies(records: seq<Runtime>, t: TenantId, w: Window) {
    !Blocked(records, t, w) && AlwaysInDemand(records, t, w)
  }

  ghost function Qualified(records: seq<Runtime>, w: Window, listed: seq<TenantId>): set<TenantId> {
    set t | t in listed && Qualifies(records, t, w)
  }

  /** The reason a listed tenant is not even a candidate. */
  ghost function Dismissed(records: seq<Runtime>, w: Window, listed: seq<TenantId>): map<TenantId, Exclusion> {
    map t | t in listed && !Qualifies(records, t, w) ::
      if Blocked(records, t, w) then QuotaBlocked else NotContinuouslyDemanding
  }

  ghost predicate Known(config: Config, listed: seq<TenantId>) {
    forall t :: t in listed ==> KnownTenant(config.tenants, t)
  }

  function WeightsOf(config: Config, listed: seq<TenantId>): map<TenantId, int>
    requires forall t :: t in listed ==> KnownTenant(config.tenants, t)
  {
    map t | t in listed :: FindTenant(config.tenants, t).weight
  }

  ghost predicate AreLargest(config: Config, records: seq<Runtime>, w: Window, listed: seq<TenantId>,
                             shares: map<TenantId, real>)
    requires Known(config, listed)
  {
    forall t :: t in listed ==>
      t in shares && IsLargest(LimitsOf(config, t), WindowRecords(records, t, w.begin, w.end), shares[t])
  }

  lemma {:induction false} KeepSame(listed: seq<TenantId>, a: set<TenantId>, b: set<TenantId>)
    requires forall t :: t in listed ==> (t in a <==> t in b)
    ensures Keep(listed, a) == Keep(listed, b)
  {
    if listed != [] {
      var t := listed[|listed| - 1];
      assert t in listed;
      KeepSame(listed[..|listed| - 1], a, b);
    }
  }

  lemma KeepQualified(records: seq<Runtime>, w: Window, listed: seq<TenantId>, n: nat)
    requires n < |listed|
    ensures Keep(listed[..n + 1], Qualified(records, w, listed[..n + 1]))
            == Keep(listed[..n], Qualified(records, w, listed[..n]))
              + (if Qualifies(records, listed[n], w) then [listed[n]] else [])
  {
    hide Qualifies;
    var more := listed[..n + 1];
    assert more == listed[..n] + [listed[n]] && more[..n] == listed[..n];
    KeepSame(listed[..n], Qualified(records, w, listed[..n]), Qualified(records, w, more));
  }

  lemma DismissedStep(records: seq<Runtime>, w: Window, listed: seq<TenantId>, n: nat)
    requires n < |listed|
    ensures var before := Dismissed(records, w, listed[..n]);
            Dismissed(records, w, listed[..n + 1])
            == if Qualifies(records, listed[n], w) then before
               else
                 before[listed[n] :=
                          if Blocked(records, listed[n], w) then QuotaBlocked else NotContinuouslyDemanding]
  {
    hide Qualifies;
    hide Blocked;
    assert listed[..n + 1] == listed[..n] + [listed[n]];
  }

  /** The first loop: each listed tenant is dismissed for one reason or becomes a candidate. */
  method Screen(records: seq<Runtime>, w: Window)
    returns (candidates: seq<TenantId>, excluded: map<TenantId, Exclusion>)
    requires w.begin < w.end
    ensures candidates == Keep(w.tenants, Qualified(records, w, w.tenants))
    ensures excluded == Dismissed(records, w, w.tenants)
  {
    hide Keep;
    hide Qualified;
    hide Dismissed;
    hide Blocked;
    candidates, excluded := [], map[];
    NobodyYet(records, w);
    for n := 0 to |w.tenants|
      invariant candidates == Keep(w.tenants[..n], Qualified(records, w, w.tenants[..n]))
      invariant excluded == Dismissed(records, w, w.tenants[..n])
    {
      var t := w.tenants[n];
      KeepQualified(records, w, w.tenants, n);
      DismissedStep(records, w, w.tenants, n);
      if Blocked(records, t, w) {
        excluded := excluded[t := QuotaBlocked];
      } else {
        var always := ContinuouslyDemanding(records, t, w.begin, w.end);
        if !always {
          excluded := excluded[t := NotContinuouslyDemanding];
        } else {
          candidates := candidates + [t];
        }
      }
    }
    assert w.tenants[..|w.tenants|] == w.tenants;
  }

  lemma NobodyYet(records: seq<Runtime>, w: Window)
    ensures Keep(w.tenants[..0], Qualified(records, w, w.tenants[..0])) == []
    ensures Dismissed(records, w, w.tenants[..0]) == map[]
  {
  }

  method LargestShares(config: Config, records: seq<Runtime>, w: Window, listed: seq<TenantId>)
    returns (shares: map<TenantId, real>)
    requires Known(config, listed)
    ensures AreLargest(config, records, w, listed, shares)
  {
    hide IsLargest;
    hide WindowRecords;
    shares := map[];
    for n := 0 to |listed|
      invariant forall i :: 0 <= i < n ==>
        listed[i] in shares
          && IsLargest(LimitsOf(config, listed[i]), WindowRecords(records, listed[i], w.begin, w.end),
                       shares[listed[i]])
    {
      var share := MaxWindowShare(config, records, listed[n], w.begin, w.end);
      shares := shares[listed[n] := share];
    }
  }

  /** The resource-time of the included tenants; one without allocations has none. */
  ghost function TimesOf(config: Config, allocations: seq<Allocation>, w: Window,
                         included: seq<TenantId>): map<TenantId, real>
    requires w.begin <= w.end
  {
    map t | t in included :: Integral(allocations, config.capacity, t, w.begin, w.end)
  }

  /** When an index is reported, and which. */
  ghost predicate Reported(times: map<TenantId, real>, weights: map<TenantId, int>, jain: Option<real>) {
    if |times| >= 2 && SomeTime(times) then
      Assess(times, weights).Ok? && jain == Some(Assess(times, weights).value)
    else jain.None?
  }

  /** The whole assessment. Candidates are the listed tenants that were never quota-blocked and
      had work throughout; of these the greatest sustaining set is included; every listed tenant
      left out has its reason; and the index is the weighted Jain index of the included tenants'
      exact resource-time. */
  method AssessFairnessWindow(config: Config, records: seq<Runtime>, allocations: seq<Allocation>, w: Window)
    returns (a: Assessment, ghost candidates: seq<TenantId>, ghost shares: map<TenantId, real>)
    requires ValidTenants(config.tenants) && w.begin < w.end && Known(config, w.tenants)
    ensures candidates == Keep(w.tenants, Qualified(records, w, w.tenants))
    ensures Known(config, candidates) && AreLargest(config, records, w, candidates, shares)
    ensures Priced(candidates, shares, WeightsOf(config, candidates))
    ensures a.included == Keep(candidates, Elements(a.included)) && Elements(a.included) <= Elements(candidates)
    ensures |a.included| >= 2 ==> Sustains(candidates, shares, WeightsOf(config, candidates), Elements(a.included))
    ensures Bounds(candidates, shares, WeightsOf(config, candidates), Elements(a.included))
    ensures a.excluded == Marked(Dismissed(records, w, w.tenants), candidates, Elements(a.included))
    ensures Known(config, a.included)
    ensures Reported(TimesOf(config, allocations, w, a.included), WeightsOf(config, a.included), a.jain)
  {
    hide Sustains;
    hide Bounds;
    hide Keep;
    hide Qualified;
    hide Marked;
    hide Dismissed;
    hide IsLargest;
    hide Reported;
    hide TimesOf;
    hide Elements;
    hide WindowRecords;
    var listed, dismissed := Screen(records, w);
    KeepMember(w.tenants, Qualified(records, w, w.tenants));
    candidates := listed;
    var weights := WeightsOf(config, listed);
    var largest := LargestShares(config, records, w, listed);
    shares := largest;
    PricedBy(config, records, w, listed, largest);
    var included, excluded := Eliminate(listed, largest, weights, dismissed);
    ElementsWithin(included, listed);
    var jain := Measure(config, allocations, w, included);
    a := Assessment(included, excluded, jain);
  }

  lemma {:induction false} IntegralNotNegative(allocations: seq<Allocation>, capacity: ResourceVector, t: TenantId,
                                               begin: int, end: int)
    requires begin <= end
    ensures Integral(allocations, capacity, t, begin, end) >= 0.0
    decreases end - begin
  {
    if begin < end {
      IntegralNotNegative(allocations, capacity, t, begin, end - 1);
    }
  }

  method Measure(config: Config, allocations: seq<Allocation>, w: Window, included: seq<TenantId>)
    returns (jain: Option<real>)
    requires ValidTenants(config.tenants) && w.begin < w.end && Known(config, included)
    ensures Reported(TimesOf(config, allocations, w, included), WeightsOf(config, included), jain)
  {
    hide Integral;
    hide Reported;
    var measured := DominantResourceTime(allocations, config.capacity, w.begin, w.end);
    var times := map t | t in included :: Get(measured.value, t);
    assert times == TimesOf(config, allocations, w, included);
    forall t | t in times ensures times[t] >= 0.0 {
      IntegralNotNegative(allocations, config.capacity, t, w.begin, w.end);
    }
    jain := Index(config, times, included);
  }

  lemma ElementsWithin(included: seq<TenantId>, listed: seq<TenantId>)
    requires Elements(included) <= Elements(listed)
    ensures forall t :: t in included ==> t in listed
  {
    forall t | t in included ensures t in listed {
      assert t in Elements(included);
    }
  }

  lemma PricedBy(config: Config, records: seq<Runtime>, w: Window, listed: seq<TenantId>, shares: map<TenantId, real>)
    requires ValidTenants(config.tenants) && Known(config, listed) && AreLargest(config, records, w, listed, shares)
    ensures Priced(listed, shares, WeightsOf(config, listed))
  {
    hide IsLargest;
    forall t | t in listed ensures t in shares && FindTenant(config.tenants, t).weight > 0 {
      assert FindTenant(config.tenants, t) in config.tenants;
    }
  }

  /** The last step: an index only for at least two tenants that are not all idle. */
  method Index(config: Config, times: map<TenantId, real>, included: seq<TenantId>) returns (jain: Option<real>)
    requires ValidTenants(config.tenants) && Known(config, included) && times.Keys == Elements(included)
    requires forall t :: t in times ==> times[t] >= 0.0
    ensures Reported(times, WeightsOf(config, included), jain)
  {
    var weights := WeightsOf(config, included);
    if |times| >= 2 && exists t :: t in times && times[t] != 0.0 {
      IndexDefined(config, times, included);
      AssessRange(times, weights);
      jain := Some(Assess(times, weights).value);
    } else {
      jain := None;
    }
  }

  lemma IndexDefined(config: Config, times: map<TenantId, real>, included: seq<TenantId>)
    requires ValidTenants(config.tenants) && Known(config, included) && times.Keys == Elements(included) && |times| >= 2
    ensures Defined(times, WeightsOf(config, included))
  {
    assert times.Keys != {} by {
      assert |times.Keys| == |times|;
    }
    forall t | t in included ensures FindTenant(config.tenants, t).weight > 0 {
      assert FindTenant(config.tenants, t) in config.tenants;
    }
  }
}
