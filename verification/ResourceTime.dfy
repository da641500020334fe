/** The boundary sweep of dominant_resource_time (benchmarks/simulator/metrics.py), against
    the millisecond-by-millisecond integral it stands for. */
module ResourceTime {
  import opened Basics
  import opened Wrappers
  import opened Resources
  import opened Workload
  import opened Ledger
  import opened SimulationState

  datatype MetricsError = EmptyWindow

  // ---- the integral ------------------------------------------------------------------------

  /** The dominant share of what a tenant holds at one instant. */
  function ShareAt(allocations: seq<Allocation>, capacity: ResourceVector, t: TenantId, instant: int): real {
    DominantShare(Use(ActiveAt(allocations, instant), Of(t)), capacity)
  }

  /** Its sum over every millisecond of [begin, end). */
  function Integral(allocations: seq<Allocation>, capacity: ResourceVector, t: TenantId, begin: int, end: int): real
    requires begin <= end
    decreases end - begin
  {
    if begin == end then 0.0
    else Integral(allocations, capacity, t, begin, end - 1) + ShareAt(allocations, capacity, t, end - 1)
  }

  /** Adjacent windows add up. */
  lemma {:induction false} IntegralAdditive(allocations: seq<Allocation>, capacity: ResourceVector, t: TenantId, a: int,
                                            b: int, c: int)
    requires a <= b <= c
    ensures Integral(allocations, capacity, t, a, c) ==
            Integral(allocations, capacity, t, a, b) + Integral(allocations, capacity, t, b, c)
    decreases c - b
  {
    if b < c {
      IntegralAdditive(allocations, capacity, t, a, b, c - 1);
    }
  }

  lemma {:induction false} IntegralConstant(allocations: seq<Allocation>, capacity: ResourceVector, t: TenantId, a: int,
                                            b: int, share: real)
    requires a <= b
    requires forall instant :: a <= instant < b ==> ShareAt(allocations, capacity, t, instant) == share
    ensures Integral(allocations, capacity, t, a, b) == share * (b - a) as real
    decreases b - a
  {
    hide ShareAt;
    if a < b {
      IntegralConstant(allocations, capacity, t, a, b - 1, share);
      OneMore(share, b - 1 - a);
    }
  }

  lemma OneMore(share: real, n: int)
    ensures share * (n + 1) as real == share * n as real + share
  {
  }

  lemma {:induction false} UsePart(held: seq<Allocation>, t: TenantId)
    ensures Use(held, Of(t)).FitsWithin(Use(held, Whole))
  {
    if held != [] {
      UsePart(held[..|held| - 1], t);
    }
  }

  /** Of a schedule that never exceeds capacity, no tenant gets more than the whole window. */
  lemma {:induction false} IntegralBounded(config: Config, history: seq<Allocation>, t: TenantId, a: int, b: int)
    requires a <= b && AlwaysSafe(config, history)
    ensures 0.0 <= Integral(history, config.capacity, t, a, b) <= (b - a) as real
    decreases b - a
  {
    if a < b {
      IntegralBounded(config, history, t, a, b - 1);
      assert Safe(config, ActiveAt(history, b - 1));
      UsePart(ActiveAt(history, b - 1), t);
    }
  }

  // ---- clipping ------------------------------------------------------------------------------

  function ClipOne(a: Allocation, begin: int, end: int): Allocation {
    a.(start := Max(begin, a.start), release := Min(end, a.release))
  }

  /** The parts of the allocations inside the window, empty parts dropped. */
  function Clip(allocations: seq<Allocation>, begin: int, end: int): seq<Allocation> {
    if allocations == [] then []
    else
      var rest := Clip(allocations[..|allocations| - 1], begin, end);
      var a := ClipOne(allocations[|allocations| - 1], begin, end);
      if a.release > a.start then rest + [a] else rest
  }

  /** Inside the window clipping changes nothing that is held. */
  lemma {:induction false} ClipKeepsUse(allocations: seq<Allocation>, begin: int, end: int, instant: int, scope: Scope)
    requires begin <= instant < end
    ensures Use(ActiveAt(Clip(allocations, begin, end), instant), scope) == Use(ActiveAt(allocations, instant), scope)
  {
    if allocations != [] {
      var n := |allocations| - 1;
      var a := allocations[n];
      var c := ClipOne(a, begin, end);
      ClipKeepsUse(allocations[..n], begin, end, instant, scope);
      UseAppend(ActiveAt(allocations[..n], instant), a, scope);
      UseAppend(ActiveAt(Clip(allocations[..n], begin, end), instant), c, scope);
      ActiveAppend(Clip(allocations[..n], begin, end), c, instant);
    }
  }

  lemma {:induction false} ClipInside(allocations: seq<Allocation>, begin: int, end: int)
    ensures forall i :: 0 <= i < |Clip(allocations, begin, end)| ==>
              var c := Clip(allocations, begin, end)[i]; begin <= c.start < c.release <= end
  {
    if allocations != [] {
      ClipInside(allocations[..|allocations| - 1], begin, end);
    }
  }

  // ---- one interval ----------------------------------------------------------------------------

  /** The clipped allocations that cover [lo, hi] entirely. */
  function Covering(clipped: seq<Allocation>, lo: int, hi: int): seq<Allocation> {
    if clipped == [] then []
    else
      var rest := Covering(clipped[..|clipped| - 1], lo, hi);
      var a := clipped[|clipped| - 1];
      if a.start <= lo && a.release >= hi then rest + [a] else rest
  }

  /** No allocation starts or ends strictly between two points. */
  ghost predicate Undivided(clipped: seq<Allocation>, lo: int, hi: int) {
    forall i :: 0 <= i < |clipped| ==> !(lo < clipped[i].start < hi) && !(lo < clipped[i].release < hi)
  }

  /** Throughout an undivided interval, what is in force is what covers it. */
  lemma {:induction false} CoveringIsActive(clipped: seq<Allocation>, lo: int, hi: int, instant: int)
    requires Undivided(clipped, lo, hi) && lo <= instant < hi
    ensures ActiveAt(clipped, instant) == Covering(clipped, lo, hi)
  {
    if clipped != [] {
      CoveringIsActive(clipped[..|clipped| - 1], lo, hi, instant);
    }
  }

  /** A holding's dominant share over some milliseconds. */
  function Gain(held: ResourceVector, capacity: ResourceVector, elapsed: int): real {
    DominantShare(held, capacity) * elapsed as real
  }

  function IntervalTime(clipped: seq<Allocation>, capacity: ResourceVector, t: TenantId, lo: int, hi: int): real {
    Gain(Use(Covering(clipped, lo, hi), Of(t)), capacity, hi - lo)
  }

  lemma IntervalIsIntegral(clipped: seq<Allocation>, capacity: ResourceVector, t: TenantId, lo: int, hi: int)
    requires Undivided(clipped, lo, hi) && lo <= hi
    ensures Integral(clipped, capacity, t, lo, hi) == IntervalTime(clipped, capacity, t, lo, hi)
  {
    hide DominantShare;
    var share := DominantShare(Use(Covering(clipped, lo, hi), Of(t)), capacity);
    forall instant | lo <= instant < hi ensures ShareAt(clipped, capacity, t, instant) == share {
      CoveringIsActive(clipped, lo, hi, instant);
    }
    IntegralConstant(clipped, capacity, t, lo, hi, share);
  }

  // ---- the boundaries ----------------------------------------------------------------------------

  function Points(clipped: seq<Allocation>): set<int> {
    if clipped == [] then {}
    else Points(clipped[..|clipped| - 1]) + {clipped[|clipped| - 1].start, clipped[|clipped| - 1].release}
  }

  lemma {:induction false} PointsMember(clipped: seq<Allocation>, i: nat)
    requires i < |clipped|
    ensures clipped[i].start in Points(clipped) && clipped[i].release in Points(clipped)
  {
    if i < |clipped| - 1 {
      PointsMember(clipped[..|clipped| - 1], i);
    }
  }

  predicate IsLeastPoint(s: set<int>, m: int) {
    m in s && forall x :: x in s ==> m <= x
  }

  /** `sorted(...)` of a set. */
  function Sorted(s: set<int>): seq<int> {
    if s == {} then []
    else
      assert exists m :: m in s && IsLeastPoint(s, m) by {
        var m := LeastOf(s);
        assert IsLeastPoint(s, m);
      }
      var m :| m in s && IsLeastPoint(s, m);
      [m] + Sorted(s - {m})
  }

  lemma {:induction false} SortedIs(s: set<int>)
    ensures StrictlyIncreasing(Sorted(s))
    ensures forall x :: x in Sorted(s) <==> x in s
  {
    if s != {} {
      var m := Sorted(s)[0];
      SortedIs(s - {m});
      var rest := Sorted(s - {m});
      assert Sorted(s) == [m] + rest;
      forall j | 0 <= j < |rest| ensures m < rest[j] {
        assert rest[j] in rest;
      }
    }
  }

  // ---- the sweep ---------------------------------------------------------------------------------

  /** The sweep over the first `n` intervals between consecutive boundaries. */
  function Swept(clipped: seq<Allocation>, capacity: ResourceVector, t: TenantId, bounds: seq<int>, n: nat): real
    requires n < |bounds| || n == 0
  {
    if n == 0 then 0.0
    else Swept(clipped, capacity, t, bounds, n - 1) + IntervalTime(clipped, capacity, t, bounds[n - 1], bounds[n])
  }

  ghost predicate Boundaries(clipped: seq<Allocation>, bounds: seq<int>) {
    StrictlyIncreasing(bounds)
    && forall i :: 0 <= i < |clipped| ==> clipped[i].start in bounds && clipped[i].release in bounds
  }

  lemma UndividedBetween(clipped: seq<Allocation>, bounds: seq<int>, n: nat)
    requires Boundaries(clipped, bounds) && n + 1 < |bounds|
    ensures Undivided(clipped, bounds[n], bounds[n + 1])
  {
    forall i | 0 <= i < |clipped|
      ensures !(bounds[n] < clipped[i].start < bounds[n + 1]) && !(bounds[n] < clipped[i].release < bounds[n + 1])
    {
      var j :| 0 <= j < |bounds| && bounds[j] == clipped[i].start;
      var k :| 0 <= k < |bounds| && bounds[k] == clipped[i].release;
    }
  }

  lemma {:induction false} SweptIsIntegral(clipped: seq<Allocation>, capacity: ResourceVector, t: TenantId,
                                           bounds: seq<int>, n: nat)
    requires Boundaries(clipped, bounds) && n < |bounds|
    ensures bounds[0] <= bounds[n]
    ensures Swept(clipped, capacity, t, bounds, n) == Integral(clipped, capacity, t, bounds[0], bounds[n])
  {
    if n > 0 {
      SweptIsIntegral(clipped, capacity, t, bounds, n - 1);
      UndividedBetween(clipped, bounds, n - 1);
      IntervalIsIntegral(clipped, capacity, t, bounds[n - 1], bounds[n]);
      IntegralAdditive(clipped, capacity, t, bounds[0], bounds[n - 1], bounds[n]);
    }
  }

  /** Outside all boundaries nothing is in force. */
  lemma {:induction false} NothingActive(clipped: seq<Allocation>, instant: int)
    requires forall i :: 0 <= i < |clipped| ==> !ActiveIn(clipped[i], instant)
    ensures ActiveAt(clipped, instant) == []
  {
    if clipped != [] {
      NothingActive(clipped[..|clipped| - 1], instant);
    }
  }

  lemma IdleIntegral(clipped: seq<Allocation>, capacity: ResourceVector, t: TenantId, a: int, b: int)
    requires a <= b
    requires forall i :: 0 <= i < |clipped| ==> b <= clipped[i].start || clipped[i].release <= a
    ensures Integral(clipped, capacity, t, a, b) == 0.0
  {
    forall instant | a <= instant < b ensures ShareAt(clipped, capacity, t, instant) == 0.0 {
      NothingActive(clipped, instant);
    }
    IntegralConstant(clipped, capacity, t, a, b, 0.0);
  }

  lemma {:induction false} ClipIntegral(allocations: seq<Allocation>, capacity: ResourceVector, t: TenantId, begin: int,
                                        a: int, end: int)
    requires begin <= a <= end
    ensures Integral(Clip(allocations, begin, end), capacity, t, begin, a)
            == Integral(allocations, capacity, t, begin, a)
    decreases a - begin
  {
    if begin < a {
      ClipIntegral(allocations, capacity, t, begin, a - 1, end);
      ClipKeepsUse(allocations, begin, end, a - 1, Of(t));
    }
  }

  /** The sweep is the integral over the whole window, for every tenant. */
  lemma SweepIsIntegral(allocations: seq<Allocation>, capacity: ResourceVector, t: TenantId, begin: int, end: int,
                        bounds: seq<int>)
    requires begin < end
    requires bounds == Sorted(Points(Clip(allocations, begin, end)))
    ensures Boundaries(Clip(allocations, begin, end), bounds)
    ensures Swept(Clip(allocations, begin, end), capacity, t, bounds, if bounds == [] then 0 else |bounds| - 1)
            == Integral(allocations, capacity, t, begin, end)
  {
    var clipped := Clip(allocations, begin, end);
    SortedIs(Points(clipped));
    ClipInside(allocations, begin, end);
    ClipIntegral(allocations, capacity, t, begin, end, end);
    forall i | 0 <= i < |clipped| ensures clipped[i].start in bounds && clipped[i].release in bounds {
      PointsMember(clipped, i);
    }
    if bounds == [] {
      IdleIntegral(clipped, capacity, t, begin, end);
    } else {
      WithinBounds(clipped, capacity, t, begin, end, bounds);
    }
  }

  lemma {:induction false} PointsFrom(clipped: seq<Allocation>, begin: int, end: int, x: int)
    requires forall i :: 0 <= i < |clipped| ==> begin <= clipped[i].start < clipped[i].release <= end
    requires x in Points(clipped)
    ensures begin <= x <= end
  {
    if x !in {clipped[|clipped| - 1].start, clipped[|clipped| - 1].release} {
      PointsFrom(clipped[..|clipped| - 1], begin, end, x);
    }
  }

  lemma WithinBounds(clipped: seq<Allocation>, capacity: ResourceVector, t: TenantId, begin: int, end: int,
                     bounds: seq<int>)
    requires forall i :: 0 <= i < |clipped| ==> begin <= clipped[i].start < clipped[i].release <= end
    requires bounds != [] && Boundaries(clipped, bounds) && forall x :: x in bounds <==> x in Points(clipped)
    ensures begin <= end
    ensures Swept(clipped, capacity, t, bounds, |bounds| - 1) == Integral(clipped, capacity, t, begin, end)
  {
    var n := |bounds| - 1;
    var lo, hi := bounds[0], bounds[n];
    assert lo in bounds && hi in bounds;
    PointsFrom(clipped, begin, end, lo);
    PointsFrom(clipped, begin, end, hi);
    SweptIsIntegral(clipped, capacity, t, bounds, n);
    forall i | 0 <= i < |clipped| ensures lo <= clipped[i].start && clipped[i].release <= hi {
      var j :| 0 <= j < |bounds| && bounds[j] == clipped[i].start;
      var k :| 0 <= k < |bounds| && bounds[k] == clipped[i].release;
    }
    IdleIntegral(clipped, capacity, t, begin, lo);
    IdleIntegral(clipped, capacity, t, hi, end);
    IntegralAdditive(clipped, capacity, t, begin, lo, end);
    IntegralAdditive(clipped, capacity, t, lo, hi, end);
  }

  // ---- the method ----------------------------------------------------------------------------------

  function Get(m: map<TenantId, real>, t: TenantId): real {
    if t in m then m[t] else 0.0
  }

  function GetHeld(m: map<TenantId, ResourceVector>, t: TenantId): ResourceVector {
    if t in m then m[t] else ZERO
  }

  function TenantsOf(allocations: seq<Allocation>): set<TenantId> {
    if allocations == [] then {}
    else TenantsOf(allocations[..|allocations| - 1]) + {allocations[|allocations| - 1].tenant}
  }

  /** Tenants that hold something in one of the first `n` intervals. */
  function SweptTenants(clipped: seq<Allocation>, bounds: seq<int>, n: nat): set<TenantId>
    requires n < |bounds| || n == 0
  {
    if n == 0 then {}
    else SweptTenants(clipped, bounds, n - 1) + TenantsOf(Covering(clipped, bounds[n - 1], bounds[n]))
  }

  lemma {:induction false} CoveringTenants(clipped: seq<Allocation>, lo: int, hi: int)
    ensures TenantsOf(Covering(clipped, lo, hi)) <= TenantsOf(clipped)
    ensures forall i :: 0 <= i < |clipped| && clipped[i].start <= lo && clipped[i].release >= hi ==>
              clipped[i].tenant in TenantsOf(Covering(clipped, lo, hi))
  {
    if clipped != [] {
      var n := |clipped| - 1;
      CoveringTenants(clipped[..n], lo, hi);
      var rest := Covering(clipped[..n], lo, hi);
      assert (rest + [clipped[n]])[..|rest|] == rest;
    }
  }

  lemma {:induction false} SweptWithin(clipped: seq<Allocation>, bounds: seq<int>, n: nat)
    requires n < |bounds| || n == 0
    ensures SweptTenants(clipped, bounds, n) <= TenantsOf(clipped)
  {
    if n > 0 {
      SweptWithin(clipped, bounds, n - 1);
      CoveringTenants(clipped, bounds[n - 1], bounds[n]);
    }
  }

  lemma {:induction false} SweptContains(clipped: seq<Allocation>, bounds: seq<int>, n: nat, k: nat)
    requires k < n < |bounds|
    ensures TenantsOf(Covering(clipped, bounds[k], bounds[k + 1])) <= SweptTenants(clipped, bounds, n)
  {
    hide TenantsOf;
    if k < n - 1 {
      SweptContains(clipped, bounds, n - 1, k);
    }
  }

  lemma {:induction false} TenantFrom(clipped: seq<Allocation>, t: TenantId) returns (i: nat)
    requires t in TenantsOf(clipped)
    ensures i < |clipped| && clipped[i].tenant == t
  {
    i := |clipped| - 1;
    if clipped[i].tenant != t {
      i := TenantFrom(clipped[..i], t);
    }
  }

  /** Every clipped allocation covers the interval that begins where it starts. */
  lemma AllTenantsSwept(clipped: seq<Allocation>, bounds: seq<int>)
    requires Boundaries(clipped, bounds)
    requires forall i :: 0 <= i < |clipped| ==> clipped[i].start < clipped[i].release
    ensures SweptTenants(clipped, bounds, if bounds == [] then 0 else |bounds| - 1) == TenantsOf(clipped)
  {
    var n := if bounds == [] then 0 else |bounds| - 1;
    SweptWithin(clipped, bounds, n);
    forall t | t in TenantsOf(clipped) ensures t in SweptTenants(clipped, bounds, n) {
      var i := TenantFrom(clipped, t);
      var j :| 0 <= j < |bounds| && bounds[j] == clipped[i].start;
      var k :| 0 <= k < |bounds| && bounds[k] == clipped[i].release;
      assert j < k;
      CoveringTenants(clipped, bounds[j], bounds[j + 1]);
      SweptContains(clipped, bounds, n, j);
    }
  }

  lemma CoveringStep(clipped: seq<Allocation>, i: nat, lo: int, hi: int)
    requires i < |clipped|
    ensures var a, rest := clipped[i], Covering(clipped[..i], lo, hi);
            var next := Covering(clipped[..i + 1], lo, hi);
            if a.start <= lo && a.release >= hi
            then next == rest + [a] && TenantsOf(next) == TenantsOf(rest) + {a.tenant}
            else next == rest
  {
    assert clipped[..i + 1][..i] == clipped[..i];
    var rest := Covering(clipped[..i], lo, hi);
    assert (rest + [clipped[i]])[..|rest|] == rest;
  }

  ghost predicate Tallies(held: map<TenantId, ResourceVector>, covering: seq<Allocation>) {
    held.Keys == TenantsOf(covering) && forall t :: GetHeld(held, t) == Use(covering, Of(t))
  }

  lemma TallyAt(held: map<TenantId, ResourceVector>, covering: seq<Allocation>, a: Allocation, t: TenantId)
    requires GetHeld(held, t) == Use(covering, Of(t))
    ensures GetHeld(held[a.tenant := GetHeld(held, a.tenant).Add(a.resources)], t) == Use(covering + [a], Of(t))
  {
    hide Use;
    var before, after := Use(covering, Of(t)), Use(covering + [a], Of(t));
    assert after == before.Add(Part(a, Of(t))) by {
      UseAppend(covering, a, Of(t));
    }
    if t == a.tenant {
      assert after == before.Add(a.resources);
    } else {
      assert after == before.Add(ZERO);
      AddZero(before);
      assert after == before;
    }
  }

  lemma TallyStep(held: map<TenantId, ResourceVector>, covering: seq<Allocation>, a: Allocation)
    requires Tallies(held, covering) && TenantsOf(covering + [a]) == TenantsOf(covering) + {a.tenant}
    ensures Tallies(held[a.tenant := GetHeld(held, a.tenant).Add(a.resources)], covering + [a])
  {
    hide Use;
    hide TenantsOf;
    hide GetHeld;
    var held' := held[a.tenant := GetHeld(held, a.tenant).Add(a.resources)];
    forall t ensures GetHeld(held', t) == Use(covering + [a], Of(t)) {
      TallyAt(held, covering, a, t);
    }
  }

  /** What each tenant holds throughout one interval. */
  method HeldByTenant(clipped: seq<Allocation>, lo: int, hi: int) returns (held: map<TenantId, ResourceVector>)
    ensures Tallies(held, Covering(clipped, lo, hi))
  {
    hide Tallies;
    hide Covering;
    held := map[];
    EmptyTally(lo, hi);
    var i := 0;
    while i < |clipped|
      invariant 0 <= i <= |clipped| && Tallies(held, Covering(clipped[..i], lo, hi))
    {
      var a := clipped[i];
      CoveringStep(clipped, i, lo, hi);
      if a.start <= lo && a.release >= hi {
        TallyStep(held, Covering(clipped[..i], lo, hi), a);
        held := held[a.tenant := GetHeld(held, a.tenant).Add(a.resources)];
      }
      i := i + 1;
    }
    assert clipped[..i] == clipped;
  }

  lemma EmptyTally(lo: int, hi: int)
    ensures Covering([], lo, hi) == [] && Tallies(map[], [])
  {
  }

  lemma ZeroGain(capacity: ResourceVector, elapsed: int)
    ensures Gain(ZERO, capacity, elapsed) == 0.0
  {
  }

  /** Totals after the tenants outside `todo` have been credited. */
  ghost predicate Credited(r: map<TenantId, real>, measured: map<TenantId, real>, held: map<TenantId, ResourceVector>,
                           capacity: ResourceVector, elapsed: int, todo: set<TenantId>) {
    && r.Keys == measured.Keys + (held.Keys - todo)
    && forall t :: Get(r, t) == Get(measured, t) + if t in todo then 0.0 else Gain(GetHeld(held, t), capacity, elapsed)
  }

  lemma CreditStep(r: map<TenantId, real>, measured: map<TenantId, real>, held: map<TenantId, ResourceVector>,
                   capacity: ResourceVector, elapsed: int, todo: set<TenantId>, t: TenantId)
    requires Credited(r, measured, held, capacity, elapsed, todo) && t in todo && todo <= held.Keys
    ensures Credited(r[t := Get(r, t) + Gain(held[t], capacity, elapsed)], measured, held, capacity, elapsed,
                     todo - {t})
  {
    hide Gain;
    var r' := r[t := Get(r, t) + Gain(held[t], capacity, elapsed)];
    forall u
      ensures Get(r', u)
              == Get(measured, u) + if u in todo - {t} then 0.0 else Gain(GetHeld(held, u), capacity, elapsed)
    {
      assert Get(r, u) == Get(measured, u) + if u in todo then 0.0 else Gain(GetHeld(held, u), capacity, elapsed);
    }
  }

  lemma CreditStart(measured: map<TenantId, real>, held: map<TenantId, ResourceVector>, capacity: ResourceVector,
                    elapsed: int)
    ensures Credited(measured, measured, held, capacity, elapsed, held.Keys)
  {
    hide Gain;
    ZeroGain(capacity, elapsed);
  }

  /** Add one interval's dominant shares to the running totals. */
  method AddInterval(measured: map<TenantId, real>, held: map<TenantId, ResourceVector>, capacity: ResourceVector,
                     elapsed: int)
    returns (r: map<TenantId, real>)
    ensures Credited(r, measured, held, capacity, elapsed, {})
  {
    hide Credited;
    r := measured;
    var todo := held.Keys;
    CreditStart(measured, held, capacity, elapsed);
    while todo != {}
      invariant todo <= held.Keys && Credited(r, measured, held, capacity, elapsed, todo)
      decreases |todo|
    {
      HasElement(todo);
      var t :| t in todo;
      CreditStep(r, measured, held, capacity, elapsed, todo, t);
      r := r[t := Get(r, t) + Gain(held[t], capacity, elapsed)];
      todo := todo - {t};
    }
  }

  /** dominant_resource_time: an error on an empty window; otherwise every tenant that holds
      something in the window, with the exact integral of its dominant share. */
  method DominantResourceTime(allocations: seq<Allocation>, capacity: ResourceVector, begin: int, end: int)
    returns (r: Result<map<TenantId, real>, MetricsError>)
    ensures r.Err? <==> end <= begin
    ensures r.Ok? ==> r.value.Keys == TenantsOf(Clip(allocations, begin, end))
    ensures r.Ok? ==> forall t :: Get(r.value, t) == Integral(allocations, capacity, t, begin, end)
  {
    hide Use;
    hide TenantsOf;
    hide Covering;
    hide Gain;
    hide Integral;
    if end <= begin {
      return Err(EmptyWindow);
    }
    var clipped := Clip(allocations, begin, end);
    var bounds := Sorted(Points(clipped));
    var measured := map[];
    var i := 0;
    while i + 1 < |bounds|
      invariant 0 <= i && (i < |bounds| || (bounds == [] && i == 0))
      invariant measured.Keys == SweptTenants(clipped, bounds, i)
      invariant forall t :: Get(measured, t) == Swept(clipped, capacity, t, bounds, i)
    {
      var held := HeldByTenant(clipped, bounds[i], bounds[i + 1]);
      measured := AddInterval(measured, held, capacity, bounds[i + 1] - bounds[i]);
      i := i + 1;
    }
    forall t ensures Get(measured, t) == Integral(allocations, capacity, t, begin, end) {
      SweepIsIntegral(allocations, capacity, t, begin, end, bounds);
    }
    SweepIsIntegral(allocations, capacity, 0, begin, end, bounds);
    ClipInside(allocations, begin, end);
    AllTenantsSwept(clipped, bounds);
    r := Ok(measured);
  }
}
