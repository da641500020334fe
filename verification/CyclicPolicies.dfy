/** FIFO, round robin and weighted round robin (benchmarks/simulator/baselines.py). */
module CyclicPolicies {
  import opened Wrappers
  import opened Workload

  // ---- candidates by tenant ------------------------------------------------------------

  /** The candidate with the least (ready sequence, identifier). */
  function Earliest(candidates: seq<JobSpec>): JobSpec
    requires candidates != []
  {
    var last := candidates[|candidates| - 1];
    if |candidates| == 1 then last
    else
      var best := Earliest(candidates[..|candidates| - 1]);
      if ReadyBefore(best, last) then best else last
  }

  lemma {:induction false} EarliestIsLeast(candidates: seq<JobSpec>)
    requires candidates != []
    ensures Earliest(candidates) in candidates
    ensures forall i :: 0 <= i < |candidates| ==> ReadyBefore(Earliest(candidates), candidates[i])
  {
    if |candidates| > 1 {
      var n := |candidates| - 1;
      EarliestIsLeast(candidates[..n]);
      assert candidates == candidates[..n] + [candidates[n]];
    }
  }

  /** The source's `grouped.get(tenant)`: the tenant's candidates. */
  function OfTenant(candidates: seq<JobSpec>, tenant: TenantId): seq<JobSpec> {
    if candidates == [] then []
    else
      var rest := OfTenant(candidates[..|candidates| - 1], tenant);
      if candidates[|candidates| - 1].tenant == tenant then rest + [candidates[|candidates| - 1]] else rest
  }

  predicate Demands(candidates: seq<JobSpec>, tenant: TenantId) {
    exists i :: 0 <= i < |candidates| && candidates[i].tenant == tenant
  }

  lemma {:induction false} OfTenantMember(candidates: seq<JobSpec>, tenant: TenantId, c: JobSpec)
    ensures c in OfTenant(candidates, tenant) <==> c in candidates && c.tenant == tenant
  {
    if candidates != [] {
      var n := |candidates| - 1;
      OfTenantMember(candidates[..n], tenant, c);
      assert candidates == candidates[..n] + [candidates[n]];
    }
  }

  /** `grouped[tenant][0]`. */
  function First(candidates: seq<JobSpec>, tenant: TenantId): JobSpec
    requires Demands(candidates, tenant)
  {
    var mine := OfTenant(candidates, tenant);
    assert mine != [] by {
      var i :| 0 <= i < |candidates| && candidates[i].tenant == tenant;
      OfTenantMember(candidates, tenant, candidates[i]);
    }
    Earliest(mine)
  }

  /** A tenant's first job is one of its candidates and the earliest of them. */
  lemma FirstIsLeast(candidates: seq<JobSpec>, tenant: TenantId)
    requires Demands(candidates, tenant)
    ensures First(candidates, tenant) in candidates && First(candidates, tenant).tenant == tenant
    ensures forall c :: c in candidates && c.tenant == tenant ==> ReadyBefore(First(candidates, tenant), c)
  {
    var mine := OfTenant(candidates, tenant);
    var i :| 0 <= i < |candidates| && candidates[i].tenant == tenant;
    OfTenantMember(candidates, tenant, candidates[i]);
    EarliestIsLeast(mine);
    OfTenantMember(candidates, tenant, Earliest(mine));
    forall c | c in candidates && c.tenant == tenant ensures ReadyBefore(Earliest(mine), c) {
      OfTenantMember(candidates, tenant, c);
    }
  }

  /** A policy that, whenever somebody can run, picks somebody who can run. */
  ghost predicate Picks(s: Snapshot, choice: Option<JobId>) {
    s.candidates != [] ==> choice.Some? && IsCandidate(s, choice.value)
  }

  // ---- FIFO ----------------------------------------------------------------------------

  function Fifo(s: Snapshot): Option<JobId> {
    if s.candidates == [] then None else Some(Earliest(s.candidates).id)
  }

  lemma FifoPicksEarliest(s: Snapshot)
    ensures Fifo(s).None? <==> s.candidates == []
    ensures Picks(s, Fifo(s))
    ensures s.candidates != [] ==> exists c :: c in s.candidates && Fifo(s) == Some(c.id)
                                               && forall d :: d in s.candidates ==> ReadyBefore(c, d)
  {
    if s.candidates != [] {
      EarliestIsLeast(s.candidates);
    }
  }

  // ---- one turn of a cycle -------------------------------------------------------------

  /** Slots visited in cyclic order from the cursor. */
  datatype Cycle = Cycle(slots: seq<TenantId>, cursor: nat)

  function Slot(c: Cycle, offset: nat): nat
    requires c.slots != []
  {
    (c.cursor + offset) % |c.slots|
  }

  /** The first slot from the cursor whose tenant demands, scanning from `offset` on. */
  function Scan(c: Cycle, candidates: seq<JobSpec>, offset: nat): Option<nat>
    decreases |c.slots| - offset
  {
    if offset >= |c.slots| then None
    else if Demands(candidates, c.slots[Slot(c, offset)]) then Some(offset)
    else Scan(c, candidates, offset + 1)
  }

  lemma ScanFinds(c: Cycle, candidates: seq<JobSpec>, offset: nat)
    ensures match Scan(c, candidates, offset)
            case None => forall k :: offset <= k < |c.slots| ==> !Demands(candidates, c.slots[Slot(c, k)])
            case Some(k) =>
              && offset <= k < |c.slots| && Demands(candidates, c.slots[Slot(c, k)])
              && forall j :: offset <= j < k ==> !Demands(candidates, c.slots[Slot(c, j)])
    decreases |c.slots| - offset
  {
  }

  /** Serve the found slot and move the cursor past it. */
  function Turn(c: Cycle, candidates: seq<JobSpec>): (Cycle, Option<TenantId>) {
    match Scan(c, candidates, 0)
    case None => (c, None)
    case Some(k) =>
      ScanFinds(c, candidates, 0);
      (c.(cursor := (Slot(c, k) + 1) % |c.slots|), Some(c.slots[Slot(c, k)]))
  }

  /** How many slots the cursor must pass before it reaches slot `i`. */
  function Distance(c: Cycle, i: nat): nat
    requires i < |c.slots|
  {
    (i + |c.slots| - c.cursor % |c.slots|) % |c.slots|
  }

  lemma Wrap(x: nat, n: nat)
    requires n > 0 && x < 2 * n
    ensures x % n == if x < n then x else x - n
  {
    if x >= n {
      assert x % n == (x - n) % n;
    }
  }

  lemma MulAtLeast(d: int, n: int)
    requires d >= 1 && n > 0
    ensures d * n >= n
  {
    assert (d - 1) * n >= 0;
  }

  lemma ModUnique(y: int, n: int, q: int, r: int)
    requires n > 0 && 0 <= r < n && y == q * n + r
    ensures y % n == r
  {
    var p, m := y / n, y % n;
    assert y == p * n + m && 0 <= m < n;
    if p > q {
      assert (p - q) * n == p * n - q * n;
      MulAtLeast(p - q, n);
    } else if p < q {
      assert (q - p) * n == q * n - p * n;
      MulAtLeast(q - p, n);
    }
  }

  lemma AddMod(a: nat, b: nat, n: nat)
    requires n > 0
    ensures (a + b) % n == (a % n + b) % n
  {
    var x := a % n + b;
    assert a + b == a / n * n + x && x == x / n * n + x % n;
    assert a / n * n + x / n * n == (a / n + x / n) * n;
    ModUnique(a + b, n, a / n + x / n, x % n);
  }

  /** The slot at the distance of `i` is `i`; slots before it are others. */
  lemma DistanceReaches(c: Cycle, i: nat)
    requires i < |c.slots|
    ensures Distance(c, i) < |c.slots| && Slot(c, Distance(c, i)) == i
  {
    var n := |c.slots|;
    var from := c.cursor % n;
    Wrap(i + n - from, n);
    AddMod(c.cursor, Distance(c, i), n);
    Wrap(from + Distance(c, i), n);
  }

  /** A turn that passes over a demanding slot strictly shortens the distance to it. */
  lemma TurnApproaches(c: Cycle, candidates: seq<JobSpec>, i: nat)
    requires i < |c.slots| && Demands(candidates, c.slots[i])
    ensures Turn(c, candidates).1.Some? && Turn(c, candidates).0.slots == c.slots
    ensures Turn(c, candidates).1 == Some(c.slots[i]) || Distance(Turn(c, candidates).0, i) < Distance(c, i)
  {
    var n := |c.slots|;
    var from := c.cursor % n;
    DistanceReaches(c, i);
    ScanFinds(c, candidates, 0);
    var k := Scan(c, candidates, 0).value;
    var next := Turn(c, candidates).0;
    if Distance(c, i) != k {
      AddMod(c.cursor, k, n);
      Wrap(from + k, n);
      Wrap(Slot(c, k) + 1, n);
      Wrap(i + n - from, n);
      Wrap(next.cursor, n);
      Wrap(i + n - next.cursor, n);
    }
  }

  /** The tenants served over a run of decisions. */
  function Served(c: Cycle, run: seq<seq<JobSpec>>): seq<Option<TenantId>>
    decreases |run|
  {
    if run == [] then []
    else [Turn(c, run[0]).1] + Served(Turn(c, run[0]).0, run[1..])
  }

  /** No starvation: a tenant that keeps demanding is served before the cursor comes round. */
  lemma {:induction false} ServedInTime(c: Cycle, run: seq<seq<JobSpec>>, i: nat)
    requires i < |c.slots| && Distance(c, i) < |run|
    requires forall k :: 0 <= k < |run| ==> Demands(run[k], c.slots[i])
    ensures exists k :: 0 <= k <= Distance(c, i) && k < |Served(c, run)| && Served(c, run)[k] == Some(c.slots[i])
    decreases |run|
  {
    var next := Turn(c, run[0]).0;
    TurnApproaches(c, run[0], i);
    if Turn(c, run[0]).1 == Some(c.slots[i]) {
      assert Served(c, run)[0] == Some(c.slots[i]);
    } else {
      ServedInTime(next, run[1..], i);
      var k :| 0 <= k <= Distance(next, i) && k < |Served(next, run[1..])|
               && Served(next, run[1..])[k] == Some(c.slots[i]);
      assert Served(c, run)[k + 1] == Some(c.slots[i]);
    }
  }

  // ---- round robin ---------------------------------------------------------------------

  function TenantIds(tenants: seq<TenantSpec>): seq<TenantId> {
    seq(|tenants|, i requires 0 <= i < |tenants| => tenants[i].id)
  }

  /** A changed tenant list restarts the cycle. */
  function RoundRobinCycle(p: Cycle, s: Snapshot): Cycle {
    if TenantIds(s.tenants) != p.slots then Cycle(TenantIds(s.tenants), 0) else p
  }

  function RoundRobin(p: Cycle, s: Snapshot): (Cycle, Option<JobId>) {
    var (next, tenant) := Turn(RoundRobinCycle(p, s), s.candidates);
    (next, JobFor(s.candidates, tenant))
  }

  function JobFor(candidates: seq<JobSpec>, tenant: Option<TenantId>): Option<JobId> {
    if tenant.Some? && Demands(candidates, tenant.value) then Some(First(candidates, tenant.value).id) else None
  }

  lemma TurnPicks(c: Cycle, s: Snapshot)
    requires forall x :: x in s.candidates ==> x.tenant in c.slots
    ensures Picks(s, JobFor(s.candidates, Turn(c, s.candidates).1))
  {
    if s.candidates != [] {
      var x := s.candidates[0];
      assert x in s.candidates;
      var i :| 0 <= i < |c.slots| && c.slots[i] == x.tenant;
      assert Demands(s.candidates, c.slots[i]);
      DistanceReaches(c, i);
      ScanFinds(c, s.candidates, 0);
      var k := Scan(c, s.candidates, 0);
      FirstIsLeast(s.candidates, c.slots[Slot(c, k.value)]);
    }
  }

  lemma RoundRobinPicks(p: Cycle, s: Snapshot)
    requires WellFormed(s)
    ensures Picks(s, RoundRobin(p, s).1)
  {
    var c := RoundRobinCycle(p, s);
    forall x | x in s.candidates ensures x.tenant in c.slots {
      var i :| 0 <= i < |s.tenants| && s.tenants[i].id == x.tenant;
      assert TenantIds(s.tenants)[i] == x.tenant;
    }
    TurnPicks(c, s);
  }

  // ---- weighted round robin ------------------------------------------------------------

  predicate DividesAll(tenants: seq<TenantSpec>, d: int)
    requires d > 0
  {
    forall i :: 0 <= i < |tenants| ==> tenants[i].weight % d == 0
  }

  /** The greatest common divisor, by descending search. */
  function CommonDivisor(tenants: seq<TenantSpec>, d: int): (g: int)
    requires d > 0
    ensures 0 < g <= d && DividesAll(tenants, g)
    ensures forall x :: g < x <= d ==> !DividesAll(tenants, x)
    decreases d
  {
    if DividesAll(tenants, d) then d
    else
      assert d > 1;
      CommonDivisor(tenants, d - 1)
  }

  function Gcd(tenants: seq<TenantSpec>): int
    requires tenants != [] && tenants[0].weight > 0
  {
    CommonDivisor(tenants, tenants[0].weight)
  }

  function Repeat(id: TenantId, n: nat): seq<TenantId> {
    seq(n, _ => id)
  }

  /** Each tenant takes `weight / g` consecutive slots. */
  function Expand(tenants: seq<TenantSpec>, g: int): seq<TenantId>
    requires g > 0
  {
    if tenants == [] then []
    else
      var last := tenants[|tenants| - 1];
      Expand(tenants[..|tenants| - 1], g) + if last.weight >= 0 then Repeat(last.id, last.weight / g) else []
  }

  datatype Weighted = Weighted(signature: seq<(TenantId, int)>, cycle: Cycle)

  function Signature(tenants: seq<TenantSpec>): seq<(TenantId, int)> {
    seq(|tenants|, i requires 0 <= i < |tenants| => (tenants[i].id, tenants[i].weight))
  }

  function WeightedSlots(tenants: seq<TenantSpec>): seq<TenantId>
    requires forall t :: t in tenants ==> t.weight > 0
  {
    if tenants == [] then [] else Expand(tenants, Gcd(tenants))
  }

  function WeightedCycle(p: Weighted, s: Snapshot): Cycle
    requires forall t :: t in s.tenants ==> t.weight > 0
  {
    if Signature(s.tenants) != p.signature then Cycle(WeightedSlots(s.tenants), 0) else p.cycle
  }

  function WeightedRoundRobin(p: Weighted, s: Snapshot): (Weighted, Option<JobId>)
    requires forall t :: t in s.tenants ==> t.weight > 0
  {
    var (next, tenant) := Turn(WeightedCycle(p, s), s.candidates);
    (Weighted(Signature(s.tenants), next), JobFor(s.candidates, tenant))
  }

  /** The stored cycle is the one its signature stands for. */
  ghost predicate Consistent(p: Weighted, tenants: seq<TenantSpec>)
    requires forall t :: t in tenants ==> t.weight > 0
  {
    p.signature == Signature(tenants) ==> p.cycle.slots == WeightedSlots(tenants)
  }

  function CountOf<T(==)>(s: seq<T>, x: T): nat {
    if s == [] then 0 else CountOf(s[..|s| - 1], x) + if s[|s| - 1] == x then 1 else 0
  }

  lemma {:induction false} CountAppend<T>(a: seq<T>, b: seq<T>, x: T)
    ensures CountOf(a + b, x) == CountOf(a, x) + CountOf(b, x)
  {
    if b == [] {
      assert a + b == a;
    } else {
      CountAppend(a, b[..|b| - 1], x);
      assert (a + b)[..|a + b| - 1] == a + b[..|b| - 1];
    }
  }

  lemma {:induction false} CountRepeat(id: TenantId, n: nat, x: TenantId)
    ensures CountOf(Repeat(id, n), x) == if x == id then n else 0
  {
    if n > 0 {
      assert Repeat(id, n)[..n - 1] == Repeat(id, n - 1);
      CountRepeat(id, n - 1, x);
    }
  }

  /** A tenant's share of the cycle is exactly its weight over the common divisor. */
  lemma {:induction false} SlotsPerTenant(tenants: seq<TenantSpec>, g: int, k: nat)
    requires g > 0 && DistinctTenants(tenants) && k < |tenants| && tenants[k].weight > 0
    ensures CountOf(Expand(tenants, g), tenants[k].id) == tenants[k].weight / g
  {
    var n := |tenants| - 1;
    var last := tenants[n];
    var own := if last.weight >= 0 then Repeat(last.id, last.weight / g) else [];
    CountAppend(Expand(tenants[..n], g), own, tenants[k].id);
    if last.weight >= 0 {
      CountRepeat(last.id, last.weight / g, tenants[k].id);
    }
    if k == n {
      NoSlots(tenants[..n], g, last.id);
    } else {
      SlotsPerTenant(tenants[..n], g, k);
    }
  }

  lemma {:induction false} NoSlots(tenants: seq<TenantSpec>, g: int, id: TenantId)
    requires g > 0 && forall i :: 0 <= i < |tenants| ==> tenants[i].id != id
    ensures CountOf(Expand(tenants, g), id) == 0
  {
    if tenants != [] {
      var n := |tenants| - 1;
      var last := tenants[n];
      var own := if last.weight >= 0 then Repeat(last.id, last.weight / g) else [];
      NoSlots(tenants[..n], g, id);
      CountAppend(Expand(tenants[..n], g), own, id);
      if last.weight >= 0 {
        CountRepeat(last.id, last.weight / g, id);
      }
    }
  }

  lemma {:induction false} CountPositive<T>(s: seq<T>, x: T)
    requires CountOf(s, x) > 0
    ensures x in s
  {
    if s[|s| - 1] != x {
      CountPositive(s[..|s| - 1], x);
    }
  }

  lemma DivExact(w: int, g: int)
    requires w > 0 && g > 0 && w % g == 0
    ensures w / g * g == w && w / g > 0
  {
  }

  /** Every listed tenant owns a slot. */
  lemma SlotForEach(tenants: seq<TenantSpec>, k: nat)
    requires ValidTenants(tenants) && k < |tenants|
    ensures tenants[k].id in WeightedSlots(tenants)
    ensures CountOf(WeightedSlots(tenants), tenants[k].id) * Gcd(tenants) == tenants[k].weight
  {
    var g := Gcd(tenants);
    assert tenants[k] in tenants && tenants[k].weight % g == 0;
    SlotsPerTenant(tenants, g, k);
    DivExact(tenants[k].weight, g);
    CountPositive(WeightedSlots(tenants), tenants[k].id);
  }

  lemma WeightedPicks(p: Weighted, s: Snapshot)
    requires WellFormed(s) && Consistent(p, s.tenants)
    ensures Picks(s, WeightedRoundRobin(p, s).1)
    ensures Consistent(WeightedRoundRobin(p, s).0, s.tenants)
  {
    var c := WeightedCycle(p, s);
    forall x | x in s.candidates ensures x.tenant in c.slots {
      var i :| 0 <= i < |s.tenants| && s.tenants[i].id == x.tenant;
      SlotForEach(s.tenants, i);
    }
    TurnPicks(c, s);
  }

  // ---- runs of decisions ---------------------------------------------------------------

  function Queues(run: seq<Snapshot>): seq<seq<JobSpec>> {
    seq(|run|, i requires 0 <= i < |run| => run[i].candidates)
  }

  function RoundRobinRun(p: Cycle, run: seq<Snapshot>): seq<Option<JobId>>
    decreases |run|
  {
    if run == [] then [] else [RoundRobin(p, run[0]).1] + RoundRobinRun(RoundRobin(p, run[0]).0, run[1..])
  }

  function WeightedRun(p: Weighted, run: seq<Snapshot>): seq<Option<JobId>>
    requires forall i :: 0 <= i < |run| ==> ValidTenants(run[i].tenants)
    decreases |run|
  {
    if run == [] then []
    else
      assert ValidTenants(run[0].tenants);
      [WeightedRoundRobin(p, run[0]).1] + WeightedRun(WeightedRoundRobin(p, run[0]).0, run[1..])
  }

  ghost predicate SameTenants(run: seq<Snapshot>, tenants: seq<TenantSpec>) {
    forall i :: 0 <= i < |run| ==> run[i].tenants == tenants
  }

  /** Over a fixed tenant list a run of decisions is a run of turns of one cycle. */
  lemma {:induction false} RoundRobinTurns(p: Cycle, run: seq<Snapshot>, tenants: seq<TenantSpec>)
    requires run != [] && SameTenants(run, tenants)
    ensures var c := RoundRobinCycle(p, run[0]);
            var served := Served(c, Queues(run));
            && |served| == |run| == |RoundRobinRun(p, run)|
            && forall k :: 0 <= k < |run| ==> RoundRobinRun(p, run)[k] == JobFor(run[k].candidates, served[k])
    decreases |run|
  {
    var c := RoundRobinCycle(p, run[0]);
    assert Queues(run)[1..] == Queues(run[1..]);
    if |run| > 1 {
      RoundRobinTurns(RoundRobin(p, run[0]).0, run[1..], tenants);
    }
  }

  lemma {:induction false} WeightedTurns(p: Weighted, run: seq<Snapshot>, tenants: seq<TenantSpec>)
    requires run != [] && SameTenants(run, tenants) && ValidTenants(tenants)
    ensures var c := WeightedCycle(p, run[0]);
            var served := Served(c, Queues(run));
            && |served| == |run| == |WeightedRun(p, run)|
            && forall k :: 0 <= k < |run| ==> WeightedRun(p, run)[k] == JobFor(run[k].candidates, served[k])
    decreases |run|
  {
    var c := WeightedCycle(p, run[0]);
    assert Queues(run)[1..] == Queues(run[1..]);
    if |run| > 1 {
      WeightedTurns(WeightedRoundRobin(p, run[0]).0, run[1..], tenants);
    }
  }

  /** Round robin starves nobody: from any state, a tenant that has a candidate in as many
      consecutive decisions as there are tenants has its first job chosen in one of them. */
  lemma RoundRobinNoStarvation(p: Cycle, run: seq<Snapshot>, tenants: seq<TenantSpec>, i: nat)
    requires SameTenants(run, tenants) && i < |tenants| == |run|
    requires forall k :: 0 <= k < |run| ==> Demands(run[k].candidates, tenants[i].id)
    ensures exists k :: 0 <= k < |run| && k < |RoundRobinRun(p, run)|
                        && RoundRobinRun(p, run)[k] == Some(First(run[k].candidates, tenants[i].id).id)
  {
    var c := RoundRobinCycle(p, run[0]);
    RoundRobinTurns(p, run, tenants);
    DistanceReaches(c, i);
    ServedInTime(c, Queues(run), i);
  }

  /** The same for weighted round robin, within one weighted cycle. */
  lemma WeightedNoStarvation(p: Weighted, run: seq<Snapshot>, tenants: seq<TenantSpec>, i: nat)
    requires SameTenants(run, tenants) && ValidTenants(tenants) && Consistent(p, tenants)
    requires i < |tenants| && |run| == |WeightedSlots(tenants)|
    requires forall k :: 0 <= k < |run| ==> Demands(run[k].candidates, tenants[i].id)
    ensures exists k :: 0 <= k < |run| && k < |WeightedRun(p, run)|
                        && WeightedRun(p, run)[k] == Some(First(run[k].candidates, tenants[i].id).id)
  {
    SlotForEach(tenants, i);
    var j :| 0 <= j < |WeightedSlots(tenants)| && WeightedSlots(tenants)[j] == tenants[i].id;
    var c := WeightedCycle(p, run[0]);
    WeightedTurns(p, run, tenants);
    DistanceReaches(c, j);
    ServedInTime(c, Queues(run), j);
  }

  lemma SlotNext(c: Cycle, next: Cycle, k: nat)
    requires c.slots == next.slots != [] && next.cursor == (Slot(c, 0) + 1) % |c.slots|
    ensures Slot(next, k) == Slot(c, k + 1)
  {
    var n, after := |c.slots|, c.cursor + 1;
    assert next.cursor == after % n by {
      AddMod(c.cursor, 1, n);
    }
    AddMod(after, k, n);
    assert after + k == c.cursor + (k + 1);
  }

  /** When everybody demands, turns visit the slots one after the other. */
  lemma {:induction false} EverySlotInTurn(c: Cycle, run: seq<seq<JobSpec>>)
    requires c.slots != []
    requires forall k, t :: 0 <= k < |run| && t in c.slots ==> Demands(run[k], t)
    ensures |Served(c, run)| == |run|
    ensures forall k :: 0 <= k < |run| ==> Served(c, run)[k] == Some(c.slots[Slot(c, k)])
    decreases |run|
  {
    if run != [] {
      var next := c.(cursor := (Slot(c, 0) + 1) % |c.slots|);
      var slot := c.slots[Slot(c, 0)];
      assert slot in c.slots && Demands(run[0], slot);
      assert Scan(c, run[0], 0) == Some(0);
      EverySlotInTurn(next, run[1..]);
      forall k | 0 < k < |run| ensures Served(c, run)[k] == Some(c.slots[Slot(c, k)]) {
        SlotNext(c, next, k - 1);
      }
    }
  }

  lemma {:induction false} CountSome(s: seq<TenantId>, r: seq<Option<TenantId>>, x: TenantId)
    requires |r| == |s| && forall k :: 0 <= k < |s| ==> r[k] == Some(s[k])
    ensures CountOf(r, Some(x)) == CountOf(s, x)
  {
    if s != [] {
      CountSome(s[..|s| - 1], r[..|s| - 1], x);
    }
  }

  lemma SlotRotates(c: Cycle, k: nat)
    requires k < |c.slots|
    ensures var n, from := |c.slots|, c.cursor % |c.slots|;
            Slot(c, k) == if from + k < n then from + k else from + k - n
  {
    AddMod(c.cursor, k, |c.slots|);
    Wrap(c.cursor % |c.slots| + k, |c.slots|);
  }

  /** A full turn of the cycle serves each tenant once per slot it owns. */
  lemma FullTurn(c: Cycle, run: seq<seq<JobSpec>>, x: TenantId)
    requires |run| == |c.slots| > 0
    requires forall k, t :: 0 <= k < |run| && t in c.slots ==> Demands(run[k], t)
    ensures CountOf(Served(c, run), Some(x)) == CountOf(c.slots, x)
  {
    var from := c.cursor % |c.slots|;
    EverySlotInTurn(c, run);
    forall k | 0 <= k < |run| ensures Served(c, run)[k] == Some((c.slots[from..] + c.slots[..from])[k]) {
      SlotRotates(c, k);
    }
    RotationCount(c.slots, from, Served(c, run), x);
  }

  lemma RotationCount(slots: seq<TenantId>, from: nat, r: seq<Option<TenantId>>, x: TenantId)
    requires from <= |slots| == |r|
    requires forall k :: 0 <= k < |r| ==> r[k] == Some((slots[from..] + slots[..from])[k])
    ensures CountOf(r, Some(x)) == CountOf(slots, x)
  {
    CountSome(slots[from..] + slots[..from], r, x);
    CountAppend(slots[from..], slots[..from], x);
    CountAppend(slots[..from], slots[from..], x);
    assert slots[..from] + slots[from..] == slots;
  }

  /** Weighted round robin is exactly proportional: while everybody demands, every window of
      one cycle of decisions serves a tenant weight / gcd times. */
  lemma WeightedProportional(p: Weighted, run: seq<Snapshot>, tenants: seq<TenantSpec>, i: nat)
    requires SameTenants(run, tenants) && ValidTenants(tenants) && Consistent(p, tenants)
    requires i < |tenants| && |run| == |WeightedSlots(tenants)|
    requires forall k, j :: 0 <= k < |run| && 0 <= j < |tenants| ==> Demands(run[k].candidates, tenants[j].id)
    ensures run != []
    ensures CountOf(Served(WeightedCycle(p, run[0]), Queues(run)), Some(tenants[i].id)) * Gcd(tenants)
            == tenants[i].weight
    ensures |WeightedRun(p, run)| == |run| == |Served(WeightedCycle(p, run[0]), Queues(run))|
    ensures forall k :: 0 <= k < |run| ==>
              WeightedRun(p, run)[k] == JobFor(run[k].candidates, Served(WeightedCycle(p, run[0]), Queues(run))[k])
  {
    SlotForEach(tenants, i);
    var c := WeightedCycle(p, run[0]);
    WeightedTurns(p, run, tenants);
    forall k, t | 0 <= k < |run| && t in c.slots ensures Demands(Queues(run)[k], t) {
      SlotOwner(tenants, Gcd(tenants), t);
    }
    FullTurn(c, Queues(run), tenants[i].id);
  }

  lemma {:induction false} SlotOwner(tenants: seq<TenantSpec>, g: int, t: TenantId)
    requires g > 0 && t in Expand(tenants, g)
    ensures exists i :: 0 <= i < |tenants| && tenants[i].id == t
  {
    var n := |tenants| - 1;
    if t in Expand(tenants[..n], g) {
      SlotOwner(tenants[..n], g, t);
      var i :| 0 <= i < n && tenants[..n][i].id == t;
      assert tenants[i].id == t;
    }
  }

  // ---- the policy objects --------------------------------------------------------------

  class RoundRobinPolicy {
    var cursor: nat
    var tenantOrder: seq<TenantId>

    ghost function State(): Cycle
      reads this
    {
      Cycle(tenantOrder, cursor)
    }

    constructor ()
      ensures State() == Cycle([], 0)
    {
      cursor, tenantOrder := 0, [];
    }

    method Choose(s: Snapshot) returns (r: Option<JobId>)
      modifies this
      ensures (State(), r) == RoundRobin(old(State()), s)
    {
      var order := TenantIds(s.tenants);
      if order != tenantOrder {
        tenantOrder := order;
        cursor := 0;
      }
      ghost var c := State();
      var offset := 0;
      while offset < |order|
        invariant 0 <= offset <= |order|
        invariant State() == c == RoundRobinCycle(old(State()), s)
        invariant Scan(c, s.candidates, 0) == Scan(c, s.candidates, offset)
      {
        var index := (cursor + offset) % |order|;
        if Demands(s.candidates, order[index]) {
          cursor := (index + 1) % |order|;
          return Some(First(s.candidates, order[index]).id);
        }
        offset := offset + 1;
      }
      r := None;
    }
  }

  class WeightedRoundRobinPolicy {
    var cursor: nat
    var signature: seq<(TenantId, int)>
    var cycle: seq<TenantId>

    ghost function State(): Weighted
      reads this
    {
      Weighted(signature, Cycle(cycle, cursor))
    }

    constructor ()
      ensures State() == Weighted([], Cycle([], 0))
    {
      cursor, signature, cycle := 0, [], [];
    }

    method Choose(s: Snapshot) returns (r: Option<JobId>)
      requires ValidTenants(s.tenants)
      modifies this
      ensures (State(), r) == WeightedRoundRobin(old(State()), s)
    {
      if Signature(s.tenants) != signature {
        signature := Signature(s.tenants);
        cycle := WeightedSlots(s.tenants);
        cursor := 0;
      }
      ghost var c := Cycle(cycle, cursor);
      var offset := 0;
      while offset < |cycle|
        invariant 0 <= offset <= |cycle|
        invariant Cycle(cycle, cursor) == c == WeightedCycle(old(State()), s)
        invariant signature == Signature(s.tenants)
        invariant Scan(c, s.candidates, 0) == Scan(c, s.candidates, offset)
      {
        var index := (cursor + offset) % |cycle|;
        if Demands(s.candidates, cycle[index]) {
          cursor := (index + 1) % |cycle|;
          return Some(First(s.candidates, cycle[index]).id);
        }
        offset := offset + 1;
      }
      r := None;
    }
  }
}
