/** The accounting core of deficit round robin (benchmarks/simulator/baselines.py), over the
    cost of each tenant's next job: its scan loop, how long the loop can run, and the exact
    balance of credits, service and deficits over any run. */
module DeficitKernel {
  import opened Basics
  import opened Wrappers

  type TenantId = int

  /** The cost of the first job of every tenant that has one. */
  type Bids = map<TenantId, real>

  datatype Drr = Drr(cursor: nat, order: seq<TenantId>, deficits: map<TenantId, real>, active: Option<TenantId>)

  ghost predicate Distinct(order: seq<TenantId>) {
    forall i, j :: 0 <= i < j < |order| ==> order[i] != order[j]
  }

  /** The state a policy object can be in, with the quantum of every listed tenant. */
  ghost predicate Usable(p: Drr, quanta: seq<real>) {
    && Distinct(p.order)
    && |quanta| == |p.order|
    && (forall i :: 0 <= i < |quanta| ==> quanta[i] > 0.0)
    && (forall i :: 0 <= i < |p.order| ==> p.order[i] in p.deficits)
    && (p.order != [] ==> p.cursor < |p.order|)
    && (p.active.Some? ==> p.active.value in p.order)
  }

  predicate AnyBid(order: seq<TenantId>, bids: Bids) {
    exists i :: 0 <= i < |order| && order[i] in bids
  }

  // ---- rounds --------------------------------------------------------------------------

  function Ceil(x: real): int {
    -((-x).Floor)
  }

  /** Visits needed to close a gap with a quantum. */
  function Rounds(gap: real, q: real): nat
    requires q > 0.0
  {
    if gap <= 0.0 then 0 else
      assert gap / q > 0.0;
      Ceil(gap / q)
  }

  lemma QuotientUnique(a: real, q: real, x: real)
    requires q > 0.0 && x * q == a
    ensures a / q == x
  {
  }

  lemma QuotientMono(a: real, b: real, q: real)
    requires q > 0.0 && a <= b
    ensures a / q <= b / q
  {
    var x, y := a / q, b / q;
    assert x * q == a && y * q == b;
    Cancel(x, y, q);
  }

  lemma RoundsStep(gap: real, q: real)
    requires q > 0.0 && gap > 0.0
    ensures Rounds(gap, q) == Rounds(gap - q, q) + 1
  {
    var x := gap / q;
    assert x * q == gap;
    assert (x - 1.0) * q == gap - q;
    QuotientUnique(gap - q, q, x - 1.0);
    if x > 1.0 {
      assert (x - 1.0) * q > 0.0;
    } else {
      assert (1.0 - x) * q >= 0.0;
    }
  }

  lemma RoundsMono(gap: real, bound: real, q: real)
    requires q > 0.0 && gap <= bound
    ensures Rounds(gap, q) <= Rounds(bound, q)
  {
    QuotientMono(gap, bound, q);
  }

  // ---- the scan ------------------------------------------------------------------------

  function Next(cursor: nat, n: nat): (r: nat)
    requires cursor < n
    ensures r == (cursor + 1) % n && r < n
  {
    if cursor + 1 == n then 0 else cursor + 1
  }

  function Hops(cursor: nat, i: nat, n: nat): nat
    requires cursor < n && i < n
  {
    if cursor <= i then i - cursor else i + n - cursor
  }

  /** One visit of the `while True` loop: the tenant it serves, if any, and the new state. */
  function Visit(p: Drr, quanta: seq<real>, bids: Bids): (Drr, Option<TenantId>)
    requires Usable(p, quanta) && p.order != []
  {
    var t := p.order[p.cursor];
    var moved := p.(cursor := Next(p.cursor, |p.order|));
    if t !in bids then (moved, None)
    else
      var d := p.deficits[t] + quanta[p.cursor];
      if bids[t] <= d then (moved.(deficits := p.deficits[t := d - bids[t]], active := Some(t)), Some(t))
      else (moved.(deficits := p.deficits[t := d]), None)
  }

  /** Further visits after which tenant `i` must be served. */
  function Potential(p: Drr, quanta: seq<real>, bids: Bids, i: nat): nat
    requires Usable(p, quanta) && i < |p.order| && p.order[i] in bids
  {
    Rounds(bids[p.order[i]] - p.deficits[p.order[i]], quanta[i])
  }

  /** A visit that serves nobody brings every bidding tenant closer to being served. */
  lemma VisitProgress(p: Drr, quanta: seq<real>, bids: Bids, i: nat)
    requires Usable(p, quanta) && i < |p.order| && p.order[i] in bids && Visit(p, quanta, bids).1.None?
    ensures var p' := Visit(p, quanta, bids).0;
            && Usable(p', quanta) && p'.order == p.order
            && if p.cursor == i then
                 Potential(p, quanta, bids, i) == Potential(p', quanta, bids, i) + 1
                   && Potential(p', quanta, bids, i) > 0
               else
                 && Potential(p', quanta, bids, i) == Potential(p, quanta, bids, i)
                 && Hops(p'.cursor, i, |p.order|) == Hops(p.cursor, i, |p.order|) - 1
  {
    if p.cursor == i {
      var gap := bids[p.order[i]] - p.deficits[p.order[i]];
      RoundsStep(gap, quanta[i]);
      RoundsStep(gap - quanta[i], quanta[i]);
    }
  }

  ghost function Target(order: seq<TenantId>, bids: Bids): (i: nat)
    requires AnyBid(order, bids)
    ensures i < |order| && order[i] in bids
  {
    var i :| 0 <= i < |order| && order[i] in bids;
    i
  }

  /** The whole loop. It returns because some listed tenant bids. */
  function Scan(p: Drr, quanta: seq<real>, bids: Bids): (Drr, TenantId)
    requires Usable(p, quanta) && AnyBid(p.order, bids)
    decreases Potential(p, quanta, bids, Target(p.order, bids)), Hops(p.cursor, Target(p.order, bids), |p.order|)
  {
    var (p', served) := Visit(p, quanta, bids);
    if served.Some? then (p', served.value)
    else
      VisitProgress(p, quanta, bids, Target(p.order, bids));
      Scan(p', quanta, bids)
  }

  /** How many visits the loop makes. */
  function Visits(p: Drr, quanta: seq<real>, bids: Bids): nat
    requires Usable(p, quanta) && AnyBid(p.order, bids)
    decreases Potential(p, quanta, bids, Target(p.order, bids)), Hops(p.cursor, Target(p.order, bids), |p.order|)
  {
    var (p', served) := Visit(p, quanta, bids);
    if served.Some? then 1
    else
      VisitProgress(p, quanta, bids, Target(p.order, bids));
      1 + Visits(p', quanta, bids)
  }

  function AtLeastOne(k: nat): nat {
    if k == 0 then 1 else k
  }

  /** `hops` to reach a tenant, then a full round for each further visit it needs. */
  function Budget(hops: nat, k: nat, n: nat): int {
    hops + 1 + (AtLeastOne(k) - 1) * n
  }

  lemma BudgetStep(k: nat, n: nat)
    requires k > 0 && n > 0
    ensures Budget(0, k + 1, n) == Budget(n - 1, k, n) + 1
  {
    assert k * n == (k - 1) * n + n;
  }

  lemma BudgetTotal(hops: nat, k: nat, bound: nat, n: nat)
    requires hops < n && AtLeastOne(k) <= bound
    ensures Budget(hops, k, n) <= n * bound
  {
    var a := AtLeastOne(k);
    assert (bound - a) * n >= 0;
    assert n * bound == (bound - a) * n + (a - 1) * n + n;
  }

  lemma BudgetPositive(hops: nat, k: nat, n: nat)
    ensures Budget(hops, k, n) >= 1
  {
  }

  /** The scan is over by the time any one bidding tenant has been visited often enough. */
  lemma {:induction false} VisitsBound(p: Drr, quanta: seq<real>, bids: Bids, i: nat)
    requires Usable(p, quanta) && i < |p.order| && p.order[i] in bids
    ensures Visits(p, quanta, bids) <= Budget(Hops(p.cursor, i, |p.order|), Potential(p, quanta, bids, i), |p.order|)
    decreases Potential(p, quanta, bids, Target(p.order, bids)), Hops(p.cursor, Target(p.order, bids), |p.order|)
  {
    var (p', served) := Visit(p, quanta, bids);
    if served.None? {
      VisitProgress(p, quanta, bids, Target(p.order, bids));
      VisitProgress(p, quanta, bids, i);
      VisitsBound(p', quanta, bids, i);
      if p.cursor == i {
        BudgetStep(Potential(p', quanta, bids, i), |p.order|);
      }
    } else {
      BudgetPositive(Hops(p.cursor, i, |p.order|), Potential(p, quanta, bids, i), |p.order|);
    }
  }

  // ---- one decision --------------------------------------------------------------------

  /** The active tenant keeps its turn while its deficit covers its next job. */
  predicate Continues(p: Drr, bids: Bids)
  {
    p.active.Some? && p.active.value in bids && p.active.value in p.deficits
    && bids[p.active.value] <= p.deficits[p.active.value]
  }

  function Decide(p: Drr, quanta: seq<real>, bids: Bids): (Drr, TenantId)
    requires Usable(p, quanta) && AnyBid(p.order, bids)
  {
    if Continues(p, bids) then
      var t := p.active.value;
      (p.(deficits := p.deficits[t := p.deficits[t] - bids[t]]), t)
    else Scan(p.(active := None), quanta, bids)
  }

  lemma {:induction false} ScanServes(p: Drr, quanta: seq<real>, bids: Bids)
    requires Usable(p, quanta) && AnyBid(p.order, bids)
    ensures var (p', t) := Scan(p, quanta, bids);
            Usable(p', quanta) && p'.order == p.order && p'.active == Some(t) && t in bids && t in p.order
    decreases Potential(p, quanta, bids, Target(p.order, bids)), Hops(p.cursor, Target(p.order, bids), |p.order|)
  {
    if Visit(p, quanta, bids).1.None? {
      VisitProgress(p, quanta, bids, Target(p.order, bids));
      ScanServes(Visit(p, quanta, bids).0, quanta, bids);
    }
  }

  /** A decision serves a listed tenant that bids, which is then the active one. */
  lemma DecideServes(p: Drr, quanta: seq<real>, bids: Bids)
    requires Usable(p, quanta) && AnyBid(p.order, bids)
    ensures var (p', t) := Decide(p, quanta, bids);
            Usable(p', quanta) && p'.order == p.order && p'.active == Some(t) && t in bids && t in p.order
  {
    if !Continues(p, bids) {
      ScanServes(p.(active := None), quanta, bids);
    }
  }

  // ---- the balance of credits, service and deficits --------------------------------------

  /** `n` top-ups of one quantum. */
  function Credit(n: nat, q: real): real {
    if n == 0 then 0.0 else Credit(n - 1, q) + q
  }

  lemma {:induction false} CreditIsProduct(n: nat, q: real)
    ensures Credit(n, q) == n as real * q
  {
    if n > 0 {
      CreditIsProduct(n - 1, q);
    }
  }

  /** Times tenant `i` has been topped up after `r` full rounds. */
  function TopUps(r: nat, cursor: nat, i: nat): nat {
    r + if i < cursor then 1 else 0
  }

  function Rounded(cursor: nat, n: nat, r: nat): nat {
    if cursor + 1 == n then r + 1 else r
  }

  /** Everything credited to tenant `i` was spent or is still its deficit, which stays below
      one unit, or below two while the tenant is active. */
  ghost predicate BalancedAt(p: Drr, quanta: seq<real>, spent: map<TenantId, real>, r: nat, i: nat)
    requires i < |p.order| == |quanta| && p.order[i] in p.deficits && p.order[i] in spent
  {
    && p.deficits[p.order[i]] + spent[p.order[i]] == Credit(TopUps(r, p.cursor, i), quanta[i])
    && 0.0 <= p.deficits[p.order[i]] < (if p.active == Some(p.order[i]) then 2.0 else 1.0)
  }

  /** The tenants in `who` are balanced; nothing is said of the others. */
  ghost predicate Balanced(p: Drr, quanta: seq<real>, spent: map<TenantId, real>, r: nat, who: set<TenantId>) {
    && Usable(p, quanta)
    && (forall i :: 0 <= i < |quanta| ==> quanta[i] <= 1.0)
    && (forall i :: 0 <= i < |p.order| ==> p.order[i] in spent)
    && (forall i :: 0 <= i < |p.order| && p.order[i] in who ==> BalancedAt(p, quanta, spent, r, i))
  }

  /** Everybody in `who` bids, and none of them more than the machine. */
  ghost predicate AllBid(order: seq<TenantId>, bids: Bids, who: set<TenantId>) {
    forall i :: 0 <= i < |order| && order[i] in who ==> order[i] in bids && 0.0 <= bids[order[i]] <= 1.0
  }

  function Spend(spent: map<TenantId, real>, bids: Bids, t: TenantId): map<TenantId, real>
    requires t in spent && t in bids
  {
    spent[t := spent[t] + bids[t]]
  }

  lemma VisitBalanced(p: Drr, quanta: seq<real>, bids: Bids, spent: map<TenantId, real>, r: nat,
                      who: set<TenantId>)
    requires Balanced(p, quanta, spent, r, who) && AllBid(p.order, bids, who) && p.active.None? && p.order != []
    ensures var (p', served) := Visit(p, quanta, bids);
            && (served.Some? ==> served.value in spent && served.value in bids)
            && (served.None? ==> p'.active.None?)
            && Balanced(p', quanta, if served.Some? then Spend(spent, bids, served.value) else spent,
                        Rounded(p.cursor, |p.order|, r), who)
  {
    var (p', served) := Visit(p, quanta, bids);
    var t, n := p.order[p.cursor], |p.order|;
    assert t in who ==> BalancedAt(p, quanta, spent, r, p.cursor);
    var spent' := if served.Some? then Spend(spent, bids, served.value) else spent;
    forall i | 0 <= i < n && p.order[i] in who ensures BalancedAt(p', quanta, spent', Rounded(p.cursor, n, r), i) {
      assert BalancedAt(p, quanta, spent, r, i);
      assert TopUps(Rounded(p.cursor, n, r), p'.cursor, i) == TopUps(r, p.cursor, i) + if i == p.cursor then 1 else 0;
    }
  }

  lemma {:induction false} ScanBalanced(p: Drr, quanta: seq<real>, bids: Bids, spent: map<TenantId, real>, r: nat,
                      who: set<TenantId>)
    returns (r': nat)
    requires Balanced(p, quanta, spent, r, who) && AllBid(p.order, bids, who) && p.active.None? && AnyBid(p.order, bids)
    ensures var (p', t) := Scan(p, quanta, bids);
            t in spent && t in bids && Balanced(p', quanta, Spend(spent, bids, t), r', who)
    decreases Potential(p, quanta, bids, Target(p.order, bids)), Hops(p.cursor, Target(p.order, bids), |p.order|)
  {
    VisitBalanced(p, quanta, bids, spent, r, who);
    r' := Rounded(p.cursor, |p.order|, r);
    if Visit(p, quanta, bids).1.None? {
      VisitProgress(p, quanta, bids, Target(p.order, bids));
      r' := ScanBalanced(Visit(p, quanta, bids).0, quanta, bids, spent, r', who);
    }
  }

  /** The active tenant pays for its next job out of its deficit. */
  lemma ContinueBalanced(p: Drr, quanta: seq<real>, bids: Bids, spent: map<TenantId, real>, r: nat,
                      who: set<TenantId>)
    requires Balanced(p, quanta, spent, r, who) && AllBid(p.order, bids, who) && Continues(p, bids)
    ensures var t := p.active.value;
            && t in spent && t in bids
            && Balanced(p.(deficits := p.deficits[t := p.deficits[t] - bids[t]]), quanta, Spend(spent, bids, t), r, who)
  {
    var t := p.active.value;
    var p' := p.(deficits := p.deficits[t := p.deficits[t] - bids[t]]);
    forall i | 0 <= i < |p.order| && p.order[i] in who ensures BalancedAt(p', quanta, Spend(spent, bids, t), r, i) {
      assert BalancedAt(p, quanta, spent, r, i);
    }
  }

  /** A tenant that loses its turn does so with less than one unit left. */
  lemma YieldBalanced(p: Drr, quanta: seq<real>, bids: Bids, spent: map<TenantId, real>, r: nat,
                      who: set<TenantId>)
    requires Balanced(p, quanta, spent, r, who) && AllBid(p.order, bids, who) && !Continues(p, bids)
    ensures Balanced(p.(active := None), quanta, spent, r, who)
  {
    forall i | 0 <= i < |p.order| && p.order[i] in who ensures BalancedAt(p.(active := None), quanta, spent, r, i) {
      assert BalancedAt(p, quanta, spent, r, i);
    }
  }

  /** Every decision keeps the balance of the tenants that bid, whatever the others do. */
  lemma DecideBalanced(p: Drr, quanta: seq<real>, bids: Bids, spent: map<TenantId, real>, r: nat,
                      who: set<TenantId>)
    returns (r': nat)
    requires Balanced(p, quanta, spent, r, who) && AllBid(p.order, bids, who) && AnyBid(p.order, bids)
    ensures var (p', t) := Decide(p, quanta, bids);
            t in spent && t in bids && Balanced(p', quanta, Spend(spent, bids, t), r', who)
  {
    if Continues(p, bids) {
      ContinueBalanced(p, quanta, bids, spent, r, who);
      r' := r;
    } else {
      YieldBalanced(p, quanta, bids, spent, r, who);
      r' := ScanBalanced(p.(active := None), quanta, bids, spent, r, who);
    }
  }

  // ---- the deficit of one tenant ---------------------------------------------------------

  /** Below one unit, or below two while the tenant is active. */
  predicate Bounded(p: Drr, t: TenantId) {
    t in p.deficits && 0.0 <= p.deficits[t] < (if p.active == Some(t) then 2.0 else 1.0)
  }

  /** The tenant loses its turn for want of a job while it still has a unit to spend. */
  predicate Stranded(p: Drr, bids: Bids, t: TenantId) {
    p.active == Some(t) && t !in bids && t in p.deficits && p.deficits[t] >= 1.0
  }

  /** Tenant `i` has a quantum of at most one and, if it bids, bids at most one. */
  predicate Modest(p: Drr, quanta: seq<real>, bids: Bids, i: nat) {
    && i < |p.order| == |quanta| && quanta[i] <= 1.0
    && (p.order[i] in bids ==> 0.0 <= bids[p.order[i]] <= 1.0)
  }

  lemma {:induction false} ScanBounded(p: Drr, quanta: seq<real>, bids: Bids, i: nat)
    requires Usable(p, quanta) && AnyBid(p.order, bids) && Modest(p, quanta, bids, i)
    requires p.active.None? && Bounded(p, p.order[i])
    ensures Bounded(Scan(p, quanta, bids).0, p.order[i])
    decreases Potential(p, quanta, bids, Target(p.order, bids)), Hops(p.cursor, Target(p.order, bids), |p.order|)
  {
    if Visit(p, quanta, bids).1.None? {
      VisitProgress(p, quanta, bids, Target(p.order, bids));
      ScanBounded(Visit(p, quanta, bids).0, quanta, bids, i);
    }
  }

  /** A scan neither serves nor credits a tenant that does not bid. */
  lemma {:induction false} ScanPassesBy(p: Drr, quanta: seq<real>, bids: Bids, t: TenantId)
    requires Usable(p, quanta) && AnyBid(p.order, bids) && t !in bids && t in p.deficits
    ensures var (p', served) := Scan(p, quanta, bids);
            t in p'.deficits && p'.deficits[t] == p.deficits[t] && p'.active == Some(served) && served != t
    decreases Potential(p, quanta, bids, Target(p.order, bids)), Hops(p.cursor, Target(p.order, bids), |p.order|)
  {
    if Visit(p, quanta, bids).1.None? {
      VisitProgress(p, quanta, bids, Target(p.order, bids));
      ScanPassesBy(Visit(p, quanta, bids).0, quanta, bids, t);
    }
  }

  /** One decision keeps a bounded deficit bounded exactly when it does not strand the tenant,
      whatever the other tenants bid. */
  lemma DecideBounded(p: Drr, quanta: seq<real>, bids: Bids, i: nat)
    requires Usable(p, quanta) && AnyBid(p.order, bids) && Modest(p, quanta, bids, i) && Bounded(p, p.order[i])
    ensures Bounded(Decide(p, quanta, bids).0, p.order[i]) <==> !Stranded(p, bids, p.order[i])
  {
    var t := p.order[i];
    if !Continues(p, bids) {
      var idle := p.(active := None);
      if t in bids || p.deficits[t] < 1.0 {
        ScanBounded(idle, quanta, bids, i);
      } else {
        ScanPassesBy(idle, quanta, bids, t);
      }
    }
  }

  /** A visit that serves ends the scan. */
  lemma ScanServesAtOnce(p: Drr, quanta: seq<real>, bids: Bids)
    requires Usable(p, quanta) && AnyBid(p.order, bids) && Visit(p, quanta, bids).1.Some?
    ensures Scan(p, quanta, bids) == (Visit(p, quanta, bids).0, Visit(p, quanta, bids).1.value)
  {
  }
}
