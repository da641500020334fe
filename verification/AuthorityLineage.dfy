/** Authority grants of an attempt and the trigger that guards their lineage
    (migrations/versions/20260919_0001_b05_initial.py), with the unique indexes of the table
    (src/nexa/infrastructure/persistence/schema_v1.py). */
module AuthorityLineage {
  import opened Wrappers

  type GrantId = int

  datatype Grant = Grant(tenant: int, job: int, attempt: int, allocation: int, lease: int, worker: int,
                         incarnation: int, fence: int, predecessor: Option<GrantId>, callback: int, grantedAt: int,
                         endedAt: Option<int>)

  // ---- the trigger -------------------------------------------------------------------------

  predicate SameAuthority(a: Grant, b: Grant) {
    && a.attempt == b.attempt && a.job == b.job && a.tenant == b.tenant
    && a.allocation == b.allocation && a.lease == b.lease && a.fence == b.fence
  }

  /** An update may only end a grant, and only once. */
  predicate UpdateAccepted(before: Grant, after: Grant) {
    && after.(endedAt := before.endedAt) == before
    && (before.endedAt.Some? ==> after.endedAt == before.endedAt)
  }

  predicate AttemptKnown(grants: map<GrantId, Grant>, attempt: int) {
    exists g :: g in grants && grants[g].attempt == attempt
  }

  /** The first grant of an attempt has no predecessor; every other names an ended grant of the
      same authority held by another worker incarnation. */
  predicate InsertAccepted(grants: map<GrantId, Grant>, row: Grant) {
    match row.predecessor
    case None => !AttemptKnown(grants, row.attempt)
    case Some(p) =>
      && p in grants && SameAuthority(grants[p], row)
      && grants[p].endedAt.Some? && grants[p].incarnation != row.incarnation
  }

  // ---- the table's unique indexes ------------------------------------------------------------

  /** `row` under key `id` violates no unique index against the other rows. */
  predicate Unique(grants: map<GrantId, Grant>, id: GrantId, row: Grant) {
    forall g :: g in grants && g != id ==>
      && grants[g].callback != row.callback
      && !(grants[g].attempt == row.attempt && grants[g].incarnation == row.incarnation)
      && !(grants[g].endedAt.None? && row.endedAt.None? && grants[g].job == row.job)
  }

  ghost predicate AllUnique(grants: map<GrantId, Grant>) {
    forall id :: id in grants ==> Unique(grants, id, grants[id])
  }

  // ---- the lineage ---------------------------------------------------------------------------

  /** A grant and its predecessor. */
  ghost predicate Linked(grants: map<GrantId, Grant>, id: GrantId)
    requires id in grants
  {
    match grants[id].predecessor
    case None => true
    case Some(p) =>
      && p in grants && SameAuthority(grants[p], grants[id])
      && grants[p].endedAt.Some? && grants[p].incarnation != grants[id].incarnation
  }

  /** Predecessors were there first. */
  ghost predicate Ranked(grants: map<GrantId, Grant>, rank: map<GrantId, nat>) {
    && rank.Keys == grants.Keys
    && forall id :: id in grants && grants[id].predecessor.Some? && grants[id].predecessor.value in grants
                    ==> rank[grants[id].predecessor.value] < rank[id]
  }

  predicate IsRoot(g: Grant) {
    g.predecessor.None?
  }

  ghost predicate OneRoot(grants: map<GrantId, Grant>) {
    forall g, h :: g in grants && h in grants && IsRoot(grants[g]) && IsRoot(grants[h])
      && grants[g].attempt == grants[h].attempt
      ==> g == h
  }

  ghost predicate Lineage(grants: map<GrantId, Grant>, rank: map<GrantId, nat>) {
    && Ranked(grants, rank) && OneRoot(grants) && AllUnique(grants)
    && forall id :: id in grants ==> Linked(grants, id)
  }

  /** Following predecessors `n` times leads from `id` to `root`. */
  ghost predicate Reaches(grants: map<GrantId, Grant>, id: GrantId, root: GrantId, n: nat)
    decreases n
  {
    && id in grants
    && if n == 0 then id == root
       else grants[id].predecessor.Some? && Reaches(grants, grants[id].predecessor.value, root, n - 1)
  }

  // ---- what every reachable table satisfies ---------------------------------------------------

  /** Every grant descends from a root of its own attempt and shares its authority. */
  lemma {:induction false} RootOf(grants: map<GrantId, Grant>, rank: map<GrantId, nat>, id: GrantId)
    returns (root: GrantId, n: nat)
    requires Lineage(grants, rank) && id in grants
    ensures Reaches(grants, id, root, n)
    ensures root in grants && IsRoot(grants[root]) && SameAuthority(grants[root], grants[id])
    decreases rank[id]
  {
    assert Linked(grants, id);
    if grants[id].predecessor.None? {
      root, n := id, 0;
    } else {
      root, n := RootOf(grants, rank, grants[id].predecessor.value);
      n := n + 1;
    }
  }

  /** The grants of an attempt form one tree: two of them descend from the same single root,
      and so share tenant, job, allocation, lease and fence. */
  lemma OneTree(grants: map<GrantId, Grant>, rank: map<GrantId, nat>, g: GrantId, h: GrantId)
    requires Lineage(grants, rank) && g in grants && h in grants && grants[g].attempt == grants[h].attempt
    ensures exists root, m, n :: Reaches(grants, g, root, m) && Reaches(grants, h, root, n)
                                && root in grants && IsRoot(grants[root])
    ensures SameAuthority(grants[g], grants[h])
  {
    var a, m := RootOf(grants, rank, g);
    var b, n := RootOf(grants, rank, h);
    assert a == b;
  }

  /** No grant is among its own ancestors. */
  lemma {:induction false} Acyclic(grants: map<GrantId, Grant>, rank: map<GrantId, nat>, g: GrantId, h: GrantId, n: nat)
    requires Lineage(grants, rank) && Reaches(grants, g, h, n) && n > 0
    ensures h in grants && rank[h] < rank[g]
    decreases n
  {
    assert Linked(grants, g);
    if n > 1 {
      Acyclic(grants, rank, grants[g].predecessor.value, h, n - 1);
    }
  }

  /** A grant with a successor has ended, so a live grant is a leaf; and it is the only live
      grant of its job. */
  lemma LiveIsLeaf(grants: map<GrantId, Grant>, rank: map<GrantId, nat>, g: GrantId, h: GrantId)
    requires Lineage(grants, rank) && g in grants && grants[g].endedAt.None? && h in grants
    ensures grants[h].predecessor != Some(g)
    ensures grants[h].endedAt.None? && grants[h].job == grants[g].job ==> h == g
  {
    assert Linked(grants, h);
    assert Unique(grants, h, grants[h]);
  }

  // ---- accepted statements keep it -------------------------------------------------------------

  lemma InsertKeeps(grants: map<GrantId, Grant>, rank: map<GrantId, nat>, id: GrantId, row: Grant, r: nat)
    requires Lineage(grants, rank) && id !in grants && Unique(grants, id, row) && InsertAccepted(grants, row)
    requires forall g :: g in rank ==> rank[g] < r
    ensures Lineage(grants[id := row], rank[id := r])
  {
    var grants' := grants[id := row];
    forall g | g in grants' ensures Linked(grants', g) && Unique(grants', g, grants'[g]) {
      if g != id {
        assert Linked(grants, g) && Unique(grants, g, grants[g]);
      }
    }
  }

  lemma UpdateUnique(grants: map<GrantId, Grant>, id: GrantId, row: Grant, g: GrantId)
    requires id in grants && Unique(grants, id, row) && g in grants && Unique(grants, g, grants[g])
    ensures Unique(grants[id := row], g, grants[id := row][g])
  {
  }

  lemma UpdateLinked(grants: map<GrantId, Grant>, id: GrantId, row: Grant, g: GrantId)
    requires id in grants && UpdateAccepted(grants[id], row) && g in grants && Linked(grants, g)
    ensures Linked(grants[id := row], g)
  {
  }

  lemma UpdateKeeps(grants: map<GrantId, Grant>, rank: map<GrantId, nat>, id: GrantId, row: Grant)
    requires Lineage(grants, rank) && id in grants && Unique(grants, id, row) && UpdateAccepted(grants[id], row)
    ensures Lineage(grants[id := row], rank)
  {
    hide Linked;
    hide Unique;
    var grants' := grants[id := row];
    forall g | g in grants' ensures Linked(grants', g) && Unique(grants', g, grants'[g]) {
      UpdateLinked(grants, id, row, g);
      UpdateUnique(grants, id, row, g);
    }
  }

  /** History is append-mostly: identities never change and an end, once set, stays. */
  ghost predicate Extends(before: map<GrantId, Grant>, after: map<GrantId, Grant>) {
    forall id :: id in before ==> id in after && UpdateAccepted(before[id], after[id])
  }

  lemma ExtendsTransitive(a: map<GrantId, Grant>, b: map<GrantId, Grant>, c: map<GrantId, Grant>)
    requires Extends(a, b) && Extends(b, c)
    ensures Extends(a, c)
  {
    forall id | id in a ensures id in c && UpdateAccepted(a[id], c[id]) {
      assert id in b && UpdateAccepted(a[id], b[id]) && UpdateAccepted(b[id], c[id]);
    }
  }

  // ---- runs of statements --------------------------------------------------------------------

  datatype Statement = Insert(id: GrantId, row: Grant) | Update(id: GrantId, row: Grant)

  predicate Accepted(grants: map<GrantId, Grant>, s: Statement) {
    && Unique(grants, s.id, s.row)
    && match s
       case Insert(id, row) => id !in grants && InsertAccepted(grants, row)
       case Update(id, row) => id in grants && UpdateAccepted(grants[id], row)
  }

  /** The table after one statement; a refused one changes nothing. */
  function Execute(grants: map<GrantId, Grant>, s: Statement): map<GrantId, Grant> {
    if Accepted(grants, s) then grants[s.id := s.row] else grants
  }

  function ExecuteAll(grants: map<GrantId, Grant>, statements: seq<Statement>): map<GrantId, Grant> {
    if statements == [] then grants
    else Execute(ExecuteAll(grants, statements[..|statements| - 1]), statements[|statements| - 1])
  }

  ghost predicate RanksBelow(rank: map<GrantId, nat>, r: nat) {
    forall g :: g in rank ==> rank[g] < r
  }

  lemma ExecuteKeeps(grants: map<GrantId, Grant>, rank: map<GrantId, nat>, r: nat, s: Statement)
    returns (rank': map<GrantId, nat>)
    requires Lineage(grants, rank) && RanksBelow(rank, r)
    ensures Lineage(Execute(grants, s), rank') && RanksBelow(rank', r + 1) && Extends(grants, Execute(grants, s))
  {
    hide Lineage;
    rank' := rank;
    if Accepted(grants, s) {
      match s
      case Insert(id, row) =>
        InsertKeeps(grants, rank, id, row, r);
        rank' := rank[id := r];
      case Update(id, row) =>
        UpdateKeeps(grants, rank, id, row);
    }
  }

  /** Over any run of statements, accepted or refused, from any table with a lineage: the result
      has a lineage again, and the run only added grants and ended open ones. */
  lemma {:induction false} RunKeeps(grants: map<GrantId, Grant>, rank: map<GrantId, nat>, r: nat,
                                    statements: seq<Statement>)
    returns (rank': map<GrantId, nat>)
    requires Lineage(grants, rank) && RanksBelow(rank, r)
    ensures Lineage(ExecuteAll(grants, statements), rank') && RanksBelow(rank', r + |statements|)
    ensures Extends(grants, ExecuteAll(grants, statements))
  {
    hide Lineage;
    if statements == [] {
      rank' := rank;
    } else {
      var n := |statements| - 1;
      var before := ExecuteAll(grants, statements[..n]);
      rank' := RunKeeps(grants, rank, r, statements[..n]);
      rank' := ExecuteKeeps(before, rank', r + n, statements[n]);
      ExtendsTransitive(grants, before, ExecuteAll(grants, statements));
    }
  }

  predicate HasSuccessor(grants: map<GrantId, Grant>, g: GrantId) {
    exists h :: h in grants && grants[h].predecessor == Some(g)
  }

  /** A grant that has ended, as every grant with a successor has, is the same ended row after
      every later run. */
  lemma EndedForever(grants: map<GrantId, Grant>, rank: map<GrantId, nat>, r: nat, statements: seq<Statement>,
                     g: GrantId)
    requires Lineage(grants, rank) && RanksBelow(rank, r)
    requires g in grants && (grants[g].endedAt.Some? || HasSuccessor(grants, g))
    ensures grants[g].endedAt.Some?
    ensures var after := ExecuteAll(grants, statements); g in after && after[g] == grants[g]
  {
    if h :| h in grants && grants[h].predecessor == Some(g) {
      assert Linked(grants, h);
    }
    var rank' := RunKeeps(grants, rank, r, statements);
  }

  class GrantTable {
    var grants: map<GrantId, Grant>
    ghost var rank: map<GrantId, nat>
    ghost var next: nat

    ghost predicate Valid()
      reads this
    {
      Lineage(grants, rank) && forall g :: g in rank ==> rank[g] < next
    }

    constructor ()
      ensures Valid() && grants == map[]
    {
      grants, rank, next := map[], map[], 0;
    }

    /** Accepted exactly when the trigger and the indexes allow it. */
    method Insert(id: GrantId, row: Grant) returns (ok: bool)
      requires Valid()
      modifies this
      ensures Valid() && Extends(old(grants), grants)
      ensures ok <==> Accepted(old(grants), Statement.Insert(id, row))
      ensures grants == Execute(old(grants), Statement.Insert(id, row))
    {
      ok := id !in grants && InsertAccepted(grants, row) && Unique(grants, id, row);
      if ok {
        InsertKeeps(grants, rank, id, row, next);
        grants := grants[id := row];
        rank := rank[id := next];
        next := next + 1;
      }
    }

    method Update(id: GrantId, row: Grant) returns (ok: bool)
      requires Valid()
      modifies this
      ensures Valid() && Extends(old(grants), grants)
      ensures ok <==> Accepted(old(grants), Statement.Update(id, row))
      ensures grants == Execute(old(grants), Statement.Update(id, row))
    {
      ok := id in grants && UpdateAccepted(grants[id], row) && Unique(grants, id, row);
      if ok {
        UpdateKeeps(grants, rank, id, row);
        grants := grants[id := row];
      }
    }
  }
}
