/** The quota-headroom staircase of
    migrations/versions/20260925_0017_b13_quota_headroom.py: a compressed record of when a
    request of each size last stopped being blocked. */
module Staircase {
  import opened Basics
  import opened Wrappers

  /** Steps of one tenant and resource: upper bound to resume time, None for SQL NULL. */
  type Stairs = map<int, Option<int>>

  /** Whether a request size is blocked and, if not, when it last resumed. */
  datatype Answer = Blocked | Open(resumed: Option<int>)

  /** The headroom became `headroom` at time `at`; a NULL time means tracking began there. */
  datatype Change = Change(headroom: int, at: Option<int>)

  // ---- reading the steps ---------------------------------------------------------------

  predicate IsLeast(steps: Stairs, from: int, b: int) {
    b in steps && from <= b && forall c :: c in steps && from <= c ==> b <= c
  }

  predicate IsGreatest(steps: Stairs, b: int) {
    b in steps && forall c :: c in steps ==> c <= b
  }

  predicate AnyFrom(steps: Stairs, from: int) {
    exists b :: b in steps && from <= b
  }

  lemma {:induction false} GreatestOf(keys: set<int>) returns (b: int)
    requires keys != {}
    ensures b in keys && forall c :: c in keys ==> c <= b
  {
    HasElement(keys);
    b :| b in keys;
    var rest := keys - {b};
    if rest == {} {
      assert keys == {b};
    } else {
      var m := GreatestOf(rest);
      assert keys == rest + {b};
      b := if m > b then m else b;
    }
  }

  lemma LeastExists(steps: Stairs, from: int)
    requires AnyFrom(steps, from)
    ensures exists b :: IsLeast(steps, from, b)
  {
    var keys := set c | c in steps && from <= c;
    var k :| k in steps && from <= k;
    assert k in keys;
    var b := LeastOf(keys);
    forall c | c in steps && from <= c ensures b <= c {
      assert c in keys;
    }
    assert IsLeast(steps, from, b);
  }

  /** `ORDER BY upper_bound LIMIT 1` over the bounds from `from` on. */
  function Least(steps: Stairs, from: int): (b: int)
    requires AnyFrom(steps, from)
    ensures IsLeast(steps, from, b)
  {
    LeastExists(steps, from);
    var b :| b in steps && IsLeast(steps, from, b);
    b
  }

  /** `coalesce(max(upper_bound), -1)`. */
  function Top(steps: Stairs): (b: int)
    ensures if steps == map[] then b == -1 else IsGreatest(steps, b)
  {
    if steps == map[] then -1
    else
      assert exists b :: IsGreatest(steps, b) by {
        var b := GreatestOf(steps.Keys);
        assert IsGreatest(steps, b);
      }
      var b :| b in steps && IsGreatest(steps, b);
      b
  }

  /** The lookup of the downgrade query: the smallest step whose bound covers the size. */
  function Lookup(steps: Stairs, size: int): Answer {
    if AnyFrom(steps, size) then Open(steps[Least(steps, size)]) else Blocked
  }

  lemma LookupAt(steps: Stairs, size: int, b: int)
    requires IsLeast(steps, size, b)
    ensures Lookup(steps, size) == Open(steps[b])
  {
    assert Least(steps, size) == b;
  }

  // ---- one headroom change ---------------------------------------------------------------

  function Lowered(steps: Stairs, headroom: int): Stairs {
    map b | b in steps && b <= headroom :: steps[b]
  }

  /** nexa_b13_quota_step. */
  function QuotaStep(steps: Stairs, headroom: int, at: Option<int>): Stairs {
    var top := Top(steps);
    if headroom == top then steps
    else if headroom > top then steps[headroom := at]
    else
      var kept := if AnyFrom(steps, headroom + 1) then steps[Least(steps, headroom + 1)] else None;
      var rest := Lowered(steps, headroom);
      if headroom >= 0 && headroom !in rest then rest[headroom := kept] else rest
  }

  ghost predicate NonNegative(steps: Stairs) {
    forall b :: b in steps ==> b >= 0
  }

  /** The naive bookkeeping the staircase replaces: one answer per size, rewritten each time. */
  function Rewrite(answer: Answer, size: int, headroom: int, at: Option<int>): Answer {
    if size > headroom then Blocked
    else if answer.Blocked? then Open(at)
    else answer
  }

  lemma RaiseRefines(steps: Stairs, headroom: int, at: Option<int>, size: int)
    requires NonNegative(steps) && headroom > Top(steps)
    ensures Lookup(QuotaStep(steps, headroom, at), size) == Rewrite(Lookup(steps, size), size, headroom, at)
  {
    var after := QuotaStep(steps, headroom, at);
    if size <= headroom {
      assert headroom in after;
      if AnyFrom(steps, size) {
        assert IsLeast(after, size, Least(steps, size));
        LookupAt(after, size, Least(steps, size));
      } else {
        assert IsLeast(after, size, headroom);
        LookupAt(after, size, headroom);
      }
    }
  }

  lemma LowerRefines(steps: Stairs, headroom: int, at: Option<int>, size: int)
    requires NonNegative(steps) && headroom < Top(steps) && 0 <= size
    ensures Lookup(QuotaStep(steps, headroom, at), size) == Rewrite(Lookup(steps, size), size, headroom, at)
  {
    var after := QuotaStep(steps, headroom, at);
    if size <= headroom {
      assert Top(steps) in steps && AnyFrom(steps, size) && AnyFrom(steps, headroom + 1);
      var b := Least(steps, size);
      if b <= headroom {
        assert IsLeast(after, size, b);
        LookupAt(after, size, b);
      } else {
        assert IsLeast(steps, headroom + 1, b);
        assert headroom !in steps;
        assert IsLeast(after, size, headroom);
        LookupAt(after, size, headroom);
      }
    }
  }

  /** One step of the staircase is one step of the naive answer, for every size at once. */
  lemma StepRefines(steps: Stairs, headroom: int, at: Option<int>, size: int)
    requires NonNegative(steps) && 0 <= size
    ensures Lookup(QuotaStep(steps, headroom, at), size) == Rewrite(Lookup(steps, size), size, headroom, at)
  {
    if headroom > Top(steps) {
      RaiseRefines(steps, headroom, at, size);
    } else if headroom < Top(steps) {
      LowerRefines(steps, headroom, at, size);
    } else if steps != map[] && size <= headroom {
      assert headroom in steps;
    }
  }

  /** The top step is the headroom itself; a negative headroom leaves no steps. */
  lemma StepTop(steps: Stairs, headroom: int, at: Option<int>)
    requires NonNegative(steps)
    ensures NonNegative(QuotaStep(steps, headroom, at))
    ensures Top(QuotaStep(steps, headroom, at)) == if headroom >= 0 then headroom else -1
    ensures QuotaStep(steps, headroom, at) == map[] <==> headroom < 0
  {
    var after := QuotaStep(steps, headroom, at);
    if headroom >= 0 {
      assert headroom in after;
      assert forall c :: c in after ==> c <= headroom;
    } else if headroom < Top(steps) {
      assert after == map[];
    }
  }

  // ---- runs of changes -------------------------------------------------------------------

  /** The staircase after a run of changes, from no steps at all. */
  function Climb(changes: seq<Change>): Stairs {
    if changes == [] then map[]
    else
      var last := changes[|changes| - 1];
      QuotaStep(Climb(changes[..|changes| - 1]), last.headroom, last.at)
  }

  /** The naive answer for one size after the same run. */
  function Naive(changes: seq<Change>, size: int): Answer {
    if changes == [] then Blocked
    else
      var last := changes[|changes| - 1];
      Rewrite(Naive(changes[..|changes| - 1], size), size, last.headroom, last.at)
  }

  /** Refinement: after any run of headroom changes, negative ones included, the lookup gives
      exactly the naive per-size answer, and the top step is the current headroom. */
  lemma {:induction false} StaircaseRefines(changes: seq<Change>, size: int)
    requires 0 <= size
    ensures NonNegative(Climb(changes))
    ensures Lookup(Climb(changes), size) == Naive(changes, size)
    ensures changes != [] ==>
              var h := changes[|changes| - 1].headroom;
              Top(Climb(changes)) == (if h >= 0 then h else -1) && (Climb(changes) == map[] <==> h < 0)
  {
    if changes != [] {
      var n := |changes| - 1;
      StaircaseRefines(changes[..n], size);
      StepRefines(Climb(changes[..n]), changes[n].headroom, changes[n].at, size);
      StepTop(Climb(changes[..n]), changes[n].headroom, changes[n].at);
    }
  }

  // ---- order of resume times ---------------------------------------------------------------

  /** NULL sorts before every time. */
  predicate NotLater(a: Option<int>, b: Option<int>) {
    a.None? || (b.Some? && a.value <= b.value)
  }

  /** Larger sizes never resumed earlier than smaller ones. */
  ghost predicate Rising(steps: Stairs) {
    forall b, c :: b in steps && c in steps && b <= c ==> NotLater(steps[b], steps[c])
  }

  ghost predicate Bounded(steps: Stairs, at: Option<int>) {
    forall b :: b in steps ==> NotLater(steps[b], at)
  }

  lemma StepRising(steps: Stairs, headroom: int, at: Option<int>)
    requires Rising(steps) && Bounded(steps, at)
    ensures Rising(QuotaStep(steps, headroom, at)) && Bounded(QuotaStep(steps, headroom, at), at)
  {
  }
}
