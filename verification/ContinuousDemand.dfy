/** Whether a tenant had work throughout the fairness window: the sorted scan of
    _continuously_demanding (benchmarks/simulator/metrics.py). */
module ContinuousDemand {
  import opened Basics
  import opened Workload
  import opened SimulationState

  datatype Interval = Interval(start: int, end: int)

  predicate Before(a: Interval, b: Interval) {
    a.start < b.start || (a.start == b.start && a.end <= b.end)
  }

  ghost predicate InOrder(s: seq<Interval>) {
    forall i, j :: 0 <= i < j < |s| ==> Before(s[i], s[j])
  }

  /** A finished job of the tenant that was in the system during part of the window. */
  predicate Counts(r: Runtime, t: TenantId, begin: int, end: int) {
    && r.spec.tenant == t && r.state == Completed && r.completion.Some?
    && r.spec.arrival < end && r.completion.value > begin
  }

  function ClipRecord(r: Runtime, begin: int, end: int): Interval
    requires r.completion.Some?
  {
    Interval(Max(begin, r.spec.arrival), Min(end, r.completion.value))
  }

  function Insert(s: seq<Interval>, x: Interval): seq<Interval> {
    if s == [] || Before(s[|s| - 1], x) then s + [x]
    else Insert(s[..|s| - 1], x) + [s[|s| - 1]]
  }

  /** The clipped intervals in the order `sorted` gives pairs. */
  function Intervals(records: seq<Runtime>, t: TenantId, begin: int, end: int): seq<Interval> {
    if records == [] then []
    else
      var rest := Intervals(records[..|records| - 1], t, begin, end);
      var r := records[|records| - 1];
      if Counts(r, t, begin, end) then Insert(rest, ClipRecord(r, begin, end)) else rest
  }

  lemma {:induction false} InsertIs(s: seq<Interval>, x: Interval)
    requires InOrder(s)
    ensures InOrder(Insert(s, x)) && multiset(Insert(s, x)) == multiset(s) + multiset{x}
  {
    if s != [] && !Before(s[|s| - 1], x) {
      var n := |s| - 1;
      InsertIs(s[..n], x);
      assert s == s[..n] + [s[n]];
      var rest := Insert(s[..n], x);
      forall i | 0 <= i < |rest| ensures Before(rest[i], s[n]) {
        assert rest[i] in multiset(rest);
        if rest[i] != x {
          assert rest[i] in s[..n];
        }
      }
    }
  }

  /** Sorted, and made of exactly the clipped records. */
  lemma {:induction false} IntervalsAre(records: seq<Runtime>, t: TenantId, begin: int, end: int)
    ensures InOrder(Intervals(records, t, begin, end))
    ensures forall x :: x in Intervals(records, t, begin, end) <==>
              exists i :: 0 <= i < |records| && Counts(records[i], t, begin, end)
                && x == ClipRecord(records[i], begin, end)
  {
    hide ClipRecord;
    if records != [] {
      var n := |records| - 1;
      var r := records[n];
      IntervalsAre(records[..n], t, begin, end);
      if Counts(r, t, begin, end) {
        var rest := Intervals(records[..n], t, begin, end);
        var x := ClipRecord(r, begin, end);
        InsertIs(rest, x);
        InsertMember(rest, x);
      }
    }
  }

  lemma InsertMember(s: seq<Interval>, x: Interval)
    requires InOrder(s)
    ensures forall y :: y in Insert(s, x) <==> y in s || y == x
  {
    InsertIs(s, x);
    forall y ensures y in Insert(s, x) <==> y in s || y == x {
      assert y in Insert(s, x) <==> y in multiset(Insert(s, x));
      assert y in s <==> y in multiset(s);
    }
  }

  predicate Spans(x: Interval, instant: int) {
    x.start <= instant < x.end
  }

  /** At this instant some finished job of the tenant had arrived and was not yet complete. */
  ghost predicate InDemand(records: seq<Runtime>, t: TenantId, instant: int) {
    exists i :: 0 <= i < |records| && Waits(records[i], t, instant)
  }

  predicate Waits(r: Runtime, t: TenantId, instant: int) {
    r.spec.tenant == t && r.state == Completed && r.completion.Some? && r.spec.arrival <= instant < r.completion.value
  }

  lemma DemandIsSpanned(records: seq<Runtime>, t: TenantId, begin: int, end: int, instant: int)
    requires begin <= instant < end
    ensures InDemand(records, t, instant) <==>
            exists k :: 0 <= k < |Intervals(records, t, begin, end)|
              && Spans(Intervals(records, t, begin, end)[k], instant)
  {
    var xs := Intervals(records, t, begin, end);
    IntervalsAre(records, t, begin, end);
    if InDemand(records, t, instant) {
      var i :| 0 <= i < |records| && Waits(records[i], t, instant);
      assert Counts(records[i], t, begin, end);
      var x := ClipRecord(records[i], begin, end);
      assert x in xs;
      var k :| 0 <= k < |xs| && xs[k] == x;
      assert Spans(xs[k], instant);
    }
    if k :| 0 <= k < |xs| && Spans(xs[k], instant) {
      assert xs[k] in xs;
      var i :| 0 <= i < |records| && Counts(records[i], t, begin, end) && xs[k] == ClipRecord(records[i], begin, end);
      assert Waits(records[i], t, instant);
    }
  }

  /** The first `n` intervals leave no gap before `cursor`. */
  ghost predicate NoGap(xs: seq<Interval>, n: nat, begin: int, cursor: int) {
    forall instant :: begin <= instant < cursor ==> Spanned(xs, n, instant)
  }

  ghost predicate Spanned(xs: seq<Interval>, n: nat, instant: int) {
    exists k :: 0 <= k < n && k < |xs| && Spans(xs[k], instant)
  }

  /** True exactly when the tenant had an unfinished job at every instant of the window. */
  method ContinuouslyDemanding(records: seq<Runtime>, t: TenantId, begin: int, end: int) returns (always: bool)
    requires begin < end
    ensures always <==> forall instant :: begin <= instant < end ==> InDemand(records, t, instant)
  {
    hide Intervals;
    hide InDemand;
    var xs := Intervals(records, t, begin, end);
    IntervalsAre(records, t, begin, end);
    forall instant | begin <= instant < end ensures InDemand(records, t, instant) <==> Spanned(xs, |xs|, instant) {
      DemandIsSpanned(records, t, begin, end, instant);
    }
    var cursor := begin;
    for k := 0 to |xs|
      invariant begin <= cursor < end
      invariant NoGap(xs, k, begin, cursor)
      invariant forall i :: 0 <= i < k ==> xs[i].end <= cursor
    {
      if xs[k].start > cursor {
        Gap(xs, k, cursor);
        assert !InDemand(records, t, cursor);
        return false;
      }
      Advance(xs, k, begin, cursor);
      cursor := Max(cursor, xs[k].end);
      if cursor >= end {
        forall instant | begin <= instant < end ensures InDemand(records, t, instant) {
          assert Spanned(xs, k + 1, instant);
        }
        return true;
      }
    }
    assert !Spanned(xs, |xs|, cursor);
    assert !InDemand(records, t, cursor);
    return false;
  }

  lemma Gap(xs: seq<Interval>, k: nat, cursor: int)
    requires InOrder(xs) && k < |xs| && xs[k].start > cursor
    requires forall i :: 0 <= i < k ==> xs[i].end <= cursor
    ensures !Spanned(xs, |xs|, cursor)
  {
    forall i | k < i < |xs| ensures !Spans(xs[i], cursor) {
      assert Before(xs[k], xs[i]);
    }
  }

  lemma Advance(xs: seq<Interval>, k: nat, begin: int, cursor: int)
    requires k < |xs| && xs[k].start <= cursor && NoGap(xs, k, begin, cursor)
    ensures NoGap(xs, k + 1, begin, Max(cursor, xs[k].end))
  {
    var n, cursor' := k + 1, Max(cursor, xs[k].end);
    forall instant | begin <= instant < cursor' ensures Spanned(xs, n, instant) {
      if instant < cursor {
        assert Spanned(xs, k, instant);
      } else {
        assert Spans(xs[k], instant);
      }
    }
  }
}
