/** Buckets and millisecond overlaps of the fairness report
    (src/nexa/application/fairness_report.py, src/nexa/coordinator/accounting.py).
    Instants are microseconds since the epoch. */
module LedgerBuckets {
  import opened Basics
  import opened Wrappers

  type TenantId = int
  type SegmentId = int

  datatype Segment = Segment(id: SegmentId, tenant: TenantId, start: int, ended: Option<int>, share: real, weight: real)

  datatype Query = Query(begin: int, end: int, seconds: int)

  datatype QueryError = EndNotAfterStart | RangeTooLong | BadBucketSeconds | TooManyBuckets

  const SECOND := 1_000_000
  const MAX_RANGE := 31 * 86_400 * SECOND
  const MAX_BUCKET_SECONDS := 86_400
  const MAX_BUCKETS := 1_000

  // ---- instants ----------------------------------------------------------------------------

  /** A time delta as days, seconds and microseconds, the last two never negative. */
  datatype Delta = Delta(days: int, seconds: nat, micros: nat)

  function Normalize(micros: int): Delta {
    var seconds := micros / SECOND;
    Delta(seconds / 86_400, seconds % 86_400, micros % SECOND)
  }

  function FromDelta(d: Delta): int {
    d.days * 86_400_000 + d.seconds * 1000 + d.micros / 1000
  }

  /** epoch_ms on the normalized delta is the floor to whole milliseconds. */
  function EpochMs(micros: int): (ms: int)
    ensures ms * 1000 <= micros < (ms + 1) * 1000
  {
    FromDelta(Normalize(micros))
  }

  lemma EpochMonotone(a: int, b: int)
    requires a <= b
    ensures EpochMs(a) <= EpochMs(b)
  {
  }

  // ---- buckets -----------------------------------------------------------------------------

  function Step(q: Query): int {
    q.seconds * SECOND
  }

  /** Least n with n * b >= a. */
  function CeilDiv(a: int, b: int): int
    requires a > 0 && b > 0
  {
    (a + b - 1) / b
  }

  /** fairness_bucket_count and its errors, in the order they are raised. */
  function BucketCount(q: Query): Result<int, QueryError> {
    if q.end <= q.begin then Err(EndNotAfterStart)
    else if q.end - q.begin > MAX_RANGE then Err(RangeTooLong)
    else if !(1 <= q.seconds <= MAX_BUCKET_SECONDS) then Err(BadBucketSeconds)
    else
      var count := CeilDiv(q.end - q.begin, Step(q));
      if count > MAX_BUCKETS then Err(TooManyBuckets) else Ok(count)
  }

  function Low(q: Query, index: int): int {
    q.begin + Step(q) * index
  }

  function High(q: Query, index: int): int {
    Min(Low(q, index) + Step(q), q.end)
  }

  /** The i-th cut of the range; every cut from the last on is the end of the range. */
  function Cut(q: Query, index: int): int {
    Min(Low(q, index), q.end)
  }

  lemma CeilIs(a: int, b: int, n: int)
    requires a > 0 && b > 0 && n == CeilDiv(a, b)
    ensures n >= 1 && (n - 1) * b < a <= n * b
  {
    var x := a + b - 1;
    assert x == b * (x / b) + x % b;
    assert (n - 1) * b == n * b - b;
    if n <= 0 {
      TimesGrows(n, 0, b);
      assert false;
    }
  }

  lemma TimesGrows(a: int, b: int, step: int)
    requires a <= b && step >= 0
    ensures step * a <= step * b
  {
  }

  /** Buckets tile the range: the first starts it, the last ends it, each ends where the next
      starts, and none is empty. */
  lemma BucketsTile(q: Query, index: int)
    requires BucketCount(q).Ok? && 0 <= index < BucketCount(q).value
    ensures Low(q, 0) == q.begin && High(q, BucketCount(q).value - 1) == q.end
    ensures Low(q, index) == Cut(q, index) < High(q, index) == Cut(q, index + 1)
  {
    var count := BucketCount(q).value;
    CeilIs(q.end - q.begin, Step(q), count);
    TimesGrows(index, count - 1, Step(q));
    assert Step(q) * (count - 1) == (count - 1) * Step(q);
    assert Step(q) * (index + 1) == Step(q) * index + Step(q);
    assert Step(q) * count == Step(q) * (count - 1) + Step(q);
  }

  /** From the count on there is nothing left of the range. */
  lemma CutAtEnd(q: Query, index: int)
    requires BucketCount(q).Ok? && BucketCount(q).value <= index
    ensures Cut(q, index) == q.end
  {
    var count := BucketCount(q).value;
    CeilIs(q.end - q.begin, Step(q), count);
    TimesGrows(count, index, Step(q));
    assert Step(q) * count == count * Step(q);
  }

  lemma CutsGrow(q: Query, i: int, j: int)
    requires i <= j && q.seconds >= 0
    ensures Cut(q, i) <= Cut(q, j)
  {
    TimesGrows(i, j, Step(q));
  }

  // ---- overlaps ----------------------------------------------------------------------------

  function EndOf(s: Segment, now: int): int {
    if s.ended.Some? then s.ended.value else now
  }

  /** Whole milliseconds common to two millisecond intervals. */
  function Common(start: int, end: int, low: int, high: int): nat {
    Max(0, Min(end, high) - Max(start, low))
  }

  function OverlapMs(s: Segment, now: int, low: int, high: int): nat {
    Common(EpochMs(s.start), EpochMs(EndOf(s, now)), EpochMs(low), EpochMs(high))
  }

  lemma OverlapSplits(s: Segment, now: int, a: int, b: int, c: int)
    requires a <= b <= c
    ensures OverlapMs(s, now, a, c) == OverlapMs(s, now, a, b) + OverlapMs(s, now, b, c)
  {
    EpochMonotone(a, b);
    EpochMonotone(b, c);
  }

  /** The early exit of the aggregate drops nothing. */
  lemma OutsideIsEmpty(s: Segment, now: int, q: Query, low: int, high: int)
    requires q.begin <= low && high <= q.end
    requires s.start >= q.end || EndOf(s, now) <= q.begin
    ensures OverlapMs(s, now, low, high) == 0
  {
    EpochMonotone(q.begin, low);
    EpochMonotone(high, q.end);
    if s.start >= q.end {
      EpochMonotone(q.end, s.start);
    } else {
      EpochMonotone(EndOf(s, now), q.begin);
    }
  }

  // ---- amounts -----------------------------------------------------------------------------

  datatype Amounts = Amounts(dominant: real, normalized: real, occupancy: real) {

    function Plus(other: Amounts): Amounts {
      Amounts(dominant + other.dominant, normalized + other.normalized, occupancy + other.occupancy)
    }
  }

  const NONE := Amounts(0.0, 0.0, 0.0)

  lemma Regroup(a: Amounts, b: Amounts, c: Amounts, d: Amounts)
    ensures a.Plus(b).Plus(c.Plus(d)) == a.Plus(c).Plus(b.Plus(d))
    ensures NONE.Plus(NONE) == NONE
  {
  }

  function Seconds(ms: nat): real {
    ms as real / 1000.0
  }

  ghost predicate ValidSegments(segments: seq<Segment>) {
    forall i :: 0 <= i < |segments| ==> segments[i].share >= 0.0 && segments[i].weight > 0.0
  }

  /** What a segment adds for some milliseconds. */
  function Charge(s: Segment, ms: nat): Amounts
    requires s.weight > 0.0
  {
    var dominant := s.share * Seconds(ms);
    Amounts(dominant, dominant / s.weight, Seconds(ms))
  }

  lemma ChargeAdds(s: Segment, m: nat, n: nat)
    requires s.weight > 0.0
    ensures Charge(s, m + n) == Charge(s, m).Plus(Charge(s, n))
  {
    var x, y := Seconds(m), Seconds(n);
    assert Seconds(m + n) == x + y;
    assert s.share * (x + y) == s.share * x + s.share * y;
    QuotientSum(s.share * x, s.share * y, s.weight);
  }

  lemma ChargeNothing(s: Segment)
    requires s.weight > 0.0
    ensures Charge(s, 0) == NONE
  {
    assert s.share * 0.0 == 0.0;
  }

  function ChargeOf(s: Segment, t: TenantId, now: int, low: int, high: int): Amounts
    requires s.weight > 0.0
  {
    if s.tenant == t then Charge(s, OverlapMs(s, now, low, high)) else NONE
  }

  /** A tenant's amounts over an interval. */
  function Total(segments: seq<Segment>, t: TenantId, now: int, low: int, high: int): Amounts
    requires ValidSegments(segments)
  {
    if segments == [] then NONE
    else
      var n := |segments| - 1;
      Total(segments[..n], t, now, low, high).Plus(ChargeOf(segments[n], t, now, low, high))
  }

  lemma ChargeSplits(s: Segment, t: TenantId, now: int, a: int, b: int, c: int)
    requires a <= b <= c && s.weight > 0.0
    ensures ChargeOf(s, t, now, a, c) == ChargeOf(s, t, now, a, b).Plus(ChargeOf(s, t, now, b, c))
  {
    hide OverlapMs;
    hide Charge;
    OverlapSplits(s, now, a, b, c);
    ChargeAdds(s, OverlapMs(s, now, a, b), OverlapMs(s, now, b, c));
  }

  /** Adjacent intervals add up. */
  lemma {:induction false} TotalSplits(segments: seq<Segment>, t: TenantId, now: int, a: int, b: int, c: int)
    requires a <= b <= c && ValidSegments(segments)
    ensures Total(segments, t, now, a, c) == Total(segments, t, now, a, b).Plus(Total(segments, t, now, b, c))
  {
    hide ChargeOf;
    hide Amounts.Plus;
    Regroup(NONE, NONE, NONE, NONE);
    if segments != [] {
      var n := |segments| - 1;
      TotalSplits(segments[..n], t, now, a, b, c);
      ChargeSplits(segments[n], t, now, a, b, c);
      Regroup(Total(segments[..n], t, now, a, b), Total(segments[..n], t, now, b, c),
              ChargeOf(segments[n], t, now, a, b), ChargeOf(segments[n], t, now, b, c));
    }
  }

  /** The buckets from `first` up to `last` added together. */
  function BucketSum(segments: seq<Segment>, t: TenantId, now: int, q: Query, first: int, last: int): Amounts
    requires ValidSegments(segments) && first <= last
    decreases last - first
  {
    if first == last then NONE
    else
      BucketSum(segments, t, now, q, first, last - 1)
      .Plus(Total(segments, t, now, Low(q, last - 1), High(q, last - 1)))
  }

  lemma EmptyInterval(s: Segment, t: TenantId, now: int, a: int)
    requires s.weight > 0.0
    ensures ChargeOf(s, t, now, a, a) == NONE
  {
    hide Charge;
    ChargeNothing(s);
  }

  lemma {:induction false} EmptyTotal(segments: seq<Segment>, t: TenantId, now: int, a: int)
    requires ValidSegments(segments)
    ensures Total(segments, t, now, a, a) == NONE
  {
    hide ChargeOf;
    hide Amounts.Plus;
    Regroup(NONE, NONE, NONE, NONE);
    if segments != [] {
      EmptyTotal(segments[..|segments| - 1], t, now, a);
      EmptyInterval(segments[|segments| - 1], t, now, a);
    }
  }

  /** Consecutive buckets together are the interval they span. */
  lemma {:induction false} BucketsAddUp(segments: seq<Segment>, t: TenantId, now: int, q: Query, first: int, last: int)
    requires ValidSegments(segments) && BucketCount(q).Ok? && 0 <= first <= last <= BucketCount(q).value
    ensures BucketSum(segments, t, now, q, first, last) == Total(segments, t, now, Cut(q, first), Cut(q, last))
    decreases last - first
  {
    hide Total;
    hide Cut;
    hide Low;
    hide High;
    hide BucketCount;
    if first == last {
      EmptyTotal(segments, t, now, Cut(q, first));
    } else {
      BucketsAddUp(segments, t, now, q, first, last - 1);
      BucketsTile(q, last - 1);
      SecondsPositive(q);
      CutsGrow(q, first, last - 1);
      CutsGrow(q, last - 1, last);
      TotalSplits(segments, t, now, Cut(q, first), Cut(q, last - 1), Cut(q, last));
    }
  }

  lemma SecondsPositive(q: Query)
    requires BucketCount(q).Ok?
    ensures 1 <= q.seconds <= MAX_BUCKET_SECONDS && q.begin < q.end && 1 <= BucketCount(q).value <= MAX_BUCKETS
  {
    CeilIs(q.end - q.begin, Step(q), BucketCount(q).value);
  }

  /** Conservation: over all buckets, the occupancy is the clipped length of the segments. */
  lemma Conservation(segments: seq<Segment>, t: TenantId, now: int, q: Query)
    requires ValidSegments(segments) && BucketCount(q).Ok?
    ensures BucketCount(q).value >= 0
    ensures BucketSum(segments, t, now, q, 0, BucketCount(q).value) == Total(segments, t, now, q.begin, q.end)
    ensures BucketSum(segments, t, now, q, 0, BucketCount(q).value).occupancy == Seconds(ClippedMs(segments, t, now, q))
  {
    SecondsPositive(q);
    BucketsAddUp(segments, t, now, q, 0, BucketCount(q).value);
    CutAtEnd(q, BucketCount(q).value);
    OccupancyIsLength(segments, t, now, q);
  }

  /** The tenant's segment lengths inside the range, in whole milliseconds. */
  function ClippedMs(segments: seq<Segment>, t: TenantId, now: int, q: Query): nat {
    if segments == [] then 0
    else
      var s := segments[|segments| - 1];
      ClippedMs(segments[..|segments| - 1], t, now, q)
      + if s.tenant == t then Common(EpochMs(s.start), EpochMs(EndOf(s, now)), EpochMs(q.begin), EpochMs(q.end)) else 0
  }

  lemma {:induction false} OccupancyIsLength(segments: seq<Segment>, t: TenantId, now: int, q: Query)
    requires ValidSegments(segments)
    ensures Total(segments, t, now, q.begin, q.end).occupancy == Seconds(ClippedMs(segments, t, now, q))
  {
    hide Common;
    hide EpochMs;
    if segments != [] {
      OccupancyIsLength(segments[..|segments| - 1], t, now, q);
    }
  }

  // ---- grouping ----------------------------------------------------------------------------

  ghost predicate Coarser(q: Query, k: int, q': Query) {
    k >= 1 && q' == q.(seconds := k * q.seconds) && BucketCount(q).Ok? && BucketCount(q').Ok?
  }

  lemma CoarseCut(q: Query, k: int, q': Query, index: int)
    requires q' == q.(seconds := k * q.seconds)
    ensures Low(q', index) == Low(q, k * index) && Cut(q', index) == Cut(q, k * index)
  {
    assert Step(q') * index == Step(q) * (k * index);
  }

  lemma CutCapped(q: Query, index: int)
    requires BucketCount(q).Ok? && index >= 0
    ensures Cut(q, index) == Cut(q, Min(index, BucketCount(q).value))
  {
    hide Low;
    if index > BucketCount(q).value {
      CutAtEnd(q, index);
      CutAtEnd(q, BucketCount(q).value);
    }
  }

  /** A bucket of k-fold length is the k buckets it covers, or as many as the range has. */
  lemma Grouping(segments: seq<Segment>, t: TenantId, now: int, q: Query, k: int, q': Query, index: int)
    requires ValidSegments(segments) && Coarser(q, k, q') && 0 <= index < BucketCount(q').value
    ensures var first, last := k * index, Min(k * (index + 1), BucketCount(q).value);
            && 0 <= first <= last
            && Total(segments, t, now, Low(q', index), High(q', index)) == BucketSum(segments, t, now, q, first, last)
  {
    hide Total;
    var first, last := k * index, Min(k * (index + 1), BucketCount(q).value);
    BucketsTile(q', index);
    CoarseCut(q, k, q', index);
    CoarseCut(q, k, q', index + 1);
    FirstInside(q, k, q', index);
    assert k * (index + 1) == k * index + k;
    CutCapped(q, k * (index + 1));
    BucketsAddUp(segments, t, now, q, first, last);
  }

  lemma FirstInside(q: Query, k: int, q': Query, index: int)
    requires Coarser(q, k, q') && 0 <= index < BucketCount(q').value
    ensures 0 <= k * index < BucketCount(q).value
  {
    BucketsTile(q', index);
    CoarseCut(q, k, q', index);
    TimesGrows(0, index, k);
    if k * index >= BucketCount(q).value {
      CutAtEnd(q, k * index);
    }
  }
}
