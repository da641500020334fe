/** aggregate_fairness (src/nexa/application/fairness_report.py): the bucketed totals, the weight
    each row reports, and why the order of the segments does not matter. */
module FairnessReport {
  import opened Basics
  import opened Wrappers
  import opened LedgerBuckets

  datatype Key = Key(index: int, tenant: TenantId)

  datatype Entry = Entry(amounts: Amounts, latest: Segment)

  datatype Row = Row(key: Key, weight: real, amounts: Amounts)

  predicate Before(a: Key, b: Key) {
    a.index < b.index || (a.index == b.index && a.tenant < b.tenant)
  }

  /** The order by start, then identifier, that decides which segment is the latest. */
  predicate NotLater(a: Segment, b: Segment) {
    a.start < b.start || (a.start == b.start && a.id <= b.id)
  }

  predicate Touches(s: Segment, t: TenantId, now: int, low: int, high: int) {
    s.tenant == t && OverlapMs(s, now, low, high) > 0
  }

  ghost predicate Touched(segments: seq<Segment>, t: TenantId, now: int, low: int, high: int) {
    exists i :: 0 <= i < |segments| && Touches(segments[i], t, now, low, high)
  }

  ghost predicate IsLatest(segments: seq<Segment>, t: TenantId, now: int, low: int, high: int, s: Segment) {
    && (exists i :: 0 <= i < |segments| && segments[i] == s && Touches(segments[i], t, now, low, high))
    && (forall i :: 0 <= i < |segments| && Touches(segments[i], t, now, low, high) ==> NotLater(segments[i], s))
  }

  ghost predicate EntryOk(segments: seq<Segment>, now: int, q: Query, key: Key, e: Entry)
    requires ValidSegments(segments)
  {
    && e.amounts == Total(segments, key.tenant, now, Low(q, key.index), High(q, key.index))
    && IsLatest(segments, key.tenant, now, Low(q, key.index), High(q, key.index), e.latest)
  }

  ghost predicate KeyTouched(segments: seq<Segment>, now: int, q: Query, count: int, key: Key) {
    0 <= key.index < count && Touched(segments, key.tenant, now, Low(q, key.index), High(q, key.index))
  }

  /** A key has an entry exactly when its tenant overlaps its bucket, and the entry is right. */
  ghost predicate KeyOk(segments: seq<Segment>, now: int, q: Query, count: int, totals: map<Key, Entry>, key: Key)
    requires ValidSegments(segments)
  {
    && (key in totals <==> KeyTouched(segments, now, q, count, key))
    && (key in totals ==> EntryOk(segments, now, q, key, totals[key]))
  }

  // ---- one segment into one bucket -----------------------------------------------------------

  lemma TotalSnoc(segments: seq<Segment>, s: Segment, t: TenantId, now: int, low: int, high: int)
    requires ValidSegments(segments) && s.share >= 0.0 && s.weight > 0.0
    ensures ValidSegments(segments + [s])
    ensures Total(segments + [s], t, now, low, high)
            == Total(segments, t, now, low, high).Plus(ChargeOf(s, t, now, low, high))
  {
    assert (segments + [s])[..|segments|] == segments;
  }

  lemma PlusNone(a: Amounts)
    ensures a.Plus(NONE) == a
  {
  }

  lemma NoCharge(s: Segment, t: TenantId, now: int, low: int, high: int)
    requires s.weight > 0.0 && !Touches(s, t, now, low, high)
    ensures ChargeOf(s, t, now, low, high) == NONE
  {
    ChargeNothing(s);
  }

  /** A bucket the segment does not touch stays right. */
  lemma Untouched(segments: seq<Segment>, s: Segment, now: int, q: Query, count: int, totals: map<Key, Entry>, key: Key)
    requires ValidSegments(segments) && s.share >= 0.0 && s.weight > 0.0
    requires KeyOk(segments, now, q, count, totals, key)
    requires 0 <= key.index < count ==> !Touches(s, key.tenant, now, Low(q, key.index), High(q, key.index))
    ensures ValidSegments(segments + [s]) && KeyOk(segments + [s], now, q, count, totals, key)
  {
    hide OverlapMs;
    hide Low;
    hide High;
    hide Total;
    if 0 <= key.index < count {
      var t, low, high := key.tenant, Low(q, key.index), High(q, key.index);
      TotalSnoc(segments, s, t, now, low, high);
      NoCharge(s, t, now, low, high);
      PlusNone(Total(segments, t, now, low, high));
      SameTouched(segments, s, t, now, low, high);
    } else {
      assert key !in totals;
    }
  }

  lemma SameTouched(segments: seq<Segment>, s: Segment, t: TenantId, now: int, low: int, high: int)
    requires !Touches(s, t, now, low, high)
    ensures Touched(segments + [s], t, now, low, high) <==> Touched(segments, t, now, low, high)
    ensures forall l :: IsLatest(segments, t, now, low, high, l) ==> IsLatest(segments + [s], t, now, low, high, l)
  {
    hide Touches;
    var more := segments + [s];
    if Touched(segments, t, now, low, high) {
      var i :| 0 <= i < |segments| && Touches(segments[i], t, now, low, high);
      assert more[i] == segments[i];
    }
    forall l | IsLatest(segments, t, now, low, high, l) ensures IsLatest(more, t, now, low, high, l) {
      var i :| 0 <= i < |segments| && segments[i] == l && Touches(segments[i], t, now, low, high);
      assert more[i] == l && Touches(more[i], t, now, low, high);
    }
  }

  /** The entry after adding a segment that touches the bucket. */
  function Add(totals: map<Key, Entry>, key: Key, s: Segment, ms: nat): Entry
    requires s.weight > 0.0
  {
    if key !in totals then Entry(NONE.Plus(Charge(s, ms)), s)
    else
      var e := totals[key];
      Entry(e.amounts.Plus(Charge(s, ms)), if NotLater(s, e.latest) then e.latest else s)
  }

  lemma LatestSnoc(segments: seq<Segment>, s: Segment, t: TenantId, now: int, low: int, high: int, l: Segment)
    requires Touches(s, t, now, low, high)
    requires if Touched(segments, t, now, low, high) then IsLatest(segments, t, now, low, high, l) else NotLater(l, s)
    ensures IsLatest(segments + [s], t, now, low, high,
                     if Touched(segments, t, now, low, high) && NotLater(s, l) then l else s)
  {
    hide Touches;
    var more := segments + [s];
    assert more[|segments|] == s;
    if Touched(segments, t, now, low, high) && NotLater(s, l) {
      var i :| 0 <= i < |segments| && segments[i] == l && Touches(segments[i], t, now, low, high);
      assert more[i] == l && Touches(more[i], t, now, low, high);
    }
  }

  lemma {:induction false} UntouchedTotal(segments: seq<Segment>, t: TenantId, now: int, low: int, high: int)
    requires ValidSegments(segments) && !Touched(segments, t, now, low, high)
    ensures Total(segments, t, now, low, high) == NONE
  {
    hide ChargeOf;
    hide Touches;
    if segments != [] {
      var n := |segments| - 1;
      forall i | 0 <= i < n ensures !Touches(segments[..n][i], t, now, low, high) {
        assert segments[..n][i] == segments[i];
      }
      UntouchedTotal(segments[..n], t, now, low, high);
      NoCharge(segments[n], t, now, low, high);
      PlusNone(NONE);
    }
  }

  lemma AddRight(segments: seq<Segment>, s: Segment, now: int, q: Query, count: int, totals: map<Key, Entry>, key: Key,
                 ms: nat)
    requires ValidSegments(segments) && s.share >= 0.0 && s.weight > 0.0
    requires 0 <= key.index < count && KeyOk(segments, now, q, count, totals, key)
    requires Touches(s, key.tenant, now, Low(q, key.index), High(q, key.index))
    requires ms == OverlapMs(s, now, Low(q, key.index), High(q, key.index))
    ensures ValidSegments(segments + [s])
    ensures KeyTouched(segments + [s], now, q, count, key)
    ensures EntryOk(segments + [s], now, q, key, Add(totals, key, s, ms))
  {
    hide OverlapMs;
    hide Low;
    hide High;
    hide Total;
    hide Charge;
    var t, low, high := key.tenant, Low(q, key.index), High(q, key.index);
    TotalSnoc(segments, s, t, now, low, high);
    if key in totals {
      LatestSnoc(segments, s, t, now, low, high, totals[key].latest);
    } else {
      UntouchedTotal(segments, t, now, low, high);
      LatestSnoc(segments, s, t, now, low, high, s);
    }
    assert (segments + [s])[|segments|] == s;
  }

  // ---- the loops -------------------------------------------------------------------------------

  /** Buckets before `upto` count the segment already, the others not yet. */
  ghost predicate Halfway(segments: seq<Segment>, s: Segment, now: int, q: Query, count: int, upto: int,
                          totals: map<Key, Entry>)
    requires ValidSegments(segments) && ValidSegments(segments + [s])
  {
    forall key: Key :: KeyOk(if key.index < upto then segments + [s] else segments, now, q, count, totals, key)
  }

  lemma StepRight(segments: seq<Segment>, s: Segment, now: int, q: Query, count: int, index: int,
                  totals: map<Key, Entry>, totals': map<Key, Entry>, ms: nat)
    requires ValidSegments(segments) && ValidSegments(segments + [s]) && s.share >= 0.0 && s.weight > 0.0
    requires Halfway(segments, s, now, q, count, index, totals) && 0 <= index < count
    requires ms == OverlapMs(s, now, Low(q, index), High(q, index))
    requires totals' == if ms == 0 then totals
             else totals[Key(index, s.tenant) := Add(totals, Key(index, s.tenant), s, ms)]
    ensures Halfway(segments, s, now, q, count, index + 1, totals')
  {
    hide OverlapMs;
    hide Low;
    hide High;
    hide EntryOk;
    hide KeyTouched;
    hide Add;
    var more, touched := segments + [s], Key(index, s.tenant);
    forall key: Key ensures KeyOk(if key.index < index + 1 then more else segments, now, q, count, totals', key) {
      assert KeyOk(if key.index < index then more else segments, now, q, count, totals, key);
      if key == touched && ms > 0 {
        AddRight(segments, s, now, q, count, totals, key, ms);
      } else if key.index == index {
        Untouched(segments, s, now, q, count, totals, key);
        SameKey(more, now, q, count, totals, totals', key);
      } else {
        SameKey(if key.index < index then more else segments, now, q, count, totals, totals', key);
      }
    }
  }

  lemma SameKey(segments: seq<Segment>, now: int, q: Query, count: int, totals: map<Key, Entry>,
                totals': map<Key, Entry>, key: Key)
    requires ValidSegments(segments) && KeyOk(segments, now, q, count, totals, key)
    requires (key in totals <==> key in totals') && (key in totals ==> totals'[key] == totals[key])
    ensures KeyOk(segments, now, q, count, totals', key)
  {
  }

  ghost predicate AllRight(segments: seq<Segment>, now: int, q: Query, count: int, totals: map<Key, Entry>)
    requires ValidSegments(segments)
  {
    forall key: Key :: KeyOk(segments, now, q, count, totals, key)
  }

  /** One segment into every bucket. */
  method Spread(s: Segment, q: Query, count: int, now: int, before: map<Key, Entry>, ghost segments: seq<Segment>)
    returns (totals: map<Key, Entry>)
    requires ValidSegments(segments) && s.share >= 0.0 && s.weight > 0.0 && count >= 0
    requires AllRight(segments, now, q, count, before)
    ensures ValidSegments(segments + [s]) && AllRight(segments + [s], now, q, count, totals)
  {
    hide KeyOk;
    totals := before;
    assert Halfway(segments, s, now, q, count, 0, totals) by {
      StartHalfway(segments, s, now, q, count, totals);
    }
    for index := 0 to count
      invariant Halfway(segments, s, now, q, count, index, totals)
    {
      var ms := OverlapMs(s, now, Low(q, index), High(q, index));
      ghost var was := totals;
      if ms > 0 {
        var key := Key(index, s.tenant);
        totals := totals[key := Add(totals, key, s, ms)];
      }
      StepRight(segments, s, now, q, count, index, was, totals, ms);
    }
    EndHalfway(segments, s, now, q, count, totals);
  }

  lemma StartHalfway(segments: seq<Segment>, s: Segment, now: int, q: Query, count: int, totals: map<Key, Entry>)
    requires ValidSegments(segments) && s.share >= 0.0 && s.weight > 0.0 && AllRight(segments, now, q, count, totals)
    ensures ValidSegments(segments + [s]) && Halfway(segments, s, now, q, count, 0, totals)
  {
    hide EntryOk;
    forall key: Key ensures KeyOk(if key.index < 0 then segments + [s] else segments, now, q, count, totals, key) {
      assert KeyOk(segments, now, q, count, totals, key);
    }
  }

  lemma EndHalfway(segments: seq<Segment>, s: Segment, now: int, q: Query, count: int, totals: map<Key, Entry>)
    requires ValidSegments(segments) && ValidSegments(segments + [s])
             && Halfway(segments, s, now, q, count, count, totals)
    ensures AllRight(segments + [s], now, q, count, totals)
  {
    hide EntryOk;
    var more := segments + [s];
    forall key: Key ensures KeyOk(more, now, q, count, totals, key) {
      assert KeyOk(if key.index < count then more else segments, now, q, count, totals, key);
    }
  }

  /** A segment outside the whole range may be skipped. */
  lemma SkipRight(segments: seq<Segment>, s: Segment, now: int, q: Query, totals: map<Key, Entry>)
    requires ValidSegments(segments) && s.share >= 0.0 && s.weight > 0.0 && BucketCount(q).Ok?
    requires AllRight(segments, now, q, BucketCount(q).value, totals)
    requires s.start >= q.end || EndOf(s, now) <= q.begin
    ensures ValidSegments(segments + [s]) && AllRight(segments + [s], now, q, BucketCount(q).value, totals)
  {
    hide KeyOk;
    hide OverlapMs;
    var count, more := BucketCount(q).value, segments + [s];
    forall key: Key ensures KeyOk(more, now, q, count, totals, key) {
      assert KeyOk(segments, now, q, count, totals, key);
      if 0 <= key.index < count {
        InsideRange(q, key.index);
        OutsideIsEmpty(s, now, q, Low(q, key.index), High(q, key.index));
      }
      Untouched(segments, s, now, q, count, totals, key);
    }
  }

  lemma InsideRange(q: Query, index: int)
    requires BucketCount(q).Ok? && 0 <= index < BucketCount(q).value
    ensures q.begin <= Low(q, index) && High(q, index) <= q.end
  {
    SecondsPositive(q);
    TimesGrows(0, index, Step(q));
  }

  method Tally(segments: seq<Segment>, q: Query, count: int, now: int) returns (totals: map<Key, Entry>)
    requires ValidSegments(segments) && BucketCount(q) == Ok(count)
    ensures AllRight(segments, now, q, count, totals)
  {
    hide AllRight;
    SecondsPositive(q);
    totals := map[];
    assert segments[..0] == [];
    NothingYet(q, count, now);
    for n := 0 to |segments|
      invariant ValidSegments(segments[..n]) && AllRight(segments[..n], now, q, count, totals)
    {
      var s := segments[n];
      assert segments[..n + 1] == segments[..n] + [s];
      if s.start >= q.end || EndOf(s, now) <= q.begin {
        SkipRight(segments[..n], s, now, q, totals);
        continue;
      }
      totals := Spread(s, q, count, now, totals, segments[..n]);
    }
    assert segments[..|segments|] == segments;
  }

  lemma NothingYet(q: Query, count: int, now: int)
    ensures AllRight([], now, q, count, map[])
  {
  }

  // ---- the rows --------------------------------------------------------------------------------

  ghost predicate Sorted(rows: seq<Row>) {
    forall i, j :: 0 <= i < j < |rows| ==> Before(rows[i].key, rows[j].key)
  }

  ghost predicate HasKey(rows: seq<Row>, key: Key) {
    exists i :: 0 <= i < |rows| && rows[i].key == key
  }

  function RowOf(key: Key, e: Entry): Row {
    var weight :=
      if e.amounts.normalized > 0.0 then e.amounts.dominant / e.amounts.normalized else e.latest.weight;
    Row(key, weight, e.amounts)
  }

  predicate IsLeast(keys: set<Key>, key: Key) {
    key in keys && forall k :: k in keys ==> k == key || Before(key, k)
  }

  lemma {:induction false} LeastExists(keys: set<Key>) returns (key: Key)
    requires keys != {}
    ensures IsLeast(keys, key)
  {
    key :| key in keys;
    var rest := keys - {key};
    if rest == {} {
      assert keys == {key};
    } else {
      var k := LeastExists(rest);
      assert keys == rest + {key};
      key := if Before(k, key) then k else key;
    }
  }

  lemma LeastComesFirst(keys: set<Key>, key: Key)
    requires IsLeast(keys, key)
    ensures forall k :: k in keys - {key} ==> Before(key, k)
  {
  }

  method BuildRows(totals: map<Key, Entry>) returns (rows: seq<Row>)
    ensures Sorted(rows)
    ensures forall key :: HasKey(rows, key) <==> key in totals
    ensures forall i :: 0 <= i < |rows| ==> rows[i].key in totals && rows[i] == RowOf(rows[i].key, totals[rows[i].key])
  {
    hide RowOf;
    rows := [];
    var pending := totals.Keys;
    while pending != {}
      invariant pending <= totals.Keys && Sorted(rows)
      invariant forall i, k :: 0 <= i < |rows| && k in pending ==> Before(rows[i].key, k)
      invariant forall key :: HasKey(rows, key) <==> key in totals && key !in pending
      invariant forall i :: 0 <= i < |rows| ==>
                  rows[i].key in totals && rows[i] == RowOf(rows[i].key, totals[rows[i].key])
      decreases |pending|
    {
      ghost var least := LeastExists(pending);
      var key :| key in pending && IsLeast(pending, key);
      var row := RowOf(key, totals[key]);
      KeyOfRow(key, totals[key]);
      AppendKey(rows, row);
      LeastComesFirst(pending, key);
      rows := rows + [row];
      pending := pending - {key};
    }
  }

  lemma KeyOfRow(key: Key, e: Entry)
    ensures RowOf(key, e).key == key
  {
  }

  lemma AppendKey(rows: seq<Row>, row: Row)
    ensures forall key :: HasKey(rows + [row], key) <==> HasKey(rows, key) || key == row.key
  {
    var more := rows + [row];
    assert more[|rows|] == row;
    forall key | HasKey(rows, key) ensures HasKey(more, key) {
      var i :| 0 <= i < |rows| && rows[i].key == key;
      assert more[i].key == key;
    }
  }

  /** What one row says: the bucket's amounts; their ratio as the weight, or when nothing was
      charged the weight of the latest overlapping segment. */
  ghost predicate RowOk(segments: seq<Segment>, now: int, q: Query, row: Row)
    requires ValidSegments(segments)
  {
    var t, low, high := row.key.tenant, Low(q, row.key.index), High(q, row.key.index);
    && row.amounts == Total(segments, t, now, low, high)
    && (row.amounts.normalized > 0.0 ==> row.weight == row.amounts.dominant / row.amounts.normalized)
    && (row.amounts.normalized <= 0.0 ==>
        exists s :: IsLatest(segments, t, now, low, high, s) && row.weight == s.weight)
  }

  /** Rows in order, one for each bucket and tenant that overlap, each of them right. */
  ghost predicate IsReport(segments: seq<Segment>, now: int, q: Query, count: int, rows: seq<Row>)
    requires ValidSegments(segments)
  {
    && Sorted(rows)
    && (forall key :: HasKey(rows, key) <==> KeyTouched(segments, now, q, count, key))
    && (forall i :: 0 <= i < |rows| ==> RowOk(segments, now, q, rows[i]))
  }

  method AggregateFairness(segments: seq<Segment>, q: Query, now: int) returns (r: Result<seq<Row>, QueryError>)
    requires ValidSegments(segments)
    ensures r.Err? ==> BucketCount(q) == Err(r.error)
    ensures r.Ok? ==> BucketCount(q).Ok? && IsReport(segments, now, q, BucketCount(q).value, r.value)
  {
    hide KeyTouched;
    hide RowOk;
    hide EntryOk;
    var checked := BucketCount(q);
    if checked.Err? {
      return Err(checked.error);
    }
    var totals := Tally(segments, q, checked.value, now);
    var rows := BuildRows(totals);
    forall key ensures HasKey(rows, key) <==> KeyTouched(segments, now, q, checked.value, key) {
      assert KeyOk(segments, now, q, checked.value, totals, key);
    }
    forall i | 0 <= i < |rows| ensures RowOk(segments, now, q, rows[i]) {
      assert KeyOk(segments, now, q, checked.value, totals, rows[i].key);
      EntryMakesRow(segments, now, q, rows[i].key, totals[rows[i].key]);
    }
    r := Ok(rows);
  }

  lemma EntryMakesRow(segments: seq<Segment>, now: int, q: Query, key: Key, e: Entry)
    requires ValidSegments(segments) && EntryOk(segments, now, q, key, e)
    ensures RowOk(segments, now, q, RowOf(key, e))
  {
    hide Total;
    hide IsLatest;
    hide Low;
    hide High;
  }

  // ---- the reported weight -----------------------------------------------------------------------

  ghost predicate WeightsWithin(segments: seq<Segment>, t: TenantId, now: int, low: int, high: int, least: real,
                                most: real) {
    forall i :: 0 <= i < |segments| && Touches(segments[i], t, now, low, high) ==> least <= segments[i].weight <= most
  }

  lemma ChargeWithin(s: Segment, ms: nat, least: real, most: real)
    requires s.share >= 0.0 && s.weight > 0.0 && least <= s.weight <= most
    ensures var c := Charge(s, ms);
            least * c.normalized <= c.dominant <= most * c.normalized && c.normalized >= 0.0
  {
    var d := s.share * Seconds(ms);
    var n := d / s.weight;
    assert n * s.weight == d && d >= 0.0;
    Cancel(0.0, n, s.weight);
    assert n * (s.weight - least) >= 0.0 && n * (most - s.weight) >= 0.0;
  }

  lemma BoundsAdd(least: real, most: real, a: Amounts, b: Amounts)
    requires least * a.normalized <= a.dominant <= most * a.normalized
    requires least * b.normalized <= b.dominant <= most * b.normalized
    ensures var c := a.Plus(b); least * c.normalized <= c.dominant <= most * c.normalized
  {
    assert least * (a.normalized + b.normalized) == least * a.normalized + least * b.normalized;
    assert most * (a.normalized + b.normalized) == most * a.normalized + most * b.normalized;
  }

  ghost predicate Between(a: Amounts, least: real, most: real) {
    least * a.normalized <= a.dominant <= most * a.normalized && a.normalized >= 0.0
  }

  lemma {:induction false} TotalWithin(segments: seq<Segment>, t: TenantId, now: int, low: int, high: int, least: real,
                                       most: real)
    requires ValidSegments(segments) && WeightsWithin(segments, t, now, low, high, least, most)
    ensures Between(Total(segments, t, now, low, high), least, most)
  {
    hide Touches;
    hide ChargeOf;
    hide Amounts.Plus;
    if segments != [] {
      var n := |segments| - 1;
      forall i | 0 <= i < n && Touches(segments[..n][i], t, now, low, high)
        ensures least <= segments[..n][i].weight <= most
      {
        assert segments[..n][i] == segments[i];
      }
      TotalWithin(segments[..n], t, now, low, high, least, most);
      assert Touches(segments[n], t, now, low, high) ==> least <= segments[n].weight <= most;
      ChargeOfWithin(segments[n], t, now, low, high, least, most);
      BetweenAdd(Total(segments[..n], t, now, low, high), ChargeOf(segments[n], t, now, low, high), least, most);
    }
  }

  lemma BetweenAdd(a: Amounts, b: Amounts, least: real, most: real)
    requires Between(a, least, most) && Between(b, least, most)
    ensures Between(a.Plus(b), least, most)
  {
    BoundsAdd(least, most, a, b);
  }

  lemma ChargeOfWithin(s: Segment, t: TenantId, now: int, low: int, high: int, least: real, most: real)
    requires s.share >= 0.0 && s.weight > 0.0
    requires Touches(s, t, now, low, high) ==> least <= s.weight <= most
    ensures Between(ChargeOf(s, t, now, low, high), least, most)
  {
    if Touches(s, t, now, low, high) {
      ChargeWithin(s, OverlapMs(s, now, low, high), least, most);
    } else {
      hide Touches;
      NoCharge(s, t, now, low, high);
    }
  }

  lemma RatioWithin(d: real, n: real, least: real, most: real)
    requires n > 0.0 && least * n <= d <= most * n
    ensures least <= d / n <= most && d / n * n == d
  {
    var r := d / n;
    assert r * n == d;
    Cancel(least, r, n);
    Cancel(r, most, n);
  }

  /** A row's weight times its normalized service is its resource-time, and the weight lies
      between the smallest and the largest weight of the segments overlapping the bucket. */
  lemma RowWeight(segments: seq<Segment>, now: int, q: Query, row: Row, least: real, most: real)
    requires ValidSegments(segments) && RowOk(segments, now, q, row)
    requires WeightsWithin(segments, row.key.tenant, now, Low(q, row.key.index), High(q, row.key.index), least, most)
    ensures row.weight * row.amounts.normalized == row.amounts.dominant
    ensures least <= row.weight <= most
  {
    hide Total;
    hide Touches;
    hide Low;
    hide High;
    var t, low, high := row.key.tenant, Low(q, row.key.index), High(q, row.key.index);
    TotalWithin(segments, t, now, low, high, least, most);
    var d, n := row.amounts.dominant, row.amounts.normalized;
    if n > 0.0 {
      RatioWithin(d, n, least, most);
    } else {
      var s :| IsLatest(segments, t, now, low, high, s) && row.weight == s.weight;
      var i :| 0 <= i < |segments| && segments[i] == s && Touches(segments[i], t, now, low, high);
      assert least <= segments[i].weight <= most;
      assert n == 0.0 && d == 0.0 by {
        assert least * 0.0 == 0.0 && most * 0.0 == 0.0;
      }
    }
  }

  // ---- what the rows add up to -----------------------------------------------------------------

  /** The amounts a report gives for a key: those of its row, or nothing. */
  function Given(rows: seq<Row>, key: Key): Amounts {
    if rows == [] then NONE
    else if rows[|rows| - 1].key == key then rows[|rows| - 1].amounts
    else Given(rows[..|rows| - 1], key)
  }

  lemma {:induction false} GivenRow(rows: seq<Row>, key: Key)
    ensures HasKey(rows, key) ==>
              exists i :: 0 <= i < |rows| && rows[i].key == key && Given(rows, key) == rows[i].amounts
    ensures !HasKey(rows, key) ==> Given(rows, key) == NONE
  {
    if rows != [] {
      var n := |rows| - 1;
      assert rows == rows[..n] + [rows[n]];
      AppendKey(rows[..n], rows[n]);
      GivenRow(rows[..n], key);
    }
  }

  lemma GivenIsTotal(segments: seq<Segment>, now: int, q: Query, count: int, rows: seq<Row>, key: Key)
    requires ValidSegments(segments) && IsReport(segments, now, q, count, rows) && 0 <= key.index < count
    ensures Given(rows, key) == Total(segments, key.tenant, now, Low(q, key.index), High(q, key.index))
  {
    hide Total;
    hide Low;
    hide High;
    hide Touched;
    GivenRow(rows, key);
    if !HasKey(rows, key) {
      UntouchedTotal(segments, key.tenant, now, Low(q, key.index), High(q, key.index));
    } else {
      var i :| 0 <= i < |rows| && rows[i].key == key && Given(rows, key) == rows[i].amounts;
      assert RowOk(segments, now, q, rows[i]);
    }
  }

  /** The rows of one tenant from bucket `first` up to `last`, added together. */
  function RowSum(rows: seq<Row>, t: TenantId, first: int, last: int): Amounts
    requires first <= last
    decreases last - first
  {
    if first == last then NONE else RowSum(rows, t, first, last - 1).Plus(Given(rows, Key(last - 1, t)))
  }

  lemma {:induction false} RowsAreBuckets(segments: seq<Segment>, now: int, q: Query, count: int, rows: seq<Row>,
                                          t: TenantId, first: int, last: int)
    requires ValidSegments(segments) && IsReport(segments, now, q, count, rows) && 0 <= first <= last <= count
    ensures RowSum(rows, t, first, last) == BucketSum(segments, t, now, q, first, last)
    decreases last - first
  {
    hide IsReport;
    hide Total;
    hide Given;
    if first < last {
      RowsAreBuckets(segments, now, q, count, rows, t, first, last - 1);
      GivenIsTotal(segments, now, q, count, rows, Key(last - 1, t));
    }
  }

  /** Conservation: a tenant's reported occupancies add up to the clipped length of its segments. */
  lemma ReportConserves(segments: seq<Segment>, now: int, q: Query, rows: seq<Row>, t: TenantId)
    requires ValidSegments(segments) && BucketCount(q).Ok? && IsReport(segments, now, q, BucketCount(q).value, rows)
    ensures BucketCount(q).value >= 0
    ensures RowSum(rows, t, 0, BucketCount(q).value).occupancy == Seconds(ClippedMs(segments, t, now, q))
    ensures RowSum(rows, t, 0, BucketCount(q).value) == Total(segments, t, now, q.begin, q.end)
  {
    hide IsReport;
    Conservation(segments, t, now, q);
    RowsAreBuckets(segments, now, q, BucketCount(q).value, rows, t, 0, BucketCount(q).value);
  }

  /** Grouping: a report with k-fold buckets gives what k consecutive rows of the finer one add up to. */
  lemma ReportGroups(segments: seq<Segment>, now: int, q: Query, rows: seq<Row>, k: int, q': Query, rows': seq<Row>,
                     t: TenantId, index: int)
    requires ValidSegments(segments) && Coarser(q, k, q') && 0 <= index < BucketCount(q').value
    requires IsReport(segments, now, q, BucketCount(q).value, rows)
             && IsReport(segments, now, q', BucketCount(q').value, rows')
    ensures var first, last := k * index, Min(k * (index + 1), BucketCount(q).value);
            0 <= first <= last && Given(rows', Key(index, t)) == RowSum(rows, t, first, last)
  {
    hide IsReport;
    var first, last := k * index, Min(k * (index + 1), BucketCount(q).value);
    Grouping(segments, t, now, q, k, q', index);
    GivenIsTotal(segments, now, q', BucketCount(q').value, rows', Key(index, t));
    RowsAreBuckets(segments, now, q, BucketCount(q).value, rows, t, first, last);
  }

  // ---- the order of the segments -----------------------------------------------------------------

  ghost predicate DistinctIds(segments: seq<Segment>) {
    forall i, j :: 0 <= i < j < |segments| ==> segments[i].id != segments[j].id
  }

  function Drop(segments: seq<Segment>, k: nat): seq<Segment>
    requires k < |segments|
  {
    segments[..k] + segments[k + 1..]
  }

  lemma {:induction false} DropTotal(segments: seq<Segment>, k: nat, t: TenantId, now: int, low: int, high: int)
    requires ValidSegments(segments) && k < |segments|
    ensures ValidSegments(Drop(segments, k))
    ensures Total(segments, t, now, low, high)
            == Total(Drop(segments, k), t, now, low, high).Plus(ChargeOf(segments[k], t, now, low, high))
  {
    hide ChargeOf;
    hide Amounts.Plus;
    var n := |segments| - 1;
    if k == n {
      assert Drop(segments, k) == segments[..n];
    } else {
      DropTotal(segments[..n], k, t, now, low, high);
      var rest := Drop(segments[..n], k);
      assert Drop(segments, k) == rest + [segments[n]];
      TotalSnoc(rest, segments[n], t, now, low, high);
      Swap(Total(rest, t, now, low, high), ChargeOf(segments[k], t, now, low, high),
           ChargeOf(segments[n], t, now, low, high));
    }
  }

  lemma Swap(a: Amounts, b: Amounts, c: Amounts)
    ensures a.Plus(b).Plus(c) == a.Plus(c).Plus(b)
  {
  }

  lemma DropMultiset(segments: seq<Segment>, k: nat)
    requires k < |segments|
    ensures multiset(Drop(segments, k)) == multiset(segments) - multiset{segments[k]}
  {
    assert segments == segments[..k] + [segments[k]] + segments[k + 1..];
  }

  /** The last segment of one order, found in the other. */
  lemma FindLast(a: seq<Segment>, b: seq<Segment>) returns (k: nat)
    requires multiset(a) == multiset(b) && b != []
    ensures k < |a| && a[k] == b[|b| - 1] && multiset(Drop(a, k)) == multiset(b[..|b| - 1])
  {
    var n := |b| - 1;
    assert b[n] in multiset(b);
    assert b[n] in a;
    k :| 0 <= k < |a| && a[k] == b[n];
    DropMultiset(a, k);
    DropMultiset(b, n);
    assert Drop(b, n) == b[..n];
  }

  lemma TotalLast(segments: seq<Segment>, t: TenantId, now: int, low: int, high: int)
    requires ValidSegments(segments) && segments != []
    ensures var n := |segments| - 1;
            && ValidSegments(segments[..n])
            && Total(segments, t, now, low, high)
               == Total(segments[..n], t, now, low, high).Plus(ChargeOf(segments[n], t, now, low, high))
  {
  }

  /** Totals do not depend on the order of the segments. */
  lemma {:induction false} TotalPermuted(a: seq<Segment>, b: seq<Segment>, t: TenantId, now: int, low: int, high: int)
    requires ValidSegments(a) && ValidSegments(b) && multiset(a) == multiset(b)
    ensures Total(a, t, now, low, high) == Total(b, t, now, low, high)
    decreases |b|
  {
    SameLength(a, b);
    if b != [] {
      hide *;
      var n := |b| - 1;
      var k := FindLast(a, b);
      DropTotal(a, k, t, now, low, high);
      TotalLast(b, t, now, low, high);
      TotalPermuted(Drop(a, k), b[..n], t, now, low, high);
    }
  }

  lemma SameLength(a: seq<Segment>, b: seq<Segment>)
    requires multiset(a) == multiset(b)
    ensures |a| == |b|
  {
    assert |multiset(a)| == |a| && |multiset(b)| == |b|;
  }

  lemma InBoth(a: seq<Segment>, b: seq<Segment>, i: nat) returns (j: nat)
    requires multiset(a) == multiset(b) && i < |a|
    ensures j < |b| && b[j] == a[i]
  {
    assert a[i] in multiset(a);
    assert a[i] in b;
    j :| 0 <= j < |b| && b[j] == a[i];
  }

  lemma TouchedPermuted(a: seq<Segment>, b: seq<Segment>, t: TenantId, now: int, low: int, high: int)
    requires multiset(a) == multiset(b) && Touched(a, t, now, low, high)
    ensures Touched(b, t, now, low, high)
  {
    hide Touches;
    var i :| 0 <= i < |a| && Touches(a[i], t, now, low, high);
    var j := InBoth(a, b, i);
    assert Touches(b[j], t, now, low, high);
  }

  /** With distinct identifiers there is one latest segment, whatever the order. */
  lemma LatestPermuted(a: seq<Segment>, b: seq<Segment>, t: TenantId, now: int, low: int, high: int, x: Segment,
                       y: Segment)
    requires multiset(a) == multiset(b) && DistinctIds(a)
    requires IsLatest(a, t, now, low, high, x) && IsLatest(b, t, now, low, high, y)
    ensures x == y
  {
    hide Touches;
    var i :| 0 <= i < |a| && a[i] == x && Touches(a[i], t, now, low, high);
    var j :| 0 <= j < |b| && b[j] == y && Touches(b[j], t, now, low, high);
    var i' := InBoth(a, b, i);
    var j' := InBoth(b, a, j);
    assert NotLater(b[i'], y) && NotLater(a[j'], x);
    assert a[i].id == a[j'].id;
  }

  lemma RowPermuted(a: seq<Segment>, b: seq<Segment>, now: int, q: Query, r: Row, r': Row)
    requires ValidSegments(a) && ValidSegments(b) && multiset(a) == multiset(b) && DistinctIds(a)
    requires RowOk(a, now, q, r) && RowOk(b, now, q, r') && r.key == r'.key
    ensures r == r'
  {
    hide Total;
    hide IsLatest;
    hide Low;
    hide High;
    var t, low, high := r.key.tenant, Low(q, r.key.index), High(q, r.key.index);
    TotalPermuted(a, b, t, now, low, high);
    if r.amounts.normalized <= 0.0 {
      var x :| IsLatest(a, t, now, low, high, x) && r.weight == x.weight;
      var y :| IsLatest(b, t, now, low, high, y) && r'.weight == y.weight;
      LatestPermuted(a, b, t, now, low, high, x, y);
    }
  }

  lemma {:induction false} SortedUnique(rows: seq<Row>, rows': seq<Row>)
    requires Sorted(rows) && Sorted(rows')
    requires forall key :: HasKey(rows, key) <==> HasKey(rows', key)
    ensures |rows| == |rows'| && forall i :: 0 <= i < |rows| ==> rows[i].key == rows'[i].key
    decreases |rows|
  {
    if rows == [] {
      if rows' != [] {
        assert HasKey(rows', rows'[0].key);
        assert false;
      }
    } else {
      assert HasKey(rows, rows[|rows| - 1].key);
      assert rows' != [];
      var n, m := |rows| - 1, |rows'| - 1;
      LastKey(rows, rows');
      forall key ensures HasKey(rows[..n], key) <==> HasKey(rows'[..m], key) {
        WithoutLast(rows, key);
        WithoutLast(rows', key);
      }
      SortedUnique(rows[..n], rows'[..m]);
    }
  }

  lemma LastIsLast(rows: seq<Row>, i: nat)
    requires Sorted(rows) && i < |rows|
    ensures rows[i].key == rows[|rows| - 1].key || Before(rows[i].key, rows[|rows| - 1].key)
  {
    assert i < |rows| - 1 ==> Before(rows[i].key, rows[|rows| - 1].key);
  }

  lemma LastKey(rows: seq<Row>, rows': seq<Row>)
    requires Sorted(rows) && Sorted(rows') && rows != [] && rows' != []
    requires forall key :: HasKey(rows, key) <==> HasKey(rows', key)
    ensures rows[|rows| - 1].key == rows'[|rows'| - 1].key
  {
    var n, m := |rows| - 1, |rows'| - 1;
    assert HasKey(rows, rows[n].key) && HasKey(rows', rows'[m].key);
    var i :| 0 <= i < |rows'| && rows'[i].key == rows[n].key;
    var j :| 0 <= j < |rows| && rows[j].key == rows'[m].key;
    LastIsLast(rows', i);
    LastIsLast(rows, j);
  }

  lemma WithoutLast(rows: seq<Row>, key: Key)
    requires Sorted(rows) && rows != []
    ensures HasKey(rows[..|rows| - 1], key) <==> HasKey(rows, key) && key != rows[|rows| - 1].key
  {
    var n := |rows| - 1;
    assert rows == rows[..n] + [rows[n]];
    AppendKey(rows[..n], rows[n]);
    if HasKey(rows[..n], key) {
      var i :| 0 <= i < n && rows[..n][i].key == key;
      assert Before(rows[i].key, rows[n].key);
    }
  }

  /** Listing the segments in another order gives the same report, row for row. */
  lemma ReportOrderFree(a: seq<Segment>, b: seq<Segment>, now: int, q: Query, count: int, rows: seq<Row>,
                        rows': seq<Row>)
    requires ValidSegments(a) && ValidSegments(b) && multiset(a) == multiset(b) && DistinctIds(a)
    requires IsReport(a, now, q, count, rows) && IsReport(b, now, q, count, rows')
    ensures rows == rows'
  {
    hide RowOk;
    hide Sorted;
    forall key ensures HasKey(rows, key) <==> HasKey(rows', key) {
      SameKeys(a, b, now, q, count, key);
    }
    SortedUnique(rows, rows');
    forall i | 0 <= i < |rows| ensures rows[i] == rows'[i] {
      RowPermuted(a, b, now, q, rows[i], rows'[i]);
    }
  }

  lemma SameKeys(a: seq<Segment>, b: seq<Segment>, now: int, q: Query, count: int, key: Key)
    requires multiset(a) == multiset(b)
    ensures KeyTouched(a, now, q, count, key) <==> KeyTouched(b, now, q, count, key)
  {
    hide Touched;
    if KeyTouched(a, now, q, count, key) {
      TouchedPermuted(a, b, key.tenant, now, Low(q, key.index), High(q, key.index));
    }
    if KeyTouched(b, now, q, count, key) {
      TouchedPermuted(b, a, key.tenant, now, Low(q, key.index), High(q, key.index));
    }
  }
}
