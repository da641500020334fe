/** What a tenant really held in a finished run never exceeds the largest share the window
    search finds for it, so a tenant excluded for its share could not have had that share. */
module HeldShare {
  import opened Resources
  import opened Workload
  import opened Ledger
  import opened SimulationState
  import opened SimulatorRun
  import opened ResourceTime
  import opened WindowShare
  import opened WeightedShares

  ghost predicate DistinctRecords(records: seq<Runtime>) {
    forall i, j :: 0 <= i < j < |records| ==> records[i].spec.id != records[j].spec.id
  }

  /** The job records of a result: every job of the run once, in any order. */
  ghost predicate Listing(jobs: map<JobId, Runtime>, records: seq<Runtime>) {
    && DistinctRecords(records)
    && (forall r :: r in records ==> r.spec.id in jobs && jobs[r.spec.id] == r)
    && (forall id :: id in jobs ==> jobs[id] in records)
  }

  lemma {:induction false} WindowMember(records: seq<Runtime>, t: TenantId, begin: int, end: int)
    ensures forall r :: r in WindowRecords(records, t, begin, end) <==> r in records && InWindow(r, t, begin, end)
  {
    hide InWindow;
    if records != [] {
      WindowMember(records[..|records| - 1], t, begin, end);
      assert records == records[..|records| - 1] + [records[|records| - 1]];
    }
  }

  lemma {:induction false} WindowDistinct(records: seq<Runtime>, t: TenantId, begin: int, end: int)
    requires DistinctRecords(records)
    ensures DistinctRecords(WindowRecords(records, t, begin, end))
  {
    hide InWindow;
    if records != [] {
      var n := |records| - 1;
      var rest := WindowRecords(records[..n], t, begin, end);
      WindowDistinct(records[..n], t, begin, end);
      WindowMember(records[..n], t, begin, end);
      forall i | 0 <= i < |rest| ensures rest[i].spec.id != records[n].spec.id {
        assert rest[i] in rest && rest[i] in records[..n];
      }
    }
  }

  lemma {:induction false} ActiveFrom(history: seq<Allocation>, instant: int)
    requires DistinctJobs(history)
    ensures forall a :: a in ActiveAt(history, instant) ==> a in history && ActiveIn(a, instant)
    ensures DistinctJobs(ActiveAt(history, instant))
  {
    if history != [] {
      var n := |history| - 1;
      var rest := ActiveAt(history[..n], instant);
      ActiveFrom(history[..n], instant);
      forall i | 0 <= i < |rest| ensures rest[i].job != history[n].job {
        assert rest[i] in rest && rest[i] in history[..n];
      }
    }
  }

  lemma {:induction false} MarkOneMore(records: seq<Runtime>, mask: seq<bool>, k: nat)
    requires |mask| == |records| && k < |records| && !mask[k]
    ensures Chosen(records, mask[k := true]) == Plus(Chosen(records, mask), records[k])
  {
    var n := |records| - 1;
    if k == n {
      assert mask[k := true][..n] == mask[..n];
    } else {
      MarkOneMore(records[..n], mask[..n], k);
      assert mask[k := true][..n] == mask[..n][k := true];
    }
  }

  ghost predicate HasRecord(records: seq<Runtime>, a: Allocation) {
    exists k :: 0 <= k < |records| && records[k].spec.id == a.job && records[k].spec.resources == a.resources
  }

  ghost predicate HasJob(active: seq<Allocation>, job: JobId) {
    exists i :: 0 <= i < |active| && active[i].job == job
  }

  lemma {:induction false} NoneMarked(records: seq<Runtime>, mask: seq<bool>)
    requires |mask| == |records| && forall k :: 0 <= k < |mask| ==> !mask[k]
    ensures Chosen(records, mask) == NOTHING
  {
    if records != [] {
      NoneMarked(records[..|records| - 1], mask[..|records| - 1]);
    }
  }

  /** The marked jobs are held, and add up to what the tenant holds. */
  ghost predicate Represents(records: seq<Runtime>, active: seq<Allocation>, t: TenantId, mask: seq<bool>) {
    && |mask| == |records| && Chosen(records, mask) == Level(Use(active, Of(t)), Count(active, Of(t)))
    && (forall k :: 0 <= k < |mask| && mask[k] ==> HasJob(active, records[k].spec.id))
  }

  lemma StillMarked(records: seq<Runtime>, active: seq<Allocation>, a: Allocation, mask: seq<bool>)
    requires |mask| == |records| && forall k :: 0 <= k < |mask| && mask[k] ==> HasJob(active, records[k].spec.id)
    ensures forall k :: 0 <= k < |mask| && mask[k] ==> HasJob(active + [a], records[k].spec.id)
  {
    forall k | 0 <= k < |mask| && mask[k] ensures HasJob(active + [a], records[k].spec.id) {
      var i :| 0 <= i < |active| && active[i].job == records[k].spec.id;
      assert (active + [a])[i].job == records[k].spec.id;
    }
  }

  lemma AddHeld(records: seq<Runtime>, active: seq<Allocation>, a: Allocation, t: TenantId, mask: seq<bool>)
    returns (mask': seq<bool>)
    requires Represents(records, active, t, mask) && !HasJob(active, a.job)
    requires a.tenant == t ==> HasRecord(records, a)
    ensures Represents(records, active + [a], t, mask')
  {
    hide Chosen;
    hide Use;
    hide Count;
    UseAppend(active, a, Of(t));
    StillMarked(records, active, a, mask);
    mask' := mask;
    if a.tenant == t {
      var k :| 0 <= k < |records| && records[k].spec.id == a.job && records[k].spec.resources == a.resources;
      MarkOneMore(records, mask, k);
      mask' := mask[k := true];
      assert (active + [a])[|active|].job == records[k].spec.id;
    } else {
      AddZero(Use(active, Of(t)));
    }
  }

  /** What a tenant holds is a choice among its recorded jobs. */
  lemma {:induction false} HeldIsChosen(records: seq<Runtime>, active: seq<Allocation>, t: TenantId)
    returns (mask: seq<bool>)
    requires DistinctJobs(active)
    requires forall i :: 0 <= i < |active| && active[i].tenant == t ==> HasRecord(records, active[i])
    ensures Represents(records, active, t, mask)
    decreases |active|
  {
    if active == [] {
      mask := seq(|records|, k => false);
      NoneMarked(records, mask);
    } else {
      hide Represents;
      var n := |active| - 1;
      mask := HeldIsChosen(records, active[..n], t);
      assert active == active[..n] + [active[n]];
      mask := AddHeld(records, active[..n], active[n], t, mask);
    }
  }

  lemma ActiveHasRecord(trace: Trace, jobs: map<JobId, Runtime>, history: seq<Allocation>, log: seq<Clock.Event>,
                        records: seq<Runtime>, t: TenantId, begin: int, end: int, instant: int, a: Allocation)
    requires Delivered(trace, jobs, history, log) && Listing(jobs, records) && begin <= instant < end
    requires a in history && ActiveIn(a, instant) && a.tenant == t
    ensures HasRecord(WindowRecords(records, t, begin, end), a)
  {
    hide GpusOk;
    hide AlwaysSafe;
    hide Feasible;
    var i :| 0 <= i < |history| && history[i] == a;
    assert Records(jobs, history[i]);
    var r := jobs[a.job];
    assert SettledJob(trace, a.job, r);
    assert InWindow(r, t, begin, end);
    WindowMember(records, t, begin, end);
    var inside := WindowRecords(records, t, begin, end);
    assert r in inside;
    var k :| 0 <= k < |inside| && inside[k] == r;
  }

  lemma HeldAllowed(config: Config, active: seq<Allocation>, t: TenantId)
    requires Safe(config, active) && KnownTenant(config.tenants, t)
    ensures Allowed(LimitsOf(config, t), Level(Use(active, Of(t)), Count(active, Of(t))))
  {
    UsePart(active, t);
    assert FindTenant(config.tenants, t) in config.tenants;
  }

  /** At every instant of the window a tenant's dominant share is at most the largest one. */
  lemma HeldWithinLargest(trace: Trace, jobs: map<JobId, Runtime>, history: seq<Allocation>, log: seq<Clock.Event>,
                          records: seq<Runtime>, t: TenantId, begin: int, end: int, share: real, instant: int)
    requires Delivered(trace, jobs, history, log) && Listing(jobs, records) && begin <= instant < end
    requires KnownTenant(trace.config.tenants, t)
    requires IsLargest(LimitsOf(trace.config, t), WindowRecords(records, t, begin, end), share)
    ensures ShareAt(history, trace.config.capacity, t, instant) <= share
  {
    hide DominantShare;
    hide Allowed;
    hide Safe;
    var active := ActiveAt(history, instant);
    var inside := WindowRecords(records, t, begin, end);
    ActiveFrom(history, instant);
    WindowDistinct(records, t, begin, end);
    forall i | 0 <= i < |active| && active[i].tenant == t ensures HasRecord(inside, active[i]) {
      assert active[i] in active;
      ActiveHasRecord(trace, jobs, history, log, records, t, begin, end, instant, active[i]);
    }
    var mask := HeldIsChosen(inside, active, t);
    assert Safe(trace.config, ActiveAt(history, instant));
    HeldAllowed(trace.config, active, t);
    assert Within(LimitsOf(trace.config, t), inside, mask);
  }

  lemma {:induction false} IntegralAtMost(allocations: seq<Allocation>, capacity: ResourceVector, t: TenantId, a: int,
                                          b: int, share: real)
    requires a <= b
    requires forall instant :: a <= instant < b ==> ShareAt(allocations, capacity, t, instant) <= share
    ensures Integral(allocations, capacity, t, a, b) <= share * (b - a) as real
    decreases b - a
  {
    hide ShareAt;
    if a < b {
      IntegralAtMost(allocations, capacity, t, a, b - 1, share);
      assert share * (b - a) as real == share * (b - 1 - a) as real + share;
    }
  }

  lemma BelowPart(time: real, share: real, part: real, length: real)
    requires time <= share * length && share < part && length > 0.0
    ensures time < part * length
  {
    assert (part - share) * length > 0.0;
  }

  /** A tenant the exclusion loop finds limited really received less than its weighted part of
      the window, whatever the policy did. */
  lemma LimitedReceivesLess(trace: Trace, jobs: map<JobId, Runtime>, history: seq<Allocation>, log: seq<Clock.Event>,
                            records: seq<Runtime>, t: TenantId, begin: int, end: int, share: real, weight: int,
                            total: int)
    requires Delivered(trace, jobs, history, log) && Listing(jobs, records) && begin < end && total > 0
    requires KnownTenant(trace.config.tenants, t)
    requires IsLargest(LimitsOf(trace.config, t), WindowRecords(records, t, begin, end), share)
    requires Limited(share, weight, total)
    ensures Integral(history, trace.config.capacity, t, begin, end)
            < weight as real / total as real * (end - begin) as real
  {
    hide ShareAt;
    hide Delivered;
    hide Listing;
    hide IsLargest;
    forall instant | begin <= instant < end ensures ShareAt(history, trace.config.capacity, t, instant) <= share {
      HeldWithinLargest(trace, jobs, history, log, records, t, begin, end, share, instant);
    }
    IntegralAtMost(history, trace.config.capacity, t, begin, end, share);
    BelowPart(Integral(history, trace.config.capacity, t, begin, end), share, weight as real / total as real,
              (end - begin) as real);
  }
}
