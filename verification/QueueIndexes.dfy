/** The two derived queue tables kept by triggers: the head of each tenant and priority
    (migrations/versions/20260925_0008_b13_queue_heads.py), and the count of queued CPU jobs
    by request size (migrations/versions/20260925_0017_b13_quota_headroom.py), under either
    queue predicate (migrations/versions/20260926_0019_b15_control_recovery.py). */
module QueueIndexes {
  import opened Basics
  import opened Wrappers

  type TenantId = int
  type JobId = int

  datatype State = Queued | Dispatching | Running | Pausing | Paused | Recovering | RetryWait
                 | Cancelling | Succeeded | Failed | Cancelled

  datatype Desired = WantRunning | WantPaused | WantCancelled

  datatype JobRow = JobRow(tenant: TenantId, state: State, desired: Desired, checkpointForPause: bool,
                           priority: int, ready: int, eligibleSince: Option<int>, retryReady: Option<int>)

  datatype SpecRow = SpecRow(tenant: TenantId, cpu: int, memory: int, gpu: int)

  datatype Slot = Slot(tenant: TenantId, priority: int)

  datatype Head = Head(job: JobId, ready: int, eligibleSince: Option<int>, retryReady: Option<int>)

  datatype Size = Size(tenant: TenantId, cpu: int, memory: int)

  /** The queue predicate, before and after it was widened to checkpoint-for-pause jobs. */
  predicate InQueue(widened: bool, row: JobRow) {
    row.state == Queued && (widened || (row.desired == WantRunning && !row.checkpointForPause))
  }

  // ---- queue heads -------------------------------------------------------------------------

  predicate InSlot(widened: bool, row: JobRow, slot: Slot) {
    InQueue(widened, row) && row.tenant == slot.tenant && row.priority == slot.priority
  }

  predicate ComesBefore(a: JobRow, i: JobId, b: JobRow, j: JobId) {
    a.ready < b.ready || (a.ready == b.ready && i <= j)
  }

  /** `ORDER BY ready_sequence, job_id LIMIT 1`. */
  predicate IsFirst(widened: bool, jobs: map<JobId, JobRow>, slot: Slot, id: JobId) {
    id in jobs && InSlot(widened, jobs[id], slot)
    && forall j :: j in jobs && InSlot(widened, jobs[j], slot) ==> ComesBefore(jobs[id], id, jobs[j], j)
  }

  predicate Occupied(widened: bool, jobs: map<JobId, JobRow>, slot: Slot) {
    exists j :: j in jobs && InSlot(widened, jobs[j], slot)
  }

  function HeadFor(row: JobRow, id: JobId): Head {
    Head(id, row.ready, row.eligibleSince, row.retryReady)
  }

  lemma {:induction false} FirstAmong(jobs: map<JobId, JobRow>, ids: set<JobId>) returns (m: JobId)
    requires ids != {} && forall j :: j in ids ==> j in jobs
    ensures m in ids && forall j :: j in ids ==> ComesBefore(jobs[m], m, jobs[j], j)
  {
    HasElement(ids);
    m :| m in ids;
    var rest := ids - {m};
    if rest == {} {
      assert ids == {m};
    } else {
      var k := FirstAmong(jobs, rest);
      assert ids == rest + {m};
      m := if ComesBefore(jobs[k], k, jobs[m], m) then k else m;
    }
  }

  lemma FirstExists(widened: bool, jobs: map<JobId, JobRow>, slot: Slot)
    requires Occupied(widened, jobs, slot)
    ensures exists id :: IsFirst(widened, jobs, slot, id)
  {
    var ids := set j | j in jobs && InSlot(widened, jobs[j], slot);
    var j :| j in jobs && InSlot(widened, jobs[j], slot);
    assert j in ids;
    var m := FirstAmong(jobs, ids);
    assert IsFirst(widened, jobs, slot, m);
  }

  /** A slot has a head row exactly when it is occupied, and the row is its first job's. */
  ghost predicate HeadOk(widened: bool, jobs: map<JobId, JobRow>, heads: map<Slot, Head>, slot: Slot) {
    if Occupied(widened, jobs, slot) then
      && slot in heads && IsFirst(widened, jobs, slot, heads[slot].job)
      && heads[slot] == HeadFor(jobs[heads[slot].job], heads[slot].job)
    else slot !in heads
  }

  ghost predicate HeadsOk(widened: bool, jobs: map<JobId, JobRow>, heads: map<Slot, Head>) {
    forall slot :: HeadOk(widened, jobs, heads, slot)
  }

  /** A row outside a slot before and after an update does not matter to the slot. */
  lemma OtherSlot(widened: bool, jobs: map<JobId, JobRow>, heads: map<Slot, Head>, id: JobId, row: JobRow, slot: Slot)
    requires HeadOk(widened, jobs, heads, slot)
    requires id in jobs ==> !InSlot(widened, jobs[id], slot)
    requires !InSlot(widened, row, slot)
    ensures HeadOk(widened, jobs[id := row], heads, slot)
  {
    var jobs' := jobs[id := row];
    if Occupied(widened, jobs, slot) {
      var j :| j in jobs && InSlot(widened, jobs[j], slot);
      assert j in jobs' && InSlot(widened, jobs'[j], slot);
      assert IsFirst(widened, jobs', slot, heads[slot].job);
    }
  }

  /** The skip branch: membership and position are unchanged and the row is not the head, so
      only ages that no head row shows can have changed. */
  lemma SkipSafe(widened: bool, jobs: map<JobId, JobRow>, heads: map<Slot, Head>, id: JobId, row: JobRow, slot: Slot)
    requires HeadOk(widened, jobs, heads, slot) && id in jobs
    requires row == jobs[id].(eligibleSince := row.eligibleSince, retryReady := row.retryReady)
    requires slot in heads ==> heads[slot].job != id
    ensures HeadOk(widened, jobs[id := row], heads, slot)
  {
    var jobs' := jobs[id := row];
    assert forall j :: j in jobs' ==> InSlot(widened, jobs'[j], slot) == InSlot(widened, jobs[j], slot);
    if Occupied(widened, jobs, slot) {
      var j :| j in jobs && InSlot(widened, jobs[j], slot);
      assert j in jobs' && InSlot(widened, jobs'[j], slot);
      assert IsFirst(widened, jobs', slot, heads[slot].job);
    }
  }

  // ---- request sizes -----------------------------------------------------------------------

  predicate Counted(widened: bool, jobs: map<JobId, JobRow>, specs: map<JobId, SpecRow>, size: Size, id: JobId) {
    && id in jobs && InQueue(widened, jobs[id])
    && id in specs && specs[id].gpu == 0 && Size(specs[id].tenant, specs[id].cpu, specs[id].memory) == size
  }

  /** The queued CPU jobs of one request size. */
  function Members(widened: bool, jobs: map<JobId, JobRow>, specs: map<JobId, SpecRow>, size: Size): set<JobId> {
    set id | id in jobs && Counted(widened, jobs, specs, size, id)
  }

  ghost predicate SizeOk(widened: bool, jobs: map<JobId, JobRow>, specs: map<JobId, SpecRow>, sizes: map<Size, int>,
                         size: Size) {
    var n := |Members(widened, jobs, specs, size)|;
    if n > 0 then size in sizes && sizes[size] == n else size !in sizes
  }

  ghost predicate SizesOk(widened: bool, jobs: map<JobId, JobRow>, specs: map<JobId, SpecRow>, sizes: map<Size, int>) {
    forall size :: SizeOk(widened, jobs, specs, sizes, size)
  }

  /** nexa_b13_queue_size_delta on a row's own size: None is the data_corrupted exception. */
  function Bump(sizes: map<Size, int>, size: Size, up: bool): Option<map<Size, int>> {
    if up then Some(sizes[size := (if size in sizes then sizes[size] else 0) + 1])
    else if size in sizes && sizes[size] > 1 then Some(sizes[size := sizes[size] - 1])
    else if size in sizes then Some(sizes - {size})
    else None
  }

  /** The same, looked up through the job's specification. */
  function Delta(specs: map<JobId, SpecRow>, sizes: map<Size, int>, id: JobId, up: bool): Option<map<Size, int>> {
    if id !in specs || specs[id].gpu != 0 then Some(sizes)
    else Bump(sizes, Size(specs[id].tenant, specs[id].cpu, specs[id].memory), up)
  }

  lemma SameCounted(widened: bool, jobs: map<JobId, JobRow>, jobs': map<JobId, JobRow>, specs: map<JobId, SpecRow>,
                    specs': map<JobId, SpecRow>, size: Size, j: JobId)
    requires (j in jobs <==> j in jobs') && (j in jobs ==> jobs'[j] == jobs[j])
    requires (j in specs <==> j in specs') && (j in specs ==> specs'[j] == specs[j])
    ensures Counted(widened, jobs', specs', size, j) <==> Counted(widened, jobs, specs, size, j)
  {
  }

  lemma MembersGain(widened: bool, jobs: map<JobId, JobRow>, jobs': map<JobId, JobRow>, specs: map<JobId, SpecRow>,
                    specs': map<JobId, SpecRow>, id: JobId, size: Size)
    requires jobs'.Keys == jobs.Keys + {id} && specs'.Keys <= specs.Keys + {id} && specs.Keys <= specs'.Keys
    requires forall j :: j in jobs && j != id ==> jobs'[j] == jobs[j]
    requires forall j :: j in specs && j != id ==> specs'[j] == specs[j]
    requires !Counted(widened, jobs, specs, size, id)
    ensures |Members(widened, jobs', specs', size)| ==
            |Members(widened, jobs, specs, size)| + if Counted(widened, jobs', specs', size, id) then 1 else 0
  {
    var before, after := Members(widened, jobs, specs, size), Members(widened, jobs', specs', size);
    assert id !in before;
    hide InQueue;
    forall j | j != id ensures j in after <==> j in before {
      SameCounted(widened, jobs, jobs', specs, specs', size, j);
    }
    if Counted(widened, jobs', specs', size, id) {
      assert forall j :: j in after <==> j in before + {id};
      assert after == before + {id};
    } else {
      assert forall j :: j in after <==> j in before;
      assert after == before;
    }
  }

  /** A job that enters the count adds one to its own size and leaves other sizes alone. */
  lemma EnterCount(widened: bool, jobs: map<JobId, JobRow>, jobs': map<JobId, JobRow>, specs: map<JobId, SpecRow>,
                   specs': map<JobId, SpecRow>, sizes: map<Size, int>, id: JobId)
    requires SizesOk(widened, jobs, specs, sizes)
    requires jobs'.Keys == jobs.Keys + {id} && specs'.Keys <= specs.Keys + {id} && specs.Keys <= specs'.Keys
    requires forall j :: j in jobs && j != id ==> jobs'[j] == jobs[j]
    requires forall j :: j in specs && j != id ==> specs'[j] == specs[j]
    requires !(id in jobs && InQueue(widened, jobs[id])) || id !in specs
    requires InQueue(widened, jobs'[id])
    ensures Delta(specs', sizes, id, true).Some?
    ensures SizesOk(widened, jobs', specs', Delta(specs', sizes, id, true).value)
  {
    var sizes' := Delta(specs', sizes, id, true).value;
    forall size ensures SizeOk(widened, jobs', specs', sizes', size) {
      assert SizeOk(widened, jobs, specs, sizes, size);
      MembersGain(widened, jobs, jobs', specs, specs', id, size);
    }
  }

  /** A job that leaves the count takes one off its own size; its row is sure to exist. */
  lemma LeaveCount(widened: bool, jobs: map<JobId, JobRow>, specs: map<JobId, SpecRow>, sizes: map<Size, int>,
                   id: JobId, row: JobRow)
    requires SizesOk(widened, jobs, specs, sizes)
    requires id in jobs && InQueue(widened, jobs[id]) && !InQueue(widened, row)
    ensures Delta(specs, sizes, id, false).Some?
    ensures SizesOk(widened, jobs[id := row], specs, Delta(specs, sizes, id, false).value)
  {
    var jobs' := jobs[id := row];
    assert jobs == jobs'[id := jobs[id]];
    if id in specs && specs[id].gpu == 0 {
      var own := Size(specs[id].tenant, specs[id].cpu, specs[id].memory);
      assert id in Members(widened, jobs, specs, own);
      assert SizeOk(widened, jobs, specs, sizes, own);
    }
    var sizes' := Delta(specs, sizes, id, false).value;
    forall size ensures SizeOk(widened, jobs', specs, sizes', size) {
      assert SizeOk(widened, jobs, specs, sizes, size);
      MembersGain(widened, jobs', jobs, specs, specs, id, size);
    }
  }

  /** A job whose queue membership does not change leaves every count alone. */
  lemma SameCount(widened: bool, jobs: map<JobId, JobRow>, specs: map<JobId, SpecRow>, sizes: map<Size, int>, id: JobId,
                  row: JobRow)
    requires SizesOk(widened, jobs, specs, sizes)
    requires (id in jobs && InQueue(widened, jobs[id])) == InQueue(widened, row)
    ensures SizesOk(widened, jobs[id := row], specs, sizes)
  {
    var jobs' := jobs[id := row];
    forall size ensures SizeOk(widened, jobs', specs, sizes, size) {
      assert SizeOk(widened, jobs, specs, sizes, size);
      assert Members(widened, jobs', specs, size) == Members(widened, jobs, specs, size);
    }
  }

  // ---- changing the predicate ----------------------------------------------------------------

  /** Queued for the wide predicate only. */
  predicate PausedQueued(jobs: map<JobId, JobRow>, id: JobId) {
    id in jobs && InQueue(true, jobs[id]) && !InQueue(false, jobs[id])
  }

  /** The guard of the downgrade: no such row. */
  ghost predicate NoPausedQueued(jobs: map<JobId, JobRow>) {
    forall id :: !PausedQueued(jobs, id)
  }

  /** Under the guard both predicates see the same queue, so both tables survive the switch. */
  lemma SwitchPredicate(jobs: map<JobId, JobRow>, specs: map<JobId, SpecRow>, heads: map<Slot, Head>,
                        sizes: map<Size, int>)
    requires NoPausedQueued(jobs)
    ensures HeadsOk(true, jobs, heads) <==> HeadsOk(false, jobs, heads)
    ensures SizesOk(true, jobs, specs, sizes) <==> SizesOk(false, jobs, specs, sizes)
  {
    assert forall id :: id in jobs ==> !PausedQueued(jobs, id);
    forall slot ensures HeadOk(true, jobs, heads, slot) == HeadOk(false, jobs, heads, slot) {
      assert forall id :: id in jobs ==> InSlot(true, jobs[id], slot) == InSlot(false, jobs[id], slot);
      assert Occupied(true, jobs, slot) == Occupied(false, jobs, slot);
    }
    forall size ensures SizeOk(true, jobs, specs, sizes, size) == SizeOk(false, jobs, specs, sizes, size) {
      SameMembers(jobs, specs, size);
    }
  }

  lemma SameMembers(jobs: map<JobId, JobRow>, specs: map<JobId, SpecRow>, size: Size)
    requires forall id :: PausedQueued(jobs, id) ==> !(id in specs && specs[id].gpu == 0)
    ensures Members(true, jobs, specs, size) == Members(false, jobs, specs, size)
  {
    forall id ensures id in Members(true, jobs, specs, size) <==> id in Members(false, jobs, specs, size) {
      assert PausedQueued(jobs, id) ==> !(id in specs && specs[id].gpu == 0);
    }
  }

  /** The upgrade widens the predicate without that guard and without rebuilding the tables.
      Counts that were right stay right exactly when no row queued only for the wide predicate
      is a CPU job with a specification. */
  lemma WidenSizes(jobs: map<JobId, JobRow>, specs: map<JobId, SpecRow>, sizes: map<Size, int>)
    requires SizesOk(false, jobs, specs, sizes)
    ensures SizesOk(true, jobs, specs, sizes) <==>
            forall id :: PausedQueued(jobs, id) ==> !(id in specs && specs[id].gpu == 0)
  {
    if forall id :: PausedQueued(jobs, id) ==> !(id in specs && specs[id].gpu == 0) {
      forall size ensures SizeOk(true, jobs, specs, sizes, size) {
        assert SizeOk(false, jobs, specs, sizes, size);
        SameMembers(jobs, specs, size);
      }
    } else {
      var id :| PausedQueued(jobs, id) && id in specs && specs[id].gpu == 0;
      var size := Size(specs[id].tenant, specs[id].cpu, specs[id].memory);
      var narrow, wide := Members(false, jobs, specs, size), Members(true, jobs, specs, size);
      assert id in wide && id !in narrow;
      SmallerSet(narrow, wide, id);
      assert SizeOk(false, jobs, specs, sizes, size);
      assert !SizeOk(true, jobs, specs, sizes, size);
    }
  }

  /** What a stale table leads to: when a row queued only for the wide predicate leaves the queue
      after the upgrade, its trigger raises the corruption exception exactly when the row is a CPU
      job with a specification and no narrowly queued job has its size. */
  lemma LeavingAfterWidening(jobs: map<JobId, JobRow>, specs: map<JobId, SpecRow>, sizes: map<Size, int>, id: JobId)
    requires SizesOk(false, jobs, specs, sizes) && PausedQueued(jobs, id)
    ensures Delta(specs, sizes, id, false).None? <==>
            && id in specs && specs[id].gpu == 0
            && Members(false, jobs, specs, Size(specs[id].tenant, specs[id].cpu, specs[id].memory)) == {}
  {
    if id in specs && specs[id].gpu == 0 {
      var size := Size(specs[id].tenant, specs[id].cpu, specs[id].memory);
      var members := Members(false, jobs, specs, size);
      assert SizeOk(false, jobs, specs, sizes, size);
      if members != {} {
        HasElement(members);
        assert |members| > 0;
      }
    }
  }

  /** A row of the narrow queue stands before this one in its slot. */
  predicate Preceded(jobs: map<JobId, JobRow>, id: JobId)
    requires id in jobs
  {
    exists j :: j in jobs && InSlot(false, jobs[j], Slot(jobs[id].tenant, jobs[id].priority))
                && ComesBefore(jobs[j], j, jobs[id], id)
  }

  ghost predicate AllPreceded(jobs: map<JobId, JobRow>) {
    forall id :: PausedQueued(jobs, id) ==> Preceded(jobs, id)
  }

  lemma NarrowHead(jobs: map<JobId, JobRow>, heads: map<Slot, Head>, slot: Slot)
    requires HeadOk(false, jobs, heads, slot) && AllPreceded(jobs)
    ensures HeadOk(true, jobs, heads, slot)
  {
    if j :| j in jobs && InSlot(true, jobs[j], slot) {
      if !InSlot(false, jobs[j], slot) {
        assert PausedQueued(jobs, j);
      }
      assert Occupied(false, jobs, slot);
      var first := heads[slot].job;
      forall k | k in jobs && InSlot(true, jobs[k], slot) ensures ComesBefore(jobs[first], first, jobs[k], k) {
        if !InSlot(false, jobs[k], slot) {
          assert PausedQueued(jobs, k);
          var m :| m in jobs && InSlot(false, jobs[m], slot) && ComesBefore(jobs[m], m, jobs[k], k);
        }
      }
      assert IsFirst(true, jobs, slot, first);
    }
  }

  /** Heads that were right stay right exactly when every such row stands behind a narrow one. */
  lemma WidenHeads(jobs: map<JobId, JobRow>, heads: map<Slot, Head>)
    requires HeadsOk(false, jobs, heads)
    ensures HeadsOk(true, jobs, heads) <==> AllPreceded(jobs)
  {
    if AllPreceded(jobs) {
      forall slot ensures HeadOk(true, jobs, heads, slot) {
        assert HeadOk(false, jobs, heads, slot);
        NarrowHead(jobs, heads, slot);
      }
    }
    if HeadsOk(true, jobs, heads) {
      forall id | PausedQueued(jobs, id) ensures Preceded(jobs, id) {
        var slot := Slot(jobs[id].tenant, jobs[id].priority);
        assert HeadOk(true, jobs, heads, slot) && HeadOk(false, jobs, heads, slot);
        assert Occupied(true, jobs, slot);
      }
    }
  }

  const PAUSED_ROW := JobRow(1, Queued, WantPaused, true, 0, 0, None, None)

  /** One queued checkpoint-for-pause job, which the new check constraint admits, is enough: empty
      tables are right for the narrow queue and wrong for the wide one. */
  lemma WideningCanLeaveTablesStale()
    ensures var jobs, specs := map[7 := PAUSED_ROW], map[7 := SpecRow(1, 100, 1, 0)];
            && HeadsOk(false, jobs, map[]) && SizesOk(false, jobs, specs, map[])
            && !HeadsOk(true, jobs, map[]) && !SizesOk(true, jobs, specs, map[])
  {
    var jobs, specs := map[7 := PAUSED_ROW], map[7 := SpecRow(1, 100, 1, 0)];
    var heads: map<Slot, Head>, sizes: map<Size, int> := map[], map[];
    forall size ensures SizeOk(false, jobs, specs, sizes, size) {
      assert forall id :: id !in Members(false, jobs, specs, size);
      assert Members(false, jobs, specs, size) == {};
    }
    assert PausedQueued(jobs, 7);
    WidenSizes(jobs, specs, sizes);
    WidenHeads(jobs, heads);
  }

  // ---- seeding ---------------------------------------------------------------------------------

  /** The foreign key from specifications to jobs: same job, same tenant. */
  ghost predicate SpecsMatch(jobs: map<JobId, JobRow>, specs: map<JobId, SpecRow>) {
    forall id :: id in specs ==> id in jobs && jobs[id].tenant == specs[id].tenant
  }

  /** `SELECT DISTINCT ON (tenant, priority) ... ORDER BY ready_sequence, job_id`. */
  function SeededHeads(widened: bool, jobs: map<JobId, JobRow>): map<Slot, Head> {
    map slot | slot in (set id | id in jobs :: Slot(jobs[id].tenant, jobs[id].priority))
      && Occupied(widened, jobs, slot) ::
      FirstExists(widened, jobs, slot);
      var id :| id in jobs && IsFirst(widened, jobs, slot, id);
      HeadFor(jobs[id], id)
  }

  predicate Joined(widened: bool, jobs: map<JobId, JobRow>, specs: map<JobId, SpecRow>, size: Size, id: JobId) {
    && id in jobs && InQueue(widened, jobs[id])
    && id in specs && specs[id].gpu == 0 && Size(jobs[id].tenant, specs[id].cpu, specs[id].memory) == size
  }

  function JoinedOf(widened: bool, jobs: map<JobId, JobRow>, specs: map<JobId, SpecRow>, size: Size): set<JobId> {
    set id | id in jobs && Joined(widened, jobs, specs, size, id)
  }

  /** `count(*)` of the joined rows of each group; groups without rows do not appear. */
  function SeededSizes(widened: bool, jobs: map<JobId, JobRow>, specs: map<JobId, SpecRow>): map<Size, int> {
    map size | size in (set id | id in jobs && id in specs :: Size(jobs[id].tenant, specs[id].cpu, specs[id].memory))
               && JoinedOf(widened, jobs, specs, size) != {} ::
      |JoinedOf(widened, jobs, specs, size)|
  }

  lemma SeedHeads(widened: bool, jobs: map<JobId, JobRow>)
    ensures HeadsOk(widened, jobs, SeededHeads(widened, jobs))
  {
    var heads := SeededHeads(widened, jobs);
    forall slot ensures HeadOk(widened, jobs, heads, slot) {
      if Occupied(widened, jobs, slot) {
        var id :| id in jobs && InSlot(widened, jobs[id], slot);
        assert slot == Slot(jobs[id].tenant, jobs[id].priority);
        assert slot in heads;
      }
    }
  }

  lemma SeedSizes(widened: bool, jobs: map<JobId, JobRow>, specs: map<JobId, SpecRow>)
    requires SpecsMatch(jobs, specs)
    ensures SizesOk(widened, jobs, specs, SeededSizes(widened, jobs, specs))
  {
    var sizes := SeededSizes(widened, jobs, specs);
    forall size ensures SizeOk(widened, jobs, specs, sizes, size) {
      var members := Members(widened, jobs, specs, size);
      var joined := JoinedOf(widened, jobs, specs, size);
      forall id ensures id in joined <==> id in members {
        assert id in specs ==> id in jobs && jobs[id].tenant == specs[id].tenant;
      }
      assert joined == members;
      if members != {} {
        HasElement(members);
        var id :| id in members;
        assert id in jobs && id in specs && size == Size(jobs[id].tenant, specs[id].cpu, specs[id].memory);
      }
    }
  }

  // ---- the tables ----------------------------------------------------------------------------

  class QueueTables {
    const widened: bool
    var jobs: map<JobId, JobRow>
    var specs: map<JobId, SpecRow>
    var heads: map<Slot, Head>
    var sizes: map<Size, int>

    ghost predicate Valid()
      reads this
    {
      HeadsOk(widened, jobs, heads) && SizesOk(widened, jobs, specs, sizes) && SpecsMatch(jobs, specs)
    }

    /** The migrations fill both tables from whatever jobs and specifications there are. */
    constructor (widened: bool, jobs: map<JobId, JobRow>, specs: map<JobId, SpecRow>)
      requires SpecsMatch(jobs, specs)
      ensures Valid() && this.widened == widened && this.jobs == jobs && this.specs == specs
    {
      this.widened, this.jobs, this.specs := widened, jobs, specs;
      heads, sizes := SeededHeads(widened, jobs), SeededSizes(widened, jobs, specs);
      SeedHeads(widened, jobs);
      SeedSizes(widened, jobs, specs);
    }

    /** nexa_b13_refresh_queue_head. */
    method RefreshHead(slot: Slot)
      modifies this`heads
      ensures HeadOk(widened, jobs, heads, slot)
      ensures forall other :: other != slot ==>
                (other in heads <==> other in old(heads)) && (other in heads ==> heads[other] == old(heads)[other])
    {
      if !Occupied(widened, jobs, slot) {
        heads := heads - {slot};
        return;
      }
      FirstExists(widened, jobs, slot);
      var id :| id in jobs && IsFirst(widened, jobs, slot, id);
      var head := HeadFor(jobs[id], id);
      if slot in heads && heads[slot] == head {
        return;
      }
      heads := heads[slot := head];
    }

    /** nexa_b13_job_head_change after an insert. */
    method HeadAfterInsert(id: JobId, row: JobRow)
      requires id in jobs && jobs[id] == row
      requires forall slot :: slot != Slot(row.tenant, row.priority) ==> HeadOk(widened, jobs, heads, slot)
      requires !InQueue(widened, row) ==> HeadsOk(widened, jobs, heads)
      modifies this`heads
      ensures HeadsOk(widened, jobs, heads)
    {
      if InQueue(widened, row) {
        RefreshHead(Slot(row.tenant, row.priority));
        SlotsKept(widened, jobs, old(heads), heads, {Slot(row.tenant, row.priority)});
      }
    }

    /** nexa_b13_job_head_change after an update. */
    method HeadAfterUpdate(before: JobRow, id: JobId, row: JobRow)
      requires id in jobs && jobs[id] == row && before.tenant == row.tenant
      requires forall slot :: slot != Slot(row.tenant, before.priority) && slot != Slot(row.tenant, row.priority)
                              ==> HeadOk(widened, jobs, heads, slot)
      requires row == before.(eligibleSince := row.eligibleSince, retryReady := row.retryReady)
               && !HeadIs(heads, Slot(row.tenant, row.priority), id)
               ==> HeadsOk(widened, jobs, heads)
      modifies this`heads
      ensures HeadsOk(widened, jobs, heads)
    {
      var left, joined := Slot(row.tenant, before.priority), Slot(row.tenant, row.priority);
      if before.state == row.state && before.desired == row.desired
        && before.checkpointForPause == row.checkpointForPause
         && before.priority == row.priority && before.ready == row.ready && !HeadIs(heads, joined, id)
      {
        return;
      }
      RefreshHead(left);
      if joined != left {
        RefreshHead(joined);
      }
      SlotsKept(widened, jobs, old(heads), heads, {left, joined});
    }

    /** nexa_b13_job_queue_size; `corrupted` is its exception. */
    method SizeAfterChange(wasQueued: bool, isQueued: bool, id: JobId) returns (corrupted: bool)
      modifies this`sizes
      ensures corrupted <==> wasQueued && !isQueued && Delta(specs, old(sizes), id, false).None?
      ensures sizes == if corrupted || wasQueued == isQueued then old(sizes)
                       else Delta(specs, old(sizes), id, isQueued).value
    {
      corrupted := false;
      if wasQueued && !isQueued {
        var lowered := Delta(specs, sizes, id, false);
        if lowered.None? {
          return true;
        }
        sizes := lowered.value;
      } else if isQueued && !wasQueued {
        sizes := Delta(specs, sizes, id, true).value;
      }
    }

    method InsertJob(id: JobId, row: JobRow) returns (ok: bool)
      requires Valid()
      modifies this
      ensures Valid() && specs == old(specs)
      ensures ok <==> id !in old(jobs)
      ensures jobs == if ok then old(jobs)[id := row] else old(jobs)
    {
      if id in jobs {
        return false;
      }
      ok := true;
      InsertHeads(widened, jobs, heads, id, row);
      if InQueue(widened, row) {
        EnterCount(widened, jobs, jobs[id := row], specs, specs, sizes, id);
      } else {
        SameCount(widened, jobs, specs, sizes, id, row);
      }
      jobs := jobs[id := row];
      HeadAfterInsert(id, row);
      var corrupted := SizeAfterChange(false, InQueue(widened, row), id);
    }

    /** Any update of a job row that keeps its tenant; the corruption exception is never raised. */
    method UpdateJob(id: JobId, row: JobRow) returns (corrupted: bool)
      requires Valid() && id in jobs && jobs[id].tenant == row.tenant
      modifies this
      ensures !corrupted && Valid() && specs == old(specs) && jobs == old(jobs)[id := row]
    {
      var before := jobs[id];
      var wasQueued, isQueued := InQueue(widened, before), InQueue(widened, row);
      UpdateHeads(widened, jobs, heads, id, row);
      if wasQueued && !isQueued {
        LeaveCount(widened, jobs, specs, sizes, id, row);
      } else if isQueued && !wasQueued {
        EnterCount(widened, jobs, jobs[id := row], specs, specs, sizes, id);
      } else {
        SameCount(widened, jobs, specs, sizes, id, row);
      }
      jobs := jobs[id := row];
      HeadAfterUpdate(before, id, row);
      corrupted := SizeAfterChange(wasQueued, isQueued, id);
    }

    /** A specification arrives for an existing job; nexa_b13_spec_queue_size. */
    method InsertSpec(id: JobId, spec: SpecRow) returns (ok: bool)
      requires Valid()
      modifies this
      ensures Valid() && jobs == old(jobs) && heads == old(heads)
      ensures ok <==> id in old(jobs) && old(jobs)[id].tenant == spec.tenant && id !in old(specs)
      ensures specs == if ok then old(specs)[id := spec] else old(specs)
    {
      if id !in jobs || jobs[id].tenant != spec.tenant || id in specs {
        return false;
      }
      ok := true;
      if InQueue(widened, jobs[id]) {
        EnterCount(widened, jobs, jobs, specs, specs[id := spec], sizes, id);
        specs := specs[id := spec];
        sizes := Delta(specs, sizes, id, true).value;
      } else {
        UnqueuedSpec(widened, jobs, specs, sizes, id, spec);
        specs := specs[id := spec];
      }
    }
  }

  predicate HeadIs(heads: map<Slot, Head>, slot: Slot, id: JobId) {
    slot in heads && heads[slot].job == id
  }

  /** Slots whose head rows were not touched keep their correctness. */
  lemma SlotsKept(widened: bool, jobs: map<JobId, JobRow>, heads: map<Slot, Head>, heads': map<Slot, Head>,
                  touched: set<Slot>)
    requires forall slot :: slot !in touched ==> HeadOk(widened, jobs, heads, slot)
    requires forall slot :: slot !in touched ==>
               (slot in heads' <==> slot in heads) && (slot in heads' ==> heads'[slot] == heads[slot])
    requires forall slot :: slot in touched ==> HeadOk(widened, jobs, heads', slot)
    ensures HeadsOk(widened, jobs, heads')
  {
    forall slot ensures HeadOk(widened, jobs, heads', slot) {
      if slot !in touched {
        assert HeadOk(widened, jobs, heads, slot);
      }
    }
  }

  lemma InsertHeads(widened: bool, jobs: map<JobId, JobRow>, heads: map<Slot, Head>, id: JobId, row: JobRow)
    requires HeadsOk(widened, jobs, heads) && id !in jobs
    ensures var jobs' := jobs[id := row];
            && (forall slot :: slot != Slot(row.tenant, row.priority) ==> HeadOk(widened, jobs', heads, slot))
            && (!InQueue(widened, row) ==> HeadsOk(widened, jobs', heads))
  {
    var jobs' := jobs[id := row];
    forall slot | !InSlot(widened, row, slot) ensures HeadOk(widened, jobs', heads, slot) {
      assert HeadOk(widened, jobs, heads, slot);
      OtherSlot(widened, jobs, heads, id, row, slot);
    }
  }

  lemma UpdateHeads(widened: bool, jobs: map<JobId, JobRow>, heads: map<Slot, Head>, id: JobId, row: JobRow)
    requires HeadsOk(widened, jobs, heads) && id in jobs && jobs[id].tenant == row.tenant
    ensures var jobs', before := jobs[id := row], jobs[id];
            && (forall slot :: slot != Slot(row.tenant, before.priority) && slot != Slot(row.tenant, row.priority)
                               ==> HeadOk(widened, jobs', heads, slot))
            && (row == before.(eligibleSince := row.eligibleSince, retryReady := row.retryReady)
                && !HeadIs(heads, Slot(row.tenant, row.priority), id)
                ==> HeadsOk(widened, jobs', heads))
  {
    var jobs', before := jobs[id := row], jobs[id];
    forall slot | !InSlot(widened, row, slot) && !InSlot(widened, before, slot)
      ensures HeadOk(widened, jobs', heads, slot)
    {
      assert HeadOk(widened, jobs, heads, slot);
      OtherSlot(widened, jobs, heads, id, row, slot);
    }
    if row == before.(eligibleSince := row.eligibleSince, retryReady := row.retryReady)
       && !HeadIs(heads, Slot(row.tenant, row.priority), id)
    {
      forall slot ensures HeadOk(widened, jobs', heads, slot) {
        assert HeadOk(widened, jobs, heads, slot);
        if slot == Slot(row.tenant, row.priority) {
          SkipSafe(widened, jobs, heads, id, row, slot);
        }
      }
    }
  }

  lemma UnqueuedSpec(widened: bool, jobs: map<JobId, JobRow>, specs: map<JobId, SpecRow>, sizes: map<Size, int>,
                     id: JobId, spec: SpecRow)
    requires SizesOk(widened, jobs, specs, sizes) && id in jobs && !InQueue(widened, jobs[id])
    ensures SizesOk(widened, jobs, specs[id := spec], sizes)
  {
    var specs' := specs[id := spec];
    forall size ensures SizeOk(widened, jobs, specs', sizes, size) {
      assert SizeOk(widened, jobs, specs, sizes, size);
      assert Members(widened, jobs, specs', size) == Members(widened, jobs, specs, size);
    }
  }
}
