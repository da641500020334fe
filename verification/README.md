# Verified core of the nexa scheduler

This project models five cores of the nexa repository in Dafny and proves what they are for.
Every theorem is a statement about all inputs, all runs or all reachable states; arithmetic is on
exact integers and rationals.

1. **The scheduling simulator and its five baseline policies.** The event loop is a class over a
   virtual clock and an allocation ledger. Any policy may drive it. Every run keeps capacity, GPU
   exclusivity, quota and concurrency at every instant, and with each of the five baselines it ends
   with every feasible job completed and no instant at which a startable job was left waiting. What
   is started is exactly what the policy chose on the snapshots it was shown, and a trace and a
   policy have only one run.
   Round robin and weighted round robin starve nobody. Deficit round robin is weighted-fair between
   any two tenants in steady demand, and its deficits are bounded exactly under a stated condition.
2. **The quota-headroom staircase.** A compressed history of "when did a request of this size last
   stop being blocked" is proved to give exactly the per-size and per-job answers it replaces,
   through any run of allocation and policy statements.
3. **The derived queue indexes.** The cached queue heads and the counted request sizes agree with
   the base tables after every statement; the skip branch and the exception branch are accounted for.
4. **Fairness measurement.** The boundary sweep equals the millisecond integral; the pruned
   subset search finds the true maximum; the exclusion loop finds the greatest sustaining set; the
   weighted Jain index has its range and equality case; the bucketed ledger report conserves time.
   The product-policy engine, with its event queue, running waits and wakeup keys, refines a plain
   account of what each instant's answers make of jobs, allocations, reservation, wakeups and
   reports, counting eligible time millisecond by millisecond. Its runs end, keep every limit, tell
   the policy of every threshold crossing when it happens, and raise exactly the errors deserved.
5. **Exact decimals and authority lineage.** The digit-string comparison is the numeric one, and
   through any run of statements the grants of an attempt form one tree whose live grant is a leaf.

## How the files fit together

| files | what they hold |
|---|---|
| `Wrappers`, `Basics`, `Resources`, `Workload` | result types, resource vectors, tenants, jobs, traces |
| `Ledger`, `Clock`, `SimulationState`, `SimulationSteps`, `Simulator`, `SimulatorRecord`, `SimulatorRun` | the simulator: objects, one-state view, invariant, transitions, the record of a run, whole runs |
| `CyclicPolicies`, `DeficitKernel`, `DeficitPolicy`, `DeficitBounds`, `Baselines`, `DeficitGrowth` | the five baseline policies, and a trace on which deficits grow |
| `Staircase`, `QuotaDatabase`, `QueueIndexes` | the trigger-kept tables |
| `ResourceTime`, `WindowShare`, `ContinuousDemand`, `WeightedShares`, `WeightedJain`, `HeldShare`, `FairnessWindow` | the fairness window of the simulator |
| `LedgerBuckets`, `FairnessReport` | the bucketed ledger report |
| `WaitHistory`, `EligibleWait`, `ProductSteps`, `ProductRecord`, `ProductEngine` | the product-policy engine: eligible waits, single steps, the plain account, the engine object |
| `ExactDecimal`, `AuthorityLineage` | the initial migration |

Objects whose methods update fields are classes (`AllocationLedger`, `VirtualClock`, `Simulation`,
the policy objects, `Engine`, and one class per group of database tables). Each method is proved
against a function of the old state, and the theorems are about that function. One SQL statement
with its triggers is one method call; clocks and timestamps are parameters that never go back.
Identifiers are only compared, so they are integers. In `Workload`, `ValidTrace` says what trace
loading guarantees: distinct jobs in ready order, known tenants, positive weights and durations.

Three points where the model follows the code closely.

- Deficit round robin keeps the deficit of a tenant that has no candidate. A tenant whose own jobs
  each fit the machine keeps its deficit below 1, or below 2 while active, exactly when no decision
  strands it: finds it active, without a candidate, and with a deficit of at least 1. A tenant that
  always demands is never stranded, whatever the others do. Otherwise nothing bounds the deficit:
  for every limit there is a valid trace, with the jobs of two tenants arriving in turn, whose only
  run ends beyond it.
- The upgrade that widens the queue predicate rebuilds neither derived table. Each stays right
  exactly under a condition on the paused rows already queued, and one such row leaves both stale.
  Such a row leaving the queue later raises the corruption exception exactly when it is a CPU job
  whose size no job queued for running has.
- A fairness window may list a tenant twice; the exclusion loop then counts its weight twice, and
  the theorem is stated for such lists too.

## Model

| member | source | states |
|---|---|---|
| `Ledger.AllocationLedger.constructor` | benchmarks/simulator/engine.py:63-71 | a new ledger holds nothing |
| `Ledger.AllocationLedger.Allocate` | benchmarks/simulator/engine.py:90-108 | fails exactly on a second hold or a request beyond what is left; otherwise appends the allocation with the first free GPUs; the shortage-of-GPUs error never occurs |
| `Ledger.AllocationLedger.Release` | benchmarks/simulator/engine.py:110-116 | removes exactly the job's allocation and returns exactly its resources; fails iff nothing is held for it |
| `Ledger.FreeGpuCount` | benchmarks/simulator/engine.py:85-95 | the free GPU list is always exactly as long as the GPU component of the remaining capacity |
| `Ledger.GrantGpus` | benchmarks/simulator/engine.py:90-108 | an allocation within capacity gets the requested number of inventory GPUs, disjoint from all held ones |
| `Ledger.AllocateSound` | benchmarks/simulator/engine.py:90-108 | allocating keeps the sum of holdings within capacity and GPU lists pairwise disjoint |
| `Ledger.ReleaseSound` | benchmarks/simulator/engine.py:110-116 | releasing keeps the ledger sound and subtracts exactly the released resources |
| `Ledger.WithoutSum` | benchmarks/simulator/engine.py:110-116 | removal takes one allocation's resources and one unit off every scope it belongs to |
| `Ledger.ByJobIs` | benchmarks/simulator/engine.py:80-82 | the holdings shown are those held, sorted by job: the same allocations and, for every tenant, the same sums |
| `Clock.VirtualClock.constructor` | benchmarks/simulator/clock.py:25-31 | a new clock stands at its start time with no events |
| `Clock.VirtualClock.Schedule` | benchmarks/simulator/clock.py:46-55 | refuses exactly events before now; otherwise adds one event with the next sequence number |
| `Clock.VirtualClock.PopNext` | benchmarks/simulator/clock.py:57-62 | hands out the least event by time, release before arrival, then sequence, and moves time to it, never back |
| `Clock.VirtualClock.NextTime` | benchmarks/simulator/clock.py:40-44 | the time of the next event |
| `SimulationSteps.ArrivePreserves` | benchmarks/simulator/engine.py:176-191 | handling an arrival keeps the whole simulator invariant |
| `SimulationSteps.FinishPreserves` | benchmarks/simulator/engine.py:164-174 | handling a release keeps the invariant, and the ledger was sure to hold the job |
| `SimulationSteps.StartPreserves` | benchmarks/simulator/engine.py:216-222 | dispatching a job there is room for keeps the invariant at every past and future instant |
| `SimulationSteps.PopTells` | benchmarks/simulator/engine.py:159-191 | logging an arrival or release keeps every log entry a true one of its job, none twice, none missing |
| `SimulationSteps.StartTells` | benchmarks/simulator/engine.py:216-222 | a dispatch leaves the log a true and complete account |
| `SimulationSteps.StillHeld` | benchmarks/simulator/engine.py:159-222 | whatever is in force at or after now belongs to a running job |
| `SimulationSteps.ActiveIsHeld` | benchmarks/simulator/engine.py:159-222 | up to the next event, what is in force is exactly what is held |
| `SimulationSteps.QuietUntil` | benchmarks/simulator/engine.py:193-222 | if nothing queued can start now, nothing waiting could start before the next event |
| `SimulationSteps.PopConserving` | benchmarks/simulator/engine.py:159-191 | handling an event keeps all earlier instants work-conserving |
| `SimulationSteps.StartConserving` | benchmarks/simulator/engine.py:216-222 | dispatching keeps all earlier instants work-conserving |
| `Simulator.EligibleIffRoom` | benchmarks/simulator/engine.py:261-291 | the four eligibility tests hold iff one more job stays within capacity, quota and concurrency; the GPU test never rejects what the capacity test accepts |
| `Simulator.CandidatesExact` | benchmarks/simulator/engine.py:261-291 | the candidates are exactly the queued jobs there is room for |
| `Simulator.NoCandidatesIsQuiet` | benchmarks/simulator/engine.py:261-291 | no candidates means nothing queued has room |
| `Simulator.InitialInv` | benchmarks/simulator/engine.py:120-135 | the initial state satisfies the invariant |
| `Simulator.HandleProgress` | benchmarks/simulator/engine.py:159-191 | every handled event lowers the number of job transitions left |
| `Simulator.StartProgress` | benchmarks/simulator/engine.py:216-222 | every dispatch lowers it too |
| `SimulatorRecord.SnapshotShows` | benchmarks/simulator/engine.py:193-208 | in every reachable state the snapshot is well formed and its candidates are exactly the startable jobs |
| `SimulatorRecord.ScheduleHistory` | benchmarks/simulator/engine.py:159-222 | job and start of every allocation, in order, are exactly what the policy chose on the snapshots it was shown |
| `SimulatorRecord.RoundUnique` | benchmarks/simulator/engine.py:159-222 | from one policy state and one simulator state an instant can go only one way |
| `SimulatorRecord.StopsOrFollows` | benchmarks/simulator/engine.py:193-222 | where the decision loop stops it could not have gone on |
| `SimulatorRecord.Deterministic` | benchmarks/simulator/engine.py:120-258 | a trace and a policy have at most one complete run |
| `SimulatorRun.Simulation.constructor` | benchmarks/simulator/engine.py:120-135 | every job pending, every arrival scheduled, nothing held |
| `SimulatorRun.Simulation.LoadJobs` | benchmarks/simulator/engine.py:120-135 | the jobs and arrival events of the trace, no more and no less |
| `SimulatorRun.Simulation.ApplyRelease` | benchmarks/simulator/engine.py:164-174 | the job completes now and leaves the ledger |
| `SimulatorRun.Simulation.ApplyArrival` | benchmarks/simulator/engine.py:176-191 | the job is queued, or infeasible with the first reason that applies |
| `SimulatorRun.Simulation.PopAndApply` | benchmarks/simulator/engine.py:162-191 | one event is popped in heap order and handled; the state checks never fire |
| `SimulatorRun.Simulation.ApplyStart` | benchmarks/simulator/engine.py:216-222 | the job runs from now, is recorded, and its release is scheduled at now plus its duration |
| `SimulatorRun.Simulation.Dispatch` | benchmarks/simulator/engine.py:209-222 | starting a job there is room for is the start transition and keeps the invariant |
| `SimulatorRun.Simulation.Observe` | benchmarks/simulator/engine.py:193-208 | the snapshot is exactly that of the present state: holdings sorted by job, what is left, the free GPUs and exactly the startable jobs, in ready order |
| `SimulatorRun.Simulation.Ask` | benchmarks/simulator/engine.py:193-215 | the policy sees the present state; an accepted choice is its own and can be started; an idle answer means nothing can; a choice outside the snapshot is reported as such |
| `SimulatorRun.Simulation.DispatchAll` | benchmarks/simulator/engine.py:193-222 | the decision loop ends; each job it starts is the policy's own choice on a snapshot of the state at that point; it stops exactly where nothing can start or the policy passes; the only violation is a choice outside the snapshot |
| `SimulatorRun.Consult` | benchmarks/simulator/engine.py:206-215 | the policy is called once on the snapshot; its choice is accepted iff it is one of the candidates |
| `SimulatorRun.HandleInstant` | benchmarks/simulator/engine.py:159-191 | exactly the events of the next instant are handled, one after the other in heap order, without violation and with progress |
| `SimulatorRun.NoStall` | benchmarks/simulator/engine.py:224-230 | when events run out with nothing startable, no job is queued |
| `SimulatorRun.EndDelivers` | benchmarks/simulator/engine.py:224-258 | at the end every job is settled, each feasible one with exactly one allocation; the log is in order and holds exactly the arrival of every job at its arrival time and the release of every allocation at its completion, each once |
| `SimulatorRun.Conclude` | benchmarks/simulator/engine.py:224-258 | the final checks: stalled iff some job is still queued, never held allocations; otherwise everything is delivered |
| `SimulatorRun.Run` | benchmarks/simulator/engine.py:120-258 | with any policy the run terminates and is told instant by instant: the events in heap order, then the policy's choices on the snapshots shown; the schedule is exactly those choices; a finished run is safe at every instant with exclusive GPUs and completion = dispatch + duration, and its log is exactly the arrivals and releases of its jobs; "outside snapshot" is raised only on such a choice and "stalled" only with somebody queued, neither with a policy that picks whenever it can |
| `SimulatorRun.RunBaseline` | benchmarks/simulator/engine.py:120-258 | with each of the five baselines every valid trace finishes, every feasible job completes, no startable job ever waits, and the schedule is exactly what that baseline chose |
| `CyclicPolicies.FifoPicksEarliest` | benchmarks/simulator/baselines.py:17-21 | FIFO picks the candidate with the least ready sequence and identifier, or none iff there is none |
| `CyclicPolicies.FirstIsLeast` | benchmarks/simulator/baselines.py:24-31 | a tenant's first job is the earliest of its candidates |
| `CyclicPolicies.RoundRobinPolicy.constructor` | benchmarks/simulator/baselines.py:54-56 | reset: cursor zero, no tenant order |
| `CyclicPolicies.RoundRobinPolicy.Choose` | benchmarks/simulator/baselines.py:58-71 | the loop over offsets is one turn of the cycle, state and choice |
| `CyclicPolicies.RoundRobinPicks` | benchmarks/simulator/baselines.py:58-71 | a candidate is chosen whenever there is one |
| `CyclicPolicies.RoundRobinNoStarvation` | benchmarks/simulator/baselines.py:58-71 | from any state, a tenant with a candidate in n consecutive calls among n tenants has its first job chosen in one of them |
| `CyclicPolicies.WeightedRoundRobinPolicy.constructor` | benchmarks/simulator/baselines.py:82-85 | reset: no signature, no cycle, cursor zero |
| `CyclicPolicies.WeightedRoundRobinPolicy.Choose` | benchmarks/simulator/baselines.py:87-106 | the loop is one turn of the weighted cycle |
| `CyclicPolicies.CommonDivisor` | benchmarks/simulator/baselines.py:87-100 | the result divides every weight and nothing larger up to the start does |
| `CyclicPolicies.SlotForEach` | benchmarks/simulator/baselines.py:87-100 | each tenant owns exactly weight / gcd slots of the cycle |
| `CyclicPolicies.WeightedPicks` | benchmarks/simulator/baselines.py:87-106 | a candidate is chosen whenever there is one |
| `CyclicPolicies.WeightedNoStarvation` | benchmarks/simulator/baselines.py:87-106 | a tenant that demands throughout one cycle of calls is chosen in it |
| `CyclicPolicies.WeightedProportional` | benchmarks/simulator/baselines.py:87-106 | while everybody demands, every window of one cycle of calls serves a tenant exactly weight / gcd times |
| `DeficitKernel.VisitProgress` | benchmarks/simulator/baselines.py:150-162 | a visit that serves nobody brings every bidding tenant strictly closer to service |
| `DeficitKernel.VisitsBound` | benchmarks/simulator/baselines.py:150-162 | the scan is over once any one bidding tenant has been visited ceil(gap / quantum) times |
| `DeficitKernel.DecideServes` | benchmarks/simulator/baselines.py:137-162 | a decision serves a listed tenant that bids and makes it the active one |
| `DeficitKernel.DecideBalanced` | benchmarks/simulator/baselines.py:137-162 | every decision keeps credits = service + deficit for any set of tenants that all bid, with their deficits below 1, or below 2 for the active tenant, whatever the other tenants do |
| `DeficitKernel.DecideBounded` | benchmarks/simulator/baselines.py:137-162 | from a bounded deficit, one decision keeps it bounded iff the tenant is not active, without a bid and at a deficit of 1 or more |
| `DeficitPolicy.DeficitRoundRobinPolicy.constructor` | benchmarks/simulator/baselines.py:118-122 | reset clears cursor, order, deficits and active tenant |
| `DeficitPolicy.DeficitRoundRobinPolicy.Choose` | benchmarks/simulator/baselines.py:127-162 | the method is the specified selection, state and choice |
| `DeficitPolicy.DeficitRoundRobinPolicy.ScanLoop` | benchmarks/simulator/baselines.py:150-162 | the unbounded loop terminates and is the specified scan |
| `DeficitPolicy.DeficitRoundRobinPolicy.VisitOnce` | benchmarks/simulator/baselines.py:151-162 | one pass of the loop body is one visit |
| `DeficitPolicy.DrrPicks` | benchmarks/simulator/baselines.py:127-162 | a candidate is chosen whenever there is one, and no deficit becomes negative |
| `DeficitPolicy.ScanIsShort` | benchmarks/simulator/baselines.py:150-162 | the loop, entered with no active tenant, makes at most n * ceil(w_max / w_t) visits for any demanding tenant t |
| `DeficitPolicy.RunBalanced` | benchmarks/simulator/baselines.py:127-162 | from reset, over any run in which a set of tenants demands, their non-active deficits stay in [0, 1) and an active one in [0, 2), and each of them was topped up r or r + 1 times |
| `DeficitPolicy.RunNumbers` | benchmarks/simulator/baselines.py:127-162 | top-up counts of two demanding tenants differ by at most one, the earlier listed one ahead, and account for all their service up to the deficits |
| `DeficitPolicy.DrrFairness` | benchmarks/simulator/baselines.py:127-162 | service per weight of any two tenants that demand throughout differs by less than 1 / w_max + 2 / min(w_i, w_j), whatever the others do |
| `DeficitPolicy.DrrWindowFairness` | benchmarks/simulator/baselines.py:127-162 | over any window of such a run it differs by less than 1 / w_max + 2 / w_i + 2 / w_j |
| `DeficitBounds.SelectBounded` | benchmarks/simulator/baselines.py:127-162 | one call on any snapshot keeps a tenant's bounded deficit bounded iff it does not find the tenant active, without a candidate and at a deficit of 1 or more |
| `DeficitBounds.BoundedIffNeverStranded` | benchmarks/simulator/baselines.py:118-162 | over any run from reset, with any tenants and candidates, a tenant's deficit is always bounded iff no call strands it so |
| `DeficitBounds.DemandingIsBounded` | benchmarks/simulator/baselines.py:118-162 | a tenant that always demands keeps its deficit bounded, whatever the others do |
| `DeficitBounds.TwoCalls` | benchmarks/simulator/baselines.py:137-162 | two calls with the candidates alternating between two tenants raise both deficits by 3/4 and change nothing else |
| `DeficitBounds.DeficitsUnbounded` | benchmarks/simulator/baselines.py:118-162 | for every bound some run from reset, of jobs that fit the machine, drives a deficit beyond it |
| `DeficitGrowth.DrrCall` | benchmarks/simulator/baselines.py:127-162 | after i jobs of two tenants in turn, offered one at a time, the whole policy state is known and the next one is chosen |
| `DeficitGrowth.ArrivalRound` | benchmarks/simulator/engine.py:159-222 | in such a trace each job arrives alone and is started at once |
| `DeficitGrowth.SchedulesUnbounded` | benchmarks/simulator/engine.py:120-258 | for every bound there is a valid trace whose one and only complete run under deficit round robin ends with a deficit beyond it |
| `Baselines.DrfServesPoorest` | benchmarks/simulator/baselines.py:173-196 | the first job of a demanding tenant with least dominant share is chosen, ties by weight, ready sequence, identifier |
| `Baselines.BaselinePicks` | benchmarks/simulator/baselines.py:10-196 | each baseline in any state it can reach picks a candidate whenever there is one and stays in such a state |
| `Baselines.ResetOk` | benchmarks/simulator/baselines.py:14-171 | reset leaves every policy in such a state |
| `Staircase.Least` | migrations/versions/20260925_0017_b13_quota_headroom.py:389-408 | the smallest step bound that covers a size |
| `Staircase.Top` | migrations/versions/20260925_0017_b13_quota_headroom.py:57-83 | the greatest bound, -1 without steps |
| `Staircase.StepRefines` | migrations/versions/20260925_0017_b13_quota_headroom.py:57-83 | one step is one rewrite of the naive answer, for every size at once |
| `Staircase.StepTop` | migrations/versions/20260925_0017_b13_quota_headroom.py:57-83 | the top step is the headroom; a negative headroom leaves no steps |
| `Staircase.StaircaseRefines` | migrations/versions/20260925_0017_b13_quota_headroom.py:57-83 | after any run of headroom changes the lookup is exactly the naive per-size answer |
| `Staircase.StepRising` | migrations/versions/20260925_0017_b13_quota_headroom.py:57-83 | step times never fall as bounds grow |
| `QuotaDatabase.JobAgeFromStairs` | migrations/versions/20260925_0017_b13_quota_headroom.py:389-408 | the later of the CPU and memory resume times is exactly when the job as a whole was last unblocked |
| `QuotaDatabase.FoldedAgeIsJobAge` | migrations/versions/20260925_0017_b13_quota_headroom.py:389-408 | the downgrade query returns each job's own age, NULL iff it is blocked |
| `QuotaDatabase.RecountTracked` | migrations/versions/20260925_0017_b13_quota_headroom.py:85-105 | one recount keeps both staircases those of the tenant's recount history |
| `QuotaDatabase.TrackedTop` | migrations/versions/20260925_0017_b13_quota_headroom.py:85-105 | steps are absent exactly when nothing is open, otherwise they end at the last headroom |
| `QuotaDatabase.TrackedRising` | migrations/versions/20260925_0017_b13_quota_headroom.py:57-105 | through every run step times are non-decreasing in the bound |
| `QuotaDatabase.QuotaTables.constructor` | migrations/versions/20260925_0017_b13_quota_headroom.py:310-321 | seeding from any base tables makes the steps those of one recount without a time per current policy, and leaves them up to date |
| `QuotaDatabase.SeedTracked` | migrations/versions/20260925_0017_b13_quota_headroom.py:310-321 | the seeded steps of every tenant are the staircases of its seeded history |
| `QuotaDatabase.SeedUpToDate` | migrations/versions/20260925_0017_b13_quota_headroom.py:310-321 | the seeded history ends, for every current policy, at limit minus held |
| `QuotaDatabase.QuotaTables.SetHeadroom` | migrations/versions/20260925_0017_b13_quota_headroom.py:85-105 | both headrooms become limit minus held, with no time on a first recount without steps; other tenants untouched |
| `QuotaDatabase.QuotaTables.AllocationChanged` | migrations/versions/20260925_0017_b13_quota_headroom.py:145-169 | recounts exactly when a held amount changed under a current policy |
| `QuotaDatabase.QuotaTables.InsertAllocation` | migrations/versions/20260925_0017_b13_quota_headroom.py:145-169 | an insert keeps every tenant's steps and headroom right |
| `QuotaDatabase.QuotaTables.UpdateAllocation` | migrations/versions/20260925_0017_b13_quota_headroom.py:145-169 | a resize or release does too |
| `QuotaDatabase.QuotaTables.InsertPolicy` | migrations/versions/20260925_0017_b13_quota_headroom.py:107-143 | a new policy version is accepted iff the indexes allow it, and recounts iff it is current |
| `QuotaDatabase.QuotaTables.UpdatePolicy` | migrations/versions/20260925_0017_b13_quota_headroom.py:107-143 | new limits or currency recount the tenant |
| `QuotaDatabase.QuotaTables.Faithful` | migrations/versions/20260925_0017_b13_quota_headroom.py:85-169 | whatever statements came before, the top steps are limit minus held and every job's folded age is its own |
| `QueueIndexes.OtherSlot` | migrations/versions/20260925_0008_b13_queue_heads.py:74-115 | a row outside a slot before and after does not matter to its head |
| `QueueIndexes.SkipSafe` | migrations/versions/20260926_0019_b15_control_recovery.py:128-160 | the trigger's skip branch never leaves a head stale |
| `QueueIndexes.EnterCount` | migrations/versions/20260925_0017_b13_quota_headroom.py:248-308 | entering the queue, or getting a specification while queued, adds one to exactly one size |
| `QueueIndexes.LeaveCount` | migrations/versions/20260925_0017_b13_quota_headroom.py:248-297 | leaving takes one off a row that is sure to exist |
| `QueueIndexes.SameCount` | migrations/versions/20260925_0017_b13_quota_headroom.py:275-297 | an update that keeps membership leaves every count right |
| `QueueIndexes.SwitchPredicate` | migrations/versions/20260926_0019_b15_control_recovery.py:336-359 | under the guard that the downgrade checks, both tables are right for the wide queue iff for the narrow one |
| `QueueIndexes.WidenSizes` | migrations/versions/20260926_0019_b15_control_recovery.py:281-292 | after the upgrade, which rebuilds nothing, the counted sizes are right iff no paused queued row has a specification without GPUs |
| `QueueIndexes.WidenHeads` | migrations/versions/20260926_0019_b15_control_recovery.py:281-292 | after the upgrade the heads are right iff every paused queued row comes after a narrowly queued row of its slot |
| `QueueIndexes.WideningCanLeaveTablesStale` | migrations/versions/20260926_0019_b15_control_recovery.py:281-292 | one paused queued row leaves both tables right before the upgrade and wrong after it |
| `QueueIndexes.LeavingAfterWidening` | migrations/versions/20260926_0019_b15_control_recovery.py:247-262 | after the upgrade, a paused queued row that leaves the queue raises the corruption exception iff it is a CPU job with a specification and no narrowly queued job has its size |
| `QueueIndexes.SeedHeads` | migrations/versions/20260925_0008_b13_queue_heads.py:19-31 | seeding from any jobs gives every occupied slot its first job and no other slot a head |
| `QueueIndexes.SeedSizes` | migrations/versions/20260925_0017_b13_quota_headroom.py:323-327 | seeding from any jobs and specifications counts every queued request size exactly |
| `QueueIndexes.QueueTables.constructor` | migrations/versions/20260925_0008_b13_queue_heads.py:11-32 | the seeded tables agree with any jobs and specifications they are built from |
| `QueueIndexes.QueueTables.RefreshHead` | migrations/versions/20260926_0019_b15_control_recovery.py:88-126 | the slot's head becomes its first job with current ages, or disappears; other slots untouched |
| `QueueIndexes.QueueTables.HeadAfterInsert` | migrations/versions/20260926_0019_b15_control_recovery.py:128-160 | every head is right after the insert trigger |
| `QueueIndexes.QueueTables.HeadAfterUpdate` | migrations/versions/20260926_0019_b15_control_recovery.py:128-160 | every head is right after the update trigger, skipped or not |
| `QueueIndexes.QueueTables.SizeAfterChange` | migrations/versions/20260926_0019_b15_control_recovery.py:247-262 | the count moves exactly with queue membership; the corruption exception is raised iff a job leaves the queue and no row counts it |
| `QueueIndexes.QueueTables.InsertJob` | migrations/versions/20260926_0019_b15_control_recovery.py:128-262 | after any job insert both tables agree with the jobs |
| `QueueIndexes.QueueTables.UpdateJob` | migrations/versions/20260926_0019_b15_control_recovery.py:128-262 | after any job update that keeps the tenant both tables agree, and the corruption exception is never raised |
| `QueueIndexes.QueueTables.InsertSpec` | migrations/versions/20260926_0019_b15_control_recovery.py:264-273 | a specification may come before or after the job is queued; counts agree either way |
| `ResourceTime.IntegralAdditive` | benchmarks/simulator/metrics.py:61-95 | adjacent windows add up |
| `ResourceTime.IntegralBounded` | benchmarks/simulator/metrics.py:61-95 | a schedule within capacity gives no tenant more than the window length |
| `ResourceTime.CoveringIsActive` | benchmarks/simulator/metrics.py:83-89 | between boundaries what covers the interval is what is held at each of its milliseconds |
| `ResourceTime.SweepIsIntegral` | benchmarks/simulator/metrics.py:61-95 | the boundary sweep equals the sum over every millisecond of the dominant share held |
| `ResourceTime.DominantResourceTime` | benchmarks/simulator/metrics.py:61-95 | the loop returns that integral for every tenant, with entries for exactly the tenants that hold something in the window; an empty window is an error |
| `WindowShare.DropAllowed` | benchmarks/simulator/metrics.py:152-162 | pruning loses nothing: dropping a job from an allowed choice leaves an allowed choice |
| `WindowShare.ReachableStep` | benchmarks/simulator/metrics.py:152-162 | one job extends the reachable states to exactly those of the longer list |
| `WindowShare.Additions` | benchmarks/simulator/metrics.py:152-162 | the inner loop adds exactly the extensions that pass the guards |
| `WindowShare.ReachableStates` | benchmarks/simulator/metrics.py:151-162 | the states are exactly the sums of subsets within quota, capacity and concurrency |
| `WindowShare.MaxWindowShare` | benchmarks/simulator/metrics.py:140-166 | the result is attained by an allowed subset of the window's jobs and no allowed subset exceeds it |
| `ContinuousDemand.IntervalsAre` | benchmarks/simulator/metrics.py:118-129 | the intervals are in order and are exactly the clipped finished jobs of the tenant |
| `ContinuousDemand.ContinuouslyDemanding` | benchmarks/simulator/metrics.py:116-137 | true iff at every instant of the window some finished job of the tenant had arrived and was not complete |
| `WeightedShares.NeverSustained` | benchmarks/simulator/metrics.py:192-204 | a tenant limited within a larger set belongs to no sustaining smaller one |
| `WeightedShares.Exclude` | benchmarks/simulator/metrics.py:201-202 | every limited tenant gets the quota-or-concurrency reason |
| `WeightedShares.Eliminate` | benchmarks/simulator/metrics.py:191-204 | the loop ends; its result contains every set that sustains its weighted shares, and is one itself when at least two entries are left |
| `WeightedShares.FewerMeansNone` | benchmarks/simulator/metrics.py:191-204 | fewer than two left means no set sustains its shares |
| `WeightedJain.GapIsDistance` | benchmarks/simulator/metrics.py:98-113 | n times the sum of squares is at least the square of the sum, equal iff all values are equal |
| `WeightedJain.JainRange` | benchmarks/simulator/metrics.py:98-113 | the index lies in [1/n, 1] and is 1 iff all normalized values are equal |
| `WeightedJain.JainScale` | benchmarks/simulator/metrics.py:98-113 | scaling every value by one positive factor changes nothing |
| `WeightedJain.AssessRange` | benchmarks/simulator/metrics.py:98-113 | defined iff there is a tenant, the keys match, weights are positive and some time is non-zero; then range and equality case on the tenant maps |
| `WeightedJain.AssessScale` | benchmarks/simulator/metrics.py:98-113 | scaling all resource-times leaves the verdict, error or value, as it was |
| `HeldShare.HeldIsChosen` | benchmarks/simulator/metrics.py:140-166 | what a tenant holds at an instant is a choice among its recorded jobs |
| `HeldShare.HeldWithinLargest` | benchmarks/simulator/metrics.py:140-166 | in any finished run, at every instant of the window, a tenant's dominant share is at most its computed maximum |
| `HeldShare.LimitedReceivesLess` | benchmarks/simulator/metrics.py:191-204 | a tenant excluded as limited really received less than its weighted part of the window, whatever the policy did |
| `FairnessWindow.Screen` | benchmarks/simulator/metrics.py:171-185 | candidates are the listed tenants never quota-blocked and always in demand, the others have their first reason |
| `FairnessWindow.LargestShares` | benchmarks/simulator/metrics.py:187-190 | every candidate's entry is its true maximum share |
| `FairnessWindow.Measure` | benchmarks/simulator/metrics.py:206-218 | the index of the included tenants' exact resource-times |
| `FairnessWindow.Index` | benchmarks/simulator/metrics.py:216-218 | an index iff at least two tenants are included and some time is non-zero |
| `FairnessWindow.AssessFairnessWindow` | benchmarks/simulator/metrics.py:169-225 | the whole assessment: greatest sustaining set of the candidates, a reason for everyone else, and the weighted Jain index of the exact integrals |
| `LedgerBuckets.EpochMs` | src/nexa/coordinator/accounting.py:22-24 | days, seconds and microseconds combine to the floor in whole milliseconds |
| `LedgerBuckets.BucketsTile` | src/nexa/application/fairness_report.py:65-86 | buckets tile [from, to): contiguous, none empty, first starts and last ends the range |
| `LedgerBuckets.CeilIs` | src/nexa/application/fairness_report.py:76-79 | the count is the least number of buckets that covers the range |
| `LedgerBuckets.OverlapSplits` | src/nexa/application/fairness_report.py:89-92 | overlaps with adjacent intervals add up after flooring |
| `LedgerBuckets.OutsideIsEmpty` | src/nexa/application/fairness_report.py:108-110 | the early exit for segments outside the range drops nothing |
| `LedgerBuckets.TotalSplits` | src/nexa/application/fairness_report.py:89-129 | resource-time, normalized service and occupancy are additive over adjacent intervals |
| `LedgerBuckets.BucketsAddUp` | src/nexa/application/fairness_report.py:82-129 | consecutive buckets together are the interval they span |
| `LedgerBuckets.Conservation` | src/nexa/application/fairness_report.py:95-129 | over all buckets a tenant's occupancy is the floored clipped length of its segments |
| `LedgerBuckets.Grouping` | src/nexa/application/fairness_report.py:65-129 | a bucket of k-fold length is the k buckets it covers |
| `FairnessReport.AddRight` | src/nexa/application/fairness_report.py:118-129 | adding an overlapping segment keeps totals and the latest segment right |
| `FairnessReport.Spread` | src/nexa/application/fairness_report.py:111-129 | the inner loop adds one segment to every bucket it overlaps and to no other |
| `FairnessReport.Tally` | src/nexa/application/fairness_report.py:107-129 | after the loops an entry exists iff the tenant overlaps the bucket, and holds its exact totals |
| `FairnessReport.BuildRows` | src/nexa/application/fairness_report.py:130-143 | one row per entry, sorted by bucket and tenant |
| `FairnessReport.AggregateFairness` | src/nexa/application/fairness_report.py:95-143 | the report is exact, or fails with exactly the error of the query check |
| `FairnessReport.RowWeight` | src/nexa/application/fairness_report.py:131-142 | weight times normalized service is the resource-time, and the weight lies between the least and the greatest overlapping segment weight |
| `FairnessReport.ReportConserves` | src/nexa/application/fairness_report.py:95-143 | a tenant's reported occupancies add up to the floored clipped length of its segments |
| `FairnessReport.ReportGroups` | src/nexa/application/fairness_report.py:65-143 | a report with k-fold buckets gives what k consecutive rows add up to |
| `FairnessReport.TotalPermuted` | src/nexa/application/fairness_report.py:107-129 | totals do not depend on the order of the segments |
| `FairnessReport.ReportOrderFree` | src/nexa/application/fairness_report.py:95-143 | with distinct segment identifiers the report is the same row for row in any order |
| `WaitHistory.CrossesInStretch` | benchmarks/b04/engine.py:266-286 | within a stretch of constant eligibility a threshold is crossed exactly when the missing milliseconds have passed |
| `EligibleWait.CrossingHasWakeup` | benchmarks/b04/engine.py:244-286 | every crossing while time passes has a scheduled wakeup at exactly that moment |
| `EligibleWait.CrossingsAdvance` | benchmarks/b04/engine.py:433-447 | time moves to the next event only, so no crossing is jumped over |
| `EligibleWait.WaitsAdvance` | benchmarks/b04/engine.py:178-194 | while time passes each job's wait stays its total eligible time |
| `EligibleWait.RefreshKeepsWait` | benchmarks/b04/engine.py:268-279 | starting or stopping a running wait changes no wait, and a wait runs iff the job is eligible |
| `ProductSteps.QueuedStays` | benchmarks/b04/engine.py:436-494 | the events of an instant leave every queued job queued |
| `ProductSteps.AddReport` | benchmarks/b04/engine.py:178-194 | a report of the exact waits of the queued jobs keeps all reports exact and tells of every crossing of the instant |
| `ProductSteps.CrossingReported` | benchmarks/b04/engine.py:178-286 | for every 60 s or 120 s crossing of any job there is a report of that very moment that gives the job a wait of exactly 60 or 120 |
| `ProductSteps.OwedTake` | benchmarks/b04/engine.py:449-494 | taking a job's event keeps an arrival ahead of every pending job and a release ahead of every held allocation |
| `ProductSteps.OwedStart` | benchmarks/b04/engine.py:530-553 | a dispatch keeps that too |
| `ProductSteps.LimitsAfterRelease` | benchmarks/b04/engine.py:288-306 | quota and concurrency of every tenant, once met, stay met when an allocation is released |
| `ProductSteps.SomethingOwed` | benchmarks/b04/engine.py:600-608 | while anything is held, pending or running there is an event ahead |
| `ProductSteps.QuietLowers` | benchmarks/b04/engine.py:244-255 | an instant that moves no job uses up a wakeup, or a tick that comes back only while something is held and closer to the last release |
| `ProductRecord.CarriedMore` | benchmarks/b04/engine.py:497-596 | one more question and accepted answer: one report of the queue as it then is, the crossings foreseen, and exactly the change the answer asks for |
| `ProductRecord.CarriedRefused` | benchmarks/b04/engine.py:497-596 | a refused answer ends the loop with the error it deserves, after the reports up to it |
| `ProductRecord.TakenSo` | benchmarks/b04/engine.py:437-494 | taking the events of an instant in any order leaves exactly the arrived, released and untouched jobs, and the allocations not released |
| `ProductRecord.EventsAre` | benchmarks/b04/engine.py:124-146 | the event queue holds exactly the arrivals of pending jobs, the releases of held allocations, the scheduled wakeups and the tick |
| `ProductRecord.InstantSo` | benchmarks/b04/engine.py:433-598 | taking the events of a moment, deciding and scheduling the tick is the instant of the plain account |
| `ProductRecord.InstantUnique` | benchmarks/b04/engine.py:433-598 | the answers fix the scene after an instant |
| `ProductRecord.NoRefusal` | benchmarks/b04/engine.py:522-596 | an instant that ends well has no refused answer |
| `ProductRecord.RefusalUnique` | benchmarks/b04/engine.py:522-596 | moment, answer and error of a refusal are fixed |
| `ProductRecord.RunsAgree` | benchmarks/b04/engine.py:433-598 | two runs with the same answers agree as far as both go |
| `ProductRecord.BegunWasDispatched` | benchmarks/b04/engine.py:530-553 | a job that runs or has completed was dispatched by an answer that counted |
| `ProductRecord.RunKeepsJobs` | benchmarks/b04/engine.py:433-598 | no job is lost or changed over any run |
| `ProductRecord.HistoryIsTrue` | benchmarks/b04/engine.py:257-286 | in every millisecond of a run the history names exactly the jobs eligible in the state then in force |
| `ProductEngine.Engine.constructor` | benchmarks/b04/engine.py:124-146 | all jobs pending with their arrivals ahead, nothing waited, nothing reported |
| `ProductEngine.Engine.ScheduleWakeup` | benchmarks/b04/engine.py:244-249 | the set of scheduled wakeups always mirrors the wakeup events |
| `ProductEngine.Engine.ScheduleNextTick` | benchmarks/b04/engine.py:251-255 | one tick at a time, only while something is held |
| `ProductEngine.Engine.ScheduleCrossings` | benchmarks/b04/engine.py:281-286 | exactly the thresholds still ahead of a running wait get their wakeup |
| `ProductEngine.Engine.RefreshJob` | benchmarks/b04/engine.py:266-286 | one job's wait is started, stopped or left, and exactly the wakeups of its crossings ahead are added; nothing changes where the wait was right |
| `ProductEngine.Engine.Refresh` | benchmarks/b04/engine.py:257-286 | afterwards exactly the eligible jobs have a running wait, and exactly the wakeups of their crossings ahead were added; a second refresh changes nothing |
| `ProductEngine.Engine.EligibleWaitOverrides` | benchmarks/b04/engine.py:178-194 | exactly the queued jobs are reported, each with the floor in seconds of its total eligible milliseconds |
| `ProductEngine.Engine.TakeRelease` | benchmarks/b04/engine.py:449-468 | a release finds its job running and held, and completes it |
| `ProductEngine.Engine.TakeArrival` | benchmarks/b04/engine.py:470-494 | an arrival finds its job pending, and queues it or makes it infeasible |
| `ProductEngine.Engine.TakeWakeup` | benchmarks/b04/engine.py:440-446 | a wakeup leaves the schedule; nothing else changes |
| `ProductEngine.Engine.TakeOne` | benchmarks/b04/engine.py:438-494 | one event is taken, the account of the instant so far stays exact, and a job moves on, a wakeup goes or the tick goes |
| `ProductEngine.Engine.TakeAll` | benchmarks/b04/engine.py:436-494 | all events of the instant are taken and no other: every job takes the step its event asks for and exactly the released allocations are gone, in order; a decision is due iff one event is not a tick, if none is due no threshold was crossed, and every job that crossed one is still queued |
| `ProductEngine.Engine.Start` | benchmarks/b04/engine.py:537-553 | a dispatch of a queued job succeeds iff the ledger accepts it and no tenant limit is exceeded, and otherwise raises the error of the first check that fails |
| `ProductEngine.Engine.Launch` | benchmarks/b04/engine.py:530-555 | a dispatch succeeds iff the job is queued, the ledger accepts it and no tenant limit is exceeded; then the job runs, its release is scheduled and one tick is ahead; otherwise the error of the first check that fails |
| `ProductEngine.Engine.Apply` | benchmarks/b04/engine.py:522-596 | each kind of decision: an error is raised iff it is refused and is the one it deserves; otherwise exactly what the decision asks for changes; whether the policy is asked again |
| `ProductEngine.Engine.Tell` | benchmarks/b04/engine.py:498-508 | one report of this moment gives the exact wait of exactly the queued jobs, so the policy is told of every crossing up to now; exactly the crossings ahead are scheduled |
| `ProductEngine.Engine.AskOnce` | benchmarks/b04/engine.py:498-596 | the policy is told the exact wait of exactly the queued jobs; its answer raises the error it deserves iff it is refused, and otherwise changes exactly what it asks for |
| `ProductEngine.Engine.Decide` | benchmarks/b04/engine.py:497-596 | the policy is asked until the first answer that stops the loop or is refused; exactly the answers before that are carried out, each after a report of the queue as it then is, and the error is the one the refused answer deserves in its turn; afterwards the policy was told of every crossing so far |
| `ProductEngine.Engine.Respond` | benchmarks/b04/engine.py:496-596 | after the events of an instant: a refresh, then the decision loop iff a decision is due |
| `ProductEngine.Engine.Gather` | benchmarks/b04/engine.py:433-494 | time moves to the next event, the history grows by exactly the jobs eligible meanwhile, and jobs, allocations, wakeups and tick are those the events of that moment leave |
| `ProductEngine.Engine.Advance` | benchmarks/b04/engine.py:433-436 | moving time extends the eligibility history by exactly the jobs eligible meanwhile |
| `ProductEngine.Engine.Instant` | benchmarks/b04/engine.py:433-598 | one round of the loop makes of the engine exactly the scene of the plain account, or raises exactly the error of its first refused answer; it keeps every invariant, tenant limits included, and lowers the measure of the run |
| `ProductEngine.Engine.Run` | benchmarks/b04/engine.py:433-608 | with any policy that stops answering at every instant the run ends; every scene is what its answers make of the one before, with exact reports, every crossing told, capacity, GPUs and tenant limits respected and exactly the running jobs held; an error other than "stalled" is the one a refused answer of the last instant deserves; otherwise no job is lost, nothing is held, every infeasible job is marked so and every other one is completed or queued, and "stalled" is raised iff one is still queued |
| `ExactDecimal.TextIsNumeric` | migrations/versions/20260919_0001_b05_initial.py:111-193 | lexicographic order of trimmed digits is numeric order of the padded numbers |
| `ExactDecimal.CompareIsNumeric` | migrations/versions/20260919_0001_b05_initial.py:94-193 | on valid encodings the comparison is that of (-1)^sign * digits * 10^exponent, for digits and exponents of any length; it fails iff an encoding is invalid |
| `ExactDecimal.SignTests` | migrations/versions/20260919_0001_b05_initial.py:64-77 | the non-negative and positive tests agree with the numbers |
| `ExactDecimal.ComparePreorder` | migrations/versions/20260919_0001_b05_initial.py:130-193 | reflexive, antisymmetric in sign and transitive |
| `AuthorityLineage.RootOf` | migrations/versions/20260919_0001_b05_initial.py:641-695 | every grant descends from a root of its own attempt and shares its authority |
| `AuthorityLineage.OneTree` | migrations/versions/20260919_0001_b05_initial.py:641-695 | two grants of an attempt descend from one single root and share tenant, job, allocation, lease and fence |
| `AuthorityLineage.Acyclic` | migrations/versions/20260919_0001_b05_initial.py:641-695 | no grant is among its own ancestors |
| `AuthorityLineage.LiveIsLeaf` | migrations/versions/20260919_0001_b05_initial.py:641-695 | a live grant has no successor and is the only live grant of its job |
| `AuthorityLineage.InsertKeeps` | migrations/versions/20260919_0001_b05_initial.py:641-695 | every accepted insert keeps the lineage |
| `AuthorityLineage.UpdateKeeps` | migrations/versions/20260919_0001_b05_initial.py:641-695 | every accepted update keeps the lineage |
| `AuthorityLineage.ExecuteKeeps` | migrations/versions/20260919_0001_b05_initial.py:641-695 | every statement, accepted or not, keeps the lineage and only ever ends grants |
| `AuthorityLineage.RunKeeps` | migrations/versions/20260919_0001_b05_initial.py:641-695 | any sequence of statements does: the last table has a lineage and extends the first |
| `AuthorityLineage.EndedForever` | migrations/versions/20260919_0001_b05_initial.py:641-695 | a grant that has ended or has a successor is the same after any sequence of statements |
| `AuthorityLineage.GrantTable.constructor` | src/nexa/infrastructure/persistence/schema_v1.py:903-990 | the empty table has a lineage |
| `AuthorityLineage.GrantTable.Insert` | migrations/versions/20260919_0001_b05_initial.py:641-695 | accepted iff trigger and unique indexes allow it; then the table is the executed statement, otherwise unchanged; earlier grants only ever end |
| `AuthorityLineage.GrantTable.Update` | migrations/versions/20260919_0001_b05_initial.py:641-695 | accepted iff it changes nothing but an open end of a grant that exists; otherwise unchanged |

## Left out

- The product scheduling policy and its accounting: the engine model takes the policy's answers as arbitrary and leaves out accounting, the timeline, reservation identities, and the checks that the policy returned no error and the expected job version.
- A policy that answers for ever at one instant: each list of answers in the product engine is taken to end, as the loop of the source needs.
- Order of events at one instant in the product engine: any order is allowed, which covers the one the heap gives.
- Parsing of encoded decimals: the model starts from sign, digits and exponent; the text pattern is not modelled.
- Decimal rounding at fifty digits in the fairness report: amounts are exact rationals here; time-zone checks on its timestamps and the limit on the number of report rows are left out.
- `nearest_rank`, CSV and SVG reports, trace loading and random generation: single-step arithmetic or input and output.
- The allocation ledger's and model classes' constructor checks: traces are taken as valid.
- Heap internals: the clock is a set of events popped in heap order.
- PostgreSQL concurrency, locks, isolation, deferred triggers and index creation: statements run one after the other.
- Row deletion, tenant changes of jobs, `rebuilt_at` columns and eligibility notifications in the queue and quota triggers.
- Capacity triggers of migration 0017 that only forward to the functions modelled here, and queue submitters of migration 0019.
- Routes, schemas, the command line, the web interface and configuration: plumbing or single-branch checks.
