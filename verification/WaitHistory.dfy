/** Eligible waiting time as a history: which jobs were eligible during each millisecond, and
    what follows for waits and for the instants at which they cross a threshold
    (benchmarks/b04/engine.py). */
module WaitHistory {
  import opened Workload

  /** Entry m is the set of jobs eligible during millisecond m. */
  type History = seq<set<JobId>>

  /** Milliseconds during which a job was eligible, over all interruptions. */
  function TotalMs(history: History, id: JobId): nat {
    if history == [] then 0
    else TotalMs(history[..|history| - 1], id) + if id in history[|history| - 1] then 1 else 0
  }

  function Repeat(jobs: set<JobId>, n: nat): History {
    seq(n, i => jobs)
  }

  lemma {:induction false} TotalRepeat(history: History, jobs: set<JobId>, n: nat, id: JobId)
    ensures TotalMs(history + Repeat(jobs, n), id) == TotalMs(history, id) + if id in jobs then n else 0
    decreases n
  {
    if n == 0 {
      assert history + Repeat(jobs, 0) == history;
    } else {
      var more := history + Repeat(jobs, n);
      TotalRepeat(history, jobs, n - 1, id);
      assert more[..|more| - 1] == history + Repeat(jobs, n - 1);
      assert more[|more| - 1] == jobs;
    }
  }

  /** The job's total reaches the threshold at the end of millisecond `at - 1`. */
  ghost predicate Crosses(history: History, id: JobId, threshold: nat, at: int) {
    0 < at <= |history| && id in history[at - 1] && TotalMs(history[..at], id) == threshold
  }

  ghost predicate Extends(history: History, history': History) {
    |history| <= |history'| && history'[..|history|] == history
  }

  lemma PrefixSame(history: History, history': History, at: int)
    requires Extends(history, history') && 0 <= at <= |history|
    ensures history'[..at] == history[..at]
  {
    assert history'[..at] == history'[..|history|][..at];
  }

  /** A crossing in a constant stretch happens when the missing milliseconds have passed. */
  lemma CrossesInStretch(history: History, jobs: set<JobId>, n: nat, id: JobId, threshold: nat, at: int)
    requires |history| < at && Crosses(history + Repeat(jobs, n), id, threshold, at)
    ensures id in jobs && TotalMs(history, id) < threshold
    ensures at == |history| + threshold - TotalMs(history, id)
  {
    var more := history + Repeat(jobs, n);
    var k := at - |history|;
    assert more[..at] == history + Repeat(jobs, k);
    TotalRepeat(history, jobs, k, id);
    assert more[at - 1] == Repeat(jobs, n)[k - 1];
  }

  lemma CrossedBefore(history: History, history': History, id: JobId, threshold: nat, at: int)
    requires Extends(history, history') && at <= |history|
    requires Crosses(history', id, threshold, at)
    ensures Crosses(history, id, threshold, at)
  {
    PrefixSame(history, history', at);
    assert history'[at - 1] == history'[..|history|][at - 1];
  }

  lemma ExtendsFurther(a: History, b: History, c: History)
    requires Extends(a, b) && Extends(b, c)
    ensures Extends(a, c)
  {
    PrefixSame(b, c, |a|);
  }
}
