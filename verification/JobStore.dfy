/** The in-memory job store (internal/store/memory/jobs.go). */
module JobStore {
  import opened Common
  import opened Verdicts

  datatype JobStatus = Queued | Running | Completed | Canceled

  datatype Job = Job(id: string, status: JobStatus, total: nat, done: nat, createdAt: int, completedAt: Option<int>)

  /** One verified address with the label it was submitted under. */
  datatype Result = Result(name: string, verdict: Verdict)

  datatype Entry = Entry(job: Job, results: seq<Result>)

  function Appended(e: Entry, r: Result, now: int): Entry {
    var done := e.job.done + 1;
    if e.job.status != Canceled && done >= e.job.total
    then Entry(e.job.(done := done, status := Completed, completedAt := Some(now)), e.results + [r])
    else Entry(e.job.(done := done), e.results + [r])
  }

  function WithStatus(e: Entry, status: JobStatus, now: int): Entry {
    var at := if (status == Completed || status == Canceled) && e.job.completedAt.None? then Some(now)
              else e.job.completedAt;
    e.(job := e.job.(status := status, completedAt := at))
  }

  /** A page of results and the cursor of the next one; 0 means there is none. */
  function Page(results: seq<Result>, cursor: int, limit: int): (seq<Result>, nat) {
    var c := if cursor < 0 then 0 else cursor;
    var l := if limit <= 0 then |results| else limit;
    if c >= |results| then ([], 0)
    else
      var end := if c + l > |results| then |results| else c + l;
      (results[c..end], if end < |results| then end else 0)
  }

  // ---------------------------------------------------------------- aggregate statistics

  datatype Stats = Stats(
    total: nat,
    byStatus: map<Status, nat>,
    bySubStatus: map<SubStatus, nat>,
    byProvider: map<string, nat>,
    probed: nat,
    notProbed: nat)

  /** A counter that was never touched reads as zero. */
  function Tally<K>(m: map<K, nat>, k: K): nat {
    if k in m then m[k] else 0
  }

  function CountStatus(results: seq<Result>, s: Status): nat {
    if results == [] then 0
    else CountStatus(results[..|results| - 1], s) + if results[|results| - 1].verdict.status == s then 1 else 0
  }

  function CountSub(results: seq<Result>, s: SubStatus): nat {
    if results == [] then 0
    else CountSub(results[..|results| - 1], s) + if results[|results| - 1].verdict.subStatus == s then 1 else 0
  }

  function ProviderName(v: Verdict): string {
    if v.provider == "" then "unknown" else v.provider
  }

  function CountProvider(results: seq<Result>, p: string): nat {
    if results == [] then 0
    else CountProvider(results[..|results| - 1], p) + if ProviderName(results[|results| - 1].verdict) == p then 1 else 0
  }

  /** Probed means an SMTP reply code was seen. */
  function CountProbed(results: seq<Result>): nat {
    if results == [] then 0
    else CountProbed(results[..|results| - 1]) + if results[|results| - 1].verdict.checks.smtpCode != 0 then 1 else 0
  }

  /** The aggregate says of every status, reason and provider how many rows have it. */
  ghost predicate Counts(s: Stats, results: seq<Result>) {
    && s.total == |results|
    && (forall k :: Tally(s.byStatus, k) == CountStatus(results, k))
    && (forall k :: Tally(s.bySubStatus, k) == CountSub(results, k))
    && (forall k :: Tally(s.byProvider, k) == CountProvider(results, k))
    && s.probed == CountProbed(results) && s.probed + s.notProbed == |results|
  }

  class Store {
    var jobs: map<string, Entry>

    constructor ()
      ensures jobs == map[]
    {
      jobs := map[];
    }

    method CreateJob(job: Job)
      modifies this
      ensures jobs == old(jobs)[job.id := Entry(job, [])]
    {
      jobs := jobs[job.id := Entry(job, [])];
    }

    method GetJob(id: string) returns (job: Option<Job>)
      ensures job == if id in jobs then Some(jobs[id].job) else None
    {
      if id !in jobs {
        return None;
      }
      return Some(jobs[id].job);
    }

    method AppendResult(id: string, r: Result, now: int) returns (found: bool)
      modifies this
      ensures found == (id in old(jobs))
      ensures jobs == if found then old(jobs)[id := Appended(old(jobs)[id], r, now)] else old(jobs)
    {
      if id !in jobs {
        return false;
      }
      var e := jobs[id];
      e := e.(results := e.results + [r], job := e.job.(done := e.job.done + 1));
      if e.job.status != Canceled && e.job.done >= e.job.total {
        e := e.(job := e.job.(status := Completed, completedAt := Some(now)));
      }
      jobs := jobs[id := e];
      return true;
    }

    method SetStatus(id: string, status: JobStatus, now: int) returns (found: bool)
      modifies this
      ensures found == (id in old(jobs))
      ensures jobs == if found then old(jobs)[id := WithStatus(old(jobs)[id], status, now)] else old(jobs)
    {
      if id !in jobs {
        return false;
      }
      var job := jobs[id].job.(status := status);
      if status == Completed || status == Canceled {
        if job.completedAt.None? {
          job := job.(completedAt := Some(now));
        }
      }
      jobs := jobs[id := jobs[id].(job := job)];
      return true;
    }

    method Results(id: string, cursor: int, limit: int) returns (found: bool, page: seq<Result>, next: nat)
      ensures found == (id in jobs)
      ensures (page, next) == if found then Page(jobs[id].results, cursor, limit) else ([], 0)
    {
      if id !in jobs {
        return false, [], 0;
      }
      var results := jobs[id].results;
      var c, l := cursor, limit;
      if c < 0 { c := 0; }
      if l <= 0 { l := |results|; }
      if c >= |results| {
        return true, [], 0;
      }
      var end := c + l;
      if end > |results| { end := |results|; }
      page, next := results[c..end], 0;
      if end < |results| { next := end; }
      return true, page, next;
    }

    method Stats(id: string) returns (stats: Option<Stats>)
      ensures stats.Some? <==> id in jobs
      ensures stats.Some? ==> Counts(stats.value, jobs[id].results)
    {
      if id !in jobs {
        return None;
      }
      var s := Aggregate(jobs[id].results);
      return Some(s);
    }
  }

  /** The counting loop of Stats. */
  method Aggregate(results: seq<Result>) returns (s: Stats)
    ensures Counts(s, results)
  {
    s := Stats(0, map[], map[], map[], 0, 0);
    for i := 0 to |results|
      invariant Counts(s, results[..i])
    {
      assert results[..i + 1][..i] == results[..i];
      var v := results[i].verdict;
      var provider := v.provider;
      if provider == "" { provider := "unknown"; }
      var probed := v.checks.smtpCode != 0;
      s := Stats(s.total + 1,
                 s.byStatus[v.status := Tally(s.byStatus, v.status) + 1],
                 s.bySubStatus[v.subStatus := Tally(s.bySubStatus, v.subStatus) + 1],
                 s.byProvider[provider := Tally(s.byProvider, provider) + 1],
                 if probed then s.probed + 1 else s.probed,
                 if probed then s.notProbed else s.notProbed + 1);
    }
    assert results[..|results|] == results;
  }
}
