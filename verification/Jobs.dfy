/** Bulk jobs from submission to download (internal/jobs/runner.go and internal/web). */
module Jobs {
  import opened Common
  import opened Verdicts
  import opened JobStore
  import opened JobRows
  import opened JobRuns
  import opened JobPairs
  import Buckets
  import Export
  import Verifier
  import VerifierRuns

  datatype Submission = NoEmails | TooManyEmails | Accepted(job: Job)

  /** A job is created for the deduplicated rows, unless there are none or too many. */
  method Submit(store: Store, lower: string -> string, rows: seq<Row>, maxEmails: int, id: string, now: int)
    returns (out: Submission)
    modifies store
    ensures out.NoEmails? <==> forall i :: 0 <= i < |rows| ==> Blank(rows[i])
    ensures out.TooManyEmails? ==> |Deduped(lower, rows)| > maxEmails
    ensures out.Accepted? ==>
              && 0 < out.job.total == |Deduped(lower, rows)| <= maxEmails
              && out.job == Job(id, Running, out.job.total, 0, now, None)
    ensures store.jobs == if out.Accepted? then old(store.jobs)[id := Entry(out.job, [])] else old(store.jobs)
  {
    var unique := Dedup(lower, rows);
    NothingLeftIff(lower, rows);
    if |unique| == 0 {
      return NoEmails;
    }
    if |unique| > maxEmails {
      return TooManyEmails;
    }
    var job := Job(id, Running, |unique|, 0, now, None);
    store.CreateJob(job);
    return Accepted(job);
  }

  /** Deduplication leaves nothing exactly when every address is blank. */
  lemma NothingLeftIff(lower: string -> string, rows: seq<Row>)
    ensures Deduped(lower, rows) == [] <==> forall i :: 0 <= i < |rows| ==> Blank(rows[i])
  {
    if exists i :: 0 <= i < |rows| && !Blank(rows[i]) {
      var i :| 0 <= i < |rows| && !Blank(rows[i]);
      DedupCovers(lower, rows, i);
    }
    if Deduped(lower, rows) != [] {
      DedupSound(lower, rows, 0);
    }
  }

  /**
   A submitted job, under every interleaving of its workers, its Cancel callers and its finishing
   goroutine: it starts as Submit stored it, never verifies an address twice, stores only rows it
   owes, each with the answer for its address, has them all when it is completed, and is completed
   in the end unless some Cancel got through.
   */
  lemma SubmittedJobDelivers(lower: string -> string, rows: seq<Row>, concurrency: nat, id: string, now: int,
                             acts: seq<Action>)
    requires Deduped(lower, rows) != [] && concurrency > 0
    ensures var unique := Deduped(lower, rows);
            OneGroupEach(lower, Grouped(lower, unique)) &&
            var p := PlanFor(lower, unique, concurrency);
            var s := After(p, Initial(p, id, now), acts);
            && Initial(p, id, now).entry == Entry(Job(id, Running, |unique|, 0, now, None), [])
            && NoRepeats(s.verified)
            && multiset(s.rows) <= TagsOf(lower, unique)
            && s.entry.job.total == |unique| && s.entry.job.done == |s.entry.results| == |s.rows|
            && (forall i :: 0 <= i < |s.rows| ==>
                  s.rows[i].1 in s.answers && s.entry.results[i] == Result(s.rows[i].0, s.answers[s.rows[i].1]))
            && (s.entry.job.status == Completed ==> multiset(s.rows) == TagsOf(lower, unique))
            && (s.phase == Finished && !s.asked ==> s.entry.job.status == Completed)
  {
    var unique := Deduped(lower, rows);
    PlanOwesRows(lower, unique, concurrency);
    var p := PlanFor(lower, unique, concurrency);
    JobConserves(p, id, now, acts);
    JobLifecycle(p, id, now, acts);
  }

  /**
   A completed job holds exactly one row for every submitted (label, address) pair with an address
   if and only if no two of those pairs collide; it never holds a row for any other pair.
   */
  lemma CompletedJobHasOneRowEachIff(lower: string -> string, rows: seq<Row>, concurrency: nat, id: string, now: int,
                                     acts: seq<Action>)
    requires Deduped(lower, rows) != [] && concurrency > 0
    ensures OneGroupEach(lower, Grouped(lower, Deduped(lower, rows)))
    ensures var p := PlanFor(lower, Deduped(lower, rows), concurrency);
            var s := After(p, Initial(p, id, now), acts);
            s.entry.job.status == Completed ==>
              && (OneRowEach(lower, rows, s.rows) <==> CollisionFree(lower, rows))
              && NoOtherRow(lower, rows, s.rows)
  {
    SubmittedJobDelivers(lower, rows, concurrency, id, now, acts);
    var p := PlanFor(lower, Deduped(lower, rows), concurrency);
    var s := After(p, Initial(p, id, now), acts);
    if s.entry.job.status == Completed {
      OneRowEachIff(lower, rows, s.rows);
      OnlySubmittedPairs(lower, rows, s.rows);
    }
  }

  /** In particular, addresses without NUL all get their one row. */
  lemma NulFreeJobHasOneRowEach(lower: string -> string, rows: seq<Row>, concurrency: nat, id: string, now: int,
                                acts: seq<Action>)
    requires Deduped(lower, rows) != [] && concurrency > 0
    requires forall i :: 0 <= i < |rows| ==> '\0' !in lower(Cleaned(rows[i]).email)
    ensures OneGroupEach(lower, Grouped(lower, Deduped(lower, rows)))
    ensures var p := PlanFor(lower, Deduped(lower, rows), concurrency);
            var s := After(p, Initial(p, id, now), acts);
            s.entry.job.status == Completed ==> OneRowEach(lower, rows, s.rows)
  {
    NulFreeIsCollisionFree(lower, rows);
    CompletedJobHasOneRowEachIff(lower, rows, concurrency, id, now, acts);
  }

  // ---------------------------------------------------------------- export while the job runs

  /** What an export's page reads see: the job after more and more of its steps. */
  ghost function Views(p: Plan, id: string, now: int, acts: seq<Action>, times: nat -> nat): nat -> seq<Result>
    requires forall k: nat :: times(k) <= |acts|
  {
    (k: nat) requires times(k) <= |acts| => After(p, Initial(p, id, now), acts[..times(k)]).entry.results
  }

  /** An export may run beside the job: between its page reads the results only grow, up to the job's total. */
  lemma JobOnlyAppends(p: Plan, id: string, now: int, acts: seq<Action>, times: nat -> nat)
    requires Sensible(p)
    requires (forall k: nat :: times(k) <= |acts|) && forall k: nat, m: nat :: k <= m ==> times(k) <= times(m)
    ensures Export.OnlyAppends(Views(p, id, now, acts, times), |Everything(p.batches, |p.batches|)|)
  {
    var views := Views(p, id, now, acts, times);
    forall k: nat, m: nat | k <= m
      ensures views(k) <= views(m)
    {
      ResultsOnlyGrow(p, Initial(p, id, now), acts, times(k), times(m));
    }
    forall k: nat
      ensures |views(k)| <= |Everything(p.batches, |p.batches|)|
    {
      JobLifecycle(p, id, now, acts[..times(k)]);
    }
  }

  // ---------------------------------------------------------------- downloads

  /** What a worker stores when verification returns an error. */
  function Fallback(email: string, now: int): Verdict {
    Verdict(email, "", Unknown, TemporaryFailure, NoChecks, "", "", false, now)
  }

  /** An address whose verification failed is listed under its own spelling, to be tried again, as never probed. */
  lemma FallbackIsRetried(email: string, now: int)
    ensures var v := Fallback(email, now);
            && Buckets.Classified(v) == Buckets.Retry && v.subStatus == TemporaryFailure && !v.cached
            && v.email == email && v.normalized == "" && v.provider == "" && v.egressId == ""
            && v.checks.smtpCode == 0 && v.checkedAt == now
  {
  }

  /** The verdict is one that a worker can store: a finished verification's answer, or the fallback. */
  ghost predicate Genuine(v: Verdict) {
    || (exists email, now :: v == Fallback(email, now))
    || (exists calls, ttl, clock, steps, i: nat :: AnswerIn(calls, ttl, clock, steps, i, v))
  }

  ghost predicate AnswerIn(calls: seq<VerifierRuns.Call>, ttl: int, clock: int, steps: seq<VerifierRuns.Step>, i: nat,
                           v: Verdict) {
    i < |calls| && VerifierRuns.At(VerifierRuns.After(calls, ttl, clock, steps), i) == VerifierRuns.Done(Some(v))
  }

  lemma GenuineIsSane(v: Verdict)
    requires Genuine(v)
    ensures Verifier.Sane(v)
  {
    if !exists email, now :: v == Fallback(email, now) {
      var calls, ttl, clock, steps, i: nat :| AnswerIn(calls, ttl, clock, steps, i, v);
      VerifierRuns.FinishedAnswersAreSound(calls, ttl, clock, steps, i);
    }
  }

  ghost predicate GenuineActions(acts: seq<Action>) {
    forall n :: 0 <= n < |acts| && acts[n].Verified? ==> Genuine(acts[n].verdict)
  }

  /** Only a finished verification changes what an address was answered. */
  lemma AnswersChange(p: Plan, s: State, a: Action, key: string)
    requires key in Do(p, s, a).answers
    ensures (key in s.answers && Do(p, s, a).answers[key] == s.answers[key])
            || (a.Verified? && Do(p, s, a).answers[key] == a.verdict)
  {
  }

  lemma {:induction false} AnswerSource(p: Plan, s: State, acts: seq<Action>, key: string) returns (n: int)
    requires key in After(p, s, acts).answers
    ensures -1 <= n < |acts|
    ensures n < 0 ==> key in s.answers && After(p, s, acts).answers[key] == s.answers[key]
    ensures n >= 0 ==> acts[n].Verified? && After(p, s, acts).answers[key] == acts[n].verdict
  {
    n := -1;
    if acts != [] {
      var front, last := acts[..|acts| - 1], acts[|acts| - 1];
      AnswersChange(p, After(p, s, front), last, key);
      if key in After(p, s, front).answers && After(p, s, acts).answers[key] == After(p, s, front).answers[key] {
        n := AnswerSource(p, s, front, key);
      } else {
        n := |acts| - 1;
      }
    }
  }

  /**
   At every moment of every job whose workers store what the verifier answers, and for any
   aggregate that counts its results, the count shown for each bucket is the size of its download.
   */
  lemma DownloadsMatchCounts(p: Plan, id: string, now: int, acts: seq<Action>, stats: Stats, b: Buckets.Bucket)
    requires Sensible(p) && GenuineActions(acts)
    requires Counts(stats, After(p, Initial(p, id, now), acts).entry.results)
    ensures Buckets.Shown(stats, b) == |Buckets.Filtered(After(p, Initial(p, id, now), acts).entry.results, b)|
  {
    var s := After(p, Initial(p, id, now), acts);
    JobConserves(p, id, now, acts);
    forall i | 0 <= i < |s.entry.results|
      ensures Verifier.Sane(s.entry.results[i].verdict)
    {
      var n := AnswerSource(p, Initial(p, id, now), acts, s.rows[i].1);
      assert acts[n].verdict == s.answers[s.rows[i].1];
      GenuineIsSane(s.answers[s.rows[i].1]);
    }
    assert Buckets.Orderly(s.entry.results);
    Buckets.CountsMatchFilesIff(stats, s.entry.results);
  }
}
