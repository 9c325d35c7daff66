/** How a job ends: what a Cancel achieves, and when the end is stamped, under every interleaving. */
module JobEndings {
  import opened Common
  import opened Verdicts
  import opened JobStore
  import opened JobRows
  import opened JobRuns

  // ---------------------------------------------------------------- the end is stamped once

  /** The job has an end exactly when it is over. */
  predicate Stamped(j: Job) {
    j.completedAt.Some? <==> j.status == Completed || j.status == Canceled
  }

  lemma StampStep(p: Plan, s: State, a: Action)
    requires Stamped(s.entry.job) && s.entry.job.status != Queued
    requires a.Append? && Enabled(p, s, a) ==> s.entry.job.status != Completed
    ensures var j, j' := s.entry.job, Do(p, s, a).entry.job;
            && Stamped(j') && j'.status != Queued && (j.completedAt.Some? ==> j'.completedAt == j.completedAt)
            && (j.completedAt.None? && j'.completedAt.Some? ==>
                  (a.Append? || a.WriteStatus? || a.CancelWrite?) && j'.completedAt == Some(a.now))
            && j'.createdAt == j.createdAt && j'.id == j.id && j'.total == j.total
  {
  }

  /** A completed job has nothing left to append. */
  lemma CompletedIsFull(p: Plan, s: State, a: Action)
    requires Sensible(p) && Inv(p, s) && a.Append? && Enabled(p, s, a)
    ensures s.entry.job.status != Completed
  {
    if s.entry.job.status == Completed {
      InvStep(p, s, a);
      DoneWithinTotal(p, Do(p, s, a));
      assert false;
    }
  }

  lemma StampNext(p: Plan, s: State, a: Action)
    requires Sensible(p) && Inv(p, s) && Stamped(s.entry.job)
    ensures var j, j' := s.entry.job, Do(p, s, a).entry.job;
            && Stamped(j') && (j.completedAt.Some? ==> j'.completedAt == j.completedAt)
            && (j.completedAt.None? && j'.completedAt.Some? ==>
                  (a.Append? || a.WriteStatus? || a.CancelWrite?) && j'.completedAt == Some(a.now))
            && j'.createdAt == j.createdAt && j'.id == j.id && j'.total == j.total
  {
    if a.Append? && Enabled(p, s, a) {
      CompletedIsFull(p, s, a);
    }
    StampStep(p, s, a);
  }

  /**
   In every interleaving the job has an end time exactly while it is over, and the time is that of the
   step that ended it first: no later append, Cancel or clean-up moves it.
   */
  lemma {:induction false} EndIsStampedOnce(p: Plan, id: string, now: int, acts: seq<Action>)
    requires Sensible(p)
    ensures var j := After(p, Initial(p, id, now), acts).entry.job;
            && Stamped(j) && j.id == id && j.createdAt == now
            && (acts != [] ==>
                  var before := After(p, Initial(p, id, now), acts[..|acts| - 1]).entry.job;
                  var a := acts[|acts| - 1];
                  && (before.completedAt.Some? ==> j.completedAt == before.completedAt)
                  && (before.completedAt.None? && j.completedAt.Some? ==>
                        (a.Append? || a.WriteStatus? || a.CancelWrite?) && j.completedAt == Some(a.now)))
  {
    if acts != [] {
      var front := acts[..|acts| - 1];
      EndIsStampedOnce(p, id, now, front);
      InitialInv(p, id, now);
      InvAlways(p, Initial(p, id, now), front);
      StampNext(p, After(p, Initial(p, id, now), front), acts[|acts| - 1]);
    }
  }

  /** Setting a status sets nothing else, except that the first of the two final ones stamps the end. */
  lemma StatusLaw(e: Entry, status: JobStatus, now: int)
    ensures var e' := WithStatus(e, status, now);
            && e'.results == e.results && e'.job.status == status
            && e'.job == e.job.(status := status, completedAt := e'.job.completedAt)
            && (e.job.completedAt.Some? || status == Queued || status == Running ==>
                  e'.job.completedAt == e.job.completedAt)
            && (e.job.completedAt.None? && status in {Completed, Canceled} ==> e'.job.completedAt == Some(now))
  {
  }

  // ---------------------------------------------------------------- what a Cancel achieves

  /** The cancel func is registered as long as workers are being started, and a canceled context stays so. */
  lemma ContextStep(p: Plan, s: State, a: Action)
    requires s.phase == Dispatching ==> s.registered
    ensures Do(p, s, a).phase == Dispatching ==> s.phase == Dispatching && Do(p, s, a).registered
    ensures s.canceled ==> Do(p, s, a).canceled
    ensures a.CancelContext? && Enabled(p, s, a) && s.phase == Dispatching ==> Do(p, s, a).canceled
  {
  }

  lemma {:induction false} DispatchingIsRegistered(p: Plan, id: string, now: int, acts: seq<Action>)
    ensures var s := After(p, Initial(p, id, now), acts);
            s.phase == Dispatching ==> s.registered
  {
    if acts != [] {
      DispatchingIsRegistered(p, id, now, acts[..|acts| - 1]);
      ContextStep(p, After(p, Initial(p, id, now), acts[..|acts| - 1]), acts[|acts| - 1]);
    }
  }

  /** The finishing goroutine has let go of the job's context. */
  predicate LetGo(phase: Phase) {
    phase == ContextReleased || phase.StatusRead? || phase == Finished
  }

  lemma LetGoStep(p: Plan, s: State, a: Action)
    requires (s.registered <==> !LetGo(s.phase)) && (LetGo(s.phase) ==> s.canceled)
    ensures var t := Do(p, s, a);
            (t.registered <==> !LetGo(t.phase)) && (LetGo(t.phase) ==> t.canceled)
  {
  }

  /** The cancel func stays registered until the job is finished with, and then the context is released. */
  lemma {:induction false} ContextIsReleased(p: Plan, id: string, now: int, acts: seq<Action>)
    ensures var s := After(p, Initial(p, id, now), acts);
            (s.registered <==> !LetGo(s.phase)) && (LetGo(s.phase) ==> s.canceled)
  {
    if acts != [] {
      ContextIsReleased(p, id, now, acts[..|acts| - 1]);
      LetGoStep(p, After(p, Initial(p, id, now), acts[..|acts| - 1]), acts[|acts| - 1]);
    }
  }

  lemma ContextNext(p: Plan, id: string, now: int, acts: seq<Action>, i: nat)
    requires i < |acts| && After(p, Initial(p, id, now), acts[..i]).canceled
    ensures After(p, Initial(p, id, now), acts[..i + 1]).canceled
  {
    DispatchingIsRegistered(p, id, now, acts[..i]);
    ContextStep(p, After(p, Initial(p, id, now), acts[..i]), acts[i]);
    AfterDo(p, Initial(p, id, now), acts, i);
  }

  lemma {:induction false} CanceledContextStays(p: Plan, id: string, now: int, acts: seq<Action>, i: nat, j: nat)
    requires i <= j <= |acts| && After(p, Initial(p, id, now), acts[..i]).canceled
    ensures After(p, Initial(p, id, now), acts[..j]).canceled
    decreases j
  {
    if i < j {
      CanceledContextStays(p, id, now, acts, i, j - 1);
      ContextNext(p, id, now, acts, j - 1);
    }
  }

  /**
   Once a Cancel has signalled while addresses are being started, the dispatcher may stop before every
   further one; and without any Cancel past its check it starts them all.
   */
  lemma CancelStopsDispatch(p: Plan, id: string, now: int, acts: seq<Action>, i: nat, j: nat)
    requires Sensible(p) && i < j <= |acts| && acts[i] == CancelContext
    requires var s := After(p, Initial(p, id, now), acts[..i]);
             s.phase == Dispatching && Enabled(p, s, acts[i])
    ensures var t := After(p, Initial(p, id, now), acts[..j]);
            t.phase == Dispatching && t.next < |p.batches| ==> Enabled(p, t, StopEarly)
  {
    DispatchingIsRegistered(p, id, now, acts[..i]);
    ContextStep(p, After(p, Initial(p, id, now), acts[..i]), acts[i]);
    AfterDo(p, Initial(p, id, now), acts, i);
    CanceledContextStays(p, id, now, acts, i + 1, j);
  }

  lemma UndisturbedStartsAll(p: Plan, id: string, now: int, acts: seq<Action>)
    requires Sensible(p)
    ensures var s := After(p, Initial(p, id, now), acts);
            !s.asked && s.phase != Dispatching ==> |s.verified| == |p.batches|
  {
    InitialInv(p, id, now);
    InvAlways(p, Initial(p, id, now), acts);
  }

  predicate Passes(s: State, a: Action) {
    a.CancelCheck? && s.entry.job.status != Completed && s.entry.job.status != Canceled
  }

  /** The Cancel calls of a run that found the job still going. */
  function Passed(p: Plan, s: State, acts: seq<Action>): nat {
    if acts == [] then 0
    else Passed(p, s, acts[..|acts| - 1]) + if Passes(After(p, s, acts[..|acts| - 1]), acts[|acts| - 1]) then 1 else 0
  }

  /** The Cancel calls of a run that wrote their status. */
  function Written(p: Plan, s: State, acts: seq<Action>): nat {
    if acts == [] then 0
    else
      var v, a := After(p, s, acts[..|acts| - 1]), acts[|acts| - 1];
      Written(p, s, acts[..|acts| - 1]) + if a.CancelWrite? && Enabled(p, v, a) then 1 else 0
  }

  lemma CancelStep(p: Plan, s: State, a: Action)
    ensures var t := Do(p, s, a);
            t.checked + t.signalled + (if a.CancelWrite? && Enabled(p, s, a) then 1 else 0) ==
            s.checked + s.signalled + (if Passes(s, a) then 1 else 0)
    ensures a.CancelCheck? && !Passes(s, a) ==> Do(p, s, a) == s
  {
  }

  /**
   Every Cancel that finds the job still going is on its way until it writes, exactly once; one that
   finds the job over does nothing at all.
   */
  lemma {:induction false} CancelsAreConserved(p: Plan, id: string, now: int, acts: seq<Action>)
    ensures var s0 := Initial(p, id, now);
            var s := After(p, s0, acts);
            && s.checked + s.signalled + Written(p, s0, acts) == Passed(p, s0, acts)
            && (!Passes(s, CancelCheck) ==> Do(p, s, CancelCheck) == s)
  {
    if acts != [] {
      CancelsAreConserved(p, id, now, acts[..|acts| - 1]);
      CancelStep(p, After(p, Initial(p, id, now), acts[..|acts| - 1]), acts[|acts| - 1]);
    }
    CancelStep(p, After(p, Initial(p, id, now), acts), CancelCheck);
  }

  lemma CanceledNext(p: Plan, s: State, acts: seq<Action>, i: nat)
    requires i < |acts| && After(p, s, acts[..i]).entry.job.status == Canceled
    ensures After(p, s, acts[..i + 1]).entry.job.status == Canceled
  {
    CanceledStep(p, After(p, s, acts[..i]), acts[i]);
    AfterDo(p, s, acts, i);
  }

  lemma {:induction false} StaysCanceled(p: Plan, s: State, acts: seq<Action>, i: nat, j: nat)
    requires i <= j <= |acts| && After(p, s, acts[..i]).entry.job.status == Canceled
    ensures After(p, s, acts[..j]).entry.job.status == Canceled
    decreases j
  {
    if i < j {
      StaysCanceled(p, s, acts, i, j - 1);
      CanceledNext(p, s, acts, j - 1);
    }
  }

  /** A Cancel that gets to write leaves the job canceled for good. */
  lemma CancelCancels(p: Plan, id: string, now: int, acts: seq<Action>, i: nat, j: nat)
    requires i < j <= |acts| && acts[i].CancelWrite?
    requires Enabled(p, After(p, Initial(p, id, now), acts[..i]), acts[i])
    ensures After(p, Initial(p, id, now), acts[..j]).entry.job.status == Canceled
  {
    AfterDo(p, Initial(p, id, now), acts, i);
    Writes(p, After(p, Initial(p, id, now), acts[..i]), acts[i].now);
    StaysCanceled(p, Initial(p, id, now), acts, i + 1, j);
  }

  // ---------------------------------------------------------------- pages

  /**
   A page is the stretch of results from the cursor on, at most `limit` long; it is shorter only at the
   end, and the next cursor is where the page stops, or 0 at the end.
   */
  lemma PageLaw(results: seq<Result>, cursor: nat, limit: int)
    requires cursor < |results|
    ensures var (page, next) := Page(results, cursor, limit);
            && page <= results[cursor..] && page != []
            && (limit > 0 ==> |page| <= limit)
            && (limit > 0 && |page| < limit ==> cursor + |page| == |results|)
            && (limit <= 0 ==> cursor + |page| == |results|)
            && next == (if cursor + |page| == |results| then 0 else cursor + |page|)
  {
  }

  /** Out of range, a cursor reads as the start or as the end. */
  lemma PageEdges(results: seq<Result>, cursor: int, limit: int)
    ensures cursor < 0 ==> Page(results, cursor, limit) == Page(results, 0, limit)
    ensures cursor >= |results| ==> Page(results, cursor, limit) == ([], 0)
  {
  }
}
