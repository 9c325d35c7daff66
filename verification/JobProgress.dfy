/** Every job finishes: no deadlock, and a measure that every step of the job itself brings down. */
module JobProgress {
  import opened Verdicts
  import opened JobStore
  import opened JobRows
  import opened JobRuns

  predicate IsCancel(a: Action) {
    a.CancelCheck? || a.CancelContext? || a.CancelWrite?
  }

  /** Steps a worker still has to take. */
  function StepsLeft(b: Batch, w: Worker): nat {
    match w
    case Idle => |b.labels| + 4
    case Verifying => |b.labels| + 3
    case Appending(v, k) => if k <= |b.labels| then |b.labels| - k + 2 else 2
    case Released => 1
    case Gone => 0
  }

  function WorkLeft(bs: seq<Batch>, ws: seq<Worker>, n: nat): nat
    requires n <= |bs| == |ws|
  {
    if n == 0 then 0 else WorkLeft(bs, ws, n - 1) + StepsLeft(bs[n - 1], ws[n - 1])
  }

  function PhasesLeft(phase: Phase): nat {
    match phase
    case Dispatching => 5
    case Draining => 4
    case Returned => 3
    case ContextReleased => 2
    case StatusRead(_) => 1
    case Finished => 0
  }

  /** What is left to do before the job is finished. */
  function Left(p: Plan, s: State): nat
    requires |s.workers| == |p.batches|
  {
    WorkLeft(p.batches, s.workers, |p.batches|) + PhasesLeft(s.phase)
  }

  lemma {:induction false} WorkMoves(bs: seq<Batch>, ws: seq<Worker>, i: nat, w: Worker, n: nat)
    requires n <= |bs| == |ws| && i < |ws|
    ensures WorkLeft(bs, ws[i := w], n) ==
            WorkLeft(bs, ws, n) + if i < n then StepsLeft(bs[i], w) - StepsLeft(bs[i], ws[i]) else 0
  {
    if n > 0 {
      WorkMoves(bs, ws, i, w, n - 1);
    }
  }

  lemma WorkersFall(p: Plan, s: State, a: Action)
    requires Shaped(p, s.next, s.workers, s.verified) && Enabled(p, s, a) && Works(a)
    ensures |Next(p, s, a).workers| == |p.batches| && Left(p, Next(p, s, a)) < Left(p, s)
  {
    var i := if a.Start? then s.next else a.i;
    var w := Next(p, s, a).workers[i];
    assert Next(p, s, a).workers == s.workers[i := w] && Next(p, s, a).phase == s.phase;
    assert StepsLeft(p.batches[i], w) < StepsLeft(p.batches[i], s.workers[i]);
    WorkMoves(p.batches, s.workers, i, w, |p.batches|);
  }

  /** Every step but those of Cancel callers brings the job nearer to its end, and those never take it back. */
  lemma StepsFall(p: Plan, s: State, a: Action)
    requires Shaped(p, s.next, s.workers, s.verified) && Enabled(p, s, a)
    ensures |Next(p, s, a).workers| == |p.batches|
    ensures if IsCancel(a) then Left(p, Next(p, s, a)) == Left(p, s) else Left(p, Next(p, s, a)) < Left(p, s)
  {
    if Works(a) {
      WorkersFall(p, s, a);
    } else {
      Administers(p, s, a);
    }
  }

  lemma BusyWorkerMoves(p: Plan, s: State, i: nat) returns (a: Action)
    requires Shaped(p, s.next, s.workers, s.verified) && i < |s.workers| && !s.workers[i].Idle? && !s.workers[i].Gone?
    ensures Enabled(p, s, a) && !IsCancel(a)
  {
    match s.workers[i]
    case Verifying => a := Verified(i, AnyVerdict());
    case Appending(v, k) => a := if k < |p.batches[i].labels| then Append(i, 0) else Release(i);
    case Released => a := Exit(i);
  }

  function AnyVerdict(): Verdict {
    Verdict("", "", Unknown, TemporaryFailure, NoChecks, "", "", false, 0)
  }

  lemma {:induction false} SomeoneInFlight(ws: seq<Worker>) returns (i: nat)
    requires InFlight(ws) > 0
    ensures i < |ws| && Busy(ws[i])
  {
    var n := |ws| - 1;
    if Busy(ws[n]) {
      i := n;
    } else {
      i := SomeoneInFlight(ws[..n]);
    }
  }

  /** No deadlock: an unfinished job can always take a step that no Cancel caller has to take for it. */
  lemma CanMove(p: Plan, s: State) returns (a: Action)
    requires Sensible(p) && Shaped(p, s.next, s.workers, s.verified) && s.phase != Finished
    ensures Enabled(p, s, a) && !IsCancel(a)
  {
    match s.phase
    case Dispatching =>
      if s.next == |p.batches| {
        a := EndDispatch;
      } else if InFlight(s.workers) < p.concurrency {
        a := Start;
      } else {
        var i := SomeoneInFlight(s.workers);
        a := BusyWorkerMoves(p, s, i);
      }
    case Draining =>
      if exists i :: 0 <= i < |s.workers| && !s.workers[i].Idle? && !s.workers[i].Gone? {
        var i :| 0 <= i < |s.workers| && !s.workers[i].Idle? && !s.workers[i].Gone?;
        a := BusyWorkerMoves(p, s, i);
      } else {
        a := Return;
      }
    case Returned => a := ReleaseContext;
    case ContextReleased => a := ReadStatus;
    case StatusRead(_) => a := WriteStatus(0);
  }

  /** How many of the actions happened, not counting those of Cancel callers. */
  function Steps(p: Plan, s: State, acts: seq<Action>): nat {
    if acts == [] then 0
    else
      var n := |acts| - 1;
      Steps(p, s, acts[..n]) + if Enabled(p, After(p, s, acts[..n]), acts[n]) && !IsCancel(acts[n]) then 1 else 0
  }

  lemma {:induction false} StepsBounded(p: Plan, s: State, acts: seq<Action>)
    requires Sensible(p) && Inv(p, s)
    ensures Inv(p, After(p, s, acts)) && Steps(p, s, acts) + Left(p, After(p, s, acts)) <= Left(p, s)
  {
    InvAlways(p, s, acts);
    if acts != [] {
      var n := |acts| - 1;
      StepsBounded(p, s, acts[..n]);
      var t := After(p, s, acts[..n]);
      if Enabled(p, t, acts[n]) {
        StepsFall(p, t, acts[n]);
      }
    }
  }

  /**
   Every job finishes: however its steps interleave with Cancel callers, only a bounded number of
   them can happen, and until the job is finished some step of its own can.
   */
  lemma JobFinishes(p: Plan, id: string, now: int, acts: seq<Action>)
    requires Sensible(p)
    ensures var s := After(p, Initial(p, id, now), acts);
            && Steps(p, Initial(p, id, now), acts) <= Left(p, Initial(p, id, now))
            && (s.phase != Finished ==> exists a :: Enabled(p, s, a) && !IsCancel(a))
  {
    InitialInv(p, id, now);
    StepsBounded(p, Initial(p, id, now), acts);
    var s := After(p, Initial(p, id, now), acts);
    if s.phase != Finished {
      var a := CanMove(p, s);
    }
  }
}
