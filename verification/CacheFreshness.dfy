/**
 How old a cached answer can be, and what gets into the cache, over every schedule of concurrent
 verifications.
 */
module CacheFreshness {
  import opened Common
  import opened Verdicts
  import opened ResultCache
  import opened Verifier
  import opened VerifierRuns

  /** The run so far: the calls, the time to live, the clock at the start, and the steps taken. */
  datatype Run = Run(calls: seq<Call>, ttl: int, clock: int, steps: seq<Step>) {
    function Before(n: nat): (s: State)
      requires n <= |steps|
      ensures Shaped(calls, s)
    {
      After(calls, ttl, clock, steps[..n])
    }

    function Cut(n: nat): Run
      requires n <= |steps|
    {
      Run(calls, ttl, clock, steps[..n])
    }

    function Now(): State {
      After(calls, ttl, clock, steps)
    }
  }

  /** The step computes the verdict that `e` holds, for a call filed under `key`, and `e` is good for the ttl. */
  ghost predicate Makes(calls: seq<Call>, ttl: int, s: State, step: Step, key: string, e: Entry)
    requires Shaped(calls, s)
  {
    && step.Compute? && Enabled(calls, s, step)
    && var call := calls[step.i];
       && KeyFor(OutcomeOf(call)) == key && AnswerOf(call) == Some(e.verdict)
       && e.expiresAt == (if ttl > 0 then Some(s.clock + ttl) else None)
  }

  ghost predicate MadeAt(run: Run, m: nat, key: string, e: Entry) {
    m < |run.steps| && Makes(run.calls, run.ttl, run.Before(m), run.steps[m], key, e)
  }

  ghost predicate Made(run: Run, key: string, e: Entry) {
    exists m: nat :: MadeAt(run, m, key, e)
  }

  /** Every stored entry, and every one about to be stored, was computed by some step of the run. */
  ghost predicate Traced(run: Run) {
    && (forall n :: 0 <= n < |run.Now().log| ==> Made(run, run.Now().log[n].key, run.Now().log[n].entry))
    && (forall i :: 0 <= i < |run.calls| && run.Now().phases[i].Storing? && !OutcomeOf(run.calls[i]).Retry? ==>
          Made(run, KeyFor(OutcomeOf(run.calls[i])), run.Now().phases[i].entry))
  }

  lemma MadeStays(run: Run, key: string, e: Entry)
    requires run.steps != [] && Made(run.Cut(|run.steps| - 1), key, e)
    ensures Made(run, key, e)
  {
    var n := |run.steps| - 1;
    var m: nat :| MadeAt(run.Cut(n), m, key, e);
    assert run.steps[..n][..m] == run.steps[..m];
    assert run.Cut(n).Before(m) == run.Before(m) && run.Cut(n).steps[m] == run.steps[m];
    assert MadeAt(run, m, key, e);
  }

  lemma ComputeMakes(calls: seq<Call>, ttl: int, s: State, i: nat)
    requires Shaped(calls, s) && Enabled(calls, s, Compute(i)) && Next(calls, ttl, s, Compute(i)).phases[i].Storing?
    ensures Makes(calls, ttl, s, Compute(i), KeyFor(OutcomeOf(calls[i])),
                  Next(calls, ttl, s, Compute(i)).phases[i].entry)
  {
  }

  lemma JustMade(run: Run, i: nat)
    requires run.steps != [] && run.steps[|run.steps| - 1] == Compute(i)
    requires Enabled(run.calls, run.Before(|run.steps| - 1), Compute(i))
    requires run.Now().phases[i].Storing?
    ensures Made(run, KeyFor(OutcomeOf(run.calls[i])), run.Now().phases[i].entry)
  {
    var n := |run.steps| - 1;
    LastStep(run);
    ComputeMakes(run.calls, run.ttl, run.Before(n), i);
    assert MadeAt(run, n, KeyFor(OutcomeOf(run.calls[i])), run.Now().phases[i].entry);
  }

  /** What a step can add: a verdict to store when one is computed, and a write when it is stored. */
  lemma StepAdds(calls: seq<Call>, ttl: int, s: State, step: Step)
    requires Shaped(calls, s) && Enabled(calls, s, step)
    ensures var t := Next(calls, ttl, s, step);
            && (forall i :: 0 <= i < |calls| && t.phases[i].Storing? ==>
                  t.phases[i] == s.phases[i] || step == Compute(i))
            && (t.log == s.log
                || (step.Store? && step.i < |calls|
                    && t.log == s.log + [Write(KeyFor(OutcomeOf(calls[step.i])), s.phases[step.i].entry)]))
  {
  }

  lemma LastStep(run: Run)
    requires run.steps != []
    ensures var n := |run.steps| - 1;
            run.Now() == if Enabled(run.calls, run.Before(n), run.steps[n])
                         then Next(run.calls, run.ttl, run.Before(n), run.steps[n]) else run.Before(n)
  {
  }

  lemma TracedStep(run: Run)
    requires run.steps != [] && Traced(run.Cut(|run.steps| - 1))
    ensures Traced(run)
  {
    var n, s, t := |run.steps| - 1, run.Before(|run.steps| - 1), run.Now();
    var step := run.steps[n];
    LastStep(run);
    if Enabled(run.calls, s, step) {
      StepAdds(run.calls, run.ttl, s, step);
    }
    forall k | 0 <= k < |t.log|
      ensures Made(run, t.log[k].key, t.log[k].entry)
    {
      if k < |s.log| {
        assert t.log[k] == s.log[k] && s.log[k] == run.Cut(n).Now().log[k];
      } else {
        assert s.phases[step.i].Storing? && s.phases[step.i] == run.Cut(n).Now().phases[step.i];
      }
      MadeStays(run, t.log[k].key, t.log[k].entry);
    }
    forall i | 0 <= i < |run.calls| && t.phases[i].Storing? && !OutcomeOf(run.calls[i]).Retry?
      ensures Made(run, KeyFor(OutcomeOf(run.calls[i])), t.phases[i].entry)
    {
      if t.phases[i] == s.phases[i] {
        MadeStays(run, KeyFor(OutcomeOf(run.calls[i])), t.phases[i].entry);
      } else {
        JustMade(run, i);
      }
    }
  }

  lemma {:induction false} AlwaysTraced(run: Run)
    ensures Traced(run)
    decreases |run.steps|
  {
    if run.steps != [] {
      AlwaysTraced(run.Cut(|run.steps| - 1));
      TracedStep(run);
    }
  }

  /**
   A cached answer is the verdict that some earlier step computed for the same key, and if verdicts
   have a time to live, its expiry was judged no later than that after the computation.
   */
  lemma CachedAnswersAreFresh(run: Run, i: nat) returns (m: nat, e: Entry)
    requires At(run.Now(), i).Read? && At(Judged(run.calls, run.Now(), i), i).Done?
    ensures i < |run.calls| && !OutcomeOf(run.calls[i]).Retry?
    ensures MadeAt(run, m, KeyFor(OutcomeOf(run.calls[i])), e)
    ensures At(Judged(run.calls, run.Now(), i), i) == Done(Some(AsCached(e.verdict)))
    ensures run.ttl > 0 ==> run.Now().clock <= run.Before(m).clock + run.ttl
  {
    var s := run.Now();
    InvAlways(run.calls, run.ttl, run.clock, run.steps);
    AlwaysTraced(run);
    var call, p := run.calls[i], s.phases[i];
    assert Fine(call, p, s.runs[i], s.log, s.clock);
    var key := KeyFor(OutcomeOf(call));
    var n := LatestIsWritten(s.log[..p.seen], key);
    e := p.found.value;
    assert s.log[n] == Write(key, e);
    m :| MadeAt(run, m, key, e);
  }

  // ---------------------------------------------------------------- what is stored

  /** Some completed write holds this verdict under this key. */
  ghost predicate Filed(log: seq<Write>, key: string, v: Verdict) {
    exists n :: 0 <= n < |log| && log[n].key == key && log[n].entry.verdict == v
  }

  /** A settled verdict of one's own has been filed. */
  ghost predicate Delivered(call: Call, p: Phase, log: seq<Write>) {
    && p.Done? && p.answer.Some? && !p.answer.value.cached && p.answer.value.status != Unknown
    && !OutcomeOf(call).Retry? && KeyFor(OutcomeOf(call)) != ""
    ==> Filed(log, KeyFor(OutcomeOf(call)), p.answer.value)
  }

  lemma DeliveredStep(calls: seq<Call>, ttl: int, s: State, step: Step, i: nat)
    requires Shaped(calls, s) && Enabled(calls, s, step) && i < |calls| && Delivered(calls[i], s.phases[i], s.log)
    ensures var t := Next(calls, ttl, s, step);
            Delivered(calls[i], t.phases[i], t.log)
  {
    var t := Next(calls, ttl, s, step);
    if step == Store(i) {
      assert t.log[|s.log|] == Write(KeyFor(OutcomeOf(calls[i])), s.phases[i].entry);
    } else if t.phases[i] == s.phases[i] && step.Store? && t.phases[i].Done? && t.phases[i].answer.Some? {
      var key, v := KeyFor(OutcomeOf(calls[step.i])), t.phases[i].answer.value;
      assert forall n :: 0 <= n < |s.log| ==> t.log[n] == s.log[n];
    }
  }

  /**
   Every settled verdict that a finished verification computed itself has been filed under its key:
   what OnlySettledVerdictsAreCached allows into the cache does get there.
   */
  lemma {:induction false} SettledAnswersAreStored(run: Run, i: nat)
    requires i < |run.calls|
    ensures Delivered(run.calls[i], run.Now().phases[i], run.Now().log)
    decreases |run.steps|
  {
    if run.steps != [] {
      var n := |run.steps| - 1;
      SettledAnswersAreStored(run.Cut(n), i);
      LastStep(run);
      if Enabled(run.calls, run.Before(n), run.steps[n]) {
        DeliveredStep(run.calls, run.ttl, run.Before(n), run.steps[n], i);
      }
    }
  }
}
