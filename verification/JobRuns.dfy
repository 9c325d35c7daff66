/**
 A bulk job as interleaved steps: the dispatcher with its bounded pool, one worker per address,
 any number of Cancel callers, and the finishing goroutine. Each step is one atomic action of the
 source (a channel operation, a store call, a context cancellation), and the steps interleave
 freely; verdicts are arbitrary.
 */
module JobRuns {
  import opened Common
  import opened Verdicts
  import opened JobStore
  import opened JobRows

  /** The rows of one case-folded address, to be verified once. */
  datatype Batch = Batch(key: string, labels: seq<string>)

  datatype Plan = Plan(batches: seq<Batch>, concurrency: nat)

  datatype Worker =
    | Idle                                      // not dispatched
    | Verifying                                 // holds a pool slot, inside Verify
    | Appending(verdict: Verdict, stored: nat)  // holds a pool slot, storing its rows
    | Released                                  // gave its slot back
    | Gone                                      // counted out of the wait group

  datatype Phase = Dispatching | Draining | Returned | ContextReleased | StatusRead(status: JobStatus) | Finished

  datatype State = State(
    next: nat,                          // batches dispatched so far
    workers: seq<Worker>,
    phase: Phase,
    canceled: bool,                     // the job's context
    registered: bool,                   // the cancel func is still registered
    entry: Entry,                       // the job's entry in the store
    checked: nat,                       // Cancel calls past their status check
    signalled: nat,                     // Cancel calls that only have the status left to write
    asked: bool,                        // history: some Cancel call passed its check
    rows: seq<(string, string)>,        // history: (label, address) of each stored result
    verified: seq<string>,              // history: addresses handed to Verify
    answers: map<string, Verdict>)      // history: what Verify answered

  datatype Action =
    | Start | StopEarly | EndDispatch
    | Verified(i: nat, verdict: Verdict) | Append(i: nat, now: int) | Release(i: nat) | Exit(i: nat)
    | Return | ReleaseContext | ReadStatus | WriteStatus(now: int)
    | CancelCheck | CancelContext | CancelWrite(now: int)

  function InFlight(ws: seq<Worker>): nat {
    if ws == [] then 0
    else InFlight(ws[..|ws| - 1]) + if ws[|ws| - 1].Verifying? || ws[|ws| - 1].Appending? then 1 else 0
  }

  predicate At(s: State, i: nat) {
    i < |s.workers|
  }

  predicate Enabled(p: Plan, s: State, a: Action) {
    match a
    case Start =>
      s.phase == Dispatching && s.next < |p.batches| && s.next < |s.workers| && InFlight(s.workers) < p.concurrency
    case StopEarly => s.phase == Dispatching && s.next < |p.batches| && s.canceled
    case EndDispatch => s.phase == Dispatching && s.next == |p.batches|
    case Verified(i, v) => At(s, i) && i < |p.batches| && s.workers[i].Verifying?
    case Append(i, now) =>
      At(s, i) && i < |p.batches| && s.workers[i].Appending? && s.workers[i].stored < |p.batches[i].labels|
    case Release(i) =>
      At(s, i) && i < |p.batches| && s.workers[i].Appending? && s.workers[i].stored == |p.batches[i].labels|
    case Exit(i) => At(s, i) && s.workers[i].Released?
    case Return => s.phase == Draining && forall i :: 0 <= i < |s.workers| ==> s.workers[i].Idle? || s.workers[i].Gone?
    case ReleaseContext => s.phase == Returned
    case ReadStatus => s.phase == ContextReleased
    case WriteStatus(now) => s.phase.StatusRead?
    case CancelCheck => true
    case CancelContext => s.checked > 0
    case CancelWrite(now) => s.signalled > 0
  }

  function Next(p: Plan, s: State, a: Action): State
    requires Enabled(p, s, a)
  {
    match a
    case Start =>
      s.(next := s.next + 1, workers := s.workers[s.next := Verifying],
         verified := s.verified + [p.batches[s.next].key])
    case StopEarly => s.(phase := Draining)
    case EndDispatch => s.(phase := Draining)
    case Verified(i, v) =>
      s.(workers := s.workers[i := Appending(v, 0)], answers := s.answers[p.batches[i].key := v])
    case Append(i, now) =>
      var w, b := s.workers[i], p.batches[i];
      s.(workers := s.workers[i := w.(stored := w.stored + 1)],
         entry := Appended(s.entry, Result(b.labels[w.stored], w.verdict), now),
         rows := s.rows + [(b.labels[w.stored], b.key)])
    case Release(i) => s.(workers := s.workers[i := Released])
    case Exit(i) => s.(workers := s.workers[i := Gone])
    case Return => s.(phase := Returned)
    case ReleaseContext => s.(phase := ContextReleased, canceled := true, registered := false)
    case ReadStatus => s.(phase := StatusRead(s.entry.job.status))
    case WriteStatus(now) =>
      if s.phase.status == Running then s.(phase := Finished, entry := WithStatus(s.entry, Canceled, now))
      else s.(phase := Finished)
    case CancelCheck =>
      if s.entry.job.status == Completed || s.entry.job.status == Canceled then s
      else s.(checked := s.checked + 1, asked := true)
    case CancelContext =>
      s.(checked := s.checked - 1, signalled := s.signalled + 1, canceled := s.canceled || s.registered)
    case CancelWrite(now) =>
      s.(signalled := s.signalled - 1, entry := WithStatus(s.entry, Canceled, now))
  }

  /** The rows that batches `0..n` fan out to. */
  function Everything(bs: seq<Batch>, n: nat): multiset<(string, string)>
    requires n <= |bs|
  {
    if n == 0 then multiset{} else Everything(bs, n - 1) + Fanned(bs[n - 1].labels, bs[n - 1].key)
  }

  /** How many of its rows a worker has stored. */
  function StoredBy(b: Batch, w: Worker): nat {
    match w
    case Idle => 0
    case Verifying => 0
    case Appending(v, k) => if k <= |b.labels| then k else |b.labels|
    case Released => |b.labels|
    case Gone => |b.labels|
  }

  /** The rows a worker has stored. */
  function Part(b: Batch, w: Worker): multiset<(string, string)> {
    Fanned(b.labels[..StoredBy(b, w)], b.key)
  }

  function Stored(bs: seq<Batch>, ws: seq<Worker>, n: nat): multiset<(string, string)>
    requires n <= |bs| == |ws|
  {
    if n == 0 then multiset{} else Stored(bs, ws, n - 1) + Part(bs[n - 1], ws[n - 1])
  }

  ghost predicate Sensible(p: Plan) {
    && p.concurrency > 0 && p.batches != []
    && (forall i :: 0 <= i < |p.batches| ==> p.batches[i].labels != [])
    && (forall i, j :: 0 <= i < j < |p.batches| ==> p.batches[i].key != p.batches[j].key)
  }

  /** The job as Submit leaves it. */
  function Initial(p: Plan, id: string, now: int): State {
    State(0, seq(|p.batches|, i => Idle), Dispatching, false, true,
          Entry(Job(id, Running, |Everything(p.batches, |p.batches|)|, 0, now, None), []),
          0, 0, false, [], [], map[])
  }

  // ---------------------------------------------------------------- invariants

  /** Workers start in order; the pool bound holds; what was verified is what was dispatched. */
  ghost predicate Shaped(p: Plan, next: nat, ws: seq<Worker>, verified: seq<string>) {
    && |ws| == |p.batches| && next <= |p.batches|
    && (forall i :: 0 <= i < |ws| ==> (ws[i].Idle? <==> i >= next))
    && (forall i :: 0 <= i < |ws| && ws[i].Appending? ==> ws[i].stored <= |p.batches[i].labels|)
    && InFlight(ws) <= p.concurrency
    && |verified| == next && (forall i :: 0 <= i < next ==> verified[i] == p.batches[i].key)
  }

  /** Stored results are exactly the rows the workers have stored so far. */
  ghost predicate Accounted(p: Plan, ws: seq<Worker>, rows: seq<(string, string)>, e: Entry) {
    && |ws| == |p.batches|
    && multiset(rows) == Stored(p.batches, ws, |p.batches|)
    && |rows| == |e.results| == e.job.done
    && e.job.total == |Everything(p.batches, |p.batches|)|
  }

  ghost predicate RowsAnswered(rows: seq<(string, string)>, results: seq<Result>, answers: map<string, Verdict>) {
    && |rows| == |results|
    && (forall i :: 0 <= i < |rows| ==> rows[i].1 in answers && results[i] == Result(rows[i].0, answers[rows[i].1]))
  }

  ghost predicate WorkersAnswered(p: Plan, ws: seq<Worker>, answers: map<string, Verdict>) {
    && |ws| == |p.batches|
    && (forall i :: 0 <= i < |ws| && ws[i].Appending? ==>
          p.batches[i].key in answers && answers[p.batches[i].key] == ws[i].verdict)
    && (forall i :: 0 <= i < |ws| && (ws[i].Idle? || ws[i].Verifying?) ==> p.batches[i].key !in answers)
  }

  predicate Over(phase: Phase) {
    phase == Returned || phase == ContextReleased || phase.StatusRead? || phase == Finished
  }

  /** The workers are all gone by the time process returns. */
  ghost predicate Quiet(phase: Phase, ws: seq<Worker>) {
    Over(phase) ==> forall i :: 0 <= i < |ws| ==> ws[i].Idle? || ws[i].Gone?
  }

  /** What the job's status says of its counters and of the finishing goroutine. */
  predicate StatusSound(phase: Phase, j: Job) {
    && j.status != Queued
    && (j.status == Running ==> j.done < j.total)
    && (j.status == Completed ==> j.done == j.total)
    && (phase.StatusRead? ==>
          && (phase.status == Running ==> j.status != Completed)
          && (j.status == Running ==> phase.status == Running))
    && (phase == Finished ==> j.status != Running)
  }

  /** As long as no Cancel call got past its check, nothing is cut short. */
  ghost predicate Undisturbed(p: Plan, s: State) {
    !s.asked ==>
      && s.checked == 0 && s.signalled == 0
      && (s.phase == Dispatching || s.phase == Draining || s.phase == Returned ==> !s.canceled)
      && (s.phase != Dispatching ==> s.next == |p.batches|)
      && s.entry.job.status != Canceled
      && (Over(s.phase) ==> s.entry.job.status == Completed)
  }

  ghost predicate Inv(p: Plan, s: State) {
    && Shaped(p, s.next, s.workers, s.verified)
    && Accounted(p, s.workers, s.rows, s.entry)
    && RowsAnswered(s.rows, s.entry.results, s.answers)
    && WorkersAnswered(p, s.workers, s.answers)
    && Quiet(s.phase, s.workers) && StatusSound(s.phase, s.entry.job)
    && Undisturbed(p, s)
  }

  // ---------------------------------------------------------------- counting

  lemma {:induction false} InFlightUpdate(ws: seq<Worker>, i: nat, w: Worker)
    requires i < |ws|
    ensures InFlight(ws[i := w]) == InFlight(ws)
              - (if ws[i].Verifying? || ws[i].Appending? then 1 else 0)
              + (if w.Verifying? || w.Appending? then 1 else 0)
  {
    var n := |ws| - 1;
    if i < n {
      assert ws[i := w][..n] == ws[..n][i := w];
      InFlightUpdate(ws[..n], i, w);
    } else {
      assert ws[i := w][..n] == ws[..n];
    }
  }

  function Total<T>(ms: seq<multiset<T>>): multiset<T> {
    if ms == [] then multiset{} else Total(ms[..|ms| - 1]) + ms[|ms| - 1]
  }

  lemma {:induction false} TotalMore<T>(ms: seq<multiset<T>>, i: nat, x: T)
    requires i < |ms|
    ensures Total(ms[i := ms[i] + multiset{x}]) == Total(ms) + multiset{x}
  {
    var n := |ms| - 1;
    var ms' := ms[i := ms[i] + multiset{x}];
    OneMore(Total(ms[..n]), ms[n], x);
    if i == n {
      assert ms'[..n] == ms[..n];
    } else {
      assert ms'[..n] == ms[..n][i := ms[i] + multiset{x}];
      TotalMore(ms[..n], i, x);
    }
  }

  function Parts(bs: seq<Batch>, ws: seq<Worker>): (parts: seq<multiset<(string, string)>>)
    requires |bs| == |ws|
    ensures |parts| == |bs| && forall i :: 0 <= i < |bs| ==> parts[i] == Part(bs[i], ws[i])
  {
    seq(|bs|, i requires 0 <= i < |bs| => Part(bs[i], ws[i]))
  }

  lemma {:induction false} StoredIsTotal(bs: seq<Batch>, ws: seq<Worker>, n: nat)
    requires n <= |bs| == |ws|
    ensures Stored(bs, ws, n) == Total(Parts(bs, ws)[..n])
  {
    if n > 0 {
      StoredIsTotal(bs, ws, n - 1);
      assert Parts(bs, ws)[..n][..n - 1] == Parts(bs, ws)[..n - 1];
    }
  }

  lemma PartsMove(bs: seq<Batch>, ws: seq<Worker>, i: nat, w: Worker)
    requires i < |bs| == |ws|
    ensures Parts(bs, ws[i := w]) == Parts(bs, ws)[i := Part(bs[i], w)]
  {
  }

  /** A worker that moves on without storing. */
  lemma StoredSame(bs: seq<Batch>, ws: seq<Worker>, i: nat, w: Worker)
    requires i < |bs| == |ws| && Part(bs[i], w) == Part(bs[i], ws[i])
    ensures Stored(bs, ws[i := w], |bs|) == Stored(bs, ws, |bs|)
  {
    PartsMove(bs, ws, i, w);
    assert Parts(bs, ws)[i := Parts(bs, ws)[i]] == Parts(bs, ws);
    StoredIsTotal(bs, ws, |bs|);
    StoredIsTotal(bs, ws[i := w], |bs|);
  }

  lemma PartGrows(b: Batch, w: Worker, w': Worker)
    requires StoredBy(b, w) < |b.labels| && StoredBy(b, w') == StoredBy(b, w) + 1
    ensures Part(b, w') == Part(b, w) + multiset{(b.labels[StoredBy(b, w)], b.key)}
  {
    var k := StoredBy(b, w);
    assert b.labels[..k + 1][..k] == b.labels[..k];
  }

  lemma AllStored(bs: seq<Batch>, ws: seq<Worker>)
    requires |bs| == |ws|
    ensures Stored(bs, ws, |bs|) == Total(Parts(bs, ws))
  {
    StoredIsTotal(bs, ws, |bs|);
    assert Parts(bs, ws)[..|bs|] == Parts(bs, ws);
  }

  /** A worker that stores one more row. */
  lemma StoredMore(bs: seq<Batch>, ws: seq<Worker>, i: nat, w: Worker, row: (string, string))
    requires i < |bs| == |ws| && Part(bs[i], w) == Part(bs[i], ws[i]) + multiset{row}
    ensures Stored(bs, ws[i := w], |bs|) == Stored(bs, ws, |bs|) + multiset{row}
  {
    PartsMove(bs, ws, i, w);
    TotalMore(Parts(bs, ws), i, row);
    AllStored(bs, ws);
    AllStored(bs, ws[i := w]);
  }

  lemma {:induction false} FannedPrefix(labels: seq<string>, k: nat, key: string)
    requires k <= |labels|
    ensures Fanned(labels[..k], key) <= Fanned(labels, key)
    ensures |Fanned(labels, key)| == |labels|
    decreases |labels|
  {
    if k < |labels| {
      FannedPrefix(labels[..|labels| - 1], k, key);
      assert labels[..|labels| - 1][..k] == labels[..k];
    } else {
      assert labels[..k] == labels;
      if labels != [] {
        FannedPrefix(labels[..|labels| - 1], |labels| - 1, key);
      }
    }
  }

  lemma PartWithin(b: Batch, w: Worker)
    ensures Part(b, w) <= Fanned(b.labels, b.key)
    ensures w.Gone? || w.Released? ==> Part(b, w) == Fanned(b.labels, b.key)
  {
    FannedPrefix(b.labels, StoredBy(b, w), b.key);
    assert b.labels[..|b.labels|] == b.labels;
  }

  /** What is stored is part of what is owed. */
  lemma {:induction false} StoredWithin(bs: seq<Batch>, ws: seq<Worker>, n: nat)
    requires n <= |bs| == |ws|
    ensures Stored(bs, ws, n) <= Everything(bs, n)
  {
    if n > 0 {
      StoredWithin(bs, ws, n - 1);
      PartWithin(bs[n - 1], ws[n - 1]);
    }
  }

  /** It is all of it once every worker is done. */
  lemma {:induction false} StoredAll(bs: seq<Batch>, ws: seq<Worker>, n: nat)
    requires n <= |bs| == |ws|
    requires forall i :: 0 <= i < n ==> ws[i].Gone? || ws[i].Released?
    ensures Stored(bs, ws, n) == Everything(bs, n)
  {
    if n > 0 {
      StoredAll(bs, ws, n - 1);
      PartWithin(bs[n - 1], ws[n - 1]);
    }
  }

  lemma SubsetSize<T>(a: multiset<T>, b: multiset<T>)
    requires a <= b
    ensures |a| <= |b|
    ensures |a| == |b| ==> a == b
  {
    assert b == a + (b - a);
  }

  /** The store never holds more results than the job has rows. */
  lemma DoneWithinTotal(p: Plan, s: State)
    requires Accounted(p, s.workers, s.rows, s.entry)
    ensures multiset(s.rows) <= Everything(p.batches, |p.batches|)
    ensures s.entry.job.done <= s.entry.job.total
    ensures s.entry.job.done == s.entry.job.total ==> multiset(s.rows) == Everything(p.batches, |p.batches|)
  {
    StoredWithin(p.batches, s.workers, |p.batches|);
    SubsetSize(multiset(s.rows), Everything(p.batches, |p.batches|));
    assert |multiset(s.rows)| == |s.rows|;
  }

  // ---------------------------------------------------------------- every step keeps them

  predicate Busy(w: Worker) {
    w.Verifying? || w.Appending?
  }

  lemma ShapedMove(p: Plan, next: nat, ws: seq<Worker>, verified: seq<string>, i: nat, w: Worker)
    requires Shaped(p, next, ws, verified) && i < next && !w.Idle? && (Busy(w) ==> Busy(ws[i]))
    requires w.Appending? ==> w.stored <= |p.batches[i].labels|
    ensures Shaped(p, next, ws[i := w], verified)
  {
    InFlightUpdate(ws, i, w);
  }

  lemma ShapedStart(p: Plan, next: nat, ws: seq<Worker>, verified: seq<string>)
    requires Shaped(p, next, ws, verified) && next < |p.batches| && InFlight(ws) < p.concurrency
    ensures Shaped(p, next + 1, ws[next := Verifying], verified + [p.batches[next].key])
  {
    InFlightUpdate(ws, next, Verifying);
  }

  lemma ShapedStep(p: Plan, s: State, a: Action)
    requires Shaped(p, s.next, s.workers, s.verified) && Enabled(p, s, a)
    ensures var t := Next(p, s, a);
            Shaped(p, t.next, t.workers, t.verified)
  {
    if !Works(a) {
      Administers(p, s, a);
      return;
    }
    match a
    case Start => ShapedStart(p, s.next, s.workers, s.verified);
    case Verified(i, v) => ShapedMove(p, s.next, s.workers, s.verified, i, Appending(v, 0));
    case Append(i, now) =>
      ShapedMove(p, s.next, s.workers, s.verified, i, s.workers[i].(stored := s.workers[i].stored + 1));
    case Release(i) => ShapedMove(p, s.next, s.workers, s.verified, i, Released);
    case Exit(i) => ShapedMove(p, s.next, s.workers, s.verified, i, Gone);
  }

  lemma AccountedMove(p: Plan, ws: seq<Worker>, rows: seq<(string, string)>, e: Entry, i: nat, w: Worker)
    requires Accounted(p, ws, rows, e) && i < |ws| && StoredBy(p.batches[i], w) == StoredBy(p.batches[i], ws[i])
    ensures Accounted(p, ws[i := w], rows, e)
  {
    StoredSame(p.batches, ws, i, w);
  }

  lemma AccountedAppend(p: Plan, ws: seq<Worker>, rows: seq<(string, string)>, e: Entry, i: nat, now: int)
    requires Accounted(p, ws, rows, e) && i < |ws| && ws[i].Appending? && ws[i].stored < |p.batches[i].labels|
    ensures var name := p.batches[i].labels[ws[i].stored];
            Accounted(p, ws[i := ws[i].(stored := ws[i].stored + 1)], rows + [(name, p.batches[i].key)],
                      Appended(e, Result(name, ws[i].verdict), now))
  {
    var w, b := ws[i].(stored := ws[i].stored + 1), p.batches[i];
    var row := (b.labels[ws[i].stored], b.key);
    PartGrows(b, ws[i], w);
    StoredMore(p.batches, ws, i, w, row);
    assert multiset(rows + [row]) == multiset(rows) + multiset{row};
  }

  lemma AccountedStatus(p: Plan, ws: seq<Worker>, rows: seq<(string, string)>, e: Entry, e': Entry)
    requires Accounted(p, ws, rows, e)
    requires e'.results == e.results && e'.job.done == e.job.done && e'.job.total == e.job.total
    ensures Accounted(p, ws, rows, e')
  {
  }

  lemma AccountedAppendStep(p: Plan, s: State, a: Action)
    requires Accounted(p, s.workers, s.rows, s.entry) && a.Append? && Enabled(p, s, a)
    ensures Accounted(p, Next(p, s, a).workers, Next(p, s, a).rows, Next(p, s, a).entry)
  {
    AccountedAppend(p, s.workers, s.rows, s.entry, a.i, a.now);
  }

  lemma AccountedMoveStep(p: Plan, s: State, a: Action, i: nat, w: Worker)
    requires Accounted(p, s.workers, s.rows, s.entry) && Enabled(p, s, a) && i < |s.workers|
    requires var t := Next(p, s, a);
             t.workers == s.workers[i := w] && t.rows == s.rows && t.entry == s.entry
    requires StoredBy(p.batches[i], w) == StoredBy(p.batches[i], s.workers[i])
    ensures Accounted(p, Next(p, s, a).workers, Next(p, s, a).rows, Next(p, s, a).entry)
  {
    AccountedMove(p, s.workers, s.rows, s.entry, i, w);
  }

  predicate Works(a: Action) {
    a.Start? || a.Verified? || a.Append? || a.Release? || a.Exit?
  }

  /** The actions that are not the workers' leave workers, rows and answers alone. */
  lemma Administers(p: Plan, s: State, a: Action)
    requires Enabled(p, s, a) && !Works(a)
    ensures var t := Next(p, s, a);
            && t.next == s.next && t.workers == s.workers && t.verified == s.verified
            && t.rows == s.rows && t.answers == s.answers
            && t.entry.results == s.entry.results
            && t.entry.job.done == s.entry.job.done && t.entry.job.total == s.entry.job.total
  {
  }

  lemma AccountedStep(p: Plan, s: State, a: Action)
    requires Accounted(p, s.workers, s.rows, s.entry) && Enabled(p, s, a)
    requires a.Start? ==> s.workers[s.next].Idle?
    ensures Accounted(p, Next(p, s, a).workers, Next(p, s, a).rows, Next(p, s, a).entry)
  {
    match a
    case Start => AccountedMoveStep(p, s, a, s.next, Verifying);
    case Verified(i, v) => AccountedMoveStep(p, s, a, i, Appending(v, 0));
    case Append(i, now) => AccountedAppendStep(p, s, a);
    case Release(i) => AccountedMoveStep(p, s, a, i, Released);
    case Exit(i) => AccountedMoveStep(p, s, a, i, Gone);
    case _ =>
      Administers(p, s, a);
      AccountedStatus(p, s.workers, s.rows, s.entry, Next(p, s, a).entry);
  }

  lemma VerifiedAnswers(p: Plan, ws: seq<Worker>, answers: map<string, Verdict>, i: nat, v: Verdict)
    requires Sensible(p) && WorkersAnswered(p, ws, answers) && i < |ws| && ws[i].Verifying?
    ensures p.batches[i].key !in answers
    ensures WorkersAnswered(p, ws[i := Appending(v, 0)], answers[p.batches[i].key := v])
  {
    assert forall j :: 0 <= j < |p.batches| && j != i ==> p.batches[j].key != p.batches[i].key;
  }

  lemma AppendAnswers(p: Plan, s: State, a: Action)
    requires RowsAnswered(s.rows, s.entry.results, s.answers) && WorkersAnswered(p, s.workers, s.answers)
    requires |s.workers| == |p.batches| && a.Append? && Enabled(p, s, a)
    ensures var t := Next(p, s, a);
            RowsAnswered(t.rows, t.entry.results, t.answers) && WorkersAnswered(p, t.workers, t.answers)
  {
    assert p.batches[a.i].key in s.answers;
  }

  lemma AnsweredStep(p: Plan, s: State, a: Action)
    requires Sensible(p) && RowsAnswered(s.rows, s.entry.results, s.answers) && WorkersAnswered(p, s.workers, s.answers)
    requires Shaped(p, s.next, s.workers, s.verified) && Enabled(p, s, a)
    ensures var t := Next(p, s, a);
            RowsAnswered(t.rows, t.entry.results, t.answers) && WorkersAnswered(p, t.workers, t.answers)
  {
    if a.Verified? {
      VerifiedAnswers(p, s.workers, s.answers, a.i, a.verdict);
    } else if a.Append? {
      AppendAnswers(p, s, a);
    } else if !Works(a) {
      Administers(p, s, a);
    }
  }

  lemma QuietStep(p: Plan, s: State, a: Action)
    requires Quiet(s.phase, s.workers) && Enabled(p, s, a)
    ensures Quiet(Next(p, s, a).phase, Next(p, s, a).workers)
  {
    if !Works(a) {
      Administers(p, s, a);
    }
  }

  lemma StatusStep(p: Plan, s: State, a: Action)
    requires Quiet(s.phase, s.workers) && StatusSound(s.phase, s.entry.job) && Enabled(p, s, a)
    requires Next(p, s, a).entry.job.done <= s.entry.job.total
    ensures StatusSound(Next(p, s, a).phase, Next(p, s, a).entry.job)
  {
    if a.Append? {
      assert !Over(s.phase);
    }
  }

  lemma ReturnCompletes(p: Plan, s: State)
    requires Sensible(p) && Inv(p, s) && Enabled(p, s, Return) && !s.asked
    ensures s.entry.job.status == Completed
  {
    StoredAll(p.batches, s.workers, |p.batches|);
    assert |multiset(s.rows)| == |s.rows|;
  }

  lemma UndisturbedStep(p: Plan, s: State, a: Action)
    requires Undisturbed(p, s) && StatusSound(s.phase, s.entry.job) && Quiet(s.phase, s.workers) && Enabled(p, s, a)
    requires a.Return? && !s.asked ==> s.entry.job.status == Completed
    ensures Undisturbed(p, Next(p, s, a))
  {
    if a.Append? {
      assert !Over(s.phase);
    }
  }

  lemma InvStep(p: Plan, s: State, a: Action)
    requires Sensible(p) && Inv(p, s)
    ensures Inv(p, Do(p, s, a))
  {
    if Enabled(p, s, a) {
      ShapedStep(p, s, a);
      AccountedStep(p, s, a);
      DoneWithinTotal(p, Next(p, s, a));
      AnsweredStep(p, s, a);
      QuietStep(p, s, a);
      StatusStep(p, s, a);
      if a.Return? && !s.asked {
        ReturnCompletes(p, s);
      }
      UndisturbedStep(p, s, a);
    }
  }

  lemma {:induction false} NothingYet(bs: seq<Batch>, ws: seq<Worker>, n: nat)
    requires n <= |bs| == |ws| && forall i :: 0 <= i < |ws| ==> ws[i].Idle?
    ensures Stored(bs, ws, n) == multiset{} && InFlight(ws[..n]) == 0
  {
    if n > 0 {
      NothingYet(bs, ws, n - 1);
      assert ws[..n][..n - 1] == ws[..n - 1];
    }
  }

  lemma OwesSomething(p: Plan)
    requires Sensible(p)
    ensures |Everything(p.batches, |p.batches|)| > 0
  {
    var n := |p.batches|;
    FannedPrefix(p.batches[n - 1].labels, 0, p.batches[n - 1].key);
  }

  lemma InitialInv(p: Plan, id: string, now: int)
    requires Sensible(p)
    ensures Inv(p, Initial(p, id, now))
  {
    var s, n := Initial(p, id, now), |p.batches|;
    NothingYet(p.batches, s.workers, n);
    assert s.workers[..n] == s.workers;
    OwesSomething(p);
    assert Shaped(p, s.next, s.workers, s.verified);
    assert Accounted(p, s.workers, s.rows, s.entry);
  }

  // ---------------------------------------------------------------- runs

  /** An action that cannot happen yet does nothing, so every list of actions is an interleaving. */
  function Do(p: Plan, s: State, a: Action): State {
    if Enabled(p, s, a) then Next(p, s, a) else s
  }

  function After(p: Plan, s: State, acts: seq<Action>): State {
    if acts == [] then s else Do(p, After(p, s, acts[..|acts| - 1]), acts[|acts| - 1])
  }

  lemma {:induction false} InvAlways(p: Plan, s: State, acts: seq<Action>)
    requires Sensible(p) && Inv(p, s)
    ensures Inv(p, After(p, s, acts))
  {
    if acts != [] {
      InvAlways(p, s, acts[..|acts| - 1]);
      InvStep(p, After(p, s, acts[..|acts| - 1]), acts[|acts| - 1]);
    }
  }

  ghost predicate NoRepeats(xs: seq<string>) {
    forall i, j :: 0 <= i < j < |xs| ==> xs[i] != xs[j]
  }

  /**
   Conservation, for every interleaving: no address is verified twice, the pool bound holds, and
   the stored results are always some of the submitted rows, none of them twice, each with the
   one answer Verify gave for its address.
   */
  lemma JobConserves(p: Plan, id: string, now: int, acts: seq<Action>)
    requires Sensible(p)
    ensures var s := After(p, Initial(p, id, now), acts);
            && NoRepeats(s.verified)
            && InFlight(s.workers) <= p.concurrency
            && multiset(s.rows) <= Everything(p.batches, |p.batches|)
            && |s.rows| == |s.entry.results|
            && (forall i :: 0 <= i < |s.rows| ==>
                  s.rows[i].1 in s.answers && s.entry.results[i] == Result(s.rows[i].0, s.answers[s.rows[i].1]))
  {
    var s := After(p, Initial(p, id, now), acts);
    InitialInv(p, id, now);
    InvAlways(p, Initial(p, id, now), acts);
    DoneWithinTotal(p, s);
  }

  /**
   Lifecycle, for every interleaving of workers, Cancel calls and finish: Done counts the stored
   results and never exceeds Total, a completed job has every row, a job that ran to its end with
   no Cancel past its check is completed, and a finished job is never left running.
   */
  lemma JobLifecycle(p: Plan, id: string, now: int, acts: seq<Action>)
    requires Sensible(p)
    ensures var s := After(p, Initial(p, id, now), acts);
            var j := s.entry.job;
            && j.done == |s.entry.results| <= j.total == |Everything(p.batches, |p.batches|)|
            && (j.status == Completed ==> j.done == j.total && multiset(s.rows) == Everything(p.batches, |p.batches|))
            && (s.phase == Finished ==> j.status == Completed || j.status == Canceled)
            && (s.phase == Finished && !s.asked ==> j.status == Completed)
  {
    var s := After(p, Initial(p, id, now), acts);
    InitialInv(p, id, now);
    InvAlways(p, Initial(p, id, now), acts);
    DoneWithinTotal(p, s);
  }

  lemma CanceledStep(p: Plan, s: State, a: Action)
    requires s.entry.job.status == Canceled
    ensures Do(p, s, a).entry.job.status == Canceled
  {
  }

  /** A canceled job stays canceled, whatever its workers still store. */
  lemma {:induction false} CanceledIsFinal(p: Plan, s: State, acts: seq<Action>)
    requires s.entry.job.status == Canceled
    ensures After(p, s, acts).entry.job.status == Canceled
  {
    if acts != [] {
      CanceledIsFinal(p, s, acts[..|acts| - 1]);
      CanceledStep(p, After(p, s, acts[..|acts| - 1]), acts[|acts| - 1]);
    }
  }

  predicate Settled(s: State) {
    s.entry.job.status == Completed && s.checked == 0 && s.signalled == 0
  }

  lemma SettledStep(p: Plan, s: State, a: Action)
    requires StatusSound(s.phase, s.entry.job) && Settled(s)
    ensures Settled(Do(p, s, a))
  {
  }

  /** Completed and no Cancel call under way: nothing can change the status any more. */
  lemma {:induction false} SettledStays(p: Plan, s: State, acts: seq<Action>)
    requires Sensible(p) && Inv(p, s) && Settled(s)
    ensures Settled(After(p, s, acts))
  {
    if acts != [] {
      SettledStays(p, s, acts[..|acts| - 1]);
      InvAlways(p, s, acts[..|acts| - 1]);
      SettledStep(p, After(p, s, acts[..|acts| - 1]), acts[|acts| - 1]);
    }
  }

  /** Some interleaving leads from `s` to `t`. */
  ghost predicate Reachable(p: Plan, s: State, t: State) {
    exists acts :: After(p, s, acts) == t
  }

  lemma ReachableSelf(p: Plan, s: State)
    ensures Reachable(p, s, s)
  {
    assert After(p, s, []) == s;
  }

  lemma ReachableNext(p: Plan, s: State, t: State, a: Action)
    requires Reachable(p, s, t)
    ensures Reachable(p, s, Do(p, t, a))
  {
    var acts :| After(p, s, acts) == t;
    assert (acts + [a])[..|acts|] == acts;
    assert After(p, s, acts + [a]) == Do(p, t, a);
  }

  ghost predicate StaysCompleted(p: Plan, s: State) {
    forall t :: Reachable(p, s, t) ==> t.entry.job.status == Completed
  }

  lemma SettledIsReached(p: Plan, s: State, t: State)
    requires Sensible(p) && Inv(p, s) && Settled(s) && Reachable(p, s, t)
    ensures t.entry.job.status == Completed
  {
    var acts :| After(p, s, acts) == t;
    SettledStays(p, s, acts);
  }

  lemma Signals(p: Plan, s: State)
    requires s.checked > 0
    ensures Do(p, s, CancelContext).signalled > 0
  {
  }

  lemma Writes(p: Plan, s: State, now: int)
    requires s.signalled > 0
    ensures Do(p, s, CancelWrite(now)).entry.job.status == Canceled
  {
  }

  /** A Cancel past its check will write its status, whatever the status has become. */
  lemma CancelGetsThrough(p: Plan, s: State, now: int) returns (t: State)
    requires s.checked > 0 || s.signalled > 0
    ensures Reachable(p, s, t) && t.entry.job.status == Canceled
  {
    ReachableSelf(p, s);
    t := s;
    if s.signalled == 0 {
      t := Do(p, s, CancelContext);
      Signals(p, s);
      ReachableNext(p, s, s, CancelContext);
    }
    Writes(p, t, now);
    ReachableNext(p, s, t, CancelWrite(now));
    t := Do(p, t, CancelWrite(now));
  }

  /**
   Cancel is documented as a no-op on a completed job, but it checks the status before it writes
   it: a completed job keeps its status exactly if no Cancel call is between the two.
   */
  lemma CompletedIsFinalIff(p: Plan, s: State)
    requires Sensible(p) && Inv(p, s) && s.entry.job.status == Completed
    ensures StaysCompleted(p, s) <==> s.checked == 0 && s.signalled == 0
  {
    if Settled(s) {
      forall t | Reachable(p, s, t)
        ensures t.entry.job.status == Completed
      {
        SettledIsReached(p, s, t);
      }
    } else {
      var t := CancelGetsThrough(p, s, 0);
    }
  }

  /** The lone worker of a one-row job is at work, and so many Cancel calls have passed their check. */
  predicate OneRowLeft(p: Plan, s: State, w: Worker, checked: nat) {
    && |p.batches| == 1 && |p.batches[0].labels| == 1 && s.workers == [w] && s.checked == checked
    && s.entry.job.status == Running && s.entry.job.done == 0 && s.entry.job.total == 1
  }

  lemma OwesOne(p: Plan)
    requires |p.batches| == 1 && |p.batches[0].labels| == 1
    ensures |Everything(p.batches, 1)| == 1
  {
    FannedPrefix(p.batches[0].labels, 0, p.batches[0].key);
  }

  lemma Starts(p: Plan, id: string, now: int)
    requires |p.batches| == 1 && |p.batches[0].labels| == 1 && p.concurrency == 1
    ensures OneRowLeft(p, Do(p, Initial(p, id, now), Start), Verifying, 0)
  {
    var s := Initial(p, id, now);
    OwesOne(p);
    assert s.workers[..0] == [];
    assert InFlight(s.workers) == 0;
  }

  lemma ChecksCancel(p: Plan, s: State)
    requires OneRowLeft(p, s, Verifying, 0)
    ensures OneRowLeft(p, Do(p, s, CancelCheck), Verifying, 1)
  {
  }

  lemma Answers(p: Plan, s: State, v: Verdict)
    requires OneRowLeft(p, s, Verifying, 1)
    ensures OneRowLeft(p, Do(p, s, Verified(0, v)), Appending(v, 0), 1)
  {
  }

  lemma Completes(p: Plan, s: State, v: Verdict, now: int)
    requires OneRowLeft(p, s, Appending(v, 0), 1)
    ensures var t := Do(p, s, Append(0, now));
            t.entry.job.status == Completed && t.checked == 1
  {
  }

  /** A one-row job whose Cancel is checked while it runs and written after it is complete. */
  lemma CompletedThenCanceled(p: Plan, id: string, now: int, v: Verdict) returns (completed: State, canceled: State)
    requires |p.batches| == 1 && |p.batches[0].labels| == 1 && p.concurrency == 1
    ensures Reachable(p, Initial(p, id, now), completed) && completed.entry.job.status == Completed
    ensures Reachable(p, completed, canceled) && canceled.entry.job.status == Canceled
  {
    var s0 := Initial(p, id, now);
    ReachableSelf(p, s0);
    Starts(p, id, now);
    ReachableNext(p, s0, s0, Start);
    var s1 := Do(p, s0, Start);
    ChecksCancel(p, s1);
    ReachableNext(p, s0, s1, CancelCheck);
    var s2 := Do(p, s1, CancelCheck);
    Answers(p, s2, v);
    ReachableNext(p, s0, s2, Verified(0, v));
    var s3 := Do(p, s2, Verified(0, v));
    Completes(p, s3, v, now);
    ReachableNext(p, s0, s3, Append(0, now));
    completed := Do(p, s3, Append(0, now));
    canceled := CancelGetsThrough(p, completed, now);
  }

  lemma AfterDo(p: Plan, s: State, acts: seq<Action>, i: nat)
    requires i < |acts|
    ensures After(p, s, acts[..i + 1]) == Do(p, After(p, s, acts[..i]), acts[i])
  {
    assert acts[..i + 1][..i] == acts[..i];
  }

  // ---------------------------------------------------------------- growth

  lemma ResultsGrow(p: Plan, s: State, a: Action)
    ensures s.entry.results <= Do(p, s, a).entry.results
  {
  }

  lemma ResultsGrowNext(p: Plan, s: State, acts: seq<Action>, i: nat)
    requires i < |acts|
    ensures After(p, s, acts[..i]).entry.results <= After(p, s, acts[..i + 1]).entry.results
  {
    ResultsGrow(p, After(p, s, acts[..i]), acts[i]);
    AfterDo(p, s, acts, i);
  }

  lemma {:induction false} ChainGrows(f: nat -> seq<Result>, n: nat, i: nat, j: nat)
    requires i <= j <= n && forall k: nat :: k < n ==> f(k) <= f(k + 1)
    ensures f(i) <= f(j)
    decreases j
  {
    if i < j {
      ChainGrows(f, n, i, j - 1);
      assert f(j - 1) <= f(j - 1 + 1);
    }
  }

  /** Whatever is stored stays stored, in its place. */
  lemma ResultsOnlyGrow(p: Plan, s: State, acts: seq<Action>, i: nat, j: nat)
    requires i <= j <= |acts|
    ensures After(p, s, acts[..i]).entry.results <= After(p, s, acts[..j]).entry.results
  {
    var f := (k: nat) => if k <= |acts| then After(p, s, acts[..k]).entry.results else [];
    forall k: nat | k < |acts|
      ensures f(k) <= f(k + 1)
    {
      ResultsGrowNext(p, s, acts, k);
    }
    ChainGrows(f, |acts|, i, j);
  }

  // ---------------------------------------------------------------- from the submitted rows

  /** The plan that process builds from the deduplicated rows. */
  function PlanFor(lower: string -> string, rows: seq<Row>, concurrency: nat): Plan
    requires var g := Grouped(lower, rows);
             forall i :: 0 <= i < |g.order| ==> lower(g.order[i]) in g.labels
  {
    var g := Grouped(lower, rows);
    Plan(seq(|g.order|, i requires 0 <= i < |g.order| => Batch(lower(g.order[i]), g.labels[lower(g.order[i])])),
         concurrency)
  }

  lemma {:induction false} EverythingIsSpread(lower: string -> string, g: Groups, bs: seq<Batch>, n: nat)
    requires forall i :: 0 <= i < |g.order| ==> lower(g.order[i]) in g.labels
    requires |bs| == |g.order| && n <= |bs|
    requires forall i :: 0 <= i < |bs| ==> bs[i] == Batch(lower(g.order[i]), g.labels[lower(g.order[i])])
    ensures Everything(bs, n) == Spread(lower, g, n)
  {
    if n > 0 {
      EverythingIsSpread(lower, g, bs, n - 1);
    }
  }

  lemma {:induction false} TagsSize(lower: string -> string, rows: seq<Row>)
    ensures |TagsOf(lower, rows)| == |rows|
  {
    if rows != [] {
      TagsSize(lower, rows[..|rows| - 1]);
    }
  }

  lemma PlanIsSensible(lower: string -> string, rows: seq<Row>, concurrency: nat)
    requires rows != [] && concurrency > 0 && OneGroupEach(lower, Grouped(lower, rows))
    ensures Sensible(PlanFor(lower, rows, concurrency))
  {
    var g := Grouped(lower, rows);
    assert g.order != [] by {
      var k := lower(rows[|rows| - 1].email);
      assert k in g.labels;
      assert Heads(lower, g, k);
    }
  }

  /** The plan owes exactly the deduplicated rows: Total is their number. */
  lemma PlanOwesRows(lower: string -> string, rows: seq<Row>, concurrency: nat)
    requires rows != [] && concurrency > 0
    ensures OneGroupEach(lower, Grouped(lower, rows))
    ensures var p := PlanFor(lower, rows, concurrency);
            && Sensible(p)
            && Everything(p.batches, |p.batches|) == TagsOf(lower, rows)
            && |Everything(p.batches, |p.batches|)| == |rows|
  {
    GroupingConserves(lower, rows);
    PlanIsSensible(lower, rows, concurrency);
    var g, p := Grouped(lower, rows), PlanFor(lower, rows, concurrency);
    EverythingIsSpread(lower, g, p.batches, |p.batches|);
    TagsSize(lower, rows);
  }
}
