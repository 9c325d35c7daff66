/**
 Concurrent verifications over one shared cache. Each call goes through the steps that the locks of
 the cache and of its caller make atomic; the steps of different calls interleave in any order.
 */
module VerifierRuns {
  import opened Common
  import opened Verdicts
  import opened Pipeline
  import opened ResultCache
  import opened Verifier

  /** One verification: what is asked, and what the world will say if the cache does not. */
  datatype Call = Call(env: World, input: string, skip: string -> bool, chance: Chance)

  datatype Phase =
    | Waiting
    | Read(found: Option<Entry>, seen: nat)  // read-locked lookup done, expiry not yet judged
    | Missed
    | Storing(entry: Entry)                  // stamped, not yet written
    | Done(answer: Option<Verdict>)

  /** One completed Put. */
  datatype Write = Write(key: string, entry: Entry)

  /** An eviction that has been decided but not yet carried out. */
  datatype Eviction = Eviction(key: string, expiresAt: Option<int>)

  datatype State = State(
    items: map<string, Entry>,
    log: seq<Write>,
    phases: seq<Phase>,
    evictions: seq<Eviction>,
    runs: seq<nat>,  // engine runs, call by call
    clock: int)

  datatype Step = Lookup(i: nat) | Judge(i: nat) | Compute(i: nat) | Store(i: nat) | Evict(j: nat) | Tick(to: int)

  function OutcomeOf(call: Call): Outcome {
    Funnel(call.env, call.input)
  }

  function AnswerOf(call: Call): Option<Verdict>
    requires !OutcomeOf(call).Retry?
  {
    Computed(OutcomeOf(call), call.skip, call.chance)
  }

  function RunsOf(call: Call): nat {
    if Runs(OutcomeOf(call), call.skip, call.chance) then 1 else 0
  }

  function At(s: State, i: nat): Phase {
    if i < |s.phases| then s.phases[i] else Done(None)
  }

  function Put(s: State, i: nat, p: Phase): State
    requires i < |s.phases|
  {
    s.(phases := s.phases[i := p])
  }

  predicate Shaped(calls: seq<Call>, s: State) {
    |s.phases| == |calls| && |s.runs| == |calls|
  }

  function Fetched(items: map<string, Entry>, key: string): Option<Entry> {
    if key in items then Some(items[key]) else None
  }

  predicate Enabled(calls: seq<Call>, s: State, step: Step)
    requires Shaped(calls, s)
  {
    match step
    case Lookup(i) => At(s, i).Waiting?
    case Judge(i) => At(s, i).Read?
    case Compute(i) => At(s, i).Missed? && !OutcomeOf(calls[i]).Retry?
    case Store(i) => At(s, i).Storing? && !OutcomeOf(calls[i]).Retry?
    case Evict(j) => j < |s.evictions|
    case Tick(to) => to >= s.clock
  }

  function Next(calls: seq<Call>, ttl: int, s: State, step: Step): State
    requires Shaped(calls, s) && Enabled(calls, s, step)
  {
    match step
    case Lookup(i) =>
      if OutcomeOf(calls[i]).Retry? then Put(s, i, Done(None))
      else if KeyFor(OutcomeOf(calls[i])) == "" then Put(s, i, Missed)
      else Put(s, i, Read(Fetched(s.items, KeyFor(OutcomeOf(calls[i]))), |s.log|))
    case Judge(i) => Judged(calls, s, i)
    case Compute(i) =>
      var v := AnswerOf(calls[i]);
      var s1 := s.(runs := s.runs[i := s.runs[i] + RunsOf(calls[i])]);
      if v.None? || v.value.status == Unknown || KeyFor(OutcomeOf(calls[i])) == "" then Put(s1, i, Done(v))
      else Put(s1, i, Storing(Stamped(v.value, ttl, s.clock)))
    case Store(i) =>
      var key, e := KeyFor(OutcomeOf(calls[i])), At(s, i).entry;
      Put(s, i, Done(Some(e.verdict))).(items := s.items[key := e], log := s.log + [Write(key, e)])
    case Evict(j) =>
      s.(items := Dropped(s.items, s.evictions[j].key, s.evictions[j].expiresAt),
         evictions := s.evictions[..j] + s.evictions[j + 1..])
    case Tick(to) => s.(clock := to)
  }

  /** The unlocked middle of a lookup: judge the entry that was read by the clock as it is now. */
  function Judged(calls: seq<Call>, s: State, i: nat): State
    requires Shaped(calls, s) && At(s, i).Read?
  {
    var found := At(s, i).found;
    if found.None? || OutcomeOf(calls[i]).Retry? then Put(s, i, Missed)
    else if Expired(found.value, s.clock)
    then Put(s, i, Missed).(evictions := s.evictions + [Eviction(KeyFor(OutcomeOf(calls[i])), found.value.expiresAt)])
    else Put(s, i, Done(Some(AsCached(found.value.verdict))))
  }

  // ---------------------------------------------------------------- the reference: a log of writes

  /** The last verdict written for a key. */
  function Latest(log: seq<Write>, key: string): Option<Entry> {
    if log == [] then None
    else if log[|log| - 1].key == key then Some(log[|log| - 1].entry)
    else Latest(log[..|log| - 1], key)
  }

  /** The last verdict written for a key, if it is still good. */
  function Live(log: seq<Write>, key: string, now: int): Option<Entry> {
    var e := Latest(log, key);
    if e.Some? && !Expired(e.value, now) then e else None
  }

  // ---------------------------------------------------------------- the invariant

  /** The cache holds the last write of every key, except ones that have expired. */
  ghost predicate Mirrors(items: map<string, Entry>, log: seq<Write>, clock: int) {
    && (forall k :: k in items ==> Latest(log, k) == Some(items[k]))
    && (forall k :: k !in items ==> Live(log, k, clock) == None)
  }

  /** A lookup under way holds what the log held when it was made. */
  ghost predicate Remembers(call: Call, p: Phase, log: seq<Write>, clock: int) {
    p.Read? ==>
      && !OutcomeOf(call).Retry? && p.seen <= |log|
      && (p.found.Some? ==> p.found == Latest(log[..p.seen], KeyFor(OutcomeOf(call))))
      && (p.found.None? ==> Live(log[..p.seen], KeyFor(OutcomeOf(call)), clock) == None)
  }

  /** A verdict on its way to the cache was computed for this call and is settled. */
  ghost predicate Settled(call: Call, p: Phase) {
    p.Storing? ==>
      && !OutcomeOf(call).Retry? && AnswerOf(call) == Some(p.entry.verdict) && p.entry.verdict.status != Unknown
      && KeyFor(OutcomeOf(call)) != ""
  }

  ghost predicate Worthy(w: Write) {
    && w.entry.verdict.status != Unknown && Sane(w.entry.verdict) && !w.entry.verdict.cached
    && w.key != "" && w.entry.verdict.normalized == w.key
  }

  ghost predicate Fine(call: Call, p: Phase, runs: nat, log: seq<Write>, clock: int) {
    Remembers(call, p, log, clock) && Settled(call, p) && Accounted(call, p, runs)
  }

  ghost predicate Inv(calls: seq<Call>, s: State) {
    && Shaped(calls, s)
    && Mirrors(s.items, s.log, s.clock)
    && (forall i :: 0 <= i < |calls| ==> Fine(calls[i], s.phases[i], s.runs[i], s.log, s.clock))
    && (forall n :: 0 <= n < |s.log| ==> Worthy(s.log[n]))
    && (forall j :: 0 <= j < |s.evictions| ==> Overdue(s.evictions[j], s.clock))
  }

  /**
   A call's engine runs and answer, phase by phase: no run before a miss, then exactly the runs that
   its own computation takes; an answer is an error, its own computed verdict, or a cached one.
   */
  ghost predicate Accounted(call: Call, p: Phase, runs: nat) {
    match p
    case Waiting => runs == 0
    case Read(_, _) => runs == 0
    case Missed => runs == 0 && !OutcomeOf(call).Retry?
    case Storing(_) => runs == RunsOf(call)
    case Done(answer) =>
      if OutcomeOf(call).Retry? then answer == None && runs == 0
      else (answer == AnswerOf(call) && runs == RunsOf(call)) || (FromCache(call, answer) && runs == 0)
  }

  /** A settled verdict for the same key, marked as cached and otherwise as it was written. */
  ghost predicate FromCache(call: Call, answer: Option<Verdict>)
    requires !OutcomeOf(call).Retry?
  {
    exists e :: Worthy(Write(KeyFor(OutcomeOf(call)), e)) && answer == Some(AsCached(e.verdict))
  }

  ghost predicate Overdue(e: Eviction, clock: int) {
    e.expiresAt.Some? && clock > e.expiresAt.value
  }

  lemma LatestAppends(log: seq<Write>, w: Write, key: string)
    ensures Latest(log + [w], key) == if w.key == key then Some(w.entry) else Latest(log, key)
  {
    assert (log + [w])[..|log|] == log;
  }

  lemma {:induction false} LatestIsWritten(log: seq<Write>, key: string) returns (n: nat)
    requires Latest(log, key).Some?
    ensures n < |log| && log[n] == Write(key, Latest(log, key).value)
  {
    if log[|log| - 1].key == key {
      n := |log| - 1;
    } else {
      n := LatestIsWritten(log[..|log| - 1], key);
    }
  }

  // ---------------------------------------------------------------- every step keeps it

  lemma PutMirrors(items: map<string, Entry>, log: seq<Write>, clock: int, w: Write)
    requires Mirrors(items, log, clock)
    ensures Mirrors(items[w.key := w.entry], log + [w], clock)
  {
    forall k
      ensures Latest(log + [w], k) == if w.key == k then Some(w.entry) else Latest(log, k)
    {
      LatestAppends(log, w, k);
    }
  }

  lemma DropMirrors(items: map<string, Entry>, log: seq<Write>, clock: int, e: Eviction)
    requires Mirrors(items, log, clock) && Overdue(e, clock)
    ensures Mirrors(Dropped(items, e.key, e.expiresAt), log, clock)
  {
  }

  lemma WaitMirrors(items: map<string, Entry>, log: seq<Write>, clock: int, later: int)
    requires Mirrors(items, log, clock) && clock <= later
    ensures Mirrors(items, log, later)
  {
    forall k | k !in items
      ensures Live(log, k, later) == None
    {
      assert Live(log, k, clock) == None;
    }
  }

  lemma AppendRemembers(call: Call, p: Phase, log: seq<Write>, w: Write, clock: int)
    requires Remembers(call, p, log, clock)
    ensures Remembers(call, p, log + [w], clock)
  {
    if p.Read? {
      assert (log + [w])[..p.seen] == log[..p.seen];
    }
  }

  /** A step of one call that touches nothing shared. */
  lemma MoveKeeps(calls: seq<Call>, s: State, i: nat, p: Phase, runs: nat)
    requires Inv(calls, s) && i < |calls| && Fine(calls[i], p, runs, s.log, s.clock)
    ensures Inv(calls, s.(phases := s.phases[i := p], runs := s.runs[i := runs]))
  {
  }

  lemma LookupKeeps(calls: seq<Call>, ttl: int, s: State, i: nat)
    requires Inv(calls, s) && Enabled(calls, s, Lookup(i))
    ensures Inv(calls, Next(calls, ttl, s, Lookup(i)))
  {
    var s1 := Next(calls, ttl, s, Lookup(i));
    assert Fine(calls[i], s.phases[i], s.runs[i], s.log, s.clock);
    if s1.phases[i].Read? {
      assert s.log[..|s.log|] == s.log;
    }
    assert Fine(calls[i], s1.phases[i], s.runs[i], s.log, s.clock);
    MoveKeeps(calls, s, i, s1.phases[i], s.runs[i]);
    assert s1 == s.(phases := s.phases[i := s1.phases[i]], runs := s.runs[i := s.runs[i]]);
  }

  lemma ReadIsWorthy(call: Call, p: Phase, log: seq<Write>, clock: int)
    requires p.Read? && p.found.Some? && Remembers(call, p, log, clock)
    requires forall n :: 0 <= n < |log| ==> Worthy(log[n])
    ensures FromCache(call, Some(AsCached(p.found.value.verdict)))
  {
    var key := KeyFor(OutcomeOf(call));
    var n := LatestIsWritten(log[..p.seen], key);
    assert log[n] == Write(key, p.found.value);
    assert Worthy(Write(key, p.found.value));
  }

  lemma JudgeKeeps(calls: seq<Call>, ttl: int, s: State, i: nat)
    requires Inv(calls, s) && Enabled(calls, s, Judge(i))
    ensures Inv(calls, Next(calls, ttl, s, Judge(i)))
  {
    var call, p := calls[i], s.phases[i];
    assert Fine(call, p, s.runs[i], s.log, s.clock);
    if p.found.Some? {
      ReadIsWorthy(call, p, s.log, s.clock);
    }
    var p1 := if p.found.None? || Expired(p.found.value, s.clock) then Missed
              else Done(Some(AsCached(p.found.value.verdict)));
    MoveKeeps(calls, s, i, p1, s.runs[i]);
    var s1 := s.(phases := s.phases[i := p1], runs := s.runs[i := s.runs[i]]);
    if p.found.Some? && Expired(p.found.value, s.clock) {
      EvictionNoted(calls, s1, Eviction(KeyFor(OutcomeOf(call)), p.found.value.expiresAt));
    }
    assert s1.runs == s.runs;
  }

  lemma EvictionNoted(calls: seq<Call>, s: State, e: Eviction)
    requires Inv(calls, s) && Overdue(e, s.clock)
    ensures Inv(calls, s.(evictions := s.evictions + [e]))
  {
  }

  lemma ComputeKeeps(calls: seq<Call>, ttl: int, s: State, i: nat)
    requires Inv(calls, s) && Enabled(calls, s, Compute(i))
    ensures Inv(calls, Next(calls, ttl, s, Compute(i)))
  {
    var s1 := Next(calls, ttl, s, Compute(i));
    assert Fine(calls[i], s.phases[i], s.runs[i], s.log, s.clock);
    assert Fine(calls[i], s1.phases[i], s1.runs[i], s.log, s.clock);
    MoveKeeps(calls, s, i, s1.phases[i], s1.runs[i]);
    assert s1 == s.(phases := s.phases[i := s1.phases[i]], runs := s.runs[i := s1.runs[i]]);
  }

  /** A completed Put: the write reaches the log and the cache together. */
  lemma WriteKeeps(calls: seq<Call>, s: State, w: Write)
    requires Inv(calls, s) && Worthy(w)
    ensures Inv(calls, s.(items := s.items[w.key := w.entry], log := s.log + [w]))
  {
    PutMirrors(s.items, s.log, s.clock, w);
    forall k | 0 <= k < |calls|
      ensures Fine(calls[k], s.phases[k], s.runs[k], s.log + [w], s.clock)
    {
      AppendRemembers(calls[k], s.phases[k], s.log, w, s.clock);
    }
  }

  lemma StoreKeeps(calls: seq<Call>, ttl: int, s: State, i: nat)
    requires Inv(calls, s) && Enabled(calls, s, Store(i))
    ensures Inv(calls, Next(calls, ttl, s, Store(i)))
  {
    var call, p := calls[i], s.phases[i];
    var w := Write(KeyFor(OutcomeOf(call)), p.entry);
    assert Fine(call, p, s.runs[i], s.log, s.clock);
    ComputedIsSane(call.env, call.input, call.skip, call.chance);
    var p1 := Done(Some(p.entry.verdict));
    MoveKeeps(calls, s, i, p1, s.runs[i]);
    var s1 := s.(phases := s.phases[i := p1], runs := s.runs[i := s.runs[i]]);
    WriteKeeps(calls, s1, w);
    assert s1.runs == s.runs;
  }

  lemma EvictKeeps(calls: seq<Call>, ttl: int, s: State, j: nat)
    requires Inv(calls, s) && Enabled(calls, s, Evict(j))
    ensures Inv(calls, Next(calls, ttl, s, Evict(j)))
  {
    DropMirrors(s.items, s.log, s.clock, s.evictions[j]);
  }

  lemma TickKeeps(calls: seq<Call>, ttl: int, s: State, to: int)
    requires Inv(calls, s) && Enabled(calls, s, Tick(to))
    ensures Inv(calls, Next(calls, ttl, s, Tick(to)))
  {
    WaitMirrors(s.items, s.log, s.clock, to);
    forall i | 0 <= i < |calls|
      ensures Fine(calls[i], s.phases[i], s.runs[i], s.log, to)
    {
      assert Fine(calls[i], s.phases[i], s.runs[i], s.log, s.clock);
    }
    forall j | 0 <= j < |s.evictions|
      ensures Overdue(s.evictions[j], to)
    {
      assert Overdue(s.evictions[j], s.clock);
    }
  }

  lemma StepKeeps(calls: seq<Call>, ttl: int, s: State, step: Step)
    requires Inv(calls, s) && Enabled(calls, s, step)
    ensures Inv(calls, Next(calls, ttl, s, step))
  {
    match step
    case Lookup(i) => LookupKeeps(calls, ttl, s, i);
    case Judge(i) => JudgeKeeps(calls, ttl, s, i);
    case Compute(i) => ComputeKeeps(calls, ttl, s, i);
    case Store(i) => StoreKeeps(calls, ttl, s, i);
    case Evict(j) => EvictKeeps(calls, ttl, s, j);
    case Tick(to) => TickKeeps(calls, ttl, s, to);
  }

  // ---------------------------------------------------------------- whole runs

  function Initial(calls: seq<Call>, clock: int): State {
    State(map[], [], seq(|calls|, _ => Waiting), [], seq(|calls|, _ => 0), clock)
  }

  lemma NextShape(calls: seq<Call>, ttl: int, s: State, step: Step)
    requires Shaped(calls, s) && Enabled(calls, s, step)
    ensures Shaped(calls, Next(calls, ttl, s, step))
  {
  }

  /** The state after a schedule; a step that is not enabled does nothing. */
  function After(calls: seq<Call>, ttl: int, clock: int, steps: seq<Step>): (s: State)
    ensures Shaped(calls, s)
  {
    if steps == [] then Initial(calls, clock)
    else
      var s := After(calls, ttl, clock, steps[..|steps| - 1]);
      var step := steps[|steps| - 1];
      if Enabled(calls, s, step) then NextShape(calls, ttl, s, step); Next(calls, ttl, s, step) else s
  }

  lemma {:induction false} InvAlways(calls: seq<Call>, ttl: int, clock: int, steps: seq<Step>)
    ensures Inv(calls, After(calls, ttl, clock, steps))
  {
    if steps != [] {
      var s, step := After(calls, ttl, clock, steps[..|steps| - 1]), steps[|steps| - 1];
      InvAlways(calls, ttl, clock, steps[..|steps| - 1]);
      if Enabled(calls, s, step) {
        StepKeeps(calls, ttl, s, step);
      }
    }
  }

  /**
   Nothing unknown is ever cached, under any schedule: every write is a settled, sane verdict filed
   under its own key, and the cache holds nothing but the last write of each key.
   */
  lemma OnlySettledVerdictsAreCached(calls: seq<Call>, ttl: int, clock: int, steps: seq<Step>, key: string)
    ensures var s := After(calls, ttl, clock, steps);
            && (forall n :: 0 <= n < |s.log| ==> Worthy(s.log[n]))
            && (key in s.items ==> Latest(s.log, key) == Some(s.items[key]) && Worthy(Write(key, s.items[key])))
  {
    InvAlways(calls, ttl, clock, steps);
    var s := After(calls, ttl, clock, steps);
    if key in s.items {
      var n := LatestIsWritten(s.log, key);
    }
  }

  /** Lazy eviction never removes a verdict that is still good, however the calls interleave. */
  lemma LiveVerdictsAreKept(calls: seq<Call>, ttl: int, clock: int, steps: seq<Step>, key: string)
    ensures var s := After(calls, ttl, clock, steps);
            Live(s.log, key, s.clock).Some? ==> Fetched(s.items, key) == Live(s.log, key, s.clock)
  {
    InvAlways(calls, ttl, clock, steps);
  }

  /**
   What a lookup answers, under any schedule: the verdict that was last written for the key when the
   lookup took the lock, marked as cached and otherwise unchanged, if and only if it is still good
   when its expiry is judged.
   */
  lemma LookupAnswersLastLive(calls: seq<Call>, ttl: int, clock: int, steps: seq<Step>, i: nat)
    requires At(After(calls, ttl, clock, steps), i).Read?
    ensures var s := After(calls, ttl, clock, steps);
            var p := At(s, i);
            && i < |calls| && !OutcomeOf(calls[i]).Retry? && p.seen <= |s.log|
            && var live := Live(s.log[..p.seen], KeyFor(OutcomeOf(calls[i])), s.clock);
               At(Judged(calls, s, i), i) ==
               if live.Some? then Done(Some(AsCached(live.value.verdict))) else Missed
  {
    InvAlways(calls, ttl, clock, steps);
    var s := After(calls, ttl, clock, steps);
    assert Fine(calls[i], s.phases[i], s.runs[i], s.log, s.clock);
  }

  /**
   Every finished verification, under any schedule: the engine ran at most once, and only for a call
   that missed the cache, survived the funnel with a mail exchanger and was not skipped; the answer
   is sane, is filed under the call's key, and is never a cached unknown.
   */
  lemma FinishedAnswersAreSound(calls: seq<Call>, ttl: int, clock: int, steps: seq<Step>, i: nat)
    requires i < |calls| && At(After(calls, ttl, clock, steps), i).Done?
    ensures var s := After(calls, ttl, clock, steps);
            var out, answer := OutcomeOf(calls[i]), At(s, i).answer;
            && s.runs[i] <= 1
            && (s.runs[i] == 1 ==> out.Survives? && out.task.mx != [] && !calls[i].skip(PolicyKey(out.task)))
            && (answer.Some? ==>
                  && !out.Retry? && Sane(answer.value) && answer.value.normalized == KeyFor(out)
                  && (answer.value.cached ==> answer.value.status != Unknown && s.runs[i] == 0))
  {
    InvAlways(calls, ttl, clock, steps);
    var s := After(calls, ttl, clock, steps);
    var call := calls[i];
    assert Fine(call, s.phases[i], s.runs[i], s.log, s.clock);
    FunnelGuarantees(call.env, call.input);
    if !OutcomeOf(call).Retry? && AnswerOf(call).Some? {
      ComputedIsSane(call.env, call.input, call.skip, call.chance);
    }
  }

  // ---------------------------------------------------------------- one call on its own

  /** The steps of call i that are left, with no other call in between. */
  function Alone(calls: seq<Call>, ttl: int, s: State, i: nat): (r: State)
    requires Shaped(calls, s) && i < |calls|
    requires !s.phases[i].Waiting? && !s.phases[i].Done? ==> !OutcomeOf(calls[i]).Retry?
    decreases match s.phases[i]
              case Waiting => 4
              case Read(_, _) => 3
              case Missed => 2
              case Storing(_) => 1
              case Done(_) => 0
  {
    match s.phases[i]
    case Waiting => Alone(calls, ttl, Next(calls, ttl, s, Lookup(i)), i)
    case Read(_, _) =>
      var s1 := Next(calls, ttl, s, Judge(i));
      if |s1.evictions| > |s.evictions| then Alone(calls, ttl, Next(calls, ttl, s1, Evict(|s.evictions|)), i)
      else Alone(calls, ttl, s1, i)
    case Missed => Alone(calls, ttl, Next(calls, ttl, s, Compute(i)), i)
    case Storing(_) => Next(calls, ttl, s, Store(i))
    case Done(_) => s
  }

  lemma AloneFromMiss(calls: seq<Call>, ttl: int, s: State, i: nat)
    requires Shaped(calls, s) && i < |calls| && s.phases[i].Missed? && !OutcomeOf(calls[i]).Retry?
    ensures var r, out := Alone(calls, ttl, s, i), OutcomeOf(calls[i]);
            var v := AnswerOf(calls[i]);
            && At(r, i) == Done(v) && Shaped(calls, r) && r.runs[i] == s.runs[i] + RunsOf(calls[i])
            && r.items == (if v.Some? && v.value.status != Unknown && KeyFor(out) != ""
                           then s.items[KeyFor(out) := Stamped(v.value, ttl, s.clock)] else s.items)
  {
    var s1 := Next(calls, ttl, s, Compute(i));
    if s1.phases[i].Storing? {
      assert Alone(calls, ttl, s1, i) == Next(calls, ttl, s1, Store(i));
    } else {
      assert Alone(calls, ttl, s1, i) == s1;
    }
  }

  /** The call did, from s to r, what the sequential specification of a verification says. */
  ghost predicate Sequential(call: Call, ttl: int, s: State, r: State, i: nat)
    requires i < |s.runs|
  {
    && At(r, i).Done? && i < |r.runs| && r.runs[i] >= s.runs[i]
    && Answers(OutcomeOf(call), call.skip, call.chance, Some(s.items), s.clock, At(r, i).answer, r.runs[i] - s.runs[i])
    && r.items == Kept(OutcomeOf(call), call.skip, call.chance, s.items, ttl, s.clock)
  }

  /** The call is past its lookup, which read the entry that the cache still holds. */
  ghost predicate JustRead(calls: seq<Call>, s: State, i: nat) {
    && Shaped(calls, s) && i < |calls| && !OutcomeOf(calls[i]).Retry? && KeyFor(OutcomeOf(calls[i])) != ""
    && s.phases[i].Read? && s.phases[i].found == Fetched(s.items, KeyFor(OutcomeOf(calls[i])))
  }

  lemma AloneMisses(calls: seq<Call>, ttl: int, s: State, i: nat)
    requires JustRead(calls, s, i) && s.phases[i].found.None?
    ensures Sequential(calls[i], ttl, s, Alone(calls, ttl, s, i), i)
  {
    AloneFromMiss(calls, ttl, Next(calls, ttl, s, Judge(i)), i);
  }

  lemma AloneHits(calls: seq<Call>, ttl: int, s: State, i: nat)
    requires JustRead(calls, s, i) && s.phases[i].found.Some? && !Expired(s.phases[i].found.value, s.clock)
    ensures Sequential(calls[i], ttl, s, Alone(calls, ttl, s, i), i)
  {
    var s1 := Next(calls, ttl, s, Judge(i));
    assert Alone(calls, ttl, s1, i) == s1;
  }

  lemma AloneEvicts(calls: seq<Call>, ttl: int, s: State, i: nat)
    requires JustRead(calls, s, i) && s.phases[i].found.Some? && Expired(s.phases[i].found.value, s.clock)
    ensures Sequential(calls[i], ttl, s, Alone(calls, ttl, s, i), i)
  {
    var s1 := Next(calls, ttl, s, Judge(i));
    var s2 := Next(calls, ttl, s1, Evict(|s.evictions|));
    assert s2.items == Looked(s.items, KeyFor(OutcomeOf(calls[i])), s.clock);
    AloneFromMiss(calls, ttl, s2, i);
  }

  lemma AloneFromRead(calls: seq<Call>, ttl: int, s: State, i: nat)
    requires JustRead(calls, s, i)
    ensures Sequential(calls[i], ttl, s, Alone(calls, ttl, s, i), i)
  {
    var found := s.phases[i].found;
    if found.None? {
      AloneMisses(calls, ttl, s, i);
    } else if Expired(found.value, s.clock) {
      AloneEvicts(calls, ttl, s, i);
    } else {
      AloneHits(calls, ttl, s, i);
    }
  }

  /** A verification that nothing interrupts does exactly what the service's method is specified to do. */
  lemma AloneIsSequential(calls: seq<Call>, ttl: int, s: State, i: nat)
    requires Shaped(calls, s) && i < |calls| && s.phases[i].Waiting?
    ensures Sequential(calls[i], ttl, s, Alone(calls, ttl, s, i), i)
  {
    var s1 := Next(calls, ttl, s, Lookup(i));
    if OutcomeOf(calls[i]).Retry? {
      assert Alone(calls, ttl, s1, i) == s1;
    } else if KeyFor(OutcomeOf(calls[i])) == "" {
      AloneFromMiss(calls, ttl, s1, i);
    } else {
      AloneFromRead(calls, ttl, s1, i);
    }
  }
}
