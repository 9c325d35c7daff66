/**
 What refused calls leave behind. A refused call spends nothing, but it counts as use, so it can keep
 a bucket from being dropped: it is traceless exactly when dropping a bucket is harmless.
 */
module RateTraces {
  import opened Common
  import opened RateLimit
  import opened RateIsolation
  import opened RateSchedule
  import opened RateBound
  import opened RateEviction
  import opened RateKeeping

  // ---------------------------------------------------------------- the limiter and its schedule

  /** The answer of the virtual schedule to call `i`. */
  function ScheduledAnswer(p: Params, calls: seq<Call>, i: nat): Answer
    requires p.Valid() && i < |calls|
  {
    Decide(p, Credit(PaceOf(p), ScheduleOf(PaceOf(p), TicksOf(p.rate, calls[..i], calls[i].key)),
                     Tick(p.rate, calls[i].now)))
  }

  ghost predicate OnSchedule(p: Params)
    requires p.Valid()
  {
    forall calls, i :: ClockForward(calls) && 0 <= i < |calls| ==>
      AnswerAt(p, true, calls, i) == ScheduledAnswer(p, calls, i)
  }

  /** The limiter as it runs answers as the virtual schedule does, in every run, exactly under the same condition. */
  lemma OnScheduleIff(p: Params)
    requires p.Valid()
    ensures OnSchedule(p) <==>
              p.rate * (p.maxIdle - p.maxWait) >= p.burst || p.burst + p.rate * p.maxWait < 1.0
  {
    EvictionUnobservableIff(p);
    forall calls, i | ClockForward(calls) && 0 <= i < |calls|
      ensures AnswerAt(p, false, calls, i) == ScheduledAnswer(p, calls, i)
    {
      CallOnSchedule(p, false, calls, i);
    }
  }

  // ---------------------------------------------------------------- a call that leaves a trace

  /** The call at `x` is refused, yet the later one at `y` is answered differently without it. */
  ghost predicate Traced(q: Pace, a: seq<real>, x: real, b: seq<real>, y: real) {
    && Rising(a + [x] + b + [y])
    && !Grants(q, Standing(q, true, a, x))
    && Differ(q, Standing(q, true, a + [x] + b, y), Standing(q, true, a + b, y))
  }

  function Drop(ticks: seq<real>, i: nat): seq<real>
    requires i < |ticks|
  {
    ticks[..i] + ticks[i + 1..]
  }

  /** The balance that call `i` of a list finds. */
  function FoundAt(q: Pace, ticks: seq<real>, i: nat): real
    requires i < |ticks|
  {
    Standing(q, true, ticks[..i], ticks[i])
  }

  /** The same, by the number of the refused call: it makes a difference to the last one. */
  ghost predicate TracedAt(q: Pace, ticks: seq<real>, i: nat) {
    && i < |ticks| - 1 && Rising(ticks) && !Grants(q, FoundAt(q, ticks, i))
    && Differ(q, FoundAt(q, ticks, |ticks| - 1), FoundAt(q, Drop(ticks, i), |ticks| - 2))
  }

  lemma TraceNumbered(q: Pace, a: seq<real>, x: real, b: seq<real>, y: real)
    requires Traced(q, a, x, b, y)
    ensures TracedAt(q, a + [x] + b + [y], |a|)
  {
    var ticks := a + [x] + b + [y];
    assert ticks[..|a|] == a && ticks[|a|] == x && ticks[..|ticks| - 1] == a + [x] + b;
    assert ticks[|a| + 1..] == b + [y];
    assert a + (b + [y]) == a + b + [y];
    assert (a + b + [y])[..|a + b|] == a + b;
  }

  /** The last call was at `t` and left balance `z`. */
  ghost predicate Holding(q: Pace, ticks: seq<real>, z: real, t: real) {
    ticks != [] && Rising(ticks) && ticks[|ticks| - 1] == t && CellOf(q, true, ticks) == Some(Cell(z, t))
  }

  lemma CallHolds(q: Pace, ticks: seq<real>, z: real, t: real, x: real)
    requires Holding(q, ticks, z, t) && x >= t
    ensures Holding(q, ticks + [x], Left(q, Standing(q, true, ticks, x)), x)
  {
    OneMoreCall(q, true, ticks, x);
    assert forall i :: 0 <= i < |ticks| ==> ticks[i] <= t;
  }

  /** The refused call keeps the bucket alive while it is still too low to grant anything. */
  lemma TraceNear(q: Pace, a: seq<real>, z: real, t: real) returns (x: real, y: real)
    requires q.idle > 0.0 && q.burst + q.wait >= 1.0 && Holding(q, a, z, t) && q.idle < 1.0 - q.wait - z
    ensures Traced(q, a, x, [], y)
  {
    var d := MinReal(q.idle, (1.0 - q.wait - z - q.idle) / 2.0);
    x, y := t + d, t + d + q.idle;
    CallHolds(q, a, z, t, x);
    CallHolds(q, a + [x], z + d, x, y);
    assert a + [x] + [] + [y] == a + [x] + [y] && a + [x] + [] == a + [x] && a + [] == a;
    IdleStandsFull(q, a, y);
  }

  /** Two histories of one destination that differ in its balance can be told apart without another idle period. */
  lemma {:induction false} TellApart(q: Pace, f: seq<real>, g: seq<real>, s: real, s': real, t: real)
    returns (b: seq<real>, y: real)
    requires q.idle >= 1.0 && q.burst + q.wait >= 1.0
    requires Holding(q, f, s, t) && Holding(q, g, s', t) && -q.wait <= s < s' <= q.burst
    ensures Holding(q, f + b, Standing(q, true, f + b, t), t) && y >= t && forall i :: 0 <= i < |b| ==> b[i] == t
    ensures Differ(q, Standing(q, true, f + b, y), Standing(q, true, g + b, y))
    decreases (s + q.wait).Floor
  {
    b, y := [], t;
    assert f + b == f && g + b == g;
    if !Differ(q, s, s') {
      if Grants(q, s') {
        CallHolds(q, f, s, t, t);
        CallHolds(q, g, s', t, t);
        var c;
        c, y := TellApart(q, f + [t], g + [t], s - 1.0, s' - 1.0, t);
        b := [t] + c;
        assert f + b == f + [t] + c && g + b == g + [t] + c;
      } else {
        y := t + (1.0 - q.wait - s');
      }
    }
  }

  lemma RisesThrough(f: seq<real>, t: real, y: real)
    requires f != [] && Rising(f) && f[|f| - 1] == t && y >= t
    ensures Rising(f + [y])
  {
    assert forall i :: 0 <= i < |f| ==> f[i] <= t;
  }

  /** With an idle period of a token or more, the bucket refills beyond one probe, and later calls tell. */
  lemma TraceFar(q: Pace, a: seq<real>, t: real) returns (x: real, b: seq<real>, y: real)
    requires q.idle >= 1.0 && q.wait > 0.0 && q.burst + q.wait >= 1.0 && q.idle < q.burst + q.wait
    requires Holding(q, a, -q.wait, t)
    ensures Traced(q, a, x, b, y)
  {
    var d := MinReal(0.5, (q.burst + q.wait - q.idle) / 2.0);
    x := t + d;
    var u, low := x + q.idle, -q.wait + d + q.idle;
    CallHolds(q, a, -q.wait, t, x);
    assert Standing(q, true, a + [x], u) == low;
    IdleStandsFull(q, a, u);
    CallHolds(q, a + [x], -q.wait + d, x, u);
    CallHolds(q, a, -q.wait, t, u);
    if Differ(q, low, q.burst) {
      b, y := [], u;
      assert a + [x] + b == a + [x] && a + b == a;
      RisesThrough(a + [x], x, u);
    } else {
      var c;
      c, y := TellApart(q, a + [x] + [u], a + [u], low - 1.0, q.burst - 1.0, u);
      b := [u] + c;
      assert a + [x] + b == a + [x] + [u] + c && a + b == a + [u] + c;
      RisesThrough(a + [x] + b, u, y);
    }
  }

  lemma CrampedTraces(q: Pace) returns (a: seq<real>, x: real, b: seq<real>, y: real)
    requires q.idle > 0.0 && q.wait > 0.0 && q.burst > 0.0 && !Dead(q) && !Roomy(q)
    ensures Traced(q, a, x, b, y)
  {
    var k := BurstSize(q);
    var z := q.burst - k as real;
    var pause := 1.0 - q.wait - z;
    b := [];
    if q.idle < pause {
      a := Repeat(0.0, k);
      BurstSpends(q, 0.0, k);
      x, y := TraceNear(q, a, z, 0.0);
    } else {
      a := Repeat(0.0, k) + [0.0 + pause];
      PauseSpends(q, 0.0, k, pause);
      if q.idle < 1.0 {
        x, y := TraceNear(q, a, -q.wait, 0.0 + pause);
      } else {
        x, b, y := TraceFar(q, a, 0.0 + pause);
      }
    }
  }

  // ---------------------------------------------------------------- in seconds

  /** A run, a refused call in it, and a later call that it makes a difference to. */
  ghost predicate Tells(p: Params, calls: seq<Call>, i: nat, j: nat)
    requires p.Valid()
  {
    && ClockForward(calls) && i < j < |calls| && AnswerAt(p, true, calls, i) == Refused
    && AnswerAt(p, true, calls, j) != AnswerAt(p, true, Without(calls, i), j - 1)
  }

  /** A refused call makes a difference to no later call of any run. */
  ghost predicate Traceless(p: Params)
    requires p.Valid()
  {
    forall calls, i: nat, j: nat :: !Tells(p, calls, i, j)
  }

  lemma ForwardWithout(calls: seq<Call>, i: nat)
    requires ClockForward(calls) && i < |calls|
    ensures ClockForward(Without(calls, i))
  {
    assert forall k :: 0 <= k < |calls| - 1 ==> Without(calls, i)[k] == calls[if k < i then k else k + 1];
  }

  lemma DeadAnswers(p: Params, calls: seq<Call>, i: nat)
    requires p.Valid() && Dead(PaceOf(p)) && ClockForward(calls) && i < |calls|
    ensures AnswerAt(p, true, calls, i) == Decide(p, p.burst)
  {
    AnswerFromOwnCalls(p, true, calls, i);
    DeadStandsFull(PaceOf(p), true, TicksOf(p.rate, calls[..i], calls[i].key), Tick(p.rate, calls[i].now));
  }

  lemma NothingTells(p: Params, calls: seq<Call>, i: nat, j: nat)
    requires p.Valid() && (Roomy(PaceOf(p)) || Dead(PaceOf(p)))
    ensures !Tells(p, calls, i, j)
  {
    if ClockForward(calls) && i < j < |calls| && AnswerAt(p, true, calls, i) == Refused {
      if Roomy(PaceOf(p)) {
        RefusalLeavesNoTrace(p, true, calls, i, j);
      } else {
        ForwardWithout(calls, i);
        DeadAnswers(p, calls, j);
        DeadAnswers(p, Without(calls, i), j - 1);
      }
    }
  }

  lemma RisingPrefix(ticks: seq<real>, n: nat)
    requires Rising(ticks) && n <= |ticks|
    ensures Rising(ticks[..n])
  {
  }

  lemma RisingDrop(ticks: seq<real>, i: nat)
    requires Rising(ticks) && i < |ticks|
    ensures Rising(Drop(ticks, i))
  {
    assert forall k :: 0 <= k < |ticks| - 1 ==> Drop(ticks, i)[k] == ticks[if k < i then k else k + 1];
  }

  lemma CallsPrefix(r: real, ticks: seq<real>, n: nat)
    requires r > 0.0 && n <= |ticks|
    ensures CallsFor(r, ticks)[..n] == CallsFor(r, ticks[..n])
  {
  }

  lemma CallsWithout(r: real, ticks: seq<real>, i: nat)
    requires r > 0.0 && i < |ticks|
    ensures Without(CallsFor(r, ticks), i) == CallsFor(r, Drop(ticks, i))
  {
  }

  /** The answer to any of a list of calls for one destination. */
  lemma AnswerToTick(p: Params, ticks: seq<real>, i: nat)
    requires p.Valid() && Rising(ticks) && i < |ticks|
    ensures AnswerAt(p, true, CallsFor(p.rate, ticks), i) == Decide(p, FoundAt(PaceOf(p), ticks, i))
  {
    CallsForward(p.rate, ticks);
    CallsPrefix(p.rate, ticks, i);
    RisingPrefix(ticks, i);
    TicksBack(p.rate, ticks[..i]);
    Unscale(p.rate, ticks[i]);
    AnswerFromOwnCalls(p, true, CallsFor(p.rate, ticks), i);
  }

  lemma RefusedAt(p: Params, ticks: seq<real>, i: nat)
    requires p.Valid() && Rising(ticks) && i < |ticks|
    requires !Grants(PaceOf(p), FoundAt(PaceOf(p), ticks, i))
    ensures AnswerAt(p, true, CallsFor(p.rate, ticks), i) == Refused
  {
    AnswerToTick(p, ticks, i);
    WaitInTokens(p, FoundAt(PaceOf(p), ticks, i));
  }

  lemma DifferentAt(p: Params, f: seq<real>, g: seq<real>, i: nat, j: nat)
    requires p.Valid() && Rising(f) && Rising(g) && i < |f| && j < |g|
    requires Differ(PaceOf(p), FoundAt(PaceOf(p), f, i), FoundAt(PaceOf(p), g, j))
    ensures AnswerAt(p, true, CallsFor(p.rate, f), i) != AnswerAt(p, true, CallsFor(p.rate, g), j)
  {
    AnswerToTick(p, f, i);
    AnswerToTick(p, g, j);
    DifferentAnswers(p, FoundAt(PaceOf(p), f, i), FoundAt(PaceOf(p), g, j));
  }

  lemma TraceInSeconds(p: Params, ticks: seq<real>, i: nat)
    requires p.Valid() && TracedAt(PaceOf(p), ticks, i)
    ensures Tells(p, CallsFor(p.rate, ticks), i, |ticks| - 1)
  {
    RisingDrop(ticks, i);
    CallsForward(p.rate, ticks);
    RefusedAt(p, ticks, i);
    DifferentAt(p, ticks, Drop(ticks, i), |ticks| - 1, |ticks| - 2);
    CallsWithout(p.rate, ticks, i);
  }

  lemma TracesOtherwise(p: Params) returns (ticks: seq<real>, i: nat)
    requires p.Valid() && !Roomy(PaceOf(p)) && !Dead(PaceOf(p))
    ensures i < |ticks| - 1 && Tells(p, CallsFor(p.rate, ticks), i, |ticks| - 1)
  {
    Scale(p.rate, 0.0, p.maxIdle);
    Scale(p.rate, 0.0, p.maxWait);
    ticks, i := NumberedTrace(PaceOf(p));
    TraceInSeconds(p, ticks, i);
  }

  lemma NumberedTrace(q: Pace) returns (ticks: seq<real>, i: nat)
    requires q.idle > 0.0 && q.wait > 0.0 && q.burst > 0.0 && !Dead(q) && !Roomy(q)
    ensures TracedAt(q, ticks, i)
  {
    var a, x, b, y := CrampedTraces(q);
    TraceNumbered(q, a, x, b, y);
    ticks, i := a + [x] + b + [y], |a|;
  }

  lemma TracelessExactly(p: Params)
    requires p.Valid()
    ensures Traceless(p) <==> Roomy(PaceOf(p)) || Dead(PaceOf(p))
  {
    if Roomy(PaceOf(p)) || Dead(PaceOf(p)) {
      forall calls, i: nat, j: nat
        ensures !Tells(p, calls, i, j)
      {
        NothingTells(p, calls, i, j);
      }
    } else {
      var ticks, i := TracesOtherwise(p);
    }
  }

  /** Refused calls leave no trace in any run of the limiter exactly under the same condition. */
  lemma TracelessIff(p: Params)
    requires p.Valid()
    ensures Traceless(p) <==>
              p.rate * (p.maxIdle - p.maxWait) >= p.burst || p.burst + p.rate * p.maxWait < 1.0
  {
    RoomyInSeconds(p);
    TracelessExactly(p);
  }
}
