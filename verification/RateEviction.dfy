/**
 Dropping idle buckets is meant to save memory without changing pacing. It does so exactly
 when a dropped bucket would have been full again, or when the limiter never grants anything.
 */
module RateEviction {
  import opened Common
  import opened RateLimit
  import opened RateIsolation
  import opened RateSchedule
  import opened RateBound

  /** No call sequence can tell the evicting limiter from one that keeps every bucket. */
  ghost predicate Unobservable(p: Params)
    requires p.Valid()
  {
    forall calls, i :: ClockForward(calls) && 0 <= i < |calls| ==>
      AnswerAt(p, true, calls, i) == AnswerAt(p, false, calls, i)
  }

  /** Even a full bucket holds too little for a single probe within the longest wait. */
  predicate Dead(q: Pace) {
    q.burst + q.wait < 1.0
  }

  // ---------------------------------------------------------------- sufficiency

  lemma {:induction false} DeadStandsFull(q: Pace, evicting: bool, ticks: seq<real>, x: real)
    requires Dead(q)
    ensures Standing(q, evicting, ticks, x) == q.burst
  {
    if ticks != [] {
      DeadStandsFull(q, evicting, ticks[..|ticks| - 1], ticks[|ticks| - 1]);
    }
  }

  lemma SameAnswers(p: Params, calls: seq<Call>, i: nat)
    requires p.Valid() && ClockForward(calls) && i < |calls|
    requires Roomy(PaceOf(p)) || Dead(PaceOf(p))
    ensures AnswerAt(p, true, calls, i) == AnswerAt(p, false, calls, i)
  {
    if Roomy(PaceOf(p)) {
      CallOnSchedule(p, true, calls, i);
      CallOnSchedule(p, false, calls, i);
    } else {
      AnswerFromOwnCalls(p, true, calls, i);
      AnswerFromOwnCalls(p, false, calls, i);
      DeadStandsFull(PaceOf(p), true, TicksOf(p.rate, calls[..i], calls[i].key), Tick(p.rate, calls[i].now));
      DeadStandsFull(PaceOf(p), false, TicksOf(p.rate, calls[..i], calls[i].key), Tick(p.rate, calls[i].now));
    }
  }

  // ---------------------------------------------------------------- necessity

  /** Two balances that a caller can tell apart. */
  predicate Differ(q: Pace, a: real, b: real) {
    || Grants(q, a) != Grants(q, b)
    || (Grants(q, a) && a != b && (a < 1.0 || b < 1.0))
  }

  /** Both limiters are at the last tick, the evicting one with balance `a`, the other with `b`. */
  ghost predicate At(q: Pace, ticks: seq<real>, a: real, b: real) {
    && Rising(ticks) && ticks != []
    && CellOf(q, true, ticks) == Some(Cell(a, ticks[|ticks| - 1]))
    && CellOf(q, false, ticks) == Some(Cell(b, ticks[|ticks| - 1]))
  }

  lemma CallAt(q: Pace, ticks: seq<real>, x: real)
    requires Rising(ticks) && UpTo(ticks, x)
    ensures At(q, ticks + [x], Left(q, Standing(q, true, ticks, x)), Left(q, Standing(q, false, ticks, x)))
  {
    assert (ticks + [x])[..|ticks|] == ticks;
  }

  /** Call again and again at one tick until the next call would be refused. */
  lemma {:induction false} Drain(q: Pace, ticks: seq<real>, a: real) returns (drained: seq<real>, z: real)
    requires q.idle > 0.0 && At(q, ticks, a, a) && a >= -q.wait
    ensures At(q, drained, z, z) && -q.wait <= z < 1.0 - q.wait
    decreases (a + q.wait).Floor
  {
    if a < 1.0 - q.wait {
      return ticks, a;
    }
    var x := ticks[|ticks| - 1];
    CallAt(q, ticks, x);
    drained, z := Drain(q, ticks + [x], a - 1.0);
  }

  /** A common balance from which one idle period does not refill the bucket. */
  lemma Sink(q: Pace) returns (ticks: seq<real>, z: real)
    requires q.idle > 0.0 && q.wait > 0.0 && q.burst > 0.0 && !Dead(q) && !Roomy(q)
    ensures At(q, ticks, z, z) && z + q.idle < q.burst
  {
    CallAt(q, [], 0.0);
    assert [] + [0.0] == [0.0];
    ticks, z := Drain(q, [0.0], q.burst - 1.0);
    var pause := 1.0 - q.wait - z;
    if pause <= q.idle {
      var x := ticks[|ticks| - 1] + pause;
      CallAt(q, ticks, x);
      ticks, z := ticks + [x], -q.wait;
    }
  }

  /** Once the balances differ, some later call shows it. */
  lemma {:induction false} Expose(q: Pace, ticks: seq<real>, a: real, b: real) returns (run: seq<real>, x: real)
    requires q.idle > 0.0 && !Dead(q) && At(q, ticks, a, b) && b < a <= q.burst && b >= -q.wait
    ensures Rising(run) && UpTo(run, x) && Differ(q, Standing(q, true, run, x), Standing(q, false, run, x))
    decreases (b + q.wait).Floor
  {
    run, x := ticks, ticks[|ticks| - 1];
    if !Differ(q, a, b) {
      if Grants(q, a) {
        CallAt(q, ticks, x);
        run, x := Expose(q, ticks + [x], a - 1.0, b - 1.0);
      } else {
        x := x + (1.0 - q.wait - a);
      }
    }
  }

  lemma Observed(q: Pace) returns (run: seq<real>, x: real)
    requires q.idle > 0.0 && q.wait > 0.0 && q.burst > 0.0 && !Dead(q) && !Roomy(q)
    ensures Rising(run) && UpTo(run, x) && Differ(q, Standing(q, true, run, x), Standing(q, false, run, x))
  {
    var ticks, z := Sink(q);
    var slack := q.burst - z - q.idle;
    x := ticks[|ticks| - 1] + q.idle + slack / 2.0;
    run := ticks;
    var y := q.burst - slack / 2.0;
    assert Standing(q, true, ticks, x) == q.burst && Standing(q, false, ticks, x) == y;
    if !Differ(q, q.burst, y) {
      CallAt(q, ticks, x);
      run, x := Expose(q, ticks + [x], q.burst - 1.0, y - 1.0);
    }
  }

  // ---------------------------------------------------------------- back to seconds

  function CallsFor(r: real, ticks: seq<real>): (calls: seq<Call>)
    requires r > 0.0
    ensures |calls| == |ticks|
    ensures forall i :: 0 <= i < |ticks| ==> calls[i] == Call("", ticks[i] / r)
  {
    seq(|ticks|, i requires 0 <= i < |ticks| => Call("", ticks[i] / r))
  }

  lemma Unrise(r: real, x: real, y: real)
    requires r > 0.0 && x <= y
    ensures x / r <= y / r
  {
  }

  lemma CallsForward(r: real, ticks: seq<real>)
    requires r > 0.0 && Rising(ticks)
    ensures ClockForward(CallsFor(r, ticks))
  {
    forall i, j | 0 <= i <= j < |ticks|
      ensures ticks[i] / r <= ticks[j] / r
    {
      Unrise(r, ticks[i], ticks[j]);
    }
  }

  lemma {:induction false} TicksBack(r: real, ticks: seq<real>)
    requires r > 0.0
    ensures TicksOf(r, CallsFor(r, ticks), "") == ticks
  {
    if ticks != [] {
      var n := |ticks| - 1;
      assert CallsFor(r, ticks)[..n] == CallsFor(r, ticks[..n]);
      TicksBack(r, ticks[..n]);
      Unscale(r, ticks[n]);
    }
  }

  lemma DifferentAnswers(p: Params, a: real, b: real)
    requires p.Valid() && Differ(PaceOf(p), a, b)
    ensures Decide(p, a) != Decide(p, b)
  {
    WaitInTokens(p, a);
    WaitInTokens(p, b);
  }

  lemma Exposed(p: Params, run: seq<real>, x: real) returns (calls: seq<Call>, i: nat)
    requires p.Valid() && Rising(run) && UpTo(run, x)
    requires Differ(PaceOf(p), Standing(PaceOf(p), true, run, x), Standing(PaceOf(p), false, run, x))
    ensures ClockForward(calls) && i < |calls| && AnswerAt(p, true, calls, i) != AnswerAt(p, false, calls, i)
  {
    calls, i := CallsFor(p.rate, run + [x]), |run|;
    CallsForward(p.rate, run + [x]);
    assert calls[..i] == CallsFor(p.rate, run);
    TicksBack(p.rate, run);
    Unscale(p.rate, x);
    DifferentAnswers(p, Standing(PaceOf(p), true, run, x), Standing(PaceOf(p), false, run, x));
    AnswerFromOwnCalls(p, true, calls, i);
    AnswerFromOwnCalls(p, false, calls, i);
  }

  lemma UnobservableIfRoomyOrDead(p: Params)
    requires p.Valid() && (Roomy(PaceOf(p)) || Dead(PaceOf(p)))
    ensures Unobservable(p)
  {
    forall calls, i | ClockForward(calls) && 0 <= i < |calls|
      ensures AnswerAt(p, true, calls, i) == AnswerAt(p, false, calls, i)
    {
      SameAnswers(p, calls, i);
    }
  }

  lemma ObservableOtherwise(p: Params)
    requires p.Valid() && !Roomy(PaceOf(p)) && !Dead(PaceOf(p))
    ensures !Unobservable(p)
  {
    Scale(p.rate, 0.0, p.maxIdle);
    Scale(p.rate, 0.0, p.maxWait);
    var run, x := Observed(PaceOf(p));
    var calls, i := Exposed(p, run, x);
  }

  lemma RoomyInSeconds(p: Params)
    ensures Roomy(PaceOf(p)) <==> p.rate * (p.maxIdle - p.maxWait) >= p.burst
    ensures Dead(PaceOf(p)) <==> p.burst + p.rate * p.maxWait < 1.0
  {
    Distributes(p.rate, p.maxIdle, p.maxWait);
  }

  lemma Distributes(r: real, a: real, b: real)
    ensures r * (a - b) == Tick(r, a) - Tick(r, b)
  {
  }

  /**
   Eviction changes no answer of any run exactly when an idle bucket has time to refill
   completely before it is dropped, or when no probe can ever be granted.
   */
  lemma EvictionUnobservableIff(p: Params)
    requires p.Valid()
    ensures Unobservable(p) <==>
              p.rate * (p.maxIdle - p.maxWait) >= p.burst || p.burst + p.rate * p.maxWait < 1.0
  {
    RoomyInSeconds(p);
    if Roomy(PaceOf(p)) || Dead(PaceOf(p)) {
      UnobservableIfRoomyOrDead(p);
    } else {
      ObservableOtherwise(p);
    }
  }

  // ---------------------------------------------------------------- refused calls

  lemma {:induction false} ScheduleSkips(q: Pace, a: seq<real>, x: real, b: seq<real>)
    requires !Grants(q, Credit(q, ScheduleOf(q, a), x))
    ensures ScheduleOf(q, a + [x] + b) == ScheduleOf(q, a + b)
  {
    if b == [] {
      assert a + [x] + b == a + [x] && (a + [x])[..|a|] == a && a + b == a;
    } else {
      var n := |b| - 1;
      ScheduleSkips(q, a, x, b[..n]);
      assert (a + [x] + b)[..|a| + 1 + n] == a + [x] + b[..n];
      assert (a + b)[..|a| + n] == a + b[..n];
    }
  }

  lemma {:induction false} TicksJoin(r: real, a: seq<Call>, b: seq<Call>, key: string)
    ensures TicksOf(r, a + b, key) == TicksOf(r, a, key) + TicksOf(r, b, key)
  {
    if b == [] {
      assert a + b == a;
    } else {
      var n := |b| - 1;
      assert (a + b)[..|a| + n] == a + b[..n];
      TicksJoin(r, a, b[..n], key);
    }
  }

  function Without(calls: seq<Call>, i: nat): seq<Call>
    requires i < |calls|
  {
    calls[..i] + calls[i + 1..]
  }

  lemma ScheduleWithout(q: Pace, r: real, calls: seq<Call>, i: nat, j: nat, key: string)
    requires i < j < |calls|
    requires !Grants(q, Credit(q, ScheduleOf(q, TicksOf(r, calls[..i], calls[i].key)), Tick(r, calls[i].now)))
    ensures ScheduleOf(q, TicksOf(r, calls[..j], key)) == ScheduleOf(q, TicksOf(r, Without(calls, i)[..j - 1], key))
  {
    var a, b := calls[..i], calls[i + 1..j];
    assert calls[..j] == a + [calls[i]] + b && Without(calls, i)[..j - 1] == a + b;
    TicksJoin(r, a + [calls[i]], b, key);
    TicksJoin(r, a, [calls[i]], key);
    TicksJoin(r, a, b, key);
    if calls[i].key == key {
      assert TicksOf(r, [calls[i]], key) == [Tick(r, calls[i].now)];
      ScheduleSkips(q, TicksOf(r, a, key), Tick(r, calls[i].now), TicksOf(r, b, key));
    } else {
      assert TicksOf(r, [calls[i]], key) == [];
      assert TicksOf(r, a, key) + [] == TicksOf(r, a, key);
    }
  }

  lemma RefusedOnSchedule(p: Params, evicting: bool, calls: seq<Call>, i: nat)
    requires p.Valid() && ClockForward(calls) && i < |calls|
    requires evicting ==> Roomy(PaceOf(p))
    requires AnswerAt(p, evicting, calls, i) == Refused
    ensures !Grants(PaceOf(p), Credit(PaceOf(p), ScheduleOf(PaceOf(p), TicksOf(p.rate, calls[..i], calls[i].key)),
                                      Tick(p.rate, calls[i].now)))
  {
    CallOnSchedule(p, evicting, calls, i);
    WaitInTokens(p, Credit(PaceOf(p), ScheduleOf(PaceOf(p), TicksOf(p.rate, calls[..i], calls[i].key)),
                           Tick(p.rate, calls[i].now)));
  }

  /** A refused call leaves no trace: every later call is answered as if it had not been made. */
  lemma RefusalLeavesNoTrace(p: Params, evicting: bool, calls: seq<Call>, i: nat, j: nat)
    requires p.Valid() && ClockForward(calls) && i < j < |calls|
    requires evicting ==> Roomy(PaceOf(p))
    requires AnswerAt(p, evicting, calls, i) == Refused
    ensures AnswerAt(p, evicting, calls, j) == AnswerAt(p, evicting, Without(calls, i), j - 1)
  {
    RefusedOnSchedule(p, evicting, calls, i);
    ScheduleWithout(PaceOf(p), p.rate, calls, i, j, calls[j].key);
    CallOnSchedule(p, evicting, calls, j);
    CallOnSchedule(p, evicting, Without(calls, i), j - 1);
  }
}
