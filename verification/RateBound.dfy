/**
 The pacing promise: over every run, the probes released to one destination are spaced
 by the configured rate, up to one burst, and leave in the order they were asked for.
 */
module RateBound {
  import opened Common
  import opened RateLimit
  import opened RateIsolation
  import opened RateSchedule

  /** When the granted calls for `key` may proceed, in call order. */
  function Releases(p: Params, evicting: bool, calls: seq<Call>, key: string): seq<real>
    requires p.Valid()
  {
    if calls == [] then []
    else
      var n := |calls| - 1;
      var rest := Releases(p, evicting, calls[..n], key);
      var a := AnswerAt(p, evicting, calls, n);
      if calls[n].key == key && a.Granted? then rest + [calls[n].now + a.delay] else rest
  }

  ghost predicate Scaled(r: real, rel: seq<real>, marks: seq<real>) {
    |marks| == |rel| && forall i :: 0 <= i < |rel| ==> marks[i] == Tick(r, rel[i])
  }

  /** The answer to any call of any run is the schedule's answer. */
  lemma CallOnSchedule(p: Params, evicting: bool, calls: seq<Call>, i: nat)
    requires p.Valid() && ClockForward(calls) && i < |calls|
    requires evicting ==> Roomy(PaceOf(p))
    ensures AnswerAt(p, evicting, calls, i) ==
              Decide(p, Credit(PaceOf(p), ScheduleOf(PaceOf(p), TicksOf(p.rate, calls[..i], calls[i].key)),
                               Tick(p.rate, calls[i].now)))
  {
    AnswerFromOwnCalls(p, evicting, calls, i);
    TicksRise(p, calls[..i], calls[i].key, calls[i].now);
    Scale(p.rate, 0.0, p.maxWait);
    FollowsSchedule(PaceOf(p), evicting, TicksOf(p.rate, calls[..i], calls[i].key), Tick(p.rate, calls[i].now));
  }

  lemma MarkOfRelease(p: Params, s: Schedule, now: real)
    requires p.Valid()
    ensures var x := Tick(p.rate, now);
            var a := Decide(p, Credit(PaceOf(p), s, x));
            && (a.Granted? <==> Grants(PaceOf(p), Credit(PaceOf(p), s, x)))
            && (a.Granted? ==> MaxReal(x, Advanced(PaceOf(p), s, x).w) == Tick(p.rate, now + a.delay))
  {
    var a := Credit(PaceOf(p), s, Tick(p.rate, now));
    WaitInTokens(p, a);
    if Decide(p, a).Granted? {
      Scale(p.rate, now + Decide(p, a).delay, now);
    }
  }

  /** The limiter's releases stand where the schedule marks them, evicting or not. */
  lemma {:induction false} ReleasesMarked(p: Params, evicting: bool, calls: seq<Call>, key: string)
    requires p.Valid() && ClockForward(calls)
    requires evicting ==> Roomy(PaceOf(p))
    ensures Scaled(p.rate, Releases(p, evicting, calls, key), Marks(PaceOf(p), TicksOf(p.rate, calls, key)))
  {
    if calls != [] {
      var n := |calls| - 1;
      ReleasesMarked(p, evicting, calls[..n], key);
      if calls[n].key == key {
        var before := TicksOf(p.rate, calls[..n], key);
        assert TicksOf(p.rate, calls, key)[..|before|] == before;
        CallOnSchedule(p, evicting, calls, n);
        MarkOfRelease(p, ScheduleOf(PaceOf(p), before), calls[n].now);
      }
    }
  }

  /**
   Rate bound and order, for every interleaving of calls over all destinations: the
   releases for one destination never go back in time, and any two of them are as far
   apart as the sustained rate demands, less one burst.
   */
  lemma RateBoundHolds(p: Params, evicting: bool, calls: seq<Call>, key: string, i: nat, j: nat)
    requires p.Valid() && ClockForward(calls)
    requires evicting ==> Roomy(PaceOf(p))
    requires i <= j < |Releases(p, evicting, calls, key)|
    ensures var rel := Releases(p, evicting, calls, key);
            rel[i] <= rel[j] && rel[j] - rel[i] >= ((j - i + 1) as real - Head(p.burst)) / p.rate
  {
    ReleasesMarked(p, evicting, calls, key);
    TicksRise(p, calls, key, calls[|calls| - 1].now);
    MarksSpaced(PaceOf(p), TicksOf(p.rate, calls, key));
    MarksApart(p, Releases(p, evicting, calls, key), Marks(PaceOf(p), TicksOf(p.rate, calls, key)), i, j);
  }

  lemma MarksApart(p: Params, rel: seq<real>, marks: seq<real>, i: nat, j: nat)
    requires p.Valid() && Scaled(p.rate, rel, marks) && Spaced(Head(p.burst), marks) && i <= j < |rel|
    ensures rel[i] <= rel[j] && rel[j] - rel[i] >= ((j - i + 1) as real - Head(p.burst)) / p.rate
  {
    QuotientBound(p.rate, rel[i], rel[j], (j - i + 1) as real - Head(p.burst));
  }

  lemma QuotientBound(r: real, x: real, y: real, gap: real)
    requires r > 0.0 && Tick(r, y) - Tick(r, x) >= gap && Tick(r, x) <= Tick(r, y)
    ensures y - x >= gap / r && x <= y
  {
    Unscale(r, gap);
    Scale(r, y, x);
    Scale(r, y - x, gap / r);
  }

  function CountIn(rel: seq<real>, lo: real, hi: real): nat {
    if rel == [] then 0
    else CountIn(rel[..|rel| - 1], lo, hi) + if lo <= rel[|rel| - 1] <= hi then 1 else 0
  }

  /** The releases of a window are bounded by the span between its first and its last one. */
  lemma {:induction false} WindowSpan(rel: seq<real>, lo: real, hi: real) returns (i: nat, j: nat)
    requires CountIn(rel, lo, hi) > 0
    ensures i <= j < |rel| && lo <= rel[i] && rel[j] <= hi
    ensures CountIn(rel, lo, hi) <= j - i + 1
  {
    var n := |rel| - 1;
    if CountIn(rel[..n], lo, hi) == 0 {
      i, j := n, n;
    } else {
      i, j := WindowSpan(rel[..n], lo, hi);
      if lo <= rel[n] <= hi {
        j := n;
      }
    }
  }

  lemma WindowFits(r: real, head: real, rel: seq<real>, marks: seq<real>, lo: real, hi: real)
    requires r > 0.0 && head >= 1.0 && lo <= hi && Scaled(r, rel, marks) && Spaced(head, marks)
    ensures CountIn(rel, lo, hi) as real <= head + Tick(r, hi - lo)
  {
    Scale(r, lo, hi);
    Scale(r, hi, lo);
    if CountIn(rel, lo, hi) > 0 {
      var i, j := WindowSpan(rel, lo, hi);
      Scale(r, lo, rel[i]);
      Scale(r, rel[j], hi);
      assert marks[j] - marks[i] >= (j - i + 1) as real - head;
    }
  }

  /** Any window of time holds at most one burst plus what the rate earns over the window. */
  lemma WindowBound(p: Params, evicting: bool, calls: seq<Call>, key: string, lo: real, hi: real)
    requires p.Valid() && ClockForward(calls) && lo <= hi
    requires evicting ==> Roomy(PaceOf(p))
    ensures CountIn(Releases(p, evicting, calls, key), lo, hi) as real <= Head(p.burst) + Tick(p.rate, hi - lo)
  {
    var ticks := TicksOf(p.rate, calls, key);
    ReleasesMarked(p, evicting, calls, key);
    if ticks != [] {
      TicksRise(p, calls, key, calls[|calls| - 1].now);
      MarksSpaced(PaceOf(p), ticks);
    }
    WindowFits(p.rate, Head(p.burst), Releases(p, evicting, calls, key), Marks(PaceOf(p), ticks), lo, hi);
  }

  /**
   Bounded debt: at any moment of any run no bucket owes more than the probes that fit in
   the longest permitted wait, none holds more than the burst, and no caller is ever told
   to wait longer than that.
   */
  lemma {:induction false} DebtBounded(p: Params, evicting: bool, calls: seq<Call>)
    requires p.Valid()
    ensures forall k :: k in BucketsAfter(p, evicting, calls) ==>
              -(Tick(p.rate, p.maxWait)) <= BucketsAfter(p, evicting, calls)[k].tokens <= p.burst
    ensures forall i :: 0 <= i < |calls| && AnswerAt(p, evicting, calls, i).Granted? ==>
              0.0 <= AnswerAt(p, evicting, calls, i).delay <= p.maxWait
  {
    Scale(p.rate, 0.0, p.maxWait);
    if calls != [] {
      var n := |calls| - 1;
      DebtBounded(p, evicting, calls[..n]);
      var m := BucketsAfter(p, evicting, calls[..n]);
      var kept := if evicting then Evicted(p, m, calls[n].now) else m;
      if calls[n].key in kept {
        RefillBounded(p, kept[calls[n].key], calls[n].now);
      }
      WaitInTokens(p, Opened(p, Lookup(kept, calls[n].key), calls[n].now).tokens);
      forall i | 0 <= i < |calls| && AnswerAt(p, evicting, calls, i).Granted?
        ensures 0.0 <= AnswerAt(p, evicting, calls, i).delay <= p.maxWait
      {
        var before := BucketsAfter(p, evicting, calls[..i]);
        var left := if evicting then Evicted(p, before, calls[i].now) else before;
        DelayBounded(p, Opened(p, Lookup(left, calls[i].key), calls[i].now).tokens);
      }
    }
  }

  lemma DelayBounded(p: Params, a: real)
    requires p.Valid() && Decide(p, a).Granted?
    ensures 0.0 <= Decide(p, a).delay <= p.maxWait
  {
    WaitInTokens(p, a);
    if Decide(p, a).delay < 0.0 {
      Scale(p.rate, Decide(p, a).delay, 0.0);
    }
  }

  lemma RefillBounded(p: Params, b: Bucket, now: real)
    requires p.Valid() && -(Tick(p.rate, p.maxWait)) <= b.tokens <= p.burst
    ensures -(Tick(p.rate, p.maxWait)) <= Refilled(p, b, now).tokens <= p.burst
  {
    Scale(p.rate, 0.0, p.maxWait);
    if now > b.last {
      Scale(p.rate, 0.0, now - b.last);
    }
  }
}
