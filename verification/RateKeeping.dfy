/**
 The limiter as it runs, with eviction, keeps the rate exactly when it has time to refill a bucket
 before it drops it, or when it never grants anything. Otherwise two bursts, one idle period apart,
 go out faster than the rate allows.
 */
module RateKeeping {
  import opened Common
  import opened RateLimit
  import opened RateIsolation
  import opened RateSchedule
  import opened RateBound
  import opened RateEviction

  // ---------------------------------------------------------------- releases on the token clock

  /** When the granted calls proceed, on the token clock. */
  function Proceeds(q: Pace, evicting: bool, ticks: seq<real>): seq<real> {
    if ticks == [] then []
    else
      var n := |ticks| - 1;
      var rest, balance := Proceeds(q, evicting, ticks[..n]), Standing(q, evicting, ticks[..n], ticks[n]);
      if Grants(q, balance) then rest + [ticks[n] + MaxReal(0.0, 1.0 - balance)] else rest
  }

  lemma {:induction false} ReleasesProceed(p: Params, evicting: bool, calls: seq<Call>, key: string)
    requires p.Valid() && ClockForward(calls)
    ensures Scaled(p.rate, Releases(p, evicting, calls, key),
                   Proceeds(PaceOf(p), evicting, TicksOf(p.rate, calls, key)))
  {
    if calls != [] {
      var n := |calls| - 1;
      ReleasesProceed(p, evicting, calls[..n], key);
      if calls[n].key == key {
        var before := TicksOf(p.rate, calls[..n], key);
        assert TicksOf(p.rate, calls, key)[..|before|] == before;
        AnswerFromOwnCalls(p, evicting, calls, n);
        ReleaseInTokens(p, Standing(PaceOf(p), evicting, before, Tick(p.rate, calls[n].now)), calls[n].now);
      }
    }
  }

  lemma ReleaseInTokens(p: Params, balance: real, now: real)
    requires p.Valid()
    ensures var a := Decide(p, balance);
            && (a.Granted? <==> Grants(PaceOf(p), balance))
            && (a.Granted? ==> Tick(p.rate, now) + MaxReal(0.0, 1.0 - balance) == Tick(p.rate, now + a.delay))
  {
    WaitInTokens(p, balance);
    if Decide(p, balance).Granted? {
      Scale(p.rate, now + Decide(p, balance).delay, now);
    }
  }

  // ---------------------------------------------------------------- a burst, a pause, an idle period

  function Repeat(x: real, k: nat): (ticks: seq<real>)
    ensures |ticks| == k && forall i :: 0 <= i < k ==> ticks[i] == x
  {
    seq(k, i => x)
  }

  /** The balance of the evicting limiter at the last call, when it proceeds and how long after. */
  ghost predicate Spent(q: Pace, ticks: seq<real>, z: real, count: nat, first: real, last: real) {
    && ticks != [] && CellOf(q, true, ticks) == Some(Cell(z, ticks[|ticks| - 1]))
    && |Proceeds(q, true, ticks)| == count
    && forall i :: 0 <= i < count ==> first <= Proceeds(q, true, ticks)[i] <= last
  }

  /** As many calls at one tick as a full bucket grants. */
  lemma {:induction false} BurstSpends(q: Pace, x: real, k: nat)
    requires k > 0 && q.idle > 0.0 && q.burst - k as real >= -q.wait
    ensures Spent(q, Repeat(x, k), q.burst - k as real, k, x + MaxReal(0.0, 1.0 - q.burst),
                  x + MaxReal(0.0, k as real - q.burst))
  {
    var ticks := Repeat(x, k);
    assert ticks[..k - 1] == Repeat(x, k - 1);
    if k > 1 {
      BurstSpends(q, x, k - 1);
    }
    assert Standing(q, true, ticks[..k - 1], x) == q.burst - (k - 1) as real;
  }

  /** One more call, after a pause that earns just enough. */
  lemma PauseSpends(q: Pace, x: real, k: nat, pause: real)
    requires k > 0 && q.idle > 0.0 && q.wait > 0.0 && q.burst - k as real >= -q.wait
    requires pause == 1.0 - q.wait - (q.burst - k as real) && 0.0 <= pause <= q.idle && q.burst + q.wait >= 1.0
    ensures Spent(q, Repeat(x, k) + [x + pause], -q.wait, k + 1, x + MaxReal(0.0, 1.0 - q.burst), x + pause + q.wait)
  {
    var ticks := Repeat(x, k) + [x + pause];
    BurstSpends(q, x, k);
    assert ticks[..k] == Repeat(x, k);
    assert Standing(q, true, Repeat(x, k), x + pause) == 1.0 - q.wait;
  }

  /** One more call. */
  lemma OneMoreCall(q: Pace, evicting: bool, ticks: seq<real>, x: real)
    ensures var balance := Standing(q, evicting, ticks, x);
            && CellOf(q, evicting, ticks + [x]) == Some(Cell(Left(q, balance), x))
            && Proceeds(q, evicting, ticks + [x]) ==
               Proceeds(q, evicting, ticks) + if Grants(q, balance) then [x + MaxReal(0.0, 1.0 - balance)] else []
  {
    assert (ticks + [x])[..|ticks|] == ticks;
  }

  lemma IdleStandsFull(q: Pace, a: seq<real>, x: real)
    requires a != [] && x - a[|a| - 1] > q.idle
    ensures Standing(q, true, a, x) == q.burst
  {
    assert CellOf(q, true, a).value.at == a[|a| - 1];
  }

  /** After an idle period the limiter starts afresh. */
  lemma {:induction false} StartsAfresh(q: Pace, a: seq<real>, b: seq<real>)
    requires a != [] && b != [] && b[0] - a[|a| - 1] > q.idle
    ensures CellOf(q, true, a + b) == CellOf(q, true, b)
    ensures Proceeds(q, true, a + b) == Proceeds(q, true, a) + Proceeds(q, true, b)
  {
    var n := |b| - 1;
    var c, x := b[..n], b[n];
    assert b == c + [x] && a + b == (a + c) + [x];
    OneMoreCall(q, true, c, x);
    OneMoreCall(q, true, a + c, x);
    if n == 0 {
      assert a + c == a;
      IdleStandsFull(q, a, x);
    } else {
      StartsAfresh(q, a, c);
    }
    assert Standing(q, true, a + c, x) == Standing(q, true, c, x);
  }

  lemma {:induction false} CountAll(rel: seq<real>, lo: real, hi: real)
    requires forall i :: 0 <= i < |rel| ==> lo <= rel[i] <= hi
    ensures CountIn(rel, lo, hi) == |rel|
  {
    if rel != [] {
      CountAll(rel[..|rel| - 1], lo, hi);
    }
  }

  // ---------------------------------------------------------------- too many releases in one window

  /** More releases than the rate allows, all within one window, on the token clock. */
  ghost predicate Overruns(q: Pace, ticks: seq<real>, lo: real, hi: real) {
    && Rising(ticks) && lo <= hi
    && (forall i :: 0 <= i < |Proceeds(q, true, ticks)| ==> lo <= Proceeds(q, true, ticks)[i] <= hi)
    && |Proceeds(q, true, ticks)| as real > Head(q.burst) + (hi - lo)
  }

  lemma TwiceOverruns(q: Pace, a: seq<real>, b: seq<real>, z: real, y: real, count: nat,
                      f: real, f': real, l: real, l': real)
    requires Spent(q, a, z, count, f, l) && Spent(q, b, y, count, f', l') && Rising(a) && Rising(b)
    requires b[0] - a[|a| - 1] > q.idle >= 0.0 && f <= f' && l <= l' && f <= l'
    requires 2.0 * count as real > Head(q.burst) + (l' - f)
    ensures Overruns(q, a + b, f, l')
  {
    StartsAfresh(q, a, b);
    assert forall i, j :: 0 <= i < |a| && 0 <= j < |b| ==> a[i] <= a[|a| - 1] && b[0] <= b[j];
  }

  /** The number of probes a full bucket grants at once. */
  lemma BurstSize(q: Pace) returns (k: nat)
    requires q.burst + q.wait >= 1.0
    ensures k > 0 && -q.wait <= q.burst - k as real < 1.0 - q.wait
  {
    k := (q.burst + q.wait).Floor;
  }

  /** Two bursts alone are too many when the idle period is shorter than the pause. */
  lemma ShortIdleOverruns(q: Pace, k: nat) returns (ticks: seq<real>, lo: real, hi: real)
    requires q.idle > 0.0 && q.wait > 0.0 && q.burst > 0.0 && q.burst + q.wait >= 1.0
    requires k > 0 && -q.wait <= q.burst - k as real && q.idle < 1.0 - q.wait - (q.burst - k as real)
    ensures Overruns(q, ticks, lo, hi)
  {
    var z := q.burst - k as real;
    var y := (q.idle + (1.0 - q.wait - z)) / 2.0;
    BurstSpends(q, 0.0, k);
    BurstSpends(q, y, k);
    lo, hi := MaxReal(0.0, 1.0 - q.burst), y + MaxReal(0.0, -z);
    ticks := Repeat(0.0, k) + Repeat(y, k);
    TwiceOverruns(q, Repeat(0.0, k), Repeat(y, k), z, z, k, lo, y + lo, MaxReal(0.0, -z), hi);
  }

  /** Otherwise the bucket can be drawn down to its last promise before it is dropped. */
  lemma LongIdleOverruns(q: Pace, k: nat) returns (ticks: seq<real>, lo: real, hi: real)
    requires q.idle > 0.0 && q.wait > 0.0 && q.burst > 0.0 && q.burst + q.wait >= 1.0 && q.idle < q.burst + q.wait
    requires k > 0 && -q.wait <= q.burst - k as real < 1.0 - q.wait && q.idle >= 1.0 - q.wait - (q.burst - k as real)
    ensures Overruns(q, ticks, lo, hi)
  {
    var pause := 1.0 - q.wait - (q.burst - k as real);
    var gap := (q.idle + q.burst + q.wait) / 2.0;
    var y := pause + gap;
    PauseSpends(q, 0.0, k, pause);
    PauseSpends(q, y, k, pause);
    lo, hi := MaxReal(0.0, 1.0 - q.burst), y + pause + q.wait;
    var a, b := Repeat(0.0, k) + [0.0 + pause], Repeat(y, k) + [y + pause];
    ticks := a + b;
    TwiceOverruns(q, a, b, -q.wait, -q.wait, k + 1, lo, y + lo, pause + q.wait, hi);
  }

  lemma CrampedOverruns(q: Pace) returns (ticks: seq<real>, lo: real, hi: real)
    requires q.idle > 0.0 && q.wait > 0.0 && q.burst > 0.0 && !Dead(q) && !Roomy(q)
    ensures Overruns(q, ticks, lo, hi)
  {
    var k := BurstSize(q);
    if q.idle < 1.0 - q.wait - (q.burst - k as real) {
      ticks, lo, hi := ShortIdleOverruns(q, k);
    } else {
      ticks, lo, hi := LongIdleOverruns(q, k);
    }
  }

  // ---------------------------------------------------------------- in seconds

  /** Any two releases of any run are in order and as far apart as the rate demands, less one burst. */
  ghost predicate KeepsRate(p: Params)
    requires p.Valid()
  {
    forall calls, key, i, j :: ClockForward(calls) && 0 <= i <= j < |Releases(p, true, calls, key)| ==>
      Apart(p, Releases(p, true, calls, key), i, j)
  }

  predicate Apart(p: Params, rel: seq<real>, i: nat, j: nat)
    requires p.Valid() && i <= j < |rel|
  {
    rel[i] <= rel[j] && rel[j] - rel[i] >= ((j - i + 1) as real - Head(p.burst)) / p.rate
  }

  /** Any window of any run holds at most one burst plus what the rate earns over it. */
  ghost predicate KeepsWindows(p: Params)
    requires p.Valid()
  {
    forall calls, key, lo, hi :: ClockForward(calls) && lo <= hi ==>
      CountIn(Releases(p, true, calls, key), lo, hi) as real <= Head(p.burst) + Tick(p.rate, hi - lo)
  }

  lemma {:induction false} DeadReleasesNothing(q: Pace, ticks: seq<real>)
    requires Dead(q)
    ensures Proceeds(q, true, ticks) == []
  {
    if ticks != [] {
      var n := |ticks| - 1;
      DeadReleasesNothing(q, ticks[..n]);
      DeadStandsFull(q, true, ticks[..n], ticks[n]);
    }
  }

  lemma KeepsRateIfRoomyOrDead(p: Params)
    requires p.Valid() && (Roomy(PaceOf(p)) || Dead(PaceOf(p)))
    ensures KeepsRate(p)
  {
    forall calls, key, i, j | ClockForward(calls) && 0 <= i <= j < |Releases(p, true, calls, key)|
      ensures Apart(p, Releases(p, true, calls, key), i, j)
    {
      if Roomy(PaceOf(p)) {
        RateBoundHolds(p, true, calls, key, i, j);
      } else {
        ReleasesProceed(p, true, calls, key);
        DeadReleasesNothing(PaceOf(p), TicksOf(p.rate, calls, key));
      }
    }
  }

  lemma TickOfQuotient(r: real, gap: real, x: real, y: real)
    requires r > 0.0 && y - x >= gap / r
    ensures Tick(r, y) - Tick(r, x) >= gap
  {
    Unscale(r, gap);
    Scale(r, y, x);
    Scale(r, gap / r, y - x);
  }

  /** Spacing between releases bounds every window. */
  lemma RateKeepsWindows(p: Params)
    requires p.Valid() && KeepsRate(p)
    ensures KeepsWindows(p)
  {
    forall calls, key, lo: real, hi: real | ClockForward(calls) && lo <= hi
      ensures CountIn(Releases(p, true, calls, key), lo, hi) as real <= Head(p.burst) + Tick(p.rate, hi - lo)
    {
      var rel := Releases(p, true, calls, key);
      var marks := seq(|rel|, i requires 0 <= i < |rel| => Tick(p.rate, rel[i]));
      forall i, j | 0 <= i <= j < |rel|
        ensures marks[j] - marks[i] >= (j - i + 1) as real - Head(p.burst) && marks[i] <= marks[j]
      {
        assert Apart(p, rel, i, j);
        TickOfQuotient(p.rate, (j - i + 1) as real - Head(p.burst), rel[i], rel[j]);
        Scale(p.rate, rel[i], rel[j]);
      }
      WindowFits(p.rate, Head(p.burst), rel, marks, lo, hi);
    }
  }

  lemma InWindow(r: real, x: real, lo: real, hi: real)
    requires r > 0.0 && lo <= Tick(r, x) <= hi
    ensures lo / r <= x <= hi / r
  {
    Unscale(r, lo);
    Unscale(r, hi);
    if x < lo / r {
      Scale(r, x, lo / r);
    }
    if x > hi / r {
      Scale(r, hi / r, x);
    }
  }

  lemma OverrunInSeconds(p: Params, ticks: seq<real>, lo: real, hi: real)
    requires p.Valid() && Overruns(PaceOf(p), ticks, lo, hi)
    ensures !KeepsWindows(p)
  {
    var r, calls := p.rate, CallsFor(p.rate, ticks);
    CallsForward(r, ticks);
    TicksBack(r, ticks);
    ReleasesProceed(p, true, calls, "");
    var rel := Releases(p, true, calls, "");
    forall i | 0 <= i < |rel|
      ensures lo / r <= rel[i] <= hi / r
    {
      InWindow(r, rel[i], lo, hi);
    }
    CountAll(rel, lo / r, hi / r);
    Unrise(r, lo, hi);
    Unscale(r, lo);
    Unscale(r, hi);
    Scale(r, hi / r, lo / r);
    assert CountIn(rel, lo / r, hi / r) as real > Head(p.burst) + Tick(p.rate, hi / r - lo / r);
  }

  /**
   The limiter as it runs keeps its rate, between any two releases and over any window of any run,
   exactly when an idle bucket has time to refill completely before it is dropped, or when no probe
   can ever be granted.
   */
  lemma KeepsRateIff(p: Params)
    requires p.Valid()
    ensures var enough := p.rate * (p.maxIdle - p.maxWait) >= p.burst || p.burst + p.rate * p.maxWait < 1.0;
            (KeepsRate(p) <==> enough) && (KeepsWindows(p) <==> enough)
  {
    RoomyInSeconds(p);
    if Roomy(PaceOf(p)) || Dead(PaceOf(p)) {
      KeepsRateIfRoomyOrDead(p);
      RateKeepsWindows(p);
    } else {
      Scale(p.rate, 0.0, p.maxIdle);
      Scale(p.rate, 0.0, p.maxWait);
      var ticks, lo, hi := CrampedOverruns(PaceOf(p));
      OverrunInSeconds(p, ticks, lo, hi);
      if KeepsRate(p) {
        RateKeepsWindows(p);
      }
    }
  }

  /** The built-in settings keep the rate; one probe in 200 seconds, with everything else as built in, does not. */
  lemma SlowRateIsNotKept()
    ensures KeepsRate(Params(1.0, 5.0, 30.0, 600.0)) && KeepsWindows(Params(1.0, 5.0, 30.0, 600.0))
    ensures !KeepsRate(Params(0.005, 5.0, 30.0, 600.0)) && !KeepsWindows(Params(0.005, 5.0, 30.0, 600.0))
  {
    KeepsRateIff(Params(1.0, 5.0, 30.0, 600.0));
    KeepsRateIff(Params(0.005, 5.0, 30.0, 600.0));
  }
}
