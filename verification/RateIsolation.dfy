/**
 What one destination sees of the limiter.

 Isolation: a destination's answers depend only on its own calls. Scaling: counting time
 in the tokens it earns (`rate * now`) turns the limiter into one that earns a token a
 tick, so everything proved about that pure token clock holds of the limiter.
 */
module RateIsolation {
  import opened Common
  import opened RateLimit

  // ---------------------------------------------------------------- the token clock

  /** The limiter's settings in tokens: burst, longest wait and longest idle time. */
  datatype Pace = Pace(burst: real, wait: real, idle: real)

  /** A bucket on the token clock: its balance and when it was last used. */
  datatype Cell = Cell(tokens: real, at: real)

  /** The balance a call at tick `x` finds. */
  function Found(q: Pace, evicting: bool, stored: Option<Cell>, x: real): real {
    match stored
    case None => q.burst
    case Some(c) =>
      if evicting && x - c.at > q.idle then q.burst
      else if x > c.at then MinReal(q.burst, c.tokens + (x - c.at))
      else c.tokens
  }

  predicate Grants(q: Pace, balance: real) {
    1.0 - balance <= q.wait
  }

  function Left(q: Pace, balance: real): real {
    if Grants(q, balance) then balance - 1.0 else balance
  }

  /** One destination's cell after its own calls at the given ticks. */
  function CellOf(q: Pace, evicting: bool, ticks: seq<real>): Option<Cell> {
    if ticks == [] then None
    else
      var n := |ticks| - 1;
      Some(Cell(Left(q, Found(q, evicting, CellOf(q, evicting, ticks[..n]), ticks[n])), ticks[n]))
  }

  function Standing(q: Pace, evicting: bool, ticks: seq<real>, x: real): real {
    Found(q, evicting, CellOf(q, evicting, ticks), x)
  }

  ghost predicate Rising(ticks: seq<real>) {
    forall i, j :: 0 <= i <= j < |ticks| ==> ticks[i] <= ticks[j]
  }

  ghost predicate UpTo(ticks: seq<real>, x: real) {
    forall i :: 0 <= i < |ticks| ==> ticks[i] <= x
  }

  // ---------------------------------------------------------------- seconds and tokens

  /** A point in time (or a span of it) on the token clock. */
  function Tick(r: real, t: real): real {
    r * t
  }

  lemma Scale(r: real, x: real, y: real)
    ensures Tick(r, x - y) == Tick(r, x) - Tick(r, y)
    ensures r > 0.0 && x <= y ==> Tick(r, x) <= Tick(r, y)
    ensures r > 0.0 && x < y ==> Tick(r, x) < Tick(r, y)
  {
  }

  lemma Unscale(r: real, d: real)
    requires r > 0.0
    ensures Tick(r, d / r) == d
  {
  }

  function PaceOf(p: Params): Pace {
    Pace(p.burst, Tick(p.rate, p.maxWait), Tick(p.rate, p.maxIdle))
  }

  /** The two readings of a wait: in seconds and in tokens. */
  lemma WaitInTokens(p: Params, a: real)
    requires p.Valid()
    ensures Decide(p, a).Granted? <==> Grants(PaceOf(p), a)
    ensures Decide(p, a).Granted? ==> Decide(p, a).delay <= p.maxWait
    ensures Decide(p, a).Granted? ==> Tick(p.rate, Decide(p, a).delay) == MaxReal(0.0, 1.0 - a)
  {
    var d := (1.0 - a) / p.rate;
    Unscale(p.rate, 1.0 - a);
    if d <= p.maxWait {
      Scale(p.rate, d, p.maxWait);
    } else {
      Scale(p.rate, p.maxWait, d);
    }
    if a >= 1.0 {
      Scale(p.rate, 0.0, p.maxWait);
    }
  }

  function Kept(p: Params, evicting: bool, stored: Option<Bucket>, now: real): Option<Bucket> {
    if evicting && stored.Some? && Idle(p, stored.value, now) then None else stored
  }

  /** A cell holds what the limiter's bucket holds, or the limiter has dropped the bucket as idle. */
  ghost predicate Mirrors(p: Params, evicting: bool, held: Option<Bucket>, cell: Option<Cell>, now: real) {
    match held
    case Some(b) =>
      b.last == b.lastAccess <= now && cell == Some(Cell(b.tokens, Tick(p.rate, b.last)))
    case None =>
      cell.Some? ==> evicting && Tick(p.rate, now) - cell.value.at > Tick(p.rate, p.maxIdle)
  }

  lemma IdleInTokens(p: Params, b: Bucket, now: real)
    requires p.Valid()
    ensures Idle(p, b, now) <==> Tick(p.rate, now) - Tick(p.rate, b.lastAccess) > Tick(p.rate, p.maxIdle)
  {
    var e := now - b.lastAccess;
    Scale(p.rate, now, b.lastAccess);
    Scale(p.rate, p.maxIdle, e);
    Scale(p.rate, e, p.maxIdle);
  }

  lemma RefillInTokens(p: Params, b: Bucket, now: real)
    requires p.Valid() && b.last == b.lastAccess <= now
    ensures Refilled(p, b, now).last == Refilled(p, b, now).lastAccess == now
    ensures Refilled(p, b, now).tokens ==
            Found(PaceOf(p), false, Some(Cell(b.tokens, Tick(p.rate, b.last))), Tick(p.rate, now))
  {
    Scale(p.rate, now, b.last);
    Scale(p.rate, b.last, now);
  }

  lemma OpenInTokens(p: Params, evicting: bool, held: Option<Bucket>, cell: Option<Cell>, now: real)
    requires p.Valid() && Mirrors(p, evicting, held, cell, now)
    ensures var o := Opened(p, Kept(p, evicting, held, now), now);
            o == Bucket(Found(PaceOf(p), evicting, cell, Tick(p.rate, now)), now, now)
  {
    if held.Some? {
      IdleInTokens(p, held.value, now);
      RefillInTokens(p, held.value, now);
    }
  }

  /** A call on the limiter and on the mirroring cell. */
  lemma CallInTokens(p: Params, evicting: bool, m: Buckets, c: Call, cell: Option<Cell>)
    requires p.Valid() && Mirrors(p, evicting, Lookup(m, c.key), cell, c.now)
    ensures var (m', a) := Reserved(p, evicting, m, c);
            var found := Found(PaceOf(p), evicting, cell, Tick(p.rate, c.now));
            && a == Decide(p, found)
            && Mirrors(p, evicting, Lookup(m', c.key), Some(Cell(Left(PaceOf(p), found), Tick(p.rate, c.now))), c.now)
  {
    OpenInTokens(p, evicting, Lookup(m, c.key), cell, c.now);
    WaitInTokens(p, Found(PaceOf(p), evicting, cell, Tick(p.rate, c.now)));
    var kept := if evicting then Evicted(p, m, c.now) else m;
    assert Lookup(kept, c.key) == Kept(p, evicting, Lookup(m, c.key), c.now);
  }

  lemma OtherCallInTokens(p: Params, evicting: bool, m: Buckets, c: Call, key: string, cell: Option<Cell>)
    requires p.Valid() && key != c.key && Mirrors(p, evicting, Lookup(m, key), cell, c.now)
    ensures Mirrors(p, evicting, Lookup(Reserved(p, evicting, m, c).0, key), cell, c.now)
  {
    if key in m {
      IdleInTokens(p, m[key], c.now);
    }
  }

  lemma LaterMirrors(p: Params, evicting: bool, held: Option<Bucket>, cell: Option<Cell>, now: real, later: real)
    requires p.Valid() && now <= later && Mirrors(p, evicting, held, cell, now)
    ensures Mirrors(p, evicting, held, cell, later)
  {
    Scale(p.rate, now, later);
  }

  // ---------------------------------------------------------------- isolation

  /** The calls for one destination, as ticks, in order. */
  function TicksOf(r: real, calls: seq<Call>, key: string): seq<real> {
    if calls == [] then []
    else
      var rest := TicksOf(r, calls[..|calls| - 1], key);
      var c := calls[|calls| - 1];
      if c.key == key then rest + [Tick(r, c.now)] else rest
  }

  lemma {:induction false} TicksRise(p: Params, calls: seq<Call>, key: string, now: real)
    requires p.Valid() && ClockForward(calls)
    requires forall i :: 0 <= i < |calls| ==> calls[i].now <= now
    ensures Rising(TicksOf(p.rate, calls, key)) && UpTo(TicksOf(p.rate, calls, key), Tick(p.rate, now))
  {
    if calls != [] {
      TicksRise(p, calls[..|calls| - 1], key, calls[|calls| - 1].now);
      Scale(p.rate, calls[|calls| - 1].now, now);
    }
  }

  lemma {:induction false} AlwaysMirrors(p: Params, evicting: bool, calls: seq<Call>, key: string, now: real)
    requires p.Valid() && ClockForward(calls)
    requires forall i :: 0 <= i < |calls| ==> calls[i].now <= now
    ensures Mirrors(p, evicting, Lookup(BucketsAfter(p, evicting, calls), key),
                    CellOf(PaceOf(p), evicting, TicksOf(p.rate, calls, key)), now)
  {
    if calls != [] {
      var before, c := calls[..|calls| - 1], calls[|calls| - 1];
      var ticks := TicksOf(p.rate, before, key);
      var cell := CellOf(PaceOf(p), evicting, ticks);
      AlwaysMirrors(p, evicting, before, key, c.now);
      if c.key == key {
        CallInTokens(p, evicting, BucketsAfter(p, evicting, before), c, cell);
        assert (ticks + [Tick(p.rate, c.now)])[..|ticks|] == ticks;
      } else {
        OtherCallInTokens(p, evicting, BucketsAfter(p, evicting, before), c, key, cell);
      }
      LaterMirrors(p, evicting, Lookup(BucketsAfter(p, evicting, calls), key),
                   CellOf(PaceOf(p), evicting, TicksOf(p.rate, calls, key)), c.now, now);
    }
  }

  /** What call `i` finds, computed from the earlier calls for its own destination alone. */
  function Seen(p: Params, evicting: bool, calls: seq<Call>, i: nat): real
    requires i < |calls|
  {
    Standing(PaceOf(p), evicting, TicksOf(p.rate, calls[..i], calls[i].key), Tick(p.rate, calls[i].now))
  }

  /**
   Isolation: whatever other destinations do, and whatever is evicted on their account, the
   answer to a call is decided by the calls made earlier for the same destination.
   */
  lemma AnswerFromOwnCalls(p: Params, evicting: bool, calls: seq<Call>, i: nat)
    requires p.Valid() && ClockForward(calls) && i < |calls|
    ensures AnswerAt(p, evicting, calls, i) == Decide(p, Seen(p, evicting, calls, i))
  {
    var ticks := TicksOf(p.rate, calls[..i], calls[i].key);
    AlwaysMirrors(p, evicting, calls[..i], calls[i].key, calls[i].now);
    CallInTokens(p, evicting, BucketsAfter(p, evicting, calls[..i]), calls[i], CellOf(PaceOf(p), evicting, ticks));
  }
}
