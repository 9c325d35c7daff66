/**
 The per-destination token bucket of internal/ratelimit.

 A bucket's balance may go negative: a negative balance stands for probes already
 promised to earlier callers. Time is measured in seconds, and both time and token
 balances are exact reals.
 */
module RateLimit {
  import opened Common

  datatype Params = Params(rate: real, burst: real, maxWait: real, maxIdle: real) {
    predicate Valid() {
      rate > 0.0 && burst > 0.0 && maxWait > 0.0 && maxIdle > 0.0
    }
  }

  datatype Bucket = Bucket(tokens: real, last: real, lastAccess: real)

  /** What `reserve` returns: (delay, true) or (0, false). */
  datatype Answer = Granted(delay: real) | Refused

  datatype Call = Call(key: string, now: real)

  // ---------------------------------------------------------------- one bucket

  /** Refill for the time elapsed since the last refill, capped at the burst. */
  function Refilled(p: Params, b: Bucket, now: real): Bucket {
    if now - b.last > 0.0 then
      Bucket(MinReal(b.tokens + (now - b.last) * p.rate, p.burst), now, now)
    else
      b.(lastAccess := now)
  }

  /** The bucket a call at `now` works on: the stored one, refilled, or a fresh full one. */
  function Opened(p: Params, stored: Option<Bucket>, now: real): Bucket {
    match stored
    case Some(b) => Refilled(p, b, now)
    case None => Bucket(p.burst, now, now)
  }

  function Decide(p: Params, tokens: real): Answer
    requires p.Valid()
  {
    if tokens >= 1.0 then Granted(0.0)
    else if (1.0 - tokens) / p.rate > p.maxWait then Refused
    else Granted((1.0 - tokens) / p.rate)
  }

  function Charged(b: Bucket, a: Answer): Bucket {
    if a.Granted? then b.(tokens := b.tokens - 1.0) else b
  }

  predicate Idle(p: Params, b: Bucket, now: real) {
    now - b.lastAccess > p.maxIdle
  }

  // ---------------------------------------------------------------- the limiter

  type Buckets = map<string, Bucket>

  function Lookup(m: Buckets, key: string): Option<Bucket> {
    if key in m then Some(m[key]) else None
  }

  function Evicted(p: Params, m: Buckets, now: real): Buckets {
    map k | k in m && !Idle(p, m[k], now) :: m[k]
  }

  /** One call to `reserve`; `evicting` is false for the limiter that keeps every bucket. */
  function Reserved(p: Params, evicting: bool, m: Buckets, c: Call): (Buckets, Answer)
    requires p.Valid()
  {
    var kept := if evicting then Evicted(p, m, c.now) else m;
    var b := Opened(p, Lookup(kept, c.key), c.now);
    var a := Decide(p, b.tokens);
    (kept[c.key := Charged(b, a)], a)
  }

  /** The limiter's buckets after a sequence of calls, starting from an empty limiter. */
  function BucketsAfter(p: Params, evicting: bool, calls: seq<Call>): Buckets
    requires p.Valid()
  {
    if calls == [] then map[]
    else Reserved(p, evicting, BucketsAfter(p, evicting, calls[..|calls| - 1]), calls[|calls| - 1]).0
  }

  /** The answer to call number `i` of a run. */
  function AnswerAt(p: Params, evicting: bool, calls: seq<Call>, i: nat): Answer
    requires p.Valid() && i < |calls|
  {
    Reserved(p, evicting, BucketsAfter(p, evicting, calls[..i]), calls[i]).1
  }

  ghost predicate ClockForward(calls: seq<Call>) {
    forall i, j :: 0 <= i <= j < |calls| ==> calls[i].now <= calls[j].now
  }

  /** How a Wait ends: after some sleep, refused outright, or with the caller gone. */
  datatype Waited = Proceeds(slept: real) | WaitTooLong | CallerGone

  class Limiter {
    var rate: real
    var burst: real
    const maxWait: real
    const maxIdle: real
    var buckets: Buckets

    function Settings(): Params
      reads this
    {
      Params(rate, burst, maxWait, maxIdle)
    }

    constructor (rate: real, burst: real, maxWait: real, maxIdle: real)
      ensures Settings().Valid() && buckets == map[]
      ensures if rate > 0.0 then this.rate == rate else this.rate == 1.0
      ensures if burst > 0.0 then this.burst == burst else this.burst == 5.0
      ensures if maxWait > 0.0 then this.maxWait == maxWait else this.maxWait == 30.0
      ensures if maxIdle > 0.0 then this.maxIdle == maxIdle else this.maxIdle == 600.0
    {
      this.rate := if rate <= 0.0 then 1.0 else rate;
      this.burst := if burst <= 0.0 then 5.0 else burst;
      this.maxWait := if maxWait <= 0.0 then 30.0 else maxWait;
      this.maxIdle := if maxIdle <= 0.0 then 600.0 else maxIdle;
      this.buckets := map[];
    }

    /** The internal eviction pass: one look at every bucket, in any order. */
    method EvictIdle(now: real)
      modifies this`buckets
      ensures buckets == Evicted(Settings(), old(buckets), now)
    {
      var todo := buckets.Keys;
      while todo != {}
        invariant todo <= old(buckets).Keys
        invariant buckets.Keys <= old(buckets).Keys
        invariant forall k :: k in buckets ==> buckets[k] == old(buckets)[k]
        invariant forall k :: k in todo ==> k in buckets
        invariant forall k :: k in old(buckets) && k !in todo ==>
                    (k in buckets <==> !Idle(Settings(), old(buckets)[k], now))
      {
        var k :| k in todo;
        if now - buckets[k].lastAccess > maxIdle {
          buckets := buckets - {k};
        }
        todo := todo - {k};
      }
    }

    /** The refill inside reserve: elapsed time earns tokens, up to the burst. */
    method Refill(stored: Bucket, now: real) returns (b: Bucket)
      ensures b == Refilled(Settings(), stored, now)
    {
      b := stored;
      if now - b.last > 0.0 {
        var tokens := b.tokens + (now - b.last) * rate;
        if tokens > burst { tokens := burst; }
        b := Bucket(tokens, now, b.lastAccess);
      }
      b := b.(lastAccess := now);
    }

    method Reserve(key: string, now: real) returns (delay: real, ok: bool)
      requires Settings().Valid()
      modifies this`buckets
      ensures buckets == Reserved(Settings(), true, old(buckets), Call(key, now)).0
      ensures (if ok then Granted(delay) else Refused) == Reserved(Settings(), true, old(buckets), Call(key, now)).1
      ensures !ok ==> delay == 0.0
    {
      EvictIdle(now);
      var b := if key in buckets then buckets[key] else Bucket(burst, now, now);
      b := Refill(b, now);
      assert b == Opened(Settings(), Lookup(buckets, key), now);
      if b.tokens >= 1.0 {
        buckets := buckets[key := b.(tokens := b.tokens - 1.0)];
        return 0.0, true;
      }
      delay := (1.0 - b.tokens) / rate;
      if delay > maxWait {
        buckets := buckets[key := b];
        return 0.0, false;
      }
      buckets := buckets[key := b.(tokens := b.tokens - 1.0)];
      return delay, true;
    }

    /**
     Wait for a turn; `interrupted` says whether the caller's context ends while it sleeps. The
     token is spent when the turn is promised, so a caller that leaves does not give it back.
     */
    method Wait(key: string, now: real, interrupted: bool) returns (out: Waited)
      requires Settings().Valid()
      modifies this`buckets
      ensures buckets == Reserved(Settings(), true, old(buckets), Call(key, now)).0
      ensures match Reserved(Settings(), true, old(buckets), Call(key, now)).1
              case Refused => out == WaitTooLong
              case Granted(delay) =>
                out == if interrupted && delay > 0.0 then CallerGone else Proceeds(if delay > 0.0 then delay else 0.0)
    {
      var delay, ok := Reserve(key, now);
      if !ok {
        return WaitTooLong;
      }
      if delay <= 0.0 {
        return Proceeds(0.0);
      }
      if interrupted {
        return CallerGone;
      }
      return Proceeds(delay);
    }

    /** Balances survive a change of rate or burst; non-positive values are ignored. */
    method SetRate(rate: real, burst: real)
      modifies this`rate, this`burst
      ensures this.rate == (if rate > 0.0 then rate else old(this.rate))
      ensures this.burst == (if burst > 0.0 then burst else old(this.burst))
      ensures old(Settings()).Valid() ==> Settings().Valid()
    {
      if rate > 0.0 { this.rate := rate; }
      if burst > 0.0 { this.burst := burst; }
    }
  }
}
