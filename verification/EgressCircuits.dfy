/**
 Per-destination feedback over whole runs: circuit breakers count exactly, keep their pair
 out of service for the whole cool-down, and stay local to their destination; health scores
 rank identities by the quality of their answers.
 */
module EgressCircuits {
  import opened Common
  import opened Egress
  import opened EgressRouting
  import opened EgressRuns

  predicate About(s: Signal, id: string, dest: string) {
    s.egressId == id && s.destination == dest
  }

  // ---------------------------------------------------------------- breakers under feedback

  /** Failures for the pair since its last clean answer, continuing from `start`. */
  function Failures(start: nat, id: string, dest: string, signals: seq<Signal>): nat {
    if signals == [] then start
    else
      var rest, s := Failures(start, id, dest, signals[..|signals| - 1]), signals[|signals| - 1];
      if !About(s, id, dest) then rest
      else if Failure(s.kind) then rest + 1
      else if Clean(s.kind) then 0
      else rest
  }

  /** No clean answer for the pair from signal `n` on. */
  ghost predicate NoCleanFrom(signals: seq<Signal>, n: int, id: string, dest: string) {
    forall k :: 0 <= n <= k < |signals| && About(signals[k], id, dest) ==> !Clean(signals[k].kind)
  }

  ghost predicate NoClean(signals: seq<Signal>, id: string, dest: string) {
    NoCleanFrom(signals, 0, id, dest)
  }

  /** Closed exactly while fewer failures than the threshold have been counted. */
  predicate Honest(c: Circuit, threshold: int) {
    c.state == Closed <==> c.failures < threshold
  }

  /** Open until at least `until`. */
  predicate Tripped(c: Circuit, until: int) {
    c.state == Open && c.openUntil >= until
  }

  function Rung(cfg: Config, c: Circuit, k: Kind, now: int): Circuit {
    if Clean(k) then Succeeded(c)
    else if Failure(k) then Failed(c, now, cfg.circuitThreshold, cfg.circuitCooldown)
    else c
  }

  /** The pair's breaker under a list of signals. */
  function RungAll(cfg: Config, c: Circuit, id: string, dest: string, signals: seq<Signal>, now: int): Circuit {
    if signals == [] then c
    else
      var rest, s := RungAll(cfg, c, id, dest, signals[..|signals| - 1], now), signals[|signals| - 1];
      if About(s, id, dest) then Rung(cfg, rest, s.kind, now) else rest
  }

  lemma SignalCircuit(cfg: Config, r: Record, s: Signal, dest: string, now: int)
    ensures CircuitOf(Signalled(cfg, r, s, now), dest) ==
              if s.destination == dest then Rung(cfg, CircuitOf(r, dest), s.kind, now) else CircuitOf(r, dest)
  {
  }

  lemma {:induction false} EmitCircuit(cfg: Config, r: Record, id: string, dest: string, signals: seq<Signal>, now: int)
    ensures CircuitOf(SignalledAll(cfg, r, id, signals, now), dest) ==
              RungAll(cfg, CircuitOf(r, dest), id, dest, signals, now)
  {
    if signals != [] {
      var n := |signals| - 1;
      EmitCircuit(cfg, r, id, dest, signals[..n], now);
      SignalCircuit(cfg, SignalledAll(cfg, r, id, signals[..n], now), signals[n], dest, now);
    }
  }

  lemma {:induction false} RungCounts(cfg: Config, c: Circuit, id: string, dest: string, signals: seq<Signal>, now: int)
    requires cfg.Valid()
    ensures var c' := RungAll(cfg, c, id, dest, signals, now);
            && c'.failures == Failures(c.failures, id, dest, signals)
            && (Honest(c, cfg.circuitThreshold) ==> Honest(c', cfg.circuitThreshold))
  {
    if signals != [] {
      RungCounts(cfg, c, id, dest, signals[..|signals| - 1], now);
    }
  }

  lemma {:induction false} RungTripped(cfg: Config, c: Circuit, id: string, dest: string, signals: seq<Signal>,
                                           now: int, until: int)
    requires Tripped(c, until) && NoClean(signals, id, dest) && until <= now + cfg.circuitCooldown
    ensures Tripped(RungAll(cfg, c, id, dest, signals, now), until)
  {
    if signals != [] {
      RungTripped(cfg, c, id, dest, signals[..|signals| - 1], now, until);
    }
  }

  lemma {:induction false} RungNot(cfg: Config, c: Circuit, id: string, dest: string, signals: seq<Signal>, now: int)
    requires forall k :: 0 <= k < |signals| ==> !About(signals[k], id, dest)
    ensures RungAll(cfg, c, id, dest, signals, now) == c
  {
    if signals != [] {
      RungNot(cfg, c, id, dest, signals[..|signals| - 1], now);
    }
  }

  /** How an event can move the pair's breaker. */
  ghost predicate Moves(cfg: Config, c: Circuit, c': Circuit, id: string, dest: string, e: Event) {
    match e
    case Emit(signals, now) => c' == RungAll(cfg, c, id, dest, signals, now)
    case Binding(d, now) => c' == c || (d == dest && c' == Asked(c, now))
    case _ => c' == c
  }

  lemma BreakerStep(w: World, e: Event, id: string, dest: string)
    requires w.Valid() && id in w.recs
    ensures Moves(w.cfg, CircuitOf(w.recs[id], dest), CircuitOf(Step(w, e).recs[id], dest), id, dest, e)
  {
    StepAt(w, e, id);
    if e.Emit? {
      EmitCircuit(w.cfg, w.recs[id], id, dest, e.signals, e.now);
    } else if e.Binding? {
      ResetsClosedForm(w.cfg, Recovered(w.recs[id], e.now), e.now);
    } else if e.Restore? {
      RestoreSparesBreakers(w.recs[id], id, e.states);
    }
  }

  // ---------------------------------------------------------------- when feedback opens a breaker

  /** Signal `k` decides about the pair: a clean answer or a failure. */
  predicate Decides(s: Signal, id: string, dest: string) {
    About(s, id, dest) && (Clean(s.kind) || Failure(s.kind))
  }

  /** Signal `k` is a failure that brings the count to the threshold, or the first answer to a half-open breaker. */
  ghost predicate TripsAt(threshold: int, c: Circuit, id: string, dest: string, signals: seq<Signal>, k: nat) {
    && k < |signals| && About(signals[k], id, dest) && Failure(signals[k].kind)
    && (|| Failures(c.failures, id, dest, signals[..k]) + 1 >= threshold
        || (c.state == HalfOpen && forall j :: 0 <= j < k ==> !Decides(signals[j], id, dest)))
  }

  ghost predicate Trips(threshold: int, c: Circuit, id: string, dest: string, signals: seq<Signal>) {
    exists k: nat :: TripsAt(threshold, c, id, dest, signals, k) && NoCleanFrom(signals, k + 1, id, dest)
  }

  /** A half-open breaker stays so until the first answer about its pair. */
  lemma {:induction false} RungHalfOpen(cfg: Config, c: Circuit, id: string, dest: string, signals: seq<Signal>,
                                            now: int)
    ensures RungAll(cfg, c, id, dest, signals, now).state == HalfOpen <==>
            c.state == HalfOpen && forall j :: 0 <= j < |signals| ==> !Decides(signals[j], id, dest)
  {
    if signals != [] {
      var n := |signals| - 1;
      RungHalfOpen(cfg, c, id, dest, signals[..n], now);
      assert forall j :: 0 <= j < n ==> signals[..n][j] == signals[j];
    }
  }

  lemma TripsAtPrefix(threshold: int, c: Circuit, id: string, dest: string, signals: seq<Signal>, n: nat, k: nat)
    requires k < n <= |signals|
    ensures TripsAt(threshold, c, id, dest, signals[..n], k) <==> TripsAt(threshold, c, id, dest, signals, k)
  {
    assert signals[..n][..k] == signals[..k];
  }

  lemma TripsLast(threshold: int, c: Circuit, id: string, dest: string, signals: seq<Signal>)
    requires signals != []
    ensures var n := |signals| - 1;
            Trips(threshold, c, id, dest, signals) <==>
            || TripsAt(threshold, c, id, dest, signals, n)
            || (Trips(threshold, c, id, dest, signals[..n]) && NoCleanFrom(signals, n, id, dest))
  {
    var n := |signals| - 1;
    var front := signals[..n];
    if Trips(threshold, c, id, dest, front) && NoCleanFrom(signals, n, id, dest) {
      var k: nat :| TripsAt(threshold, c, id, dest, front, k) && NoCleanFrom(front, k + 1, id, dest);
      TripsAtPrefix(threshold, c, id, dest, signals, n, k);
      CleanFreePrefix(signals, k + 1, id, dest);
    }
    if Trips(threshold, c, id, dest, signals) && !TripsAt(threshold, c, id, dest, signals, n) {
      var k: nat :| TripsAt(threshold, c, id, dest, signals, k) && NoCleanFrom(signals, k + 1, id, dest);
      TripsAtPrefix(threshold, c, id, dest, signals, n, k);
      CleanFreePrefix(signals, k + 1, id, dest);
    }
  }

  lemma CleanFreePrefix(signals: seq<Signal>, k: nat, id: string, dest: string)
    requires k < |signals|
    ensures var n := |signals| - 1;
            NoCleanFrom(signals, k, id, dest) <==>
            NoCleanFrom(signals[..n], k, id, dest) && NoCleanFrom(signals, n, id, dest)
  {
    assert forall j :: 0 <= j < |signals| - 1 ==> signals[..|signals| - 1][j] == signals[j];
  }

  /**
   Feedback leaves a breaker open for a full cool-down exactly if one of its failures reaches the
   threshold or is the first answer to a half-open breaker, with no clean answer after it, or if
   the breaker was already open that long and no clean answer came.
   */
  lemma {:induction false} EmitTripsIff(cfg: Config, c: Circuit, id: string, dest: string, signals: seq<Signal>,
                                            now: int)
    requires cfg.Valid()
    ensures var until := now + cfg.circuitCooldown;
            Tripped(RungAll(cfg, c, id, dest, signals, now), until) <==>
            Trips(cfg.circuitThreshold, c, id, dest, signals) || (Tripped(c, until) && NoClean(signals, id, dest))
  {
    if signals != [] {
      var n := |signals| - 1;
      var front := signals[..n];
      EmitTripsIff(cfg, c, id, dest, front, now);
      RungCounts(cfg, c, id, dest, front, now);
      RungHalfOpen(cfg, c, id, dest, front, now);
      TripsLast(cfg.circuitThreshold, c, id, dest, signals);
      CleanFreePrefix(signals, 0, id, dest);
    }
  }

  // ---------------------------------------------------------------- breakers over runs

  function FailuresSince(start: nat, id: string, dest: string, es: seq<Event>): nat {
    if es == [] then start
    else
      var rest := FailuresSince(start, id, dest, es[..|es| - 1]);
      if es[|es| - 1].Emit? then Failures(rest, id, dest, es[|es| - 1].signals) else rest
  }

  /**
   Exact counting over every run: the breaker's count is the number of failure signals for
   the pair since its last clean answer, and the breaker is closed exactly while that number
   is below the threshold.
   */
  lemma {:induction false} BreakerCountsExactly(w: World, es: seq<Event>, id: string, dest: string)
    requires w.Valid() && id in w.recs
    ensures var c, c' := CircuitOf(w.recs[id], dest), CircuitOf(After(w, es).recs[id], dest);
            && c'.failures == FailuresSince(c.failures, id, dest, es)
            && (FixedThresholds(es) && Honest(c, w.cfg.circuitThreshold) ==> Honest(c', w.cfg.circuitThreshold))
  {
    if es != [] {
      var n := |es| - 1;
      var v := After(w, es[..n]);
      BreakerCountsExactly(w, es[..n], id, dest);
      ConfigKept(w, es[..n]);
      BreakerStep(v, es[n], id, dest);
      if es[n].Emit? {
        RungCounts(v.cfg, CircuitOf(v.recs[id], dest), id, dest, es[n].signals, es[n].now);
      }
    }
  }

  /** Between events `i` and `j` nothing asks too late, nothing answers cleanly, and all failures are recent. */
  ghost predicate Undisturbed(es: seq<Event>, i: nat, j: nat, id: string, dest: string, until: int, cooldown: int) {
    && i <= j <= |es|
    && (forall k :: i <= k < j && es[k].Emit? ==> NoClean(es[k].signals, id, dest) && until - cooldown <= es[k].now)
    && (forall k :: i <= k < j && es[k].Binding? ==> es[k].now <= until)
  }

  lemma TrippedStep(w: World, e: Event, id: string, dest: string, until: int)
    requires w.Valid() && id in w.recs && Tripped(CircuitOf(w.recs[id], dest), until)
    requires e.Emit? ==> NoClean(e.signals, id, dest) && until - w.cfg.circuitCooldown <= e.now
    requires e.Binding? ==> e.now <= until
    ensures Tripped(CircuitOf(Step(w, e).recs[id], dest), until)
  {
    BreakerStep(w, e, id, dest);
    if e.Emit? {
      RungTripped(w.cfg, CircuitOf(w.recs[id], dest), id, dest, e.signals, e.now, until);
    }
  }

  lemma TrippedNext(w: World, es: seq<Event>, i: nat, id: string, dest: string, until: int)
    requires w.Valid() && id in w.recs && i < |es| && Tripped(CircuitOf(After(w, es[..i]).recs[id], dest), until)
    requires es[i].Emit? ==> NoClean(es[i].signals, id, dest) && until - w.cfg.circuitCooldown <= es[i].now
    requires es[i].Binding? ==> es[i].now <= until
    ensures Tripped(CircuitOf(After(w, es[..i + 1]).recs[id], dest), until)
  {
    ConfigKept(w, es[..i]);
    TrippedStep(After(w, es[..i]), es[i], id, dest, until);
    AfterNext(w, es, i);
  }

  lemma {:induction false} StaysTripped(w: World, es: seq<Event>, id: string, dest: string, i: nat, j: nat, until: int)
    requires w.Valid() && id in w.recs && Undisturbed(es, i, j, id, dest, until, w.cfg.circuitCooldown)
    requires Tripped(CircuitOf(After(w, es[..i]).recs[id], dest), until)
    ensures Tripped(CircuitOf(After(w, es[..j]).recs[id], dest), until)
    decreases j
  {
    if i < j {
      StaysTripped(w, es, id, dest, i, j - 1, until);
      TrippedNext(w, es, j - 1, id, dest, until);
    }
  }

  lemma TrippedIsNotHanded(w: World, id: string, dest: string, now: int, until: int)
    requires w.Valid() && id in w.recs && Tripped(CircuitOf(w.recs[id], dest), until) && now <= until
    ensures Handed(w, Binding(dest, now)) != Some(id)
  {
    StepAt(w, Binding(dest, now), id);
    ResetsClosedForm(w.cfg, Recovered(w.recs[id], now), now);
  }

  /** Event `i` is feedback that opens the pair's breaker for a full cool-down. */
  ghost predicate Opens(w: World, es: seq<Event>, i: nat, id: string, dest: string)
    requires w.Valid() && id in w.recs && i < |es|
  {
    var v := After(w, es[..i]);
    es[i].Emit? && Trips(v.cfg.circuitThreshold, CircuitOf(v.recs[id], dest), id, dest, es[i].signals)
  }

  lemma OpenedIsTripped(w: World, es: seq<Event>, i: nat, id: string, dest: string)
    requires w.Valid() && id in w.recs && i < |es| && Opens(w, es, i, id, dest)
    ensures Tripped(CircuitOf(After(w, es[..i + 1]).recs[id], dest), es[i].now + w.cfg.circuitCooldown)
  {
    var v := After(w, es[..i]);
    AfterNext(w, es, i);
    ConfigKept(w, es[..i]);
    BreakerStep(v, es[i], id, dest);
    EmitTripsIff(v.cfg, CircuitOf(v.recs[id], dest), id, dest, es[i].signals, es[i].now);
  }

  /**
   Circuit safety: once feedback opens the pair's breaker at time `t`, no Binding uses the pair at
   any time up to `t` plus the cool-down, whatever else happens, unless a clean answer for it
   arrives first.
   */
  lemma NoProbeWhileOpen(w: World, es: seq<Event>, id: string, dest: string, i: nat, j: nat)
    requires w.Valid() && id in w.recs && i < j < |es| && ClockForward(es) && Opens(w, es, i, id, dest)
    requires forall k :: i < k < j && es[k].Emit? ==> NoClean(es[k].signals, id, dest)
    requires es[j].Binding? && es[j].dest == dest && es[j].now <= es[i].now + w.cfg.circuitCooldown
    ensures HandedAt(w, es, j) != Some(id)
  {
    var until := es[i].now + w.cfg.circuitCooldown;
    OpenedIsTripped(w, es, i, id, dest);
    StaysTripped(w, es, id, dest, i + 1, j, until);
    TrippedIsNotHanded(After(w, es[..j]), id, dest, es[j].now, until);
  }

  /** No feedback about the pair anywhere in the run. */
  ghost predicate Silent(es: seq<Event>, id: string, dest: string) {
    forall i :: 0 <= i < |es| && es[i].Emit? ==>
      forall k :: 0 <= k < |es[i].signals| ==> !About(es[i].signals[k], id, dest)
  }

  /**
   The cool-down is the only thing a breaker enforces: without feedback about the pair, it
   excludes the pair at `now` exactly if it was open with a later deadline to begin with. Every
   caller after the deadline is let through, not a single half-open trial.
   */
  lemma {:induction false} BreakerExcludesIff(w: World, es: seq<Event>, id: string, dest: string, now: int)
    requires w.Valid() && id in w.recs && Silent(es, id, dest)
    requires forall i :: 0 <= i < |es| && es[i].Binding? ==> es[i].now <= now
    ensures Allows(CircuitOf(After(w, es).recs[id], dest), now) <==> Allows(CircuitOf(w.recs[id], dest), now)
  {
    if es != [] {
      var n := |es| - 1;
      var v := After(w, es[..n]);
      BreakerExcludesIff(w, es[..n], id, dest, now);
      BreakerStep(v, es[n], id, dest);
      if es[n].Emit? {
        RungNot(v.cfg, CircuitOf(v.recs[id], dest), id, dest, es[n].signals, es[n].now);
      }
    }
  }

  // ---------------------------------------------------------------- localisation

  lemma SignalElsewhere(cfg: Config, r: Record, dest: string, s: Signal, now: int)
    requires s.destination != dest
    ensures CircuitOf(Signalled(cfg, r, s, now), dest) == CircuitOf(r, dest)
    ensures HealthOf(Signalled(cfg, r, s, now), dest) == HealthOf(r, dest)
  {
  }

  lemma {:induction false} EmitElsewhere(cfg: Config, r: Record, id: string, dest: string, signals: seq<Signal>,
                                             now: int)
    requires forall k :: 0 <= k < |signals| ==> !About(signals[k], id, dest)
    ensures CircuitOf(SignalledAll(cfg, r, id, signals, now), dest) == CircuitOf(r, dest)
    ensures HealthOf(SignalledAll(cfg, r, id, signals, now), dest) == HealthOf(r, dest)
  {
    if signals != [] {
      var n := |signals| - 1;
      EmitElsewhere(cfg, r, id, dest, signals[..n], now);
      if signals[n].egressId == id {
        SignalElsewhere(cfg, SignalledAll(cfg, r, id, signals[..n], now), dest, signals[n], now);
      }
    }
  }

  /**
   Damage is local: feedback about other destinations leaves an identity's rank for `dest`
   alone, and removes it from service there only through the block-streak quarantine.
   */
  lemma FeedbackIsLocal(cfg: Config, r: Record, id: string, dest: string, signals: seq<Signal>, now: int, later: int)
    requires cfg.Valid()
    requires forall k :: 0 <= k < |signals| ==> !About(signals[k], id, dest)
    ensures var r' := SignalledAll(cfg, r, id, signals, now);
            && Score(r', dest) == Score(r, dest)
            && (Eligible(cfg, r', dest, later) <==>
                Eligible(cfg, r, dest, later) && !Reaches(cfg.quarantineThreshold, r.blockStreak, id, signals))
  {
    EmitElsewhere(cfg, r, id, dest, signals, now);
    EmitWithdrawsIff(cfg, r, id, signals, now);
  }

  // ---------------------------------------------------------------- health

  /** Moving a score towards 1 or towards 0 by a weight. */
  function Mix(s: real, good: bool, a: real): real {
    s * (1.0 - a) + (if good then 1.0 else 0.0) * a
  }

  function Rated(alpha: real, s: real, k: Kind): real {
    if Clean(k) then Mix(s, true, alpha)
    else if k == Blocked then Mix(s, false, alpha)
    else if k == OtherKind then s
    else Mix(s, false, alpha * 0.5)
  }

  /** The score left by a history of answers. */
  function ScoreAfter(alpha: real, s: real, kinds: seq<Kind>): real {
    if kinds == [] then s else Rated(alpha, ScoreAfter(alpha, s, kinds[..|kinds| - 1]), kinds[|kinds| - 1])
  }

  function KindsAbout(signals: seq<Signal>, id: string, dest: string): seq<Kind> {
    if signals == [] then []
    else
      var rest, s := KindsAbout(signals[..|signals| - 1], id, dest), signals[|signals| - 1];
      if About(s, id, dest) then rest + [s.kind] else rest
  }

  function KindsIn(es: seq<Event>, id: string, dest: string): seq<Kind> {
    if es == [] then []
    else
      var rest, e := KindsIn(es[..|es| - 1], id, dest), es[|es| - 1];
      if e.Emit? then rest + KindsAbout(e.signals, id, dest) else rest
  }

  lemma {:induction false} ScoreJoin(alpha: real, s: real, a: seq<Kind>, b: seq<Kind>)
    ensures ScoreAfter(alpha, s, a + b) == ScoreAfter(alpha, ScoreAfter(alpha, s, a), b)
  {
    if b == [] {
      assert a + b == a;
    } else {
      var n := |b| - 1;
      assert (a + b)[..|a| + n] == a + b[..n];
      ScoreJoin(alpha, s, a, b[..n]);
    }
  }

  lemma SignalScore(cfg: Config, r: Record, id: string, dest: string, s: Signal, now: int)
    requires s.egressId == id
    ensures Score(Signalled(cfg, r, s, now), dest) ==
              if s.destination == dest then Rated(cfg.alpha, Score(r, dest), s.kind) else Score(r, dest)
  {
  }

  lemma {:induction false} EmitScore(cfg: Config, r: Record, id: string, dest: string, signals: seq<Signal>, now: int)
    ensures Score(SignalledAll(cfg, r, id, signals, now), dest) ==
              ScoreAfter(cfg.alpha, Score(r, dest), KindsAbout(signals, id, dest))
  {
    if signals != [] {
      var n := |signals| - 1;
      var rest := KindsAbout(signals[..n], id, dest);
      EmitScore(cfg, r, id, dest, signals[..n], now);
      if signals[n].egressId == id {
        SignalScore(cfg, SignalledAll(cfg, r, id, signals[..n], now), id, dest, signals[n], now);
        assert (rest + [signals[n].kind])[..|rest|] == rest;
      }
    }
  }

  lemma ScoreStep(w: World, e: Event, id: string, dest: string)
    requires w.Valid() && id in w.recs && !Reloads(e, id)
    ensures Score(Step(w, e).recs[id], dest) ==
              if e.Emit? then ScoreAfter(w.cfg.alpha, Score(w.recs[id], dest), KindsAbout(e.signals, id, dest))
              else Score(w.recs[id], dest)
  {
    StepAt(w, e, id);
    if e.Emit? {
      EmitScore(w.cfg, w.recs[id], id, dest, e.signals, e.now);
    } else if e.Binding? {
      ResetsClosedForm(w.cfg, Recovered(w.recs[id], e.now), e.now);
    } else if e.Restore? {
      RestoreElsewhere(w.recs[id], id, e.states);
    }
  }

  /** The score an identity is ranked by is the moving average of its answers at the destination. */
  lemma {:induction false} ScoreIsHistory(w: World, es: seq<Event>, id: string, dest: string)
    requires w.Valid() && id in w.recs && NoReload(es, id)
    ensures Score(After(w, es).recs[id], dest) ==
              ScoreAfter(w.cfg.alpha, Score(w.recs[id], dest), KindsIn(es, id, dest))
  {
    if es != [] {
      var n := |es| - 1;
      var v := After(w, es[..n]);
      ScoreIsHistory(w, es[..n], id, dest);
      ConfigKept(w, es[..n]);
      ScoreStep(v, es[n], id, dest);
      if es[n].Emit? {
        ScoreJoin(w.cfg.alpha, Score(w.recs[id], dest), KindsIn(es[..n], id, dest),
                  KindsAbout(es[n].signals, id, dest));
      }
    }
  }

  /** Clean answers rank above mild failures, and those above blocks. */
  function Worth(k: Kind): nat {
    if Clean(k) then 2 else if k == Blocked then 0 else 1
  }

  lemma MixOrdered(s: real, t: real, a: real)
    requires 0.0 <= t <= s <= 1.0 && 0.0 < a <= 1.0
    ensures 0.0 <= Mix(t, false, a) <= Mix(s, false, a) <= Mix(s, false, a * 0.5) <= Mix(s, true, a) <= 1.0
    ensures Mix(t, true, a) <= Mix(s, true, a) && Mix(t, false, a * 0.5) <= Mix(s, false, a * 0.5)
  {
    NonNegative(s - t, 1.0 - a);
    NonNegative(s - t, 1.0 - a * 0.5);
    NonNegative(t, 1.0 - a);
    NonNegative(s, a);
    NonNegative(1.0 - s, 1.0 - a);
    NonNegative(1.0 - s, a);
  }

  lemma NonNegative(x: real, y: real)
    requires x >= 0.0 && y >= 0.0
    ensures x * y >= 0.0
  {
  }

  /**
   Health dominance: scores stay between 0 and 1, and an identity whose answers are at least
   as good, one by one, never ranks lower, for every smoothing weight.
   */
  lemma {:induction false} BetterAnswersRankHigher(alpha: real, s: real, t: real, good: seq<Kind>, bad: seq<Kind>)
    requires 0.0 < alpha <= 1.0 && 0.0 <= t <= s <= 1.0 && |good| == |bad|
    requires forall i :: 0 <= i < |good| ==>
               good[i] != OtherKind && bad[i] != OtherKind && Worth(good[i]) >= Worth(bad[i])
    ensures 0.0 <= ScoreAfter(alpha, t, bad) <= ScoreAfter(alpha, s, good) <= 1.0
  {
    if good != [] {
      var n := |good| - 1;
      BetterAnswersRankHigher(alpha, s, t, good[..n], bad[..n]);
      MixOrdered(ScoreAfter(alpha, s, good[..n]), ScoreAfter(alpha, t, bad[..n]), alpha);
      MixOrdered(ScoreAfter(alpha, t, bad[..n]), ScoreAfter(alpha, t, bad[..n]), alpha);
    }
  }
}
