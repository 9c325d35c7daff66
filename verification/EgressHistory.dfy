/**
 An identity's standing read off the history of calls alone: what a new identity starts from, and
 how its labels, its daily use, its place on the warm-up ramp and its breakers follow from the calls
 made since. Together they decide, without looking at any record, when it is eligible.
 */
module EgressHistory {
  import opened Common
  import opened Egress
  import opened EgressRouting
  import opened EgressRuns
  import opened EgressCircuits
  import opened EgressWarmup
  import opened EgressRestart

  // ---------------------------------------------------------------- newcomers

  /** What an identity starts from: full health, closed breakers, nothing used, and warming only if asked to. */
  ghost predicate Newcomer(r: Record, spec: Spec, start: int) {
    && r.spec == spec && r.state == (if spec.warmUp then Warming else Active)
    && r.warmupStage == 0 && r.usedToday == 0 && r.lastReset == start && r.online && r.blockStreak == 0
    && r.quarantinedUntil == 0 && r.reason == ""
    && (forall d :: Score(r, d) == 1.0 && HealthOf(r, d).samples == 0)
    && (forall d :: CircuitOf(r, d) == Circuit(Closed, 0, 0))
  }

  lemma {:induction false} AddAllLast(recs: Records, specs: seq<Spec>, now: int, i: nat)
    requires i < |specs| && forall j :: i < j < |specs| ==> specs[j].id != specs[i].id
    ensures specs[i].id in AddAll(recs, specs, now) && AddAll(recs, specs, now)[specs[i].id] == NewRecord(specs[i], now)
  {
    var n := |specs| - 1;
    if i < n {
      AddAllLast(recs, specs[..n], now, i);
    }
  }

  /** A new pool is made of newcomers; of several specs with one id the last one counts. */
  lemma NewPool(cfg: Config, specs: seq<Spec>, start: int, i: nat)
    requires cfg.Valid() && i < |specs| && forall j :: i < j < |specs| ==> specs[j].id != specs[i].id
    ensures var w := Fresh(cfg, specs, start);
            w.Valid() && w.cfg == cfg && specs[i].id in w.recs && Newcomer(w.recs[specs[i].id], specs[i], start)
  {
    FreshIsValid(cfg, specs, start);
    AddAllLast(map[], specs, start, i);
  }

  /** An identity that turns up later is a newcomer too; a known one keeps everything but its spec. */
  lemma Introduced(w: World, spec: Spec, now: int)
    requires w.Valid()
    ensures var w' := Step(w, AddIdentity(spec, now));
            if spec.id in w.recs
            then w'.order == w.order && w'.recs[spec.id] == w.recs[spec.id].(spec := spec)
            else w'.order == w.order + [spec.id] && Newcomer(w'.recs[spec.id], spec, now)
  {
  }

  // ---------------------------------------------------------------- whatever was said last

  function OnlineAfter(online: bool, es: seq<Event>, id: string): bool {
    if es == [] then online
    else
      var e := es[|es| - 1];
      if e.SetOnline? && e.id == id then e.online else OnlineAfter(online, es[..|es| - 1], id)
  }

  function SpecAfter(spec: Spec, es: seq<Event>, id: string): Spec {
    if es == [] then spec
    else
      var e := es[|es| - 1];
      if e.AddIdentity? && e.spec.id == id then e.spec else SpecAfter(spec, es[..|es| - 1], id)
  }

  function ReasonAfter(reason: string, es: seq<Event>, id: string): string {
    if es == [] then reason
    else
      var e := es[|es| - 1];
      if e == Enable(id) then ""
      else if (e.Disable? || e.Quarantine?) && e.id == id then e.reason
      else ReasonAfter(reason, es[..|es| - 1], id)
  }

  lemma {:induction false} SignalsKeepLabels(cfg: Config, r: Record, id: string, signals: seq<Signal>, now: int)
    ensures var r' := SignalledAll(cfg, r, id, signals, now);
            r'.online == r.online && r'.spec == r.spec && r'.reason == r.reason
  {
    if signals != [] {
      SignalsKeepLabels(cfg, r, id, signals[..|signals| - 1], now);
    }
  }

  lemma {:induction false} RestoreKeepsSpec(r: Record, id: string, states: seq<Saved>)
    ensures RestoredAll(r, id, states).spec == r.spec && RestoredAll(r, id, states).online == r.online
  {
    if states != [] {
      RestoreKeepsSpec(r, id, states[..|states| - 1]);
    }
  }

  lemma LabelsStep(cfg: Config, r: Record, id: string, e: Event, handed: bool)
    requires cfg.Valid()
    ensures var r' := RecordStep(cfg, r, id, e, handed);
            && r'.online == (if e.SetOnline? && e.id == id then e.online else r.online)
            && r'.spec == (if e.AddIdentity? && e.spec.id == id then e.spec else r.spec)
            && (!Reloads(e, id) ==>
                  r'.reason == if e == Enable(id) then ""
                               else if (e.Disable? || e.Quarantine?) && e.id == id then e.reason
                               else r.reason)
  {
    if e.Emit? {
      SignalsKeepLabels(cfg, r, id, e.signals, e.now);
    } else if e.Binding? {
      ResetsClosedForm(cfg, Recovered(r, e.now), e.now);
      LookingIsHarmless(cfg, Reconciled(cfg, r, e.now), e.dest, e.now);
    } else if e.Restore? {
      RestoreKeepsSpec(r, id, e.states);
      if !Reloads(e, id) {
        RestoreElsewhere(r, id, e.states);
      }
    }
  }

  /**
   Reachability, metadata and the recorded reason are what was said last: nothing else in the run
   touches them, and a restored snapshot can change only the reason.
   */
  lemma {:induction false} LabelsAreLatest(w: World, es: seq<Event>, id: string)
    requires w.Valid() && id in w.recs
    ensures var r, r' := w.recs[id], After(w, es).recs[id];
            && r'.online == OnlineAfter(r.online, es, id)
            && r'.spec == SpecAfter(r.spec, es, id)
            && (NoReload(es, id) ==> r'.reason == ReasonAfter(r.reason, es, id))
  {
    if es != [] {
      var n := |es| - 1;
      var v := After(w, es[..n]);
      LabelsAreLatest(w, es[..n], id);
      StepAt(v, es[n], id);
      LabelsStep(v.cfg, v.recs[id], id, es[n], Handed(v, es[n]) == Some(id));
    }
  }

  lemma {:induction false} SpecKeepsId(spec: Spec, es: seq<Event>, id: string)
    requires spec.id == id
    ensures SpecAfter(spec, es, id).id == id
  {
    if es != [] {
      SpecKeepsId(spec, es[..|es| - 1], id);
    }
  }

  /** Probes are sent with the metadata last given for the identity that was chosen. */
  lemma SentAsLatest(w: World, es: seq<Event>, dest: string, now: int, id: string)
    requires w.Valid() && id in w.recs && w.recs[id].spec.id == id
    requires Handed(After(w, es), Binding(dest, now)) == Some(id)
    ensures var sent := Bind(After(w, es), dest, now).0.recs[id].spec;
            sent.id == id && sent == SpecAfter(w.recs[id].spec, es, id)
  {
    var all := es + [Binding(dest, now)];
    assert all[..|es|] == es;
    LabelsAreLatest(w, all, id);
    SpecKeepsId(w.recs[id].spec, es, id);
  }

  // ---------------------------------------------------------------- scores

  /** A newcomer is ranked by the moving average of its answers at the destination, counted from 1. */
  lemma NewcomerScore(w: World, es: seq<Event>, id: string, spec: Spec, start: int, dest: string)
    requires w.Valid() && id in w.recs && Newcomer(w.recs[id], spec, start) && NoReload(es, id)
    ensures Score(After(w, es).recs[id], dest) == ScoreAfter(w.cfg.alpha, 1.0, KindsIn(es, id, dest))
  {
    ScoreIsHistory(w, es, id, dest);
    assert Score(w.recs[id], dest) == 1.0;
  }

  /** Answers that say something about the pair. */
  function Telling(kinds: seq<Kind>): nat {
    if kinds == [] then 0
    else Telling(kinds[..|kinds| - 1]) + if kinds[|kinds| - 1] != OtherKind then 1 else 0
  }

  lemma {:induction false} TellingJoin(a: seq<Kind>, b: seq<Kind>)
    ensures Telling(a + b) == Telling(a) + Telling(b)
  {
    if b == [] {
      assert a + b == a;
    } else {
      var n := |b| - 1;
      assert (a + b)[..|a| + n] == a + b[..n];
      TellingJoin(a, b[..n]);
    }
  }

  lemma {:induction false} EmitSamples(cfg: Config, r: Record, id: string, dest: string, signals: seq<Signal>, now: int)
    ensures HealthOf(SignalledAll(cfg, r, id, signals, now), dest).samples ==
            HealthOf(r, dest).samples + Telling(KindsAbout(signals, id, dest))
  {
    if signals != [] {
      var n := |signals| - 1;
      var rest := KindsAbout(signals[..n], id, dest);
      EmitSamples(cfg, r, id, dest, signals[..n], now);
      if signals[n].egressId == id {
        SignalSamples(cfg, SignalledAll(cfg, r, id, signals[..n], now), dest, signals[n], now);
        assert (rest + [signals[n].kind])[..|rest|] == rest;
      }
    }
  }

  lemma SignalSamples(cfg: Config, r: Record, dest: string, s: Signal, now: int)
    ensures HealthOf(Signalled(cfg, r, s, now), dest).samples ==
            HealthOf(r, dest).samples + if s.destination == dest && s.kind != OtherKind then 1 else 0
  {
  }

  lemma SamplesStep(w: World, e: Event, id: string, dest: string)
    requires w.Valid() && id in w.recs && !Reloads(e, id)
    ensures HealthOf(Step(w, e).recs[id], dest).samples ==
            HealthOf(w.recs[id], dest).samples + if e.Emit? then Telling(KindsAbout(e.signals, id, dest)) else 0
  {
    StepAt(w, e, id);
    if e.Emit? {
      EmitSamples(w.cfg, w.recs[id], id, dest, e.signals, e.now);
    } else if e.Binding? {
      ResetsClosedForm(w.cfg, Recovered(w.recs[id], e.now), e.now);
    } else if e.Restore? {
      RestoreElsewhere(w.recs[id], id, e.states);
    }
  }

  /** A pair's samples count the answers behind its score. */
  lemma {:induction false} SamplesAreCounted(w: World, es: seq<Event>, id: string, dest: string)
    requires w.Valid() && id in w.recs && NoReload(es, id)
    ensures HealthOf(After(w, es).recs[id], dest).samples ==
            HealthOf(w.recs[id], dest).samples + Telling(KindsIn(es, id, dest))
  {
    if es != [] {
      var n := |es| - 1;
      SamplesAreCounted(w, es[..n], id, dest);
      SamplesStep(After(w, es[..n]), es[n], id, dest);
      if es[n].Emit? {
        TellingJoin(KindsIn(es[..n], id, dest), KindsAbout(es[n].signals, id, dest));
      }
    }
  }

  // ---------------------------------------------------------------- disabling

  lemma DisableStep(w: World, id: string, reason: string)
    requires w.Valid() && id in w.recs
    ensures var w' := Step(w, Disable(id, reason));
            w'.recs[id].state == Disabled && w'.recs[id].blockStreak == w.recs[id].blockStreak && w'.cfg == w.cfg
  {
  }

  /**
   After Disable no Binding hands the identity out, until it is enabled, restored or quarantined, or
   feedback carries its block streak to the threshold.
   */
  lemma NoProbeWhileDisabled(w: World, id: string, reason: string, es: seq<Event>, dest: string, now: int)
    requires w.Valid() && id in w.recs
    requires NoReload(es, id) && forall i :: 0 <= i < |es| ==> es[i] != Enable(id)
    requires !Ends(w.cfg.quarantineThreshold, w.recs[id].blockStreak, id, es)
    ensures Handed(After(Step(w, Disable(id, reason)), es), Binding(dest, now)) != Some(id)
  {
    var v := Step(w, Disable(id, reason));
    DisableStep(w, id, reason);
    DisabledStaysIff(v, es, id);
    assert StaysDisabled(v, es, id);
    HeldIsNotHanded(After(v, es), id, dest, now, now);
  }

  // ---------------------------------------------------------------- breakers

  predicate FailsAmong(signals: seq<Signal>, id: string, dest: string) {
    exists k | 0 <= k < |signals| :: About(signals[k], id, dest) && Failure(signals[k].kind)
  }

  /** When the pair last failed. */
  function LastFailure(es: seq<Event>, id: string, dest: string): Option<int> {
    if es == [] then None
    else
      var e := es[|es| - 1];
      if e.Emit? && FailsAmong(e.signals, id, dest) then Some(e.now) else LastFailure(es[..|es| - 1], id, dest)
  }

  /** No event of the run changes the breakers' threshold. */
  ghost predicate SteadyBreakers(es: seq<Event>, threshold: int) {
    forall i :: 0 <= i < |es| && es[i].SetThresholds? ==> es[i].circuit <= 0 || es[i].circuit == threshold
  }

  lemma ThresholdStep(w: World, e: Event)
    requires w.Valid()
    ensures Step(w, e).cfg.circuitThreshold ==
            if e.SetThresholds? && e.circuit > 0 then e.circuit else w.cfg.circuitThreshold
  {
    StepConfig(w, e);
  }

  lemma {:induction false} SteadyThreshold(w: World, es: seq<Event>)
    requires w.Valid() && SteadyBreakers(es, w.cfg.circuitThreshold)
    ensures After(w, es).cfg.circuitThreshold == w.cfg.circuitThreshold
  {
    if es != [] {
      SteadyThreshold(w, es[..|es| - 1]);
      ThresholdStep(After(w, es[..|es| - 1]), es[|es| - 1]);
    }
  }

  /** The breaker that so many failures, the last of them at `last`, leave for a question at `now`. */
  predicate Matches(cfg: Config, c: Circuit, failures: nat, last: Option<int>, now: int) {
    && c.failures == failures && (c.state == Closed <==> failures < cfg.circuitThreshold)
    && (c.state != Closed ==> last.Some? && c.openUntil == last.value + cfg.circuitCooldown)
    && (c.state == HalfOpen ==> now > c.openUntil)
  }

  lemma {:induction false} EmitMatches(cfg: Config, c: Circuit, id: string, dest: string, signals: seq<Signal>, at: int,
                                       last: Option<int>, now: int)
    requires cfg.Valid() && Matches(cfg, c, c.failures, last, now)
    ensures var failures := Failures(c.failures, id, dest, signals);
            var latest := if FailsAmong(signals, id, dest) then Some(at) else last;
            Matches(cfg, RungAll(cfg, c, id, dest, signals, at), failures, latest, now)
  {
    if signals != [] {
      var n := |signals| - 1;
      EmitMatches(cfg, c, id, dest, signals[..n], at, last, now);
      FailsLast(signals, id, dest);
    }
  }

  lemma FailsLast(signals: seq<Signal>, id: string, dest: string)
    requires signals != []
    ensures var n := |signals| - 1;
            FailsAmong(signals, id, dest) <==>
            FailsAmong(signals[..n], id, dest) || (About(signals[n], id, dest) && Failure(signals[n].kind))
  {
    var n := |signals| - 1;
    if FailsAmong(signals[..n], id, dest) {
      var k :| 0 <= k < n && About(signals[..n][k], id, dest) && Failure(signals[..n][k].kind);
      assert signals[k] == signals[..n][k];
    }
    if FailsAmong(signals, id, dest) {
      var k :| 0 <= k < |signals| && About(signals[k], id, dest) && Failure(signals[k].kind);
      assert k < n ==> signals[..n][k] == signals[k];
    }
  }

  lemma MatchesNext(v: World, e: Event, id: string, dest: string, failures: nat, last: Option<int>, now: int)
    requires v.Valid() && id in v.recs && Matches(v.cfg, CircuitOf(v.recs[id], dest), failures, last, now)
    requires e.Binding? ==> e.now <= now
    ensures Matches(v.cfg, CircuitOf(Step(v, e).recs[id], dest),
                    if e.Emit? then Failures(failures, id, dest, e.signals) else failures,
                    if e.Emit? && FailsAmong(e.signals, id, dest) then Some(e.now) else last, now)
  {
    BreakerStep(v, e, id, dest);
    if e.Emit? {
      EmitMatches(v.cfg, CircuitOf(v.recs[id], dest), id, dest, e.signals, e.now, last, now);
    }
  }

  lemma {:induction false} BreakerMatches(w: World, es: seq<Event>, id: string, dest: string, now: int)
    requires w.Valid() && id in w.recs && SteadyBreakers(es, w.cfg.circuitThreshold)
    requires CircuitOf(w.recs[id], dest).state == Closed && CircuitOf(w.recs[id], dest).failures == 0
    requires forall i :: 0 <= i < |es| && es[i].Binding? ==> es[i].now <= now
    ensures Matches(w.cfg, CircuitOf(After(w, es).recs[id], dest), FailuresSince(0, id, dest, es),
                    LastFailure(es, id, dest), now)
  {
    if es != [] {
      var n := |es| - 1;
      BreakerMatches(w, es[..n], id, dest, now);
      ConfigKept(w, es[..n]);
      SteadyThreshold(w, es[..n]);
      MatchesNext(After(w, es[..n]), es[n], id, dest, FailuresSince(0, id, dest, es[..n]),
                  LastFailure(es[..n], id, dest), now);
    }
  }

  /** The pair has failed often enough since its last clean answer, the last time within the cool-down. */
  predicate Out(cfg: Config, es: seq<Event>, id: string, dest: string, now: int) {
    && FailuresSince(0, id, dest, es) >= cfg.circuitThreshold
    && LastFailure(es, id, dest).Some? && now <= LastFailure(es, id, dest).value + cfg.circuitCooldown
  }

  /** Of a newcomer's pairs, a breaker keeps out exactly those. */
  lemma BreakerIsOutIff(w: World, es: seq<Event>, id: string, dest: string, now: int)
    requires w.Valid() && id in w.recs && SteadyBreakers(es, w.cfg.circuitThreshold)
    requires CircuitOf(w.recs[id], dest).state == Closed && CircuitOf(w.recs[id], dest).failures == 0
    requires forall i :: 0 <= i < |es| && es[i].Binding? ==> es[i].now <= now
    ensures Allows(CircuitOf(After(w, es).recs[id], dest), now) <==> !Out(w.cfg, es, id, dest, now)
  {
    BreakerMatches(w, es, id, dest, now);
  }

  // ---------------------------------------------------------------- the ramp and the daily window

  const NANOS_PER_DAY: int := 86_400_000_000_000

  /** Whole days from one time to another. */
  function Days(from: int, to: int): nat {
    if to - from < NANOS_PER_DAY then 0 else (to - from) / NANOS_PER_DAY
  }

  lemma DaysSplit(from: int, k: nat, to: int)
    ensures Days(from + k * NANOS_PER_DAY, to) == if Days(from, to) > k then Days(from, to) - k else 0
  {
    var gap := to - from;
    if gap >= NANOS_PER_DAY {
      var q := gap / NANOS_PER_DAY;
      assert q * NANOS_PER_DAY <= gap < q * NANOS_PER_DAY + NANOS_PER_DAY;
      if q > k {
        assert (q - k) * NANOS_PER_DAY <= gap - k * NANOS_PER_DAY < (q - k) * NANOS_PER_DAY + NANOS_PER_DAY;
        assert (gap - k * NANOS_PER_DAY) / NANOS_PER_DAY == q - k;
      } else {
        assert q * NANOS_PER_DAY <= k * NANOS_PER_DAY;
      }
    } else {
      assert k * NANOS_PER_DAY >= 0;
    }
  }

  /** The latest time anything was bound, or `from` if that is later. */
  function LatestBinding(from: int, es: seq<Event>): int {
    if es == [] then from
    else
      var rest, e := LatestBinding(from, es[..|es| - 1]), es[|es| - 1];
      if e.Binding? && e.now > rest then e.now else rest
  }

  /** Whole days between the start of a window and the last Binding. */
  function DaysInto(from: int, es: seq<Event>): nat {
    Days(from, LatestBinding(from, es))
  }

  predicate Serving(r: Record) {
    r.state == Warming || r.state == Active
  }

  /** The record `r` climbed the ramp from `r0` for so many days. */
  predicate Climbed(cfg: Config, r0: Record, r: Record, days: nat) {
    && r.lastReset == r0.lastReset + days * NANOS_PER_DAY
    && r.state == (if r0.state == Warming && r0.warmupStage + days < |cfg.stages| then Warming else Active)
    && (r.state == Warming ==> r.warmupStage == r0.warmupStage + days)
  }

  lemma ClimbsOn(cfg: Config, r0: Record, r: Record, days: nat, now: int)
    requires cfg.Valid() && Serving(r0) && OnRamp(cfg, r0) && Climbed(cfg, r0, r, days)
    ensures var total := if Days(r0.lastReset, now) > days then Days(r0.lastReset, now) else days;
            && Climbed(cfg, r0, Reconciled(cfg, r, now), total)
            && Reconciled(cfg, r, now).usedToday == (if total > days then 0 else r.usedToday)
            && Reconciled(cfg, r, now).blockStreak == r.blockStreak
  {
    ResetsClosedForm(cfg, r, now);
    DaysSplit(r0.lastReset, days, now);
  }

  /** The run neither withdraws nor reinstates the identity, so it serves throughout. */
  ghost predicate LeftAlone(w: World, es: seq<Event>, id: string)
    requires w.Valid() && id in w.recs
  {
    && NoReload(es, id)
    && (forall i :: 0 <= i < |es| ==> es[i] != Enable(id) && !(es[i].Disable? && es[i].id == id))
    && !Ends(w.cfg.quarantineThreshold, w.recs[id].blockStreak, id, es)
  }

  lemma LeftAloneBefore(w: World, es: seq<Event>, id: string)
    requires w.Valid() && id in w.recs && es != [] && LeftAlone(w, es, id)
    ensures LeftAlone(w, es[..|es| - 1], id)
    ensures !EndsAt(w.cfg.quarantineThreshold, w.recs[id].blockStreak, id, es, |es| - 1)
  {
    EndsLast(w.cfg.quarantineThreshold, w.recs[id].blockStreak, id, es);
  }

  /** What an event does to an identity that it leaves alone. */
  lemma ServingStep(cfg: Config, r0: Record, r: Record, days: nat, id: string, e: Event, handed: bool)
    requires cfg.Valid() && Serving(r0) && OnRamp(cfg, r0) && Climbed(cfg, r0, r, days)
    requires !Reloads(e, id) && e != Enable(id) && !(e.Disable? && e.id == id) && !(e.Quarantine? && e.id == id)
    requires e.Emit? ==> !Reaches(cfg.quarantineThreshold, r.blockStreak, id, e.signals)
    ensures var r' := RecordStep(cfg, r, id, e, handed);
            var total := if e.Binding? && Days(r0.lastReset, e.now) > days then Days(r0.lastReset, e.now) else days;
            && Climbed(cfg, r0, r', total)
            && r'.usedToday == (if total > days then 0 else r.usedToday) + (if e.Binding? && handed then 1 else 0)
            && r'.blockStreak == (if e.Emit? then Streak(r.blockStreak, id, e.signals) else r.blockStreak)
  {
    if e.Emit? {
      EmitWithdrawsIff(cfg, r, id, e.signals, e.now);
    } else if e.Binding? {
      ClimbsOn(cfg, r0, r, days, e.now);
      LookingIsHarmless(cfg, Reconciled(cfg, r, e.now), e.dest, e.now);
    } else if e.Restore? {
      RestoreElsewhere(r, id, e.states);
    }
  }

  lemma DaysMonotone(from: int, a: int, b: int)
    requires a <= b
    ensures Days(from, a) <= Days(from, b)
  {
  }

  lemma ServingNext(w: World, es: seq<Event>, id: string)
    requires w.Valid() && id in w.recs && Serving(w.recs[id]) && OnRamp(w.cfg, w.recs[id])
    requires es != [] && LeftAlone(w, es, id)
    requires var n, r0 := |es| - 1, w.recs[id];
             var r := After(w, es[..n]).recs[id];
             && Climbed(w.cfg, r0, r, DaysInto(r0.lastReset, es[..n]))
             && r.blockStreak == FeedbackStreak(r0.blockStreak, id, es[..n])
    ensures var n, r0 := |es| - 1, w.recs[id];
            var r, r' := After(w, es[..n]).recs[id], After(w, es).recs[id];
            var before, days := DaysInto(r0.lastReset, es[..n]), DaysInto(r0.lastReset, es);
            && Climbed(w.cfg, r0, r', days)
            && r'.blockStreak == FeedbackStreak(r0.blockStreak, id, es)
            && r'.usedToday ==
               (if days > before then 0 else r.usedToday) + (if HandedAt(w, es, n) == Some(id) then 1 else 0)
  {
    var n, r0 := |es| - 1, w.recs[id];
    var v := After(w, es[..n]);
    LeftAloneBefore(w, es, id);
    ConfigKept(w, es[..n]);
    ThresholdExact(w, es[..n]);
    StepAt(v, es[n], id);
    var days := DaysInto(r0.lastReset, es[..n]);
    ServingStep(v.cfg, r0, v.recs[id], days, id, es[n], Handed(v, es[n]) == Some(id));
    if es[n].Binding? {
      if es[n].now > LatestBinding(r0.lastReset, es[..n]) {
        DaysMonotone(r0.lastReset, LatestBinding(r0.lastReset, es[..n]), es[n].now);
      } else {
        DaysMonotone(r0.lastReset, es[n].now, LatestBinding(r0.lastReset, es[..n]));
      }
    }
  }

  /**
   The ramp, exactly: an identity that is left alone is, however many days were missed and whatever
   the calls, as many stages further as whole days have passed between the start of its window and
   the last Binding, and active once the stages are used up.
   */
  lemma {:induction false} RampIsExact(w: World, es: seq<Event>, id: string)
    requires w.Valid() && id in w.recs && Serving(w.recs[id]) && OnRamp(w.cfg, w.recs[id]) && LeftAlone(w, es, id)
    ensures var r0, r := w.recs[id], After(w, es).recs[id];
            && Climbed(w.cfg, r0, r, DaysInto(r0.lastReset, es))
            && r.blockStreak == FeedbackStreak(r0.blockStreak, id, es)
  {
    if es != [] {
      LeftAloneBefore(w, es, id);
      RampIsExact(w, es[..|es| - 1], id);
      ServingNext(w, es, id);
    }
  }

  /** How often the identity was handed out on a given day of its window. */
  function GrantsOn(w: World, es: seq<Event>, id: string, from: int, day: nat): nat
    requires w.Valid()
  {
    if es == [] then 0
    else
      var n := |es| - 1;
      GrantsOn(w, es[..n], id, from, day)
      + if HandedAt(w, es, n) == Some(id) && Days(from, es[n].now) == day then 1 else 0
  }

  lemma {:induction false} NoGrantsYet(w: World, es: seq<Event>, id: string, from: int, day: nat)
    requires w.Valid() && Days(from, LatestBinding(from, es)) < day
    ensures GrantsOn(w, es, id, from, day) == 0
  {
    if es != [] {
      var n := |es| - 1;
      DaysMonotone(from, LatestBinding(from, es[..n]), LatestBinding(from, es));
      NoGrantsYet(w, es[..n], id, from, day);
      if es[n].Binding? {
        DaysMonotone(from, es[n].now, LatestBinding(from, es));
      }
    }
  }

  lemma {:induction false} LatestIsLast(from: int, es: seq<Event>, now: int)
    requires from <= now && forall i :: 0 <= i < |es| && es[i].Binding? ==> es[i].now <= now
    ensures from <= LatestBinding(from, es) <= now
  {
    if es != [] {
      LatestIsLast(from, es[..|es| - 1], now);
    }
  }

  /** The daily counter stands at what it started with, on the first day, plus the probes handed out that day. */
  predicate Counted(w: World, es: seq<Event>, id: string)
    requires w.Valid() && id in w.recs
  {
    var r0 := w.recs[id];
    var day := DaysInto(r0.lastReset, es);
    After(w, es).recs[id].usedToday ==
    (if day == 0 then r0.usedToday else 0) + GrantsOn(w, es, id, r0.lastReset, day)
  }

  /** A new Binding is on the last day or a later one, and on a new day nothing has been handed out. */
  lemma GrantsNext(w: World, es: seq<Event>, id: string, from: int)
    requires w.Valid() && es != [] && es[|es| - 1].Binding?
    requires LatestBinding(from, es[..|es| - 1]) <= es[|es| - 1].now
    ensures var n := |es| - 1;
            var before, day := DaysInto(from, es[..n]), DaysInto(from, es);
            && before <= day == Days(from, es[n].now)
            && GrantsOn(w, es, id, from, day) ==
               (if day == before then GrantsOn(w, es[..n], id, from, before) else 0)
               + (if HandedAt(w, es, n) == Some(id) then 1 else 0)
  {
    var n := |es| - 1;
    DaysMonotone(from, LatestBinding(from, es[..n]), es[n].now);
    if DaysInto(from, es[..n]) < DaysInto(from, es) {
      NoGrantsYet(w, es[..n], id, from, DaysInto(from, es));
    }
  }

  lemma UseNext(w: World, es: seq<Event>, id: string)
    requires w.Valid() && id in w.recs && Serving(w.recs[id]) && OnRamp(w.cfg, w.recs[id])
    requires es != [] && LeftAlone(w, es, id) && LeftAlone(w, es[..|es| - 1], id)
    requires es[|es| - 1].Binding? ==>
               LatestBinding(w.recs[id].lastReset, es[..|es| - 1]) <= es[|es| - 1].now
    requires Counted(w, es[..|es| - 1], id)
    ensures Counted(w, es, id)
  {
    RampIsExact(w, es[..|es| - 1], id);
    ServingNext(w, es, id);
    if es[|es| - 1].Binding? {
      GrantsNext(w, es, id, w.recs[id].lastReset);
    }
  }

  lemma {:induction false} UseIsCounted(w: World, es: seq<Event>, id: string)
    requires w.Valid() && id in w.recs && Serving(w.recs[id]) && OnRamp(w.cfg, w.recs[id]) && LeftAlone(w, es, id)
    requires ClockForward(es) && forall i :: 0 <= i < |es| && Timed(es[i]) ==> w.recs[id].lastReset <= es[i].now
    ensures Counted(w, es, id)
  {
    if es != [] {
      var n := |es| - 1;
      LeftAloneBefore(w, es, id);
      UseIsCounted(w, es[..n], id);
      if es[n].Binding? {
        LatestIsLast(w.recs[id].lastReset, es[..n], es[n].now);
      }
      UseNext(w, es, id);
    }
  }

  // ---------------------------------------------------------------- eligibility from the history

  /** Every timed call of the run comes after `from` and no later than `now`, and the clock never goes back. */
  ghost predicate Between(es: seq<Event>, from: int, now: int) {
    && from <= now && ClockForward(es)
    && forall i :: 0 <= i < |es| && Timed(es[i]) ==> from <= es[i].now <= now
  }

  /** The cap on day `day` of the window of an identity that started at `stage`, or is past the ramp. */
  function CapOn(cfg: Config, warming: bool, stage: nat, day: nat): int {
    if warming && stage + day < |cfg.stages| then cfg.stages[stage + day] else cfg.activeDailyCap
  }

  /** The window moves on to `now`: the ramp climbs with it, and a new day starts from nothing. */
  lemma WindowMoves(cfg: Config, r0: Record, r: Record, used: nat, grants: nat, last: int, now: int)
    requires cfg.Valid() && Serving(r0) && OnRamp(cfg, r0) && last <= now
    requires Climbed(cfg, r0, r, Days(r0.lastReset, last))
    requires Days(r0.lastReset, last) == Days(r0.lastReset, now) ==> r.usedToday == used + grants
    requires Days(r0.lastReset, last) < Days(r0.lastReset, now) ==> used == grants == 0
    ensures Climbed(cfg, r0, Reconciled(cfg, r, now), Days(r0.lastReset, now))
    ensures Reconciled(cfg, r, now).usedToday == used + grants
  {
    DaysMonotone(r0.lastReset, last, now);
    ClimbsOn(cfg, r0, r, Days(r0.lastReset, last), now);
  }

  lemma UseOnDay(w: World, es: seq<Event>, id: string, now: int)
    requires w.Valid() && id in w.recs && Serving(w.recs[id]) && OnRamp(w.cfg, w.recs[id]) && LeftAlone(w, es, id)
    requires Between(es, w.recs[id].lastReset, now)
    ensures var r0, q := w.recs[id], Reconciled(w.cfg, After(w, es).recs[id], now);
            var day := Days(r0.lastReset, now);
            && Climbed(w.cfg, r0, q, day)
            && q.usedToday == (if day == 0 then r0.usedToday else 0) + GrantsOn(w, es, id, r0.lastReset, day)
  {
    var r0, from := w.recs[id], w.recs[id].lastReset;
    var last, day := LatestBinding(from, es), Days(from, now);
    LatestIsLast(from, es, now);
    UseIsCounted(w, es, id);
    RampIsExact(w, es, id);
    if Days(from, last) < day {
      NoGrantsYet(w, es, id, from, day);
    }
    WindowMoves(w.cfg, r0, After(w, es).recs[id], if day == 0 then r0.usedToday else 0,
                GrantsOn(w, es, id, from, day), last, now);
  }

  /** The identity was last reported reachable, its pair is not kept out, and its cap for the day is not used up. */
  ghost predicate Available(w: World, es: seq<Event>, id: string, dest: string, now: int)
    requires w.Valid() && id in w.recs
  {
    var r0 := w.recs[id];
    var day := Days(r0.lastReset, now);
    var cap := CapOn(w.cfg, r0.state == Warming, r0.warmupStage, day);
    && OnlineAfter(r0.online, es, id)
    && !Out(w.cfg, es, id, dest, now)
    && (cap > 0 ==> (if day == 0 then r0.usedToday else 0) + GrantsOn(w, es, id, r0.lastReset, day) < cap)
  }

  lemma ReconcilingKeepsPair(cfg: Config, r: Record, dest: string, now: int)
    requires cfg.Valid()
    ensures CircuitOf(Reconciled(cfg, r, now), dest) == CircuitOf(r, dest) && Reconciled(cfg, r, now).online == r.online
  {
    ResetsClosedForm(cfg, Recovered(r, now), now);
  }

  lemma {:induction false} SameResets(a: Config, b: Config, r: Record, now: int)
    requires a.stages == b.stages
    ensures DayResets(a, r, now) == DayResets(b, r, now)
    decreases now - r.lastReset
  {
    if now - r.lastReset >= DAY {
      SameResets(a, b, DayReset(a, r), now);
    }
  }

  /**
   When an identity that has not been withdrawn is eligible, read off the history alone: it was last
   reported reachable, the pair has not failed up to the threshold with the last failure within the
   cool-down, and it has been handed out less often today than the cap of its day on the ramp allows.
   */
  lemma EligibleIff(w: World, es: seq<Event>, id: string, dest: string, now: int)
    requires w.Valid() && id in w.recs && Serving(w.recs[id]) && OnRamp(w.cfg, w.recs[id]) && LeftAlone(w, es, id)
    requires CircuitOf(w.recs[id], dest).state == Closed && CircuitOf(w.recs[id], dest).failures == 0
    requires SteadyBreakers(es, w.cfg.circuitThreshold) && Between(es, w.recs[id].lastReset, now)
    ensures var v := After(w, es);
            Eligible(v.cfg, Reconciled(v.cfg, v.recs[id], now), dest, now) <==> Available(w, es, id, dest, now)
  {
    var v := After(w, es);
    ConfigKept(w, es);
    SameResets(v.cfg, w.cfg, Recovered(v.recs[id], now), now);
    UseOnDay(w, es, id, now);
    LabelsAreLatest(w, es, id);
    BreakerIsOutIff(w, es, id, dest, now);
    ReconcilingKeepsPair(w.cfg, v.recs[id], dest, now);
    EligibleOnDay(v.cfg, w.recs[id], Reconciled(w.cfg, v.recs[id], now), dest, now, Days(w.recs[id].lastReset, now));
  }

  lemma EligibleOnDay(cfg: Config, r0: Record, q: Record, dest: string, now: int, day: nat)
    requires cfg.Valid() && Serving(r0) && OnRamp(cfg, r0) && Climbed(cfg, r0, q, day)
    ensures var cap := CapOn(cfg, r0.state == Warming, r0.warmupStage, day);
            Eligible(cfg, q, dest, now) <==>
            q.online && Allows(CircuitOf(q, dest), now) && (cap > 0 ==> q.usedToday < cap)
  {
  }

  /** So for a newcomer, on which everything starts from nothing. */
  lemma NewcomerEligibleIff(w: World, es: seq<Event>, id: string, spec: Spec, start: int, dest: string, now: int)
    requires w.Valid() && id in w.recs && Newcomer(w.recs[id], spec, start) && LeftAlone(w, es, id)
    requires SteadyBreakers(es, w.cfg.circuitThreshold) && Between(es, start, now)
    ensures var v, day := After(w, es), Days(start, now);
            var cap := CapOn(w.cfg, spec.warmUp, 0, day);
            Eligible(v.cfg, Reconciled(v.cfg, v.recs[id], now), dest, now) <==>
            && OnlineAfter(true, es, id) && !Out(w.cfg, es, id, dest, now)
            && (cap > 0 ==> GrantsOn(w, es, id, start, day) < cap)
  {
    assert CircuitOf(w.recs[id], dest).state == Closed;
    EligibleIff(w, es, id, dest, now);
  }

  /**
   Enable puts an identity back at the first stage with a clean streak, whatever it was before; its
   window, its use today and its breakers go on.
   */
  lemma EnabledRestarts(w: World, id: string, es: seq<Event>, now: int)
    requires w.Valid() && id in w.recs
    ensures LeftAlone(Step(w, Enable(id)), es, id) && Between(es, w.recs[id].lastReset, now) ==>
              var v, r := Step(w, Enable(id)), w.recs[id];
              var q, day := Reconciled(v.cfg, After(v, es).recs[id], now), Days(r.lastReset, now);
              && q.state == (if day < |w.cfg.stages| then Warming else Active)
              && (q.state == Warming ==> q.warmupStage == day)
              && q.usedToday == (if day == 0 then r.usedToday else 0) + GrantsOn(v, es, id, r.lastReset, day)
              && After(v, es).recs[id].blockStreak == FeedbackStreak(0, id, es)
  {
    var v := Step(w, Enable(id));
    if LeftAlone(v, es, id) && Between(es, w.recs[id].lastReset, now) {
      UseOnDay(v, es, id, now);
      RampIsExact(v, es, id);
    }
  }

  // ---------------------------------------------------------------- thresholds and defaults

  /** The breakers' threshold in force after a run. */
  function BreakerThresholdAfter(threshold: int, es: seq<Event>): int {
    if es == [] then threshold
    else
      var rest, e := BreakerThresholdAfter(threshold, es[..|es| - 1]), es[|es| - 1];
      if e.SetThresholds? && e.circuit > 0 then e.circuit else rest
  }

  /** Both thresholds are the last positive ones set, and everything else stays as configured. */
  lemma {:induction false} ThresholdsAreLatest(w: World, es: seq<Event>)
    requires w.Valid()
    ensures After(w, es).cfg ==
            w.cfg.(quarantineThreshold := ThresholdAfter(w.cfg.quarantineThreshold, es),
                   circuitThreshold := BreakerThresholdAfter(w.cfg.circuitThreshold, es))
  {
    if es != [] {
      ThresholdsAreLatest(w, es[..|es| - 1]);
      StepConfig(After(w, es[..|es| - 1]), es[|es| - 1]);
      ThresholdStep(After(w, es[..|es| - 1]), es[|es| - 1]);
      ThresholdExact(w, es);
    }
  }

  /** The server's pool: the identity "direct", and no settings but the defaults. */
  function ServerPool(helo: string, mailFrom: string, start: int): World {
    Fresh(Defaulted(Config(0.0, 0, 0, 0, 0, [], 0)), [Spec("direct", helo, mailFrom, false)], start)
  }

  /**
   What the defaults mean for the server's own identity: it serves from the first day without a cap,
   a destination loses it for 15 minutes after three failures in a row, and nothing else does as long
   as it is not withdrawn, which takes five blocks in a row.
   */
  lemma DirectServesIff(helo: string, mailFrom: string, start: int, es: seq<Event>, dest: string, now: int)
    requires SteadyBreakers(es, 3) && Between(es, start, now) && NoReload(es, "direct")
    requires forall i :: 0 <= i < |es| ==> es[i] != Enable("direct") && !(es[i].Disable? && es[i].id == "direct")
    requires !Ends(5, 0, "direct", es)
    ensures ServerPool(helo, mailFrom, start).Valid() && "direct" in ServerPool(helo, mailFrom, start).recs
    ensures var v := After(ServerPool(helo, mailFrom, start), es);
            && Score(v.recs["direct"], dest) == ScoreAfter(0.3, 1.0, KindsIn(es, "direct", dest))
            && (Eligible(v.cfg, Reconciled(v.cfg, v.recs["direct"], now), dest, now) <==>
            && OnlineAfter(true, es, "direct")
            && !(&& FailuresSince(0, "direct", dest, es) >= 3 && LastFailure(es, "direct", dest).Some?
                 && now <= LastFailure(es, "direct", dest).value + 900_000_000_000))
  {
    var specs := [Spec("direct", helo, mailFrom, false)];
    var w := ServerPool(helo, mailFrom, start);
    NewPool(Defaulted(Config(0.0, 0, 0, 0, 0, [], 0)), specs, start, 0);
    NewcomerScore(w, es, "direct", specs[0], start, dest);
    NewcomerEligibleIff(w, es, "direct", specs[0], start, dest, now);
  }

  /** An identity that asks to warm up gets the default ramp: 50, 200, 1000 and 5000 probes, a day each. */
  lemma DefaultRamp(day: nat)
    ensures CapOn(Defaulted(Config(0.0, 0, 0, 0, 0, [], 0)), true, 0, day) ==
            if day == 0 then 50 else if day == 1 then 200 else if day == 2 then 1000 else if day == 3 then 5000 else 0
  {
  }

  /** By default a quarantine ends an hour after it began, and no sooner. */
  lemma DefaultQuarantine(w: World, id: string, reason: string, t: int, now: int)
    requires w.Valid() && id in w.recs && w.cfg == Defaulted(Config(0.0, 0, 0, 0, 0, [], 0))
    ensures Withdrawn(Reconciled(w.cfg, Step(w, Quarantine(id, reason, t)).recs[id], now)) <==>
            now <= t + 3_600_000_000_000
  {
    ResetsClosedForm(w.cfg, Recovered(Step(w, Quarantine(id, reason, t)).recs[id], now), now);
  }

  /** By default a withdrawal lasts an hour. */
  lemma DefaultWithdrawal(w: World, es: seq<Event>, id: string, i: nat, j: nat, t: int)
    requires w.Valid() && id in w.recs && i < j < |es| && ClockForward(es) && Withdraws(w, es, i, id, t)
    requires w.cfg == Defaulted(Config(0.0, 0, 0, 0, 0, [], 0))
    requires forall k :: i < k < j ==> !Reloads(es[k], id) && es[k] != Enable(id)
    requires es[j].Binding? && es[j].now <= t + 3_600_000_000_000
    ensures HandedAt(w, es, j) != Some(id)
  {
    NoProbeWhileQuarantined(w, es, id, i, j, t);
  }
}
