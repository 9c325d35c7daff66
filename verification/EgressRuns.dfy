/**
 Safety over whole runs of the egress manager: a withdrawn identity is not probed through,
 an open breaker keeps its pair out of service, and the counters behind both decisions are
 exact. A run is any sequence of manager calls; the clock never goes back.
 */
module EgressRuns {
  import opened Common
  import opened Egress
  import opened EgressRouting

  function After(w: World, es: seq<Event>): (w': World)
    requires w.Valid()
    ensures w'.Valid() && w.recs.Keys <= w'.recs.Keys
  {
    if es == [] then w else Step(After(w, es[..|es| - 1]), es[|es| - 1])
  }

  /** The identity handed out by event `i` of a run. */
  function HandedAt(w: World, es: seq<Event>, i: nat): Option<string>
    requires w.Valid() && i < |es|
  {
    Handed(After(w, es[..i]), es[i])
  }

  ghost predicate ClockForward(es: seq<Event>) {
    forall i, j :: 0 <= i <= j < |es| && Timed(es[i]) && Timed(es[j]) ==> es[i].now <= es[j].now
  }

  /** No Restore of the run names `id`. */
  ghost predicate NoReload(es: seq<Event>, id: string) {
    forall i :: 0 <= i < |es| ==> !Reloads(es[i], id)
  }

  ghost predicate FixedThresholds(es: seq<Event>) {
    forall i :: 0 <= i < |es| ==> !es[i].SetThresholds?
  }

  /** Only SetThresholds touches the configuration, and only the two thresholds. */
  lemma StepConfig(w: World, e: Event)
    requires w.Valid()
    ensures var c := Step(w, e).cfg;
            && c == w.cfg.(quarantineThreshold := c.quarantineThreshold, circuitThreshold := c.circuitThreshold)
            && (!e.SetThresholds? ==> c == w.cfg)
  {
  }

  lemma {:induction false} ConfigKept(w: World, es: seq<Event>)
    requires w.Valid()
    ensures var c := After(w, es).cfg;
            && c == w.cfg.(quarantineThreshold := c.quarantineThreshold, circuitThreshold := c.circuitThreshold)
            && (FixedThresholds(es) ==> c == w.cfg)
  {
    if es != [] {
      ConfigKept(w, es[..|es| - 1]);
      StepConfig(After(w, es[..|es| - 1]), es[|es| - 1]);
    }
  }

  lemma AfterNext(w: World, es: seq<Event>, i: nat)
    requires w.Valid() && i < |es|
    ensures After(w, es[..i + 1]) == Step(After(w, es[..i]), es[i])
  {
    assert es[..i + 1][..i] == es[..i];
  }

  // ---------------------------------------------------------------- block streaks

  /** Consecutive Blocked signals for `id`, continuing from `start`. */
  function Streak(start: nat, id: string, signals: seq<Signal>): nat {
    if signals == [] then start
    else
      var rest, s := Streak(start, id, signals[..|signals| - 1]), signals[|signals| - 1];
      if s.egressId != id then rest
      else if s.kind == Blocked then rest + 1
      else if Clean(s.kind) then 0
      else rest
  }

  /** Signal `k` is a block of `id` that finds or brings the streak at the threshold. */
  ghost predicate ReachesAt(threshold: int, start: nat, id: string, signals: seq<Signal>, k: nat) {
    k < |signals| && signals[k].egressId == id && signals[k].kind == Blocked &&
    Streak(start, id, signals[..k + 1]) >= threshold
  }

  ghost predicate Reaches(threshold: int, start: nat, id: string, signals: seq<Signal>) {
    exists k: nat :: ReachesAt(threshold, start, id, signals, k)
  }

  lemma ReachesPrefix(threshold: int, start: nat, id: string, signals: seq<Signal>, n: nat, k: nat)
    requires k < n <= |signals|
    ensures ReachesAt(threshold, start, id, signals[..n], k) <==> ReachesAt(threshold, start, id, signals, k)
  {
    assert signals[..n][..k + 1] == signals[..k + 1];
  }

  lemma ReachesLast(threshold: int, start: nat, id: string, signals: seq<Signal>)
    requires signals != []
    ensures var n := |signals| - 1;
            Reaches(threshold, start, id, signals) <==>
              || Reaches(threshold, start, id, signals[..n])
              || (signals[n].egressId == id && signals[n].kind == Blocked && Streak(start, id, signals) >= threshold)
  {
    var n := |signals| - 1;
    assert signals[..n + 1] == signals;
    forall k: nat | k < n {
      ReachesPrefix(threshold, start, id, signals, n, k);
    }
    assert ReachesAt(threshold, start, id, signals, n) <==>
             signals[n].egressId == id && signals[n].kind == Blocked && Streak(start, id, signals) >= threshold;
  }

  /** Feedback withdraws an identity exactly when its streak of blocks reaches the threshold. */
  lemma {:induction false} EmitWithdrawsIff(cfg: Config, r: Record, id: string, signals: seq<Signal>, now: int)
    ensures var r' := SignalledAll(cfg, r, id, signals, now);
            var hit := Reaches(cfg.quarantineThreshold, r.blockStreak, id, signals);
            && r'.blockStreak == Streak(r.blockStreak, id, signals)
            && r'.state == (if hit then Quarantined else r.state)
            && r'.quarantinedUntil == (if hit then now + cfg.quarantineCooldown else r.quarantinedUntil)
            && r'.warmupStage == r.warmupStage && r'.usedToday == r.usedToday && r'.lastReset == r.lastReset
            && r'.online == r.online
  {
    if signals != [] {
      EmitWithdrawsIff(cfg, r, id, signals[..|signals| - 1], now);
      ReachesLast(cfg.quarantineThreshold, r.blockStreak, id, signals);
    }
  }

  /** Blocked signals for `id` since its last clean answer, Enable or quarantine expiry. */
  function BlocksSince(w: World, es: seq<Event>, id: string): nat
    requires w.Valid() && id in w.recs
  {
    if es == [] then w.recs[id].blockStreak
    else
      var n := |es| - 1;
      var rest, r := BlocksSince(w, es[..n], id), After(w, es[..n]).recs[id];
      match es[n]
      case Emit(signals, now) => Streak(rest, id, signals)
      case Enable(x) => if x == id then 0 else rest
      case Binding(dest, now) => if r.state == Quarantined && now > r.quarantinedUntil then 0 else rest
      case _ => rest
  }

  lemma BlockStreakStep(cfg: Config, r: Record, id: string, e: Event, handed: bool)
    requires cfg.Valid() && !Reloads(e, id)
    ensures RecordStep(cfg, r, id, e, handed).blockStreak ==
            if e.Emit? then Streak(r.blockStreak, id, e.signals)
            else if e == Enable(id) then 0
            else if e.Binding? && r.state == Quarantined && e.now > r.quarantinedUntil then 0
            else r.blockStreak
  {
    if e.Emit? {
      EmitWithdrawsIff(cfg, r, id, e.signals, e.now);
    } else if e.Binding? {
      ResetsClosedForm(cfg, Recovered(r, e.now), e.now);
    } else if e.Restore? {
      RestoreElsewhere(r, id, e.states);
    }
  }

  lemma {:induction false} BlockStreakExact(w: World, es: seq<Event>, id: string)
    requires w.Valid() && id in w.recs && NoReload(es, id)
    ensures After(w, es).recs[id].blockStreak == BlocksSince(w, es, id)
  {
    if es != [] {
      var n := |es| - 1;
      var v := After(w, es[..n]);
      BlockStreakExact(w, es[..n], id);
      StepAt(v, es[n], id);
      BlockStreakStep(v.cfg, v.recs[id], id, es[n], Handed(v, es[n]) == Some(id));
    }
  }

  // ---------------------------------------------------------------- withdrawal

  /** Out of service at least up to and including time `until`. */
  predicate Held(r: Record, until: int) {
    r.state == Disabled || (r.state == Quarantined && r.quarantinedUntil >= until)
  }

  lemma HeldStep(cfg: Config, r: Record, id: string, e: Event, handed: bool, until: int)
    requires cfg.Valid() && Held(r, until) && !Reloads(e, id) && e != Enable(id)
    requires Timed(e) ==> until - cfg.quarantineCooldown <= e.now
    requires e.Binding? ==> e.now <= until
    ensures Held(RecordStep(cfg, r, id, e, handed), until)
    ensures e.Binding? ==> Withdrawn(Reconciled(cfg, r, e.now))
  {
    match e
    case Binding(dest, now) =>
      ResetsClosedForm(cfg, Recovered(r, now), now);
      LookingIsHarmless(cfg, Reconciled(cfg, r, now), dest, now);
    case Emit(signals, now) =>
      EmitWithdrawsIff(cfg, r, id, signals, now);
    case Restore(states) =>
      RestoreElsewhere(r, id, states);
    case _ =>
  }

  /** The event does not reinstate `id`, and comes within the cool-down that ends at `until`. */
  predicate Harmless(e: Event, id: string, until: int, cooldown: int) {
    && !Reloads(e, id) && e != Enable(id)
    && (Timed(e) ==> until - cooldown <= e.now)
    && (e.Binding? ==> e.now <= until)
  }

  lemma HeldAfter(w: World, e: Event, id: string, until: int)
    requires w.Valid() && id in w.recs && Held(w.recs[id], until)
    requires Harmless(e, id, until, w.cfg.quarantineCooldown)
    ensures Held(Step(w, e).recs[id], until)
  {
    StepAt(w, e, id);
    HeldStep(w.cfg, w.recs[id], id, e, Handed(w, e) == Some(id), until);
  }

  lemma HeldNext(w: World, es: seq<Event>, i: nat, id: string, until: int)
    requires w.Valid() && id in w.recs && i < |es| && Held(After(w, es[..i]).recs[id], until)
    requires Harmless(es[i], id, until, w.cfg.quarantineCooldown)
    ensures Held(After(w, es[..i + 1]).recs[id], until)
  {
    ConfigKept(w, es[..i]);
    HeldAfter(After(w, es[..i]), es[i], id, until);
    AfterNext(w, es, i);
  }

  lemma {:induction false} StaysHeld(w: World, es: seq<Event>, id: string, i: nat, j: nat, until: int)
    requires w.Valid() && id in w.recs && i <= j <= |es|
    requires forall k :: i <= k < j ==> Harmless(es[k], id, until, w.cfg.quarantineCooldown)
    requires Held(After(w, es[..i]).recs[id], until)
    ensures Held(After(w, es[..j]).recs[id], until)
    decreases j
  {
    if i < j {
      StaysHeld(w, es, id, i, j - 1, until);
      HeldNext(w, es, j - 1, id, until);
    }
  }

  /** Event `i` withdraws `id` at time `t`: an explicit quarantine, or feedback reaching the threshold. */
  ghost predicate Withdraws(w: World, es: seq<Event>, i: nat, id: string, t: int)
    requires w.Valid() && id in w.recs && i < |es|
  {
    match es[i]
    case Quarantine(x, reason, now) => x == id && now == t
    case Emit(signals, now) =>
      var v := After(w, es[..i]);
      now == t && Reaches(v.cfg.quarantineThreshold, v.recs[id].blockStreak, id, signals)
    case _ => false
  }

  lemma WithdrawnIsHeld(w: World, es: seq<Event>, i: nat, id: string, t: int)
    requires w.Valid() && id in w.recs && i < |es| && Withdraws(w, es, i, id, t)
    ensures Held(After(w, es[..i + 1]).recs[id], t + w.cfg.quarantineCooldown)
  {
    var v := After(w, es[..i]);
    AfterNext(w, es, i);
    ConfigKept(w, es[..i]);
    StepAt(v, es[i], id);
    if es[i].Emit? {
      EmitWithdrawsIff(v.cfg, v.recs[id], id, es[i].signals, t);
    }
  }

  lemma HeldIsNotHanded(w: World, id: string, dest: string, now: int, until: int)
    requires w.Valid() && id in w.recs && Held(w.recs[id], until) && now <= until
    ensures Handed(w, Binding(dest, now)) != Some(id)
  {
    StepAt(w, Binding(dest, now), id);
    ResetsClosedForm(w.cfg, Recovered(w.recs[id], now), now);
  }

  /**
   Quarantine safety: once an identity is withdrawn at `t`, no Binding hands it out at any
   time up to `t` plus the cool-down, whatever else happens, unless it is enabled again.
   */
  lemma NoProbeWhileQuarantined(w: World, es: seq<Event>, id: string, i: nat, j: nat, t: int)
    requires w.Valid() && id in w.recs && i < j < |es| && ClockForward(es)
    requires Withdraws(w, es, i, id, t)
    requires forall k :: i < k < j ==> !Reloads(es[k], id) && es[k] != Enable(id)
    requires es[j].Binding? && es[j].now <= t + w.cfg.quarantineCooldown
    ensures HandedAt(w, es, j) != Some(id)
  {
    var until := t + w.cfg.quarantineCooldown;
    WithdrawnIsHeld(w, es, i, id, t);
    assert Timed(es[i]) && es[i].now == t;
    StaysHeld(w, es, id, i + 1, j, until);
    HeldIsNotHanded(After(w, es[..j]), id, es[j].dest, es[j].now, until);
  }

  // ---------------------------------------------------------------- disabling

  /** The streak over a run's feedback alone. */
  function FeedbackStreak(start: nat, id: string, es: seq<Event>): nat {
    if es == [] then start
    else
      var rest := FeedbackStreak(start, id, es[..|es| - 1]);
      if es[|es| - 1].Emit? then Streak(rest, id, es[|es| - 1].signals) else rest
  }

  /** The quarantine threshold in force after a run. */
  function ThresholdAfter(threshold: int, es: seq<Event>): int {
    if es == [] then threshold
    else
      var rest, e := ThresholdAfter(threshold, es[..|es| - 1]), es[|es| - 1];
      if e.SetThresholds? && e.quarantine > 0 then e.quarantine else rest
  }

  lemma {:induction false} ThresholdExact(w: World, es: seq<Event>)
    requires w.Valid()
    ensures After(w, es).cfg.quarantineThreshold == ThresholdAfter(w.cfg.quarantineThreshold, es)
  {
    if es != [] {
      ThresholdExact(w, es[..|es| - 1]);
      StepConfig(After(w, es[..|es| - 1]), es[|es| - 1]);
    }
  }

  /** Event `i` ends a disabling: an explicit quarantine, or feedback that carries the streak to the threshold. */
  ghost predicate EndsAt(threshold: int, start: nat, id: string, es: seq<Event>, i: nat) {
    && i < |es|
    && (|| (es[i].Quarantine? && es[i].id == id)
        || (es[i].Emit? && Reaches(ThresholdAfter(threshold, es[..i]), FeedbackStreak(start, id, es[..i]), id,
                                   es[i].signals)))
  }

  ghost predicate Ends(threshold: int, start: nat, id: string, es: seq<Event>) {
    exists i: nat :: EndsAt(threshold, start, id, es, i)
  }

  lemma EndsAtPrefix(threshold: int, start: nat, id: string, es: seq<Event>, n: nat, i: nat)
    requires i < n <= |es|
    ensures EndsAt(threshold, start, id, es[..n], i) <==> EndsAt(threshold, start, id, es, i)
  {
    assert es[..n][..i] == es[..i];
  }

  lemma EndsLast(threshold: int, start: nat, id: string, es: seq<Event>)
    requires es != []
    ensures var n := |es| - 1;
            Ends(threshold, start, id, es) <==>
            Ends(threshold, start, id, es[..n]) || EndsAt(threshold, start, id, es, n)
  {
    var n := |es| - 1;
    if Ends(threshold, start, id, es[..n]) {
      var i: nat :| EndsAt(threshold, start, id, es[..n], i);
      EndsAtPrefix(threshold, start, id, es, n, i);
    }
    if Ends(threshold, start, id, es) {
      var i: nat :| EndsAt(threshold, start, id, es, i);
      if i < n {
        EndsAtPrefix(threshold, start, id, es, n, i);
      }
    }
  }

  /** How an event that neither enables nor restores an identity can move it into or out of Disabled. */
  lemma DisabledStep(cfg: Config, r: Record, id: string, e: Event, handed: bool)
    requires cfg.Valid() && !Reloads(e, id) && e != Enable(id)
    ensures var r' := RecordStep(cfg, r, id, e, handed);
            var hit := || (e.Quarantine? && e.id == id)
                       || (e.Emit? && Reaches(cfg.quarantineThreshold, r.blockStreak, id, e.signals));
            && (r.state == Disabled ==> (r'.state == Disabled <==> !hit))
            && (r.state == Disabled && !hit ==>
                  r'.blockStreak == if e.Emit? then Streak(r.blockStreak, id, e.signals) else r.blockStreak)
            && (r.state != Disabled && !(e.Disable? && e.id == id) ==> r'.state != Disabled)
  {
    if e.Emit? {
      EmitWithdrawsIff(cfg, r, id, e.signals, e.now);
    } else if e.Binding? {
      ResetsClosedForm(cfg, Recovered(r, e.now), e.now);
      LookingIsHarmless(cfg, Reconciled(cfg, r, e.now), e.dest, e.now);
    } else if e.Restore? {
      RestoreElsewhere(r, id, e.states);
    }
  }

  /** Disabled at every moment of the run. */
  ghost predicate StaysDisabled(w: World, es: seq<Event>, id: string)
    requires w.Valid() && id in w.recs
  {
    && (es != [] ==> StaysDisabled(w, es[..|es| - 1], id))
    && After(w, es).recs[id].state == Disabled
  }

  lemma DisabledNext(w: World, es: seq<Event>, id: string)
    requires w.Valid() && id in w.recs && es != []
    requires !Reloads(es[|es| - 1], id) && es[|es| - 1] != Enable(id)
    ensures var n := |es| - 1;
            var r, r' := After(w, es[..n]).recs[id], After(w, es).recs[id];
            var start := w.recs[id].blockStreak;
            && (r.state == Disabled && r.blockStreak == FeedbackStreak(start, id, es[..n]) ==>
                  && (r'.state == Disabled <==> !EndsAt(w.cfg.quarantineThreshold, start, id, es, n))
                  && (r'.state == Disabled ==> r'.blockStreak == FeedbackStreak(start, id, es)))
            && (r.state != Disabled && !(es[n].Disable? && es[n].id == id) ==> r'.state != Disabled)
  {
    var n := |es| - 1;
    var v := After(w, es[..n]);
    ThresholdExact(w, es[..n]);
    StepAt(v, es[n], id);
    DisabledStep(v.cfg, v.recs[id], id, es[n], Handed(v, es[n]) == Some(id));
  }

  /**
   Disable is documented as lasting until Enable. Over a run without Enable it lasts throughout
   exactly if no event quarantines the identity and no feedback carries its block streak to the
   threshold then in force: either makes it a quarantined identity, which recovers by itself. In
   the end it is disabled exactly if that is so, unless it was disabled again in between.
   */
  lemma {:induction false} DisabledStaysIff(w: World, es: seq<Event>, id: string)
    requires w.Valid() && id in w.recs && w.recs[id].state == Disabled
    requires NoReload(es, id) && forall i :: 0 <= i < |es| ==> es[i] != Enable(id)
    ensures var start := w.recs[id].blockStreak;
            var ended := Ends(w.cfg.quarantineThreshold, start, id, es);
            && (StaysDisabled(w, es, id) <==> !ended)
            && (!ended ==> After(w, es).recs[id].blockStreak == FeedbackStreak(start, id, es))
            && ((forall i :: 0 <= i < |es| ==> !(es[i].Disable? && es[i].id == id)) ==>
                  (After(w, es).recs[id].state == Disabled <==> !ended))
  {
    if es != [] {
      DisabledStaysIff(w, es[..|es| - 1], id);
      EndsLast(w.cfg.quarantineThreshold, w.recs[id].blockStreak, id, es);
      DisabledNext(w, es, id);
    }
  }
}
