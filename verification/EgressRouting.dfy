/** What one Binding does: the daily-reset loop in closed form, and a correct choice of identity. */
module EgressRouting {
  import opened Common
  import opened Egress

  // ---------------------------------------------------------------- daily resets

  /** How many whole days of resets are due. */
  function DaysDue(r: Record, now: int): nat {
    if now - r.lastReset < DAY then 0 else (now - r.lastReset) / DAY
  }

  function StageAfter(stage: nat, days: nat, stages: nat): nat {
    if days == 0 then stage
    else if stage >= stages then stage + 1
    else if stage + days >= stages then stages
    else stage + days
  }

  /**
   The reset loop in closed form, for any number of missed days: the window moves to the
   current day, the counter is cleared exactly when a day was due, and a warming identity
   climbs one stage a day until it is active.
   */
  lemma {:induction false} ResetsClosedForm(cfg: Config, r: Record, now: int)
    requires cfg.Valid()
    ensures var k, r' := DaysDue(r, now), DayResets(cfg, r, now);
            && r'.lastReset == r.lastReset + k * DAY
            && (k > 0 ==> 0 <= now - r'.lastReset) && now - r'.lastReset < DAY
            && r'.usedToday == (if k > 0 then 0 else r.usedToday)
            && r'.warmupStage ==
               (if r.state == Warming then StageAfter(r.warmupStage, k, |cfg.stages|) else r.warmupStage)
            && r'.state ==
               (if r.state == Warming && k > 0 && r.warmupStage + k >= |cfg.stages| then Active else r.state)
            && r' == r.(lastReset := r'.lastReset, usedToday := r'.usedToday,
                        warmupStage := r'.warmupStage, state := r'.state)
    decreases now - r.lastReset
  {
    if now - r.lastReset >= DAY {
      var r1 := DayReset(cfg, r);
      ResetsClosedForm(cfg, r1, now);
      assert DaysDue(r, now) == DaysDue(r1, now) + 1;
    }
  }

  /**
   A recovered identity "never goes straight to active" only while fewer days of resets are
   due than there are warm-up stages: past that, one reconcile takes it all the way.
   */
  lemma RecoveredIsActiveIff(cfg: Config, r: Record, now: int)
    requires cfg.Valid() && r.state == Quarantined && now > r.quarantinedUntil
    ensures Reconciled(cfg, r, now).state == Active <==> now - r.lastReset >= |cfg.stages| * DAY
    ensures Reconciled(cfg, r, now).state != Active ==> Reconciled(cfg, r, now).state == Warming
    ensures Reconciled(cfg, r, now).blockStreak == 0
  {
    ResetsClosedForm(cfg, Recovered(r, now), now);
    DaysAtLeast(r, now, |cfg.stages|);
  }

  lemma DaysAtLeast(r: Record, now: int, k: nat)
    requires k > 0
    ensures DaysDue(r, now) >= k <==> now - r.lastReset >= k * DAY
  {
    var gap := now - r.lastReset;
    if gap >= DAY {
      var q := gap / DAY;
      assert q * DAY <= gap < q * DAY + DAY;
      if q >= k {
        assert q * DAY >= k * DAY;
      } else {
        assert (q + 1) * DAY <= k * DAY;
      }
    } else {
      assert k * DAY >= DAY;
    }
  }

  lemma ReconciledTwice(cfg: Config, r: Record, now: int)
    requires cfg.Valid()
    ensures Reconciled(cfg, Reconciled(cfg, r, now), now) == Reconciled(cfg, r, now)
  {
    ResetsClosedForm(cfg, Recovered(r, now), now);
  }

  /** Reconciling the pool reconciles every identity once, even if the order repeats some. */
  lemma {:induction false} ReconcileAllAt(cfg: Config, order: seq<string>, recs: Records, now: int, id: string)
    requires cfg.Valid() && Covers(recs, order) && id in recs
    ensures ReconcileAll(cfg, order, recs, now)[id] ==
              if id in order then Reconciled(cfg, recs[id], now) else recs[id]
  {
    if order != [] {
      var n := |order| - 1;
      ReconcileAllAt(cfg, order[..n], recs, now, id);
      if order[n] == id {
        ReconciledTwice(cfg, recs[id], now);
      }
    }
  }

  // ---------------------------------------------------------------- the scan

  /** Looking does not change who is eligible, nor how an identity ranks. */
  lemma LookingIsHarmless(cfg: Config, r: Record, dest: string, now: int)
    requires cfg.Valid()
    ensures Eligible(cfg, LookedAt(r, dest, now), dest, now) <==> Eligible(cfg, r, dest, now)
    ensures LookedAt(LookedAt(r, dest, now), dest, now) == LookedAt(r, dest, now)
    ensures LookedAt(r, dest, now) == r.(circuits := LookedAt(r, dest, now).circuits)
    ensures forall d :: d != dest ==> CircuitOf(LookedAt(r, dest, now), d) == CircuitOf(r, d)
  {
  }

  lemma {:induction false} ScanAt(cfg: Config, order: seq<string>, recs: Records, dest: string, now: int, id: string)
    requires cfg.Valid() && Covers(recs, order) && id in recs
    ensures Scan(cfg, order, recs, dest, now).0[id] ==
              if id in order then LookedAt(recs[id], dest, now) else recs[id]
  {
    if order != [] {
      var n := |order| - 1;
      ScanAt(cfg, order[..n], recs, dest, now, id);
      LookingIsHarmless(cfg, recs[id], dest, now);
    }
  }

  /**
   `order[i]` is the right choice: eligible, beaten by no other eligible identity, and the
   first of the order among equals.
   */
  ghost predicate IsPick(cfg: Config, order: seq<string>, recs: Records, dest: string, now: int, i: nat)
    requires cfg.Valid() && Covers(recs, order)
  {
    && i < |order|
    && Eligible(cfg, recs[order[i]], dest, now)
    && (forall j :: 0 <= j < i && Eligible(cfg, recs[order[j]], dest, now) ==>
          Better(recs[order[i]], recs[order[j]], dest))
    && (forall j :: i <= j < |order| && Eligible(cfg, recs[order[j]], dest, now) ==>
          !Better(recs[order[j]], recs[order[i]], dest))
  }

  ghost predicate Chosen(cfg: Config, order: seq<string>, recs: Records, dest: string, now: int, best: Option<string>)
    requires cfg.Valid() && Covers(recs, order)
  {
    match best
    case None => forall j :: 0 <= j < |order| ==> !Eligible(cfg, recs[order[j]], dest, now)
    case Some(id) => exists i: nat :: IsPick(cfg, order, recs, dest, now, i) && order[i] == id
  }

  /** A step of the scan compares the records as they were before any look at them. */
  lemma ScanCompares(cfg: Config, order: seq<string>, recs: Records, dest: string, now: int)
    requires cfg.Valid() && order != [] && Covers(recs, order)
    ensures var n := |order| - 1;
            var best := Scan(cfg, order[..n], recs, dest, now).1;
            Scan(cfg, order, recs, dest, now).1 ==
            if && Eligible(cfg, recs[order[n]], dest, now)
               && (best.None? || Better(recs[order[n]], recs[best.value], dest))
            then Some(order[n]) else best
  {
    var n := |order| - 1;
    var (rs, best) := Scan(cfg, order[..n], recs, dest, now);
    ScanAt(cfg, order[..n], recs, dest, now, order[n]);
    LookingIsHarmless(cfg, recs[order[n]], dest, now);
    if best.Some? {
      ScanAt(cfg, order[..n], recs, dest, now, best.value);
      LookingIsHarmless(cfg, recs[best.value], dest, now);
    }
  }

  /**
   The scan mutates breakers as it looks, yet its choice is the right one for the records it
   started from: it fails exactly when nobody is eligible, and otherwise takes the highest
   score, then the lowest use, then the earliest identity.
   */
  lemma {:induction false} ScanChooses(cfg: Config, order: seq<string>, recs: Records, dest: string, now: int)
    requires cfg.Valid() && Covers(recs, order)
    ensures Chosen(cfg, order, recs, dest, now, Scan(cfg, order, recs, dest, now).1)
  {
    if order != [] {
      var n := |order| - 1;
      var before := order[..n];
      var best := Scan(cfg, before, recs, dest, now).1;
      ScanChooses(cfg, before, recs, dest, now);
      ScanCompares(cfg, order, recs, dest, now);
      ChoiceExtends(cfg, order, recs, dest, now, best);
    }
  }

  lemma ChoiceExtends(cfg: Config, order: seq<string>, recs: Records, dest: string, now: int, best: Option<string>)
    requires cfg.Valid() && order != [] && Covers(recs, order)
    requires best.Some? ==> best.value in recs
    requires Chosen(cfg, order[..|order| - 1], recs, dest, now, best)
    ensures var id := order[|order| - 1];
            Chosen(cfg, order, recs, dest, now,
                   if Eligible(cfg, recs[id], dest, now) && (best.None? || Better(recs[id], recs[best.value], dest))
                   then Some(id) else best)
  {
    var n := |order| - 1;
    if best.Some? {
      var i: nat :| IsPick(cfg, order[..n], recs, dest, now, i) && order[..n][i] == best.value;
      PickExtends(cfg, order, recs, dest, now, i);
    } else {
      assert forall j :: 0 <= j < n ==> order[..n][j] == order[j];
      assert Eligible(cfg, recs[order[n]], dest, now) ==> IsPick(cfg, order, recs, dest, now, n);
    }
  }

  lemma PickExtends(cfg: Config, order: seq<string>, recs: Records, dest: string, now: int, i: nat)
    requires cfg.Valid() && order != [] && Covers(recs, order)
    requires IsPick(cfg, order[..|order| - 1], recs, dest, now, i)
    ensures var n := |order| - 1;
            if Eligible(cfg, recs[order[n]], dest, now) && Better(recs[order[n]], recs[order[i]], dest)
            then IsPick(cfg, order, recs, dest, now, n)
            else IsPick(cfg, order, recs, dest, now, i)
  {
    var n := |order| - 1;
    assert forall j :: 0 <= j < n ==> order[..n][j] == order[j];
  }

  /** The identities' records as a Binding ranks them. */
  function Ranked(w: World, now: int): Records
    requires w.Valid()
  {
    ReconcileAll(w.cfg, w.order, w.recs, now)
  }

  lemma BindChooses(w: World, dest: string, now: int)
    requires w.Valid()
    ensures Chosen(w.cfg, w.order, Ranked(w, now), dest, now, Bind(w, dest, now).1)
  {
    ScanChooses(w.cfg, w.order, Ranked(w, now), dest, now);
  }

  /**
   Binding, for every pool: the choice is right for the reconciled records, only the chosen
   identity is charged, and a second scan at the same time finds the same identities eligible.
   */
  lemma BindingChooses(w: World, dest: string, now: int)
    requires w.Valid()
    ensures Chosen(w.cfg, w.order, Ranked(w, now), dest, now, Bind(w, dest, now).1)
    ensures forall id :: id in w.recs ==>
              var after := Bind(w, dest, now).0.recs[id];
              && after.usedToday ==
                 Reconciled(w.cfg, w.recs[id], now).usedToday + (if Bind(w, dest, now).1 == Some(id) then 1 else 0)
              && (Eligible(w.cfg, after.(usedToday := Reconciled(w.cfg, w.recs[id], now).usedToday), dest, now) <==>
                  Eligible(w.cfg, Reconciled(w.cfg, w.recs[id], now), dest, now))
  {
    var rs := Ranked(w, now);
    ScanChooses(w.cfg, w.order, rs, dest, now);
    forall id | id in w.recs
      ensures var after := Bind(w, dest, now).0.recs[id];
              && after.usedToday ==
                 Reconciled(w.cfg, w.recs[id], now).usedToday + (if Bind(w, dest, now).1 == Some(id) then 1 else 0)
              && (Eligible(w.cfg, after.(usedToday := Reconciled(w.cfg, w.recs[id], now).usedToday), dest, now) <==>
                  Eligible(w.cfg, Reconciled(w.cfg, w.recs[id], now), dest, now))
    {
      ReconcileAllAt(w.cfg, w.order, w.recs, now, id);
      ScanAt(w.cfg, w.order, rs, dest, now, id);
      LookingIsHarmless(w.cfg, rs[id], dest, now);
    }
  }

  // ---------------------------------------------------------------- one identity's view of an event

  function SignalledAll(cfg: Config, r: Record, id: string, signals: seq<Signal>, now: int): Record {
    if signals == [] then r
    else
      var n := |signals| - 1;
      var rest := SignalledAll(cfg, r, id, signals[..n], now);
      if signals[n].egressId == id then Signalled(cfg, rest, signals[n], now) else rest
  }

  lemma {:induction false} EmitAllAt(cfg: Config, recs: Records, signals: seq<Signal>, now: int, id: string)
    requires id in recs
    ensures EmitAll(cfg, recs, signals, now)[id] == SignalledAll(cfg, recs[id], id, signals, now)
  {
    if signals != [] {
      EmitAllAt(cfg, recs, signals[..|signals| - 1], now, id);
    }
  }

  function Bound(cfg: Config, r: Record, dest: string, now: int, handed: bool): Record {
    var r1 := LookedAt(Reconciled(cfg, r, now), dest, now);
    r1.(usedToday := r1.usedToday + if handed then 1 else 0)
  }

  /** The saved states of `id`, applied in turn. */
  function RestoredAll(r: Record, id: string, states: seq<Saved>): Record {
    if states == [] then r
    else
      var n := |states| - 1;
      var rest := RestoredAll(r, id, states[..n]);
      if states[n].id == id then Restored(rest, states[n]) else rest
  }

  lemma {:induction false} RestoredAt(recs: Records, states: seq<Saved>, id: string)
    requires id in recs
    ensures RestoreAll(recs, states)[id] == RestoredAll(recs[id], id, states)
  {
    if states != [] {
      RestoredAt(recs, states[..|states| - 1], id);
    }
  }

  /** The event overwrites the reputation of `id` with a saved one. */
  predicate Reloads(e: Event, id: string) {
    e.Restore? && exists i | 0 <= i < |e.states| :: e.states[i].id == id
  }

  lemma {:induction false} RestoreElsewhere(r: Record, id: string, states: seq<Saved>)
    requires forall i :: 0 <= i < |states| ==> states[i].id != id
    ensures RestoredAll(r, id, states) == r
  {
    if states != [] {
      RestoreElsewhere(r, id, states[..|states| - 1]);
    }
  }

  /** Breakers and reachability are not persisted, so Restore leaves them alone. */
  lemma {:induction false} RestoreSparesBreakers(r: Record, id: string, states: seq<Saved>)
    ensures RestoredAll(r, id, states).circuits == r.circuits && RestoredAll(r, id, states).online == r.online
  {
    if states != [] {
      RestoreSparesBreakers(r, id, states[..|states| - 1]);
    }
  }

  /** What an event does to the record of `id`, given whether `id` was handed out. */
  function RecordStep(cfg: Config, r: Record, id: string, e: Event, handed: bool): Record {
    match e
    case Binding(dest, now) => Bound(cfg, r, dest, now, handed)
    case Emit(signals, now) => SignalledAll(cfg, r, id, signals, now)
    case Enable(x) => if x == id then Enabled(r) else r
    case Disable(x, reason) => if x == id then Disabling(r, reason) else r
    case Quarantine(x, reason, now) => if x == id then Quarantining(cfg, r, now).(reason := reason) else r
    case SetOnline(x, online) => if x == id then r.(online := online) else r
    case Restore(states) => RestoredAll(r, id, states)
    case AddIdentity(spec, now) => if spec.id == id then r.(spec := spec) else r
    case SetThresholds(q, c) => r
  }

  /** Events act on each identity separately; only an eligible identity is ever handed out. */
  lemma StepAt(w: World, e: Event, id: string)
    requires w.Valid() && id in w.recs
    ensures Step(w, e).recs[id] == RecordStep(w.cfg, w.recs[id], id, e, Handed(w, e) == Some(id))
    ensures Handed(w, e) == Some(id) ==> Eligible(w.cfg, Reconciled(w.cfg, w.recs[id], e.now), e.dest, e.now)
  {
    match e
    case Binding(dest, now) =>
      BindAt(w, dest, now, id);
    case Emit(signals, now) =>
      EmitAllAt(w.cfg, w.recs, signals, now, id);
    case Restore(states) =>
      RestoredAt(w.recs, states, id);
    case _ =>
  }

  lemma BindAt(w: World, dest: string, now: int, id: string)
    requires w.Valid() && id in w.recs
    ensures Bind(w, dest, now).0.recs[id] ==
              Bound(w.cfg, w.recs[id], dest, now, Bind(w, dest, now).1 == Some(id))
    ensures Bind(w, dest, now).1 == Some(id) ==> Eligible(w.cfg, Reconciled(w.cfg, w.recs[id], now), dest, now)
  {
    var rs := Ranked(w, now);
    ReconcileAllAt(w.cfg, w.order, w.recs, now, id);
    ScanAt(w.cfg, w.order, rs, dest, now, id);
    ScanChooses(w.cfg, w.order, rs, dest, now);
  }
}
