/**
 Warm-up budgets over whole runs: how many probes an identity can be handed in one daily
 window, and over a whole warm-up, whatever the interleaving of calls.
 */
module EgressWarmup {
  import opened Common
  import opened Egress
  import opened EgressRouting
  import opened EgressRuns

  // ---------------------------------------------------------------- one daily window

  /** Event `e` hands out `id` in the window that began at `window`, while its cap is `cap`. */
  predicate GrantIn(w: World, e: Event, id: string, window: int, cap: int)
    requires w.Valid() && id in w.recs
  {
    Handed(w, e) == Some(id) &&
    var r := Reconciled(w.cfg, w.recs[id], e.now);
    r.lastReset == window && CapFor(w.cfg, r) == cap
  }

  function WindowGrants(w: World, es: seq<Event>, id: string, window: int, cap: int): nat
    requires w.Valid() && id in w.recs
  {
    if es == [] then 0
    else
      var n := |es| - 1;
      WindowGrants(w, es[..n], id, window, cap) + if GrantIn(After(w, es[..n]), es[n], id, window, cap) then 1 else 0
  }

  /** Counting use: the daily counter restarts only when the window moves on. */
  lemma WindowStep(w: World, e: Event, id: string)
    requires w.Valid() && id in w.recs && !Reloads(e, id)
    ensures var r, r' := w.recs[id], Step(w, e).recs[id];
            && r.lastReset <= r'.lastReset
            && (r'.lastReset == r.lastReset ==> r.usedToday <= r'.usedToday)
            && (Handed(w, e) == Some(id) ==>
                  var q := Reconciled(w.cfg, r, e.now);
                  r'.lastReset == q.lastReset && r'.usedToday == q.usedToday + 1 && UnderCap(w.cfg, q) &&
                  (q.lastReset == r.lastReset ==> q.usedToday == r.usedToday))
  {
    StepAt(w, e, id);
    if e.Emit? {
      EmitWithdrawsIff(w.cfg, w.recs[id], id, e.signals, e.now);
    } else if e.Binding? {
      ResetsClosedForm(w.cfg, Recovered(w.recs[id], e.now), e.now);
      LookingIsHarmless(w.cfg, Reconciled(w.cfg, w.recs[id], e.now), e.dest, e.now);
    } else if e.Restore? {
      RestoreElsewhere(w.recs[id], id, e.states);
    }
  }

  lemma {:induction false} WindowBudget(w: World, es: seq<Event>, id: string, window: int, cap: int)
    requires w.Valid() && id in w.recs && NoReload(es, id) && cap > 0
    ensures WindowGrants(w, es, id, window, cap) <= cap
    ensures var r := After(w, es).recs[id];
            && (r.lastReset < window ==> WindowGrants(w, es, id, window, cap) == 0)
            && (r.lastReset == window ==> WindowGrants(w, es, id, window, cap) <= r.usedToday)
  {
    if es != [] {
      var n := |es| - 1;
      WindowBudget(w, es[..n], id, window, cap);
      WindowStep(After(w, es[..n]), es[n], id);
    }
  }

  // ---------------------------------------------------------------- a cap of zero

  /** A pool with the one warming identity "". */
  function Lone(cfg: Config): World {
    Fresh(cfg, [Spec("", "", "", true)], 0)
  }

  function Repeat(e: Event, n: nat): seq<Event> {
    seq(n, i => e)
  }

  lemma LoneBinds(w: World, dest: string, now: int)
    requires w.Valid() && w.order == [""]
    ensures Handed(w, Binding(dest, now)) == Some("") <==>
              Eligible(w.cfg, Reconciled(w.cfg, w.recs[""], now), dest, now)
  {
    ReconcileAllAt(w.cfg, w.order, w.recs, now, "");
    BindingChooses(w, dest, now);
  }

  /** The lone identity stands at stage `s` of its ramp at time `now`, at the start of a day. */
  ghost predicate AtStage(w: World, s: nat, now: int) {
    && w.Valid() && w.order == [""] && s < |w.cfg.stages|
    && var q := Reconciled(w.cfg, w.recs[""], now);
       q.state == Warming && q.warmupStage == s && q.lastReset == now && q.online && q.circuits == map[]
  }

  lemma UncappedStep(w: World, s: nat, now: int)
    requires AtStage(w, s, now) && w.cfg.stages[s] <= 0
    ensures GrantIn(w, Binding("", now), "", now, w.cfg.stages[s])
    ensures AtStage(Step(w, Binding("", now)), s, now)
  {
    LoneBinds(w, "", now);
    StepAt(w, Binding("", now), "");
  }

  lemma {:induction false} UncappedRun(w: World, s: nat, now: int, n: nat)
    requires AtStage(w, s, now) && w.cfg.stages[s] <= 0
    ensures var es := Repeat(Binding("", now), n);
            && AtStage(After(w, es), s, now) && After(w, es).cfg == w.cfg
            && WindowGrants(w, es, "", now, w.cfg.stages[s]) == n
  {
    if n > 0 {
      var es := Repeat(Binding("", now), n);
      assert es[..n - 1] == Repeat(Binding("", now), n - 1);
      UncappedRun(w, s, now, n - 1);
      UncappedStep(After(w, es[..n - 1]), s, now);
    }
  }

  lemma LoneReaches(cfg: Config, s: nat)
    requires cfg.Valid() && s < |cfg.stages|
    ensures AtStage(Lone(cfg), s, s * DAY)
  {
    var w := Lone(cfg);
    assert w.order == [""] && w.recs == map["" := NewRecord(Spec("", "", "", true), 0)];
    DaysExactly(w.recs[""], s);
    ResetsClosedForm(cfg, w.recs[""], s * DAY);
  }

  lemma DaysExactly(r: Record, s: nat)
    requires r.lastReset == 0
    ensures DaysDue(r, s * DAY) == s
  {
    if s > 0 {
      DaysAtLeast(r, s * DAY, s);
      DaysAtLeast(r, s * DAY, s + 1);
    }
  }

  /** No run hands out more than `bound` probes in one window while the cap in force is `cap`. */
  ghost predicate CapBinds(cfg: Config, cap: int, bound: nat)
    requires cfg.Valid()
  {
    forall w: World, es, id, window ::
      w.cfg == cfg && w.Valid() && id in w.recs && NoReload(es, id) ==>
        WindowGrants(w, es, id, window, cap) <= bound
  }

  /**
   A warm-up stage limits what one daily window can hold exactly if its cap is positive, and
   then to that cap: a cap of zero or less is read as "unlimited", and no bound holds.
   */
  lemma StageCapBindsIff(cfg: Config, s: nat)
    requires cfg.Valid() && s < |cfg.stages|
    ensures (exists bound: nat :: CapBinds(cfg, cfg.stages[s], bound)) <==> cfg.stages[s] > 0
    ensures cfg.stages[s] > 0 ==> CapBinds(cfg, cfg.stages[s], cfg.stages[s])
  {
    var cap := cfg.stages[s];
    if cap > 0 {
      forall w: World, es, id, window | w.cfg == cfg && w.Valid() && id in w.recs && NoReload(es, id)
        ensures WindowGrants(w, es, id, window, cap) <= cap
      {
        WindowBudget(w, es, id, window, cap);
      }
      var bound: nat := cap;
      assert CapBinds(cfg, cap, bound);
    } else {
      forall bound: nat
        ensures !CapBinds(cfg, cap, bound)
      {
        LoneReaches(cfg, s);
        UncappedRun(Lone(cfg), s, s * DAY, bound + 1);
      }
    }
  }

  // ---------------------------------------------------------------- a whole warm-up

  function Sum(xs: seq<int>): int {
    if xs == [] then 0 else xs[0] + Sum(xs[1..])
  }

  ghost predicate Positive(xs: seq<int>) {
    forall i :: 0 <= i < |xs| ==> xs[i] > 0
  }

  lemma {:induction false} SumOfSuffix(xs: seq<int>, i: nat, j: nat)
    requires Positive(xs) && i <= j <= |xs|
    ensures 0 <= Sum(xs[j..]) <= Sum(xs[i..])
    decreases |xs| - i
  {
    if i < |xs| {
      assert xs[i..][1..] == xs[i + 1..];
      SumOfSuffix(xs, i + 1, if j == i then i + 1 else j);
    }
  }

  /** What a warming identity can still be handed before its warm-up ends. */
  function Remaining(cfg: Config, r: Record): int
    requires r.warmupStage < |cfg.stages|
  {
    var cap := cfg.stages[r.warmupStage];
    (if r.usedToday < cap then cap - r.usedToday else 0) + Sum(cfg.stages[r.warmupStage + 1..])
  }

  /** Warming identities are on the ramp. */
  predicate OnRamp(cfg: Config, r: Record) {
    r.state == Warming ==> r.warmupStage < |cfg.stages|
  }

  lemma RemainingAtMost(cfg: Config, r: Record)
    requires Positive(cfg.stages) && r.warmupStage < |cfg.stages|
    ensures 0 <= Remaining(cfg, r) <= Sum(cfg.stages[r.warmupStage..]) <= Sum(cfg.stages)
  {
    var s := r.warmupStage;
    assert cfg.stages[s..][1..] == cfg.stages[s + 1..];
    assert cfg.stages[0..] == cfg.stages;
    SumOfSuffix(cfg.stages, 0, s);
    SumOfSuffix(cfg.stages, s + 1, s + 1);
  }

  /** Daily resets never add to what is left: a new stage's cap was counted from the start. */
  lemma ResetsSpend(cfg: Config, r: Record, now: int)
    requires cfg.Valid() && Positive(cfg.stages) && r.state == Warming && OnRamp(cfg, r)
    ensures OnRamp(cfg, DayResets(cfg, r, now))
    ensures DayResets(cfg, r, now).state == Warming ==> Remaining(cfg, DayResets(cfg, r, now)) <= Remaining(cfg, r)
  {
    var k, r' := DaysDue(r, now), DayResets(cfg, r, now);
    ResetsClosedForm(cfg, r, now);
    if k > 0 && r'.state == Warming {
      RemainingAtMost(cfg, r');
      SumOfSuffix(cfg.stages, r.warmupStage + 1, r'.warmupStage);
    }
  }

  lemma GrantSpends(cfg: Config, q: Record, dest: string, now: int, handed: bool)
    requires cfg.Valid() && Positive(cfg.stages) && q.state == Warming && OnRamp(cfg, q)
    requires handed ==> UnderCap(cfg, q)
    ensures var r := LookedAt(q, dest, now);
            var r' := r.(usedToday := r.usedToday + if handed then 1 else 0);
            r'.warmupStage == q.warmupStage && Remaining(cfg, r') + (if handed then 1 else 0) <= Remaining(cfg, q)
  {
  }

  /** What an event may cost a record: the grant is paid for out of what remains of the ramp. */
  predicate Pays(cfg: Config, r: Record, r': Record, grants: nat, restarted: bool)
    requires Positive(cfg.stages) && OnRamp(cfg, r)
  {
    && OnRamp(cfg, r')
    && (r'.state == Warming ==>
          && grants + Remaining(cfg, r') <= Sum(cfg.stages)
          && (r.state == Warming && !restarted ==> grants + Remaining(cfg, r') <= Remaining(cfg, r)))
  }

  lemma BindingPays(cfg: Config, r: Record, dest: string, now: int, handed: bool)
    requires cfg.Valid() && Positive(cfg.stages) && OnRamp(cfg, r)
    requires handed ==> Eligible(cfg, Reconciled(cfg, r, now), dest, now)
    ensures Pays(cfg, r, Bound(cfg, r, dest, now, handed), if handed then 1 else 0, false)
  {
    var r0, q := Recovered(r, now), Reconciled(cfg, r, now);
    ResetsClosedForm(cfg, r0, now);
    LookingIsHarmless(cfg, q, dest, now);
    if q.state == Warming {
      ResetsSpend(cfg, r0, now);
      RemainingAtMost(cfg, r0);
      GrantSpends(cfg, q, dest, now, handed);
      RemainingAtMost(cfg, Bound(cfg, r, dest, now, handed));
    }
  }

  lemma EmitPays(cfg: Config, r: Record, id: string, signals: seq<Signal>, now: int)
    requires Positive(cfg.stages) && OnRamp(cfg, r)
    ensures Pays(cfg, r, SignalledAll(cfg, r, id, signals, now), 0, false)
  {
    EmitWithdrawsIff(cfg, r, id, signals, now);
    if r.state == Warming {
      RemainingAtMost(cfg, r);
    }
  }

  lemma CommandPays(cfg: Config, r: Record, id: string, e: Event)
    requires cfg.Valid() && Positive(cfg.stages) && OnRamp(cfg, r) && !Reloads(e, id) && !e.Binding? && !e.Emit?
    ensures Pays(cfg, r, RecordStep(cfg, r, id, e, false), 0, e == Enable(id))
  {
    var r' := RecordStep(cfg, r, id, e, false);
    if e.Restore? {
      RestoreElsewhere(r, id, e.states);
    }
    if r'.state == Warming {
      RemainingAtMost(cfg, r');
    }
  }

  /** One event: whatever is handed out is paid for. */
  lemma EventSpends(w: World, e: Event, id: string)
    requires w.Valid() && Positive(w.cfg.stages) && id in w.recs && OnRamp(w.cfg, w.recs[id]) && !Reloads(e, id)
    ensures Pays(w.cfg, w.recs[id], Step(w, e).recs[id], if Handed(w, e) == Some(id) then 1 else 0, e == Enable(id))
  {
    var r := w.recs[id];
    StepAt(w, e, id);
    if e.Binding? {
      BindingPays(w.cfg, r, e.dest, e.now, Handed(w, e) == Some(id));
    } else if e.Emit? {
      EmitPays(w.cfg, r, id, e.signals, e.now);
    } else {
      CommandPays(w.cfg, r, id, e);
    }
  }

  function GrantsTo(w: World, es: seq<Event>, id: string): nat
    requires w.Valid()
  {
    if es == [] then 0
    else
      var n := |es| - 1;
      GrantsTo(w, es[..n], id) + if HandedAt(w, es, n) == Some(id) then 1 else 0
  }

  lemma RampStep(cfg: Config, r: Record, id: string, e: Event, handed: bool)
    requires cfg.Valid() && !Reloads(e, id) && OnRamp(cfg, r)
    ensures OnRamp(cfg, RecordStep(cfg, r, id, e, handed))
  {
    if e.Emit? {
      EmitWithdrawsIff(cfg, r, id, e.signals, e.now);
    } else if e.Binding? {
      ResetsClosedForm(cfg, Recovered(r, e.now), e.now);
      LookingIsHarmless(cfg, Reconciled(cfg, r, e.now), e.dest, e.now);
    } else if e.Restore? {
      RestoreElsewhere(r, id, e.states);
    }
  }

  /** In every run that does not restore it, a warming identity is on the ramp. */
  lemma {:induction false} AlwaysOnRamp(w: World, es: seq<Event>, id: string)
    requires w.Valid() && NoReload(es, id) && id in After(w, es).recs
    requires id in w.recs ==> OnRamp(w.cfg, w.recs[id])
    ensures OnRamp(w.cfg, After(w, es).recs[id])
  {
    if es != [] {
      var n := |es| - 1;
      var v := After(w, es[..n]);
      ConfigKept(w, es[..n]);
      if id in v.recs {
        AlwaysOnRamp(w, es[..n], id);
        StepAt(v, es[n], id);
        RampStep(v.cfg, v.recs[id], id, es[n], Handed(v, es[n]) == Some(id));
      }
    }
  }

  /**
   A stretch of a run during which the identity warms up: it is warming after every event (the
   first event may be what makes it warm), and it is not enabled or restored on the way.
   */
  ghost predicate Episode(w: World, es: seq<Event>, id: string)
    requires w.Valid() && id in w.recs
  {
    es != [] &&
    var n := |es| - 1;
    && !Reloads(es[n], id)
    && After(w, es).recs[id].state == Warming
    && (n > 0 ==> es[n] != Enable(id) && Episode(w, es[..n], id))
  }

  /**
   Warm-up budget: the probes handed to an identity over a whole warm-up never exceed the sum
   of all the stages, whatever else happens in the pool.
   */
  lemma {:induction false} EpisodeBudget(w: World, es: seq<Event>, id: string)
    requires w.Valid() && Positive(w.cfg.stages) && id in w.recs && OnRamp(w.cfg, w.recs[id])
    requires Episode(w, es, id)
    ensures OnRamp(w.cfg, After(w, es).recs[id])
    ensures GrantsTo(w, es, id) + Remaining(w.cfg, After(w, es).recs[id]) <= Sum(w.cfg.stages)
    ensures GrantsTo(w, es, id) <= Sum(w.cfg.stages)
  {
    var n := |es| - 1;
    ConfigKept(w, es[..n]);
    if n > 0 {
      EpisodeBudget(w, es[..n], id);
    }
    EventSpends(After(w, es[..n]), es[n], id);
    RemainingAtMost(w.cfg, After(w, es).recs[id]);
  }
}
