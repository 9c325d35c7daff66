/**
 Runs of a new pool with one identity, under any settings, that show what the exact conditions
 elsewhere rule in: an identity served again after Disable, one that recovers straight to active,
 and a half-open breaker that serves every caller.
 */
module EgressWitnesses {
  import opened Common
  import opened Egress
  import opened EgressRouting
  import opened EgressRuns
  import opened EgressCircuits
  import opened EgressWarmup

  lemma LoneStarts(cfg: Config)
    requires cfg.Valid()
    ensures Lone(cfg).Valid() && Lone(cfg).order == [""] && Lone(cfg).cfg == cfg
    ensures Lone(cfg).recs[""] == NewRecord(Spec("", "", "", true), 0)
  {
    var w := Lone(cfg);
    assert w.order == [""];
    assert w.recs == map["" := NewRecord(Spec("", "", "", true), 0)];
    assert forall id :: id in w.order <==> id == "";
  }

  /** Events that keep the pool at its one identity. */
  lemma LoneStays(w: World, e: Event)
    requires w.Valid() && w.order == [""] && !e.AddIdentity?
    ensures Step(w, e).order == [""]
  {
  }

  function Signals(k: Kind, dest: string, n: nat): (ss: seq<Signal>)
    ensures |ss| == n && forall i :: 0 <= i < n ==> ss[i] == Signal(k, "", dest)
  {
    seq(n, i => Signal(k, "", dest))
  }

  lemma SignalsGrow(k: Kind, dest: string, n: nat)
    requires n > 0
    ensures Signals(k, dest, n)[..n - 1] == Signals(k, dest, n - 1)
  {
  }

  lemma {:induction false} StreakOf(n: nat)
    ensures Streak(0, "", Signals(Blocked, "x", n)) == n
  {
    if n > 0 {
      SignalsGrow(Blocked, "x", n);
      StreakOf(n - 1);
    }
  }

  /** An idle identity in service is eligible wherever its breaker lets it. */
  lemma IdleIsEligible(cfg: Config, r: Record, dest: string, now: int)
    requires cfg.Valid() && r.online && r.usedToday == 0 && Allows(CircuitOf(r, dest), now)
    requires r.state == Warming || r.state == Active || (r.state == Quarantined && now > r.quarantinedUntil)
    ensures Eligible(cfg, Reconciled(cfg, r, now), dest, now)
  {
    ResetsClosedForm(cfg, Recovered(r, now), now);
  }

  // ---------------------------------------------------------------- Disable does not last

  lemma BlocksWithdraw(cfg: Config, r: Record)
    requires cfg.Valid() && r.blockStreak == 0
    ensures var r' := SignalledAll(cfg, r, "", Signals(Blocked, "x", cfg.quarantineThreshold), 0);
            && r'.state == Quarantined && r'.quarantinedUntil == cfg.quarantineCooldown
            && r'.usedToday == r.usedToday && r'.online == r.online && CircuitOf(r', "") == CircuitOf(r, "")
  {
    var n := cfg.quarantineThreshold;
    var ss := Signals(Blocked, "x", n);
    StreakOf(n);
    SignalsGrow(Blocked, "x", n);
    StreakOf(n - 1);
    assert ss[..n] == ss;
    assert ReachesAt(n, 0, "", ss, n - 1);
    EmitWithdrawsIff(cfg, r, "", ss, 0);
    EmitElsewhere(cfg, r, "", "", ss, 0);
  }

  /** Disabled, then blocked often enough, then handed out: without Enable, under any settings. */
  lemma DisabledServesAgain(cfg: Config) returns (es: seq<Event>)
    requires cfg.Valid()
    ensures |es| == 3 && es[0] == Disable("", "") && es[1].Emit? && es[2].Binding?
    ensures Lone(cfg).Valid() && HandedAt(Lone(cfg), es, 2) == Some("")
  {
    var w, now := Lone(cfg), cfg.quarantineCooldown + 1;
    var ss := Signals(Blocked, "x", cfg.quarantineThreshold);
    es := [Disable("", ""), Emit(ss, 0), Binding("", now)];
    LoneStarts(cfg);
    var w1 := Step(w, es[0]);
    var w2 := Step(w1, es[1]);
    AfterThree(w, es);
    StepAt(w1, es[1], "");
    BlocksWithdraw(cfg, w1.recs[""]);
    LoneStays(w1, es[1]);
    IdleIsEligible(cfg, w2.recs[""], "", now);
    LoneBinds(w2, "", now);
  }

  /** Disabled, then quarantined, then handed out: no Enable and no feedback, under any settings. */
  lemma QuarantineEndsDisable(cfg: Config) returns (es: seq<Event>)
    requires cfg.Valid()
    ensures |es| == 3 && es[0] == Disable("", "") && es[1] == Quarantine("", "", 0) && es[2].Binding?
    ensures Lone(cfg).Valid() && HandedAt(Lone(cfg), es, 2) == Some("")
  {
    var w, now := Lone(cfg), cfg.quarantineCooldown + 1;
    es := [Disable("", ""), Quarantine("", "", 0), Binding("", now)];
    LoneStarts(cfg);
    var w1 := Step(w, es[0]);
    var w2 := Step(w1, es[1]);
    AfterThree(w, es);
    StepAt(w, es[0], "");
    StepAt(w1, es[1], "");
    LoneStays(w, es[0]);
    LoneStays(w1, es[1]);
    IdleIsEligible(cfg, w2.recs[""], "", now);
    LoneBinds(w2, "", now);
  }

  lemma AfterThree(w: World, es: seq<Event>)
    requires w.Valid() && |es| == 3
    ensures After(w, es[..0]) == w && After(w, es[..1]) == Step(w, es[0])
    ensures After(w, es[..2]) == Step(Step(w, es[0]), es[1])
  {
    AfterNext(w, es, 0);
    AfterNext(w, es, 1);
  }

  // ---------------------------------------------------------------- recovery straight to active

  /** Quarantined, left alone for as many days as there are stages, and active at the next Binding. */
  lemma RecoversToActive(cfg: Config) returns (now: int)
    requires cfg.Valid()
    ensures Lone(cfg).Valid()
    ensures var w1 := Step(Lone(cfg), Quarantine("", "", 0));
            && w1.recs[""].state == Quarantined && Handed(w1, Binding("", now)) == Some("")
            && Step(w1, Binding("", now)).recs[""].state == Active
  {
    LoneStarts(cfg);
    now := cfg.quarantineCooldown + 1 + |cfg.stages| * DAY;
    var w1 := Step(Lone(cfg), Quarantine("", "", 0));
    RecoveredIsActiveIff(cfg, w1.recs[""], now);
    IdleIsEligible(cfg, w1.recs[""], "", now);
    LoneBinds(w1, "", now);
    StepAt(w1, Binding("", now), "");
    LookingIsHarmless(cfg, Reconciled(cfg, w1.recs[""], now), "", now);
  }

  // ---------------------------------------------------------------- a half-open breaker serves everyone

  lemma {:induction false} RefusalsOpen(cfg: Config, n: nat)
    requires cfg.Valid()
    ensures RungAll(cfg, NewCircuit, "", "", Signals(ConnRefused, "", n), 0) ==
            if n >= cfg.circuitThreshold then Circuit(Open, n, cfg.circuitCooldown) else NewCircuit.(failures := n)
  {
    if n > 0 {
      SignalsGrow(ConnRefused, "", n);
      RefusalsOpen(cfg, n - 1);
    }
  }

  lemma {:induction false} RefusalsDoNotWithdraw(cfg: Config, r: Record, n: nat)
    ensures var r' := SignalledAll(cfg, r, "", Signals(ConnRefused, "", n), 0);
            r'.state == r.state && r'.usedToday == r.usedToday && r'.online == r.online && r'.lastReset == r.lastReset
  {
    if n > 0 {
      SignalsGrow(ConnRefused, "", n);
      RefusalsDoNotWithdraw(cfg, r, n - 1);
    }
  }

  /** The lone identity is in service and not used up, and its breaker, once open, is past its deadline. */
  predicate PastIn(r: Record, now: int) {
    && (r.state == Warming || r.state == Active) && r.online && r.lastReset <= now
    && (r.usedToday == 0 || now - r.lastReset >= DAY)
    && "" in r.circuits && r.circuits[""].state != Closed && Allows(r.circuits[""], now)
  }

  ghost predicate PastDeadline(w: World, now: int) {
    w.Valid() && w.order == [""] && PastIn(w.recs[""], now)
  }

  lemma BoundHalfOpen(cfg: Config, r: Record, now: int)
    requires cfg.Valid() && PastIn(r, now)
    ensures Eligible(cfg, Reconciled(cfg, r, now), "", now)
    ensures var b := Bound(cfg, r, "", now, true);
            PastIn(b, now + DAY) && CircuitOf(b, "").state == HalfOpen
  {
    ResetsClosedForm(cfg, r, now);
    if r.usedToday != 0 {
      DaysAtLeast(r, now, 1);
    }
  }

  lemma PastDeadlineServes(w: World, now: int)
    requires PastDeadline(w, now)
    ensures Handed(w, Binding("", now)) == Some("")
    ensures var w' := Step(w, Binding("", now));
            PastDeadline(w', now + DAY) && CircuitOf(w'.recs[""], "").state == HalfOpen
  {
    BoundHalfOpen(w.cfg, w.recs[""], now);
    LoneBinds(w, "", now);
    StepAt(w, Binding("", now), "");
    LoneStays(w, Binding("", now));
  }

  lemma RefusedLone(cfg: Config)
    requires cfg.Valid()
    ensures Lone(cfg).Valid()
    ensures var w := Step(Lone(cfg), Emit(Signals(ConnRefused, "", cfg.circuitThreshold), 0));
            PastDeadline(w, cfg.circuitCooldown + 1) && CircuitOf(w.recs[""], "").state == Open
  {
    LoneStarts(cfg);
    var w, n := Lone(cfg), cfg.circuitThreshold;
    var e := Emit(Signals(ConnRefused, "", n), 0);
    StepAt(w, e, "");
    EmitCircuit(cfg, w.recs[""], "", "", e.signals, 0);
    RefusalsOpen(cfg, n);
    RefusalsDoNotWithdraw(cfg, w.recs[""], n);
    LoneStays(w, e);
  }

  /** Two callers, with no feedback in between, both get the half-open pair. */
  lemma HalfOpenServesTwice(cfg: Config) returns (es: seq<Event>)
    requires cfg.Valid()
    ensures |es| == 3 && es[0].Emit? && es[1].Binding? && es[2].Binding? && es[1].dest == es[2].dest == ""
    ensures Lone(cfg).Valid() && CircuitOf(After(Lone(cfg), es[..1]).recs[""], "").state == Open
    ensures HandedAt(Lone(cfg), es, 1) == Some("")
    ensures CircuitOf(After(Lone(cfg), es[..2]).recs[""], "").state == HalfOpen
    ensures HandedAt(Lone(cfg), es, 2) == Some("")
  {
    var t := cfg.circuitCooldown + 1;
    es := [Emit(Signals(ConnRefused, "", cfg.circuitThreshold), 0), Binding("", t), Binding("", t + DAY)];
    RefusedLone(cfg);
    AfterThree(Lone(cfg), es);
    var w1 := Step(Lone(cfg), es[0]);
    PastDeadlineServes(w1, t);
    PastDeadlineServes(Step(w1, es[1]), t + DAY);
  }
}
