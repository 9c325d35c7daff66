/**
 Damage stays local over whole runs: two runs that differ only in feedback about other
 destinations treat an identity alike at `dest`, except through two things that all destinations
 share: the quarantine for a streak of blocks, and the daily cap.
 */
module EgressLocality {
  import opened Common
  import opened Egress
  import opened EgressRouting
  import opened EgressRuns
  import opened EgressCircuits

  /** The same event, or feedback at the same time that says the same about the pair. */
  ghost predicate Alike(e: Event, f: Event, id: string, dest: string) {
    || e == f
    || (e.Emit? && f.Emit? && e.now == f.now && KindsAbout(e.signals, id, dest) == KindsAbout(f.signals, id, dest))
  }

  /** The records agree on everything that decides about serving `dest`, except how much they were used. */
  predicate Twin(r: Record, q: Record, dest: string) {
    && r.state == q.state && r.warmupStage == q.warmupStage && r.lastReset == q.lastReset
    && r.online == q.online && r.quarantinedUntil == q.quarantinedUntil
    && Score(r, dest) == Score(q, dest) && CircuitOf(r, dest) == CircuitOf(q, dest)
  }

  // ---------------------------------------------------------------- feedback

  function RungKinds(cfg: Config, c: Circuit, kinds: seq<Kind>, now: int): Circuit {
    if kinds == [] then c else Rung(cfg, RungKinds(cfg, c, kinds[..|kinds| - 1], now), kinds[|kinds| - 1], now)
  }

  /** A breaker hears only what is said about its pair. */
  lemma {:induction false} RungHears(cfg: Config, c: Circuit, id: string, dest: string, signals: seq<Signal>, now: int)
    ensures RungAll(cfg, c, id, dest, signals, now) == RungKinds(cfg, c, KindsAbout(signals, id, dest), now)
  {
    if signals != [] {
      var front, s := signals[..|signals| - 1], signals[|signals| - 1];
      RungHears(cfg, c, id, dest, front, now);
      if About(s, id, dest) {
        var kinds := KindsAbout(front, id, dest);
        assert (kinds + [s.kind])[..|kinds|] == kinds;
      }
    }
  }

  /** Feedback that does not carry the streak to the threshold. */
  ghost predicate Mild(cfg: Config, r: Record, id: string, e: Event) {
    e.Emit? ==> !Reaches(cfg.quarantineThreshold, r.blockStreak, id, e.signals)
  }

  lemma EmitTwins(cfg: Config, r: Record, q: Record, id: string, dest: string, e: Event, f: Event)
    requires Twin(r, q, dest) && Alike(e, f, id, dest) && e.Emit? && Mild(cfg, r, id, e) && Mild(cfg, q, id, f)
    ensures Twin(SignalledAll(cfg, r, id, e.signals, e.now), SignalledAll(cfg, q, id, f.signals, f.now), dest)
  {
    EmitWithdrawsIff(cfg, r, id, e.signals, e.now);
    EmitWithdrawsIff(cfg, q, id, f.signals, f.now);
    EmitScore(cfg, r, id, dest, e.signals, e.now);
    EmitScore(cfg, q, id, dest, f.signals, f.now);
    EmitCircuit(cfg, r, id, dest, e.signals, e.now);
    EmitCircuit(cfg, q, id, dest, f.signals, f.now);
    RungHears(cfg, CircuitOf(r, dest), id, dest, e.signals, e.now);
    RungHears(cfg, CircuitOf(q, dest), id, dest, f.signals, f.now);
  }

  // ---------------------------------------------------------------- the other events

  lemma {:induction false} ResetTwins(cfg: Config, r: Record, q: Record, dest: string, now: int)
    requires Twin(r, q, dest)
    ensures Twin(DayResets(cfg, r, now), DayResets(cfg, q, now), dest)
    decreases now - r.lastReset
  {
    if now - r.lastReset >= DAY {
      ResetTwins(cfg, DayReset(cfg, r), DayReset(cfg, q), dest, now);
    }
  }

  lemma ReconciledTwins(cfg: Config, r: Record, q: Record, dest: string, now: int)
    requires Twin(r, q, dest)
    ensures Twin(Reconciled(cfg, r, now), Reconciled(cfg, q, now), dest)
  {
    ResetTwins(cfg, Recovered(r, now), Recovered(q, now), dest, now);
  }

  /** In service for `dest`, the daily cap aside. */
  predicate InService(r: Record, dest: string, now: int) {
    !Withdrawn(r) && r.online && Allows(CircuitOf(r, dest), now)
  }

  lemma LookedCircuit(r: Record, d: string, dest: string, now: int)
    ensures CircuitOf(LookedAt(r, d, now), dest) ==
            if d == dest && !Withdrawn(r) && r.online then Asked(CircuitOf(r, dest), now) else CircuitOf(r, dest)
  {
  }

  lemma LookedTwins(r: Record, q: Record, d: string, dest: string, now: int)
    requires Twin(r, q, dest)
    ensures Twin(LookedAt(r, d, now), LookedAt(q, d, now), dest)
  {
    LookedCircuit(r, d, dest, now);
    LookedCircuit(q, d, dest, now);
  }

  lemma BindingTwins(cfg: Config, r: Record, q: Record, d: string, dest: string, now: int, r1: bool, q1: bool)
    requires cfg.Valid() && Twin(r, q, dest)
    ensures Twin(Bound(cfg, r, d, now, r1), Bound(cfg, q, d, now, q1), dest)
  {
    ReconciledTwins(cfg, r, q, dest, now);
    LookedTwins(Reconciled(cfg, r, now), Reconciled(cfg, q, now), d, dest, now);
  }

  lemma {:induction false} RestoreTwins(r: Record, q: Record, id: string, dest: string, states: seq<Saved>)
    requires Twin(r, q, dest)
    ensures Twin(RestoredAll(r, id, states), RestoredAll(q, id, states), dest)
  {
    if states != [] {
      RestoreTwins(r, q, id, dest, states[..|states| - 1]);
    }
  }

  lemma StepTwins(cfg: Config, r: Record, q: Record, id: string, dest: string, e: Event, f: Event, r1: bool, q1: bool)
    requires cfg.Valid() && Twin(r, q, dest) && Alike(e, f, id, dest) && Mild(cfg, r, id, e) && Mild(cfg, q, id, f)
    ensures Twin(RecordStep(cfg, r, id, e, r1), RecordStep(cfg, q, id, f, q1), dest)
  {
    if e.Emit? {
      EmitTwins(cfg, r, q, id, dest, e, f);
    } else if e.Binding? {
      BindingTwins(cfg, r, q, e.dest, dest, e.now, r1, q1);
    } else if e.Restore? {
      RestoreTwins(r, q, id, dest, e.states);
    }
  }

  // ---------------------------------------------------------------- whole runs

  /** Event by event alike, and mild. */
  ghost predicate Parallel(w: World, es: seq<Event>, fs: seq<Event>, id: string, dest: string)
    requires w.Valid() && id in w.recs
  {
    |es| == |fs| && forall i :: 0 <= i < |es| ==>
      && Alike(es[i], fs[i], id, dest)
      && Mild(After(w, es[..i]).cfg, After(w, es[..i]).recs[id], id, es[i])
      && Mild(After(w, fs[..i]).cfg, After(w, fs[..i]).recs[id], id, fs[i])
  }

  lemma WorldStepTwins(v: World, u: World, id: string, dest: string, e: Event, f: Event)
    requires v.Valid() && u.Valid() && v.cfg == u.cfg && id in v.recs && id in u.recs
    requires Twin(v.recs[id], u.recs[id], dest) && Alike(e, f, id, dest)
    requires Mild(v.cfg, v.recs[id], id, e) && Mild(u.cfg, u.recs[id], id, f)
    ensures Twin(Step(v, e).recs[id], Step(u, f).recs[id], dest)
  {
    StepAt(v, e, id);
    StepAt(u, f, id);
    StepTwins(v.cfg, v.recs[id], u.recs[id], id, dest, e, f, Handed(v, e) == Some(id), Handed(u, f) == Some(id));
  }

  lemma SameConfig(v: World, u: World, id: string, dest: string, e: Event, f: Event)
    requires v.Valid() && u.Valid() && v.cfg == u.cfg && Alike(e, f, id, dest)
    ensures Step(v, e).cfg == Step(u, f).cfg
  {
  }

  lemma {:induction false} ParallelTwins(w: World, es: seq<Event>, fs: seq<Event>, id: string, dest: string, n: nat)
    requires w.Valid() && id in w.recs && Parallel(w, es, fs, id, dest) && n <= |es|
    ensures After(w, es[..n]).cfg == After(w, fs[..n]).cfg
    ensures Twin(After(w, es[..n]).recs[id], After(w, fs[..n]).recs[id], dest)
  {
    if n > 0 {
      var i := n - 1;
      ParallelTwins(w, es, fs, id, dest, i);
      AfterNext(w, es, i);
      AfterNext(w, fs, i);
      SameConfig(After(w, es[..i]), After(w, fs[..i]), id, dest, es[i], fs[i]);
      WorldStepTwins(After(w, es[..i]), After(w, fs[..i]), id, dest, es[i], fs[i]);
    }
  }

  lemma TwinsServe(cfg: Config, r: Record, q: Record, dest: string, now: int)
    requires cfg.Valid() && Twin(r, q, dest)
    ensures var r', q' := Reconciled(cfg, r, now), Reconciled(cfg, q, now);
            && Score(r', dest) == Score(q', dest) && CapFor(cfg, r') == CapFor(cfg, q')
            && (InService(r', dest, now) <==> InService(q', dest, now))
  {
    ReconciledTwins(cfg, r, q, dest, now);
  }

  /**
   Feedback about other destinations, added to or dropped from a run, changes neither the score of
   an identity for `dest`, nor its cap, nor whether it is in service there, at any point of the run,
   short of a quarantine. So the two runs can differ in its eligibility only when they have used up
   its cap differently.
   */
  lemma FeedbackIsLocalOverRuns(w: World, es: seq<Event>, fs: seq<Event>, id: string, dest: string, n: nat, now: int)
    requires w.Valid() && id in w.recs && Parallel(w, es, fs, id, dest) && n <= |es|
    ensures var v, u := After(w, es[..n]), After(w, fs[..n]);
            var r, q := Reconciled(v.cfg, v.recs[id], now), Reconciled(u.cfg, u.recs[id], now);
            && v.cfg == u.cfg && Score(r, dest) == Score(q, dest) && CapFor(v.cfg, r) == CapFor(u.cfg, q)
            && (InService(r, dest, now) <==> InService(q, dest, now))
            && ((UnderCap(v.cfg, r) <==> UnderCap(u.cfg, q)) ==>
                  (Eligible(v.cfg, r, dest, now) <==> Eligible(u.cfg, q, dest, now)))
  {
    ParallelTwins(w, es, fs, id, dest, n);
    var v, u := After(w, es[..n]), After(w, fs[..n]);
    TwinsServe(v.cfg, v.recs[id], u.recs[id], dest, now);
  }

  // ---------------------------------------------------------------- the daily cap is shared

  /** A new pool of two warming identities. */
  function Pair(cfg: Config): World {
    Fresh(cfg, [Spec("a", "", "", true), Spec("b", "", "", true)], 0)
  }

  lemma TwoAdded(sa: Spec, sb: Spec, now: int)
    requires sa.id != sb.id
    ensures AddAll(map[], [sa, sb], now) == map[sa.id := NewRecord(sa, now), sb.id := NewRecord(sb, now)]
  {
    var specs, first := [sa, sb], [sa];
    assert specs[..1] == first && first[..0] == [];
    assert AddAll(map[], first, now) == map[sa.id := NewRecord(sa, now)];
  }

  lemma PairStarts(cfg: Config)
    requires cfg.Valid()
    ensures Pair(cfg).Valid() && Pair(cfg).order == ["a", "b"] && Pair(cfg).cfg == cfg
    ensures Pair(cfg).recs["a"] == NewRecord(Spec("a", "", "", true), 0)
    ensures Pair(cfg).recs["b"] == NewRecord(Spec("b", "", "", true), 0)
  {
    var w := Pair(cfg);
    assert "a"[0] != "b"[0];
    TwoAdded(Spec("a", "", "", true), Spec("b", "", "", true), 0);
    assert w.order == ["a", "b"];
    assert forall id :: id in w.order <==> id == "a" || id == "b";
  }

  /** Two identities, both eligible and unused: a Binding takes the second only for a higher score. */
  lemma FirstOfEquals(cfg: Config, order: seq<string>, recs: Records, dest: string, now: int, pick: Option<string>)
    requires cfg.Valid() && |order| == 2 && Covers(recs, order) && Chosen(cfg, order, recs, dest, now, pick)
    requires Eligible(cfg, recs[order[0]], dest, now) && recs[order[0]].usedToday == 0
    requires Eligible(cfg, recs[order[1]], dest, now) && recs[order[1]].usedToday == 0
    ensures pick == Some(order[if Score(recs[order[1]], dest) > Score(recs[order[0]], dest) then 1 else 0])
  {
    assert Eligible(cfg, recs[order[0]], dest, now);
    var i: nat :| IsPick(cfg, order, recs, dest, now, i) && order[i] == pick.value;
    assert i == 0 || i == 1;
  }

  lemma RankedIdle(w: World, id: string, dest: string)
    requires w.Valid() && id in w.recs && Idle(w.recs[id], dest)
    ensures Ranked(w, 0)[id] == w.recs[id] && Eligible(w.cfg, w.recs[id], dest, 0)
  {
    ReconcileAllAt(w.cfg, w.order, w.recs, 0, id);
    IdleServes(w.cfg, w.recs[id], dest);
  }

  lemma PairBinds(w: World, dest: string)
    requires w.Valid() && |w.order| == 2 && Idle(w.recs[w.order[0]], dest) && Idle(w.recs[w.order[1]], dest)
    ensures Handed(w, Binding(dest, 0)) ==
            Some(w.order[if Score(w.recs[w.order[1]], dest) > Score(w.recs[w.order[0]], dest) then 1 else 0])
  {
    RankedIdle(w, w.order[0], dest);
    RankedIdle(w, w.order[1], dest);
    BindChooses(w, dest, 0);
    FirstOfEquals(w.cfg, w.order, Ranked(w, 0), dest, 0, Bind(w, dest, 0).1);
  }

  predicate Idle(r: Record, dest: string) {
    r.state == Warming && r.online && r.usedToday == 0 && r.lastReset == 0 && CircuitOf(r, dest).state == Closed
  }

  lemma IdleServes(cfg: Config, r: Record, dest: string)
    requires cfg.Valid() && Idle(r, dest)
    ensures Reconciled(cfg, r, 0) == r && Eligible(cfg, r, dest, 0)
  {
  }

  lemma OneSignal(cfg: Config, r: Record, id: string, s: Signal, now: int)
    ensures SignalledAll(cfg, r, id, [s], now) == if s.egressId == id then Signalled(cfg, r, s, now) else r
  {
    assert [s][..0] == [];
  }

  /** A complaint lowers the score for its destination and nothing else. */
  lemma ComplaintLowers(cfg: Config, r: Record, id: string)
    requires cfg.Valid() && Idle(r, "x") && Score(r, "x") == 1.0
    ensures var q := Signalled(cfg, r, Signal(TempFail, id, "x"), 0);
            Score(q, "x") < 1.0 && q == r.(health := q.health)
  {
  }

  lemma PairAfterComplaint(cfg: Config)
    requires cfg.Valid()
    ensures Pair(cfg).Valid()
    ensures var w := Step(Pair(cfg), Emit([Signal(TempFail, "a", "x")], 0));
            && w.order == ["a", "b"] && w.cfg == cfg
            && Idle(w.recs["a"], "x") && Idle(w.recs["b"], "x") && CircuitOf(w.recs["a"], "y") == NewCircuit
            && Score(w.recs["a"], "x") < Score(w.recs["b"], "x")
  {
    PairStarts(cfg);
    var w, s := Pair(cfg), Signal(TempFail, "a", "x");
    assert "a"[0] != "b"[0];
    StepAt(w, Emit([s], 0), "a");
    StepAt(w, Emit([s], 0), "b");
    OneSignal(cfg, w.recs["a"], "a", s, 0);
    OneSignal(cfg, w.recs["b"], "b", s, 0);
    ComplaintLowers(cfg, w.recs["a"], "a");
  }

  lemma UnusedServesElsewhere(w: World)
    requires w.Valid() && w.order == ["a", "b"] && Idle(w.recs["a"], "x") && CircuitOf(w.recs["a"], "y") == NewCircuit
    requires Handed(w, Binding("x", 0)) == Some("b")
    ensures Eligible(w.cfg, Step(w, Binding("x", 0)).recs["a"], "y", 0)
  {
    StepAt(w, Binding("x", 0), "a");
    IdleServes(w.cfg, w.recs["a"], "x");
  }

  lemma UsedUp(w: World)
    requires w.Valid() && w.order == ["a", "b"] && Idle(w.recs["a"], "x") && w.recs["a"].warmupStage == 0
    requires w.cfg.stages[0] == 1 && Handed(w, Binding("x", 0)) == Some("a")
    ensures !Eligible(w.cfg, Step(w, Binding("x", 0)).recs["a"], "y", 0)
  {
    StepAt(w, Binding("x", 0), "a");
    IdleServes(w.cfg, w.recs["a"], "x");
  }

  lemma AfterTwo(w: World, e: Event, f: Event)
    requires w.Valid()
    ensures After(w, [e, f]) == Step(Step(w, e), f)
  {
    var es := [e, f];
    AfterNext(w, es, 0);
    AfterNext(w, es, 1);
    assert es[..2] == es && es[..0] == [];
  }

  lemma ComplaintFreesFirst(cfg: Config)
    requires cfg.Valid()
    ensures Pair(cfg).Valid()
    ensures var w := After(Pair(cfg), [Emit([Signal(TempFail, "a", "x")], 0), Binding("x", 0)]);
            "a" in w.recs && Eligible(cfg, w.recs["a"], "y", 0)
  {
    PairAfterComplaint(cfg);
    var v := Step(Pair(cfg), Emit([Signal(TempFail, "a", "x")], 0));
    PairBinds(v, "x");
    UnusedServesElsewhere(v);
    AfterTwo(Pair(cfg), Emit([Signal(TempFail, "a", "x")], 0), Binding("x", 0));
  }

  lemma SilenceUsesFirst(cfg: Config)
    requires cfg.Valid() && cfg.stages[0] == 1
    ensures Pair(cfg).Valid()
    ensures var w := After(Pair(cfg), [Emit([], 0), Binding("x", 0)]);
            "a" in w.recs && !Eligible(cfg, w.recs["a"], "y", 0)
  {
    PairStarts(cfg);
    PairBinds(Pair(cfg), "x");
    UsedUp(Pair(cfg));
    AfterTwo(Pair(cfg), Emit([], 0), Binding("x", 0));
  }

  /**
   The cap is a channel between destinations: with a first stage of one probe a day, a complaint
   about `a` at "x" sends the next probe for "x" to `b`, and so leaves `a` free to serve "y".
   */
  lemma CapIsShared(cfg: Config) returns (es: seq<Event>, fs: seq<Event>)
    requires cfg.Valid() && cfg.stages[0] == 1
    ensures Pair(cfg).Valid() && |es| == |fs| == 2 && forall i :: 0 <= i < 2 ==> Alike(es[i], fs[i], "a", "y")
    ensures "a" in After(Pair(cfg), es).recs && Eligible(cfg, After(Pair(cfg), es).recs["a"], "y", 0)
    ensures "a" in After(Pair(cfg), fs).recs && !Eligible(cfg, After(Pair(cfg), fs).recs["a"], "y", 0)
  {
    var s := Signal(TempFail, "a", "x");
    es, fs := [Emit([s], 0), Binding("x", 0)], [Emit([], 0), Binding("x", 0)];
    assert [s][..0] == [] && "x"[0] != "y"[0];
    assert KindsAbout([s], "a", "y") == [];
    ComplaintFreesFirst(cfg);
    SilenceUsesFirst(cfg);
  }
}
