/**
 Restarting the process: the reputation written by Snapshot and read back by Restore leads
 the next Binding to the same choice, except where a breaker or an unreachable agent had
 kept an identity out.
 */
module EgressRestart {
  import opened Common
  import opened Egress
  import opened EgressRouting

  /** A record as it comes back: reputation kept, breakers closed, reachable again. */
  function Reborn(r: Record, spec: Spec): Record {
    r.(spec := spec, online := true, circuits := map[],
       health := map d | d in r.health :: Health(r.health[d].score, 0))
  }

  /** `states` holds what Snapshot wrote, each identity at least once, in any order. */
  ghost predicate Holds(states: seq<Saved>, order: seq<string>, recs: Records)
    requires Covers(recs, order)
  {
    && (forall i :: 0 <= i < |states| ==>
          states[i].id in order && states[i] == SavedRecord(states[i].id, recs[states[i].id]))
    && (forall id :: id in order ==> exists i :: 0 <= i < |states| && states[i].id == id)
  }

  lemma {:induction false} SnapshotAt(order: seq<string>, recs: Records)
    requires Covers(recs, order)
    ensures |Snapshot(order, recs)| == |order|
    ensures forall i :: 0 <= i < |order| ==> Snapshot(order, recs)[i] == SavedRecord(order[i], recs[order[i]])
  {
    if order != [] {
      SnapshotAt(order[..|order| - 1], recs);
    }
  }

  /** Snapshot itself is such a list; the store may hand it back in any order. */
  lemma SnapshotHolds(order: seq<string>, recs: Records)
    requires Covers(recs, order)
    ensures Holds(Snapshot(order, recs), order, recs)
  {
    var states := Snapshot(order, recs);
    SnapshotAt(order, recs);
    forall id | id in order
      ensures exists i :: 0 <= i < |states| && states[i].id == id
    {
      var i :| 0 <= i < |order| && order[i] == id;
      assert states[i].id == id;
    }
  }

  lemma RestoredIsReborn(r: Record, base: Record, id: string)
    requires r.lastReset != 0
    requires base.health == map[] || base == Reborn(r, base.spec)
    requires base.online && base.circuits == map[]
    ensures Restored(base, SavedRecord(id, r)) == Reborn(r, base.spec)
  {
    var saved := SavedRecord(id, r);
    assert (map d | d in saved.health :: Health(saved.health[d], 0)) == Reborn(r, base.spec).health;
  }

  lemma {:induction false} RestoreAllAt(base: Records, states: seq<Saved>, r: Record, id: string)
    requires id in base && r.lastReset != 0
    requires base[id].health == map[] && base[id].online && base[id].circuits == map[]
    requires forall i :: 0 <= i < |states| && states[i].id == id ==> states[i] == SavedRecord(id, r)
    ensures RestoreAll(base, states)[id] ==
              if exists i :: 0 <= i < |states| && states[i].id == id then Reborn(r, base[id].spec) else base[id]
  {
    if states != [] {
      var n := |states| - 1;
      var before := states[..n];
      RestoreAllAt(base, before, r, id);
      assert forall i :: 0 <= i < n ==> before[i] == states[i];
      if exists i :: 0 <= i < n && before[i].id == id {
        assert exists i :: 0 <= i < |states| && states[i].id == id;
      }
      if states[n].id == id {
        RestoredIsReborn(r, RestoreAll(base, before)[id], id);
      } else if exists i :: 0 <= i < |states| && states[i].id == id {
        var i :| 0 <= i < |states| && states[i].id == id;
        assert before[i].id == id;
      }
    }
  }

  lemma {:induction false} AddAllAt(specs: seq<Spec>, now: int, id: string)
    ensures var recs := AddAll(map[], specs, now);
            && (id in recs <==> exists i :: 0 <= i < |specs| && specs[i].id == id)
            && (id in recs ==> recs[id] == NewRecord(recs[id].spec, now))
  {
    if specs != [] {
      var n := |specs| - 1;
      AddAllAt(specs[..n], now, id);
      assert forall i :: 0 <= i < n ==> specs[..n][i] == specs[i];
      if exists i :: 0 <= i < n && specs[..n][i].id == id {
        assert exists i :: 0 <= i < |specs| && specs[i].id == id;
      } else if exists i :: 0 <= i < |specs| && specs[i].id == id {
        var i :| 0 <= i < |specs| && specs[i].id == id;
        assert i == n;
      }
    }
  }

  lemma FreshIsValid(cfg: Config, specs: seq<Spec>, now: int)
    requires cfg.Valid()
    ensures Fresh(cfg, specs, now).Valid()
  {
    var w := Fresh(cfg, specs, now);
    forall id
      ensures id in w.order <==> id in w.recs
    {
      AddAllAt(specs, now, id);
      if id in w.order {
        var i :| 0 <= i < |w.order| && w.order[i] == id;
        assert specs[i].id == id;
      }
      if id in w.recs {
        var i :| 0 <= i < |specs| && specs[i].id == id;
        assert w.order[i] == id;
      }
    }
  }

  /** The manager after a restart at time `boot` with the same identities and settings. */
  function Restarted(cfg: Config, specs: seq<Spec>, boot: int, states: seq<Saved>): World {
    var w := Fresh(cfg, specs, boot);
    w.(recs := RestoreAll(w.recs, states))
  }

  lemma RestartedAt(w: World, specs: seq<Spec>, boot: int, states: seq<Saved>, id: string)
    requires w.Valid() && w.order == Fresh(w.cfg, specs, boot).order
    requires Holds(states, w.order, w.recs) && id in w.recs && w.recs[id].lastReset != 0
    ensures Restarted(w.cfg, specs, boot, states).Valid()
    ensures id in Restarted(w.cfg, specs, boot, states).recs
    ensures exists spec :: Restarted(w.cfg, specs, boot, states).recs[id] == Reborn(w.recs[id], spec)
  {
    var base := Fresh(w.cfg, specs, boot);
    FreshIsValid(w.cfg, specs, boot);
    AddAllAt(specs, boot, id);
    RestoreAllAt(base.recs, states, w.recs[id], id);
  }

  // ---------------------------------------------------------------- routing

  lemma RebornReconciles(cfg: Config, r: Record, spec: Spec, now: int)
    requires cfg.Valid()
    ensures Reconciled(cfg, Reborn(r, spec), now) == Reborn(Reconciled(cfg, r, now), spec)
  {
    ResetsClosedForm(cfg, Recovered(r, now), now);
    ResetsClosedForm(cfg, Recovered(Reborn(r, spec), now), now);
  }

  /** Eligible but for the things a restart forgets: open breakers and unreachable agents. */
  predicate EligibleAtHeart(cfg: Config, r: Record)
    requires cfg.Valid()
  {
    !Withdrawn(r) && UnderCap(cfg, r)
  }

  /**
   After the restart an identity is eligible exactly if it was before, forgetting breakers and
   reachability; it ranks as it did, and a withdrawn one stays withdrawn.
   */
  lemma RebornEligibleIff(cfg: Config, r: Record, spec: Spec, dest: string, now: int)
    requires cfg.Valid()
    ensures var q, q' := Reconciled(cfg, r, now), Reconciled(cfg, Reborn(r, spec), now);
            && (Eligible(cfg, q', dest, now) <==> EligibleAtHeart(cfg, q))
            && (Eligible(cfg, q, dest, now) <==>
                EligibleAtHeart(cfg, q) && r.online && Allows(CircuitOf(r, dest), now))
            && Score(q', dest) == Score(q, dest) && q'.usedToday == q.usedToday && q'.state == q.state
  {
    RebornReconciles(cfg, r, spec, now);
    ResetsClosedForm(cfg, Recovered(r, now), now);
  }

  /** Kept out of `dest` by the things a restart forgets: an unexpired open breaker, or an unreachable agent. */
  predicate Hindered(r: Record, dest: string, now: int) {
    !r.online || !Allows(CircuitOf(r, dest), now)
  }

  /** Pool `b` finds everyone eligible that pool `a` does, and ranks everyone as `a` does. */
  ghost predicate Widens(cfg: Config, order: seq<string>, a: Records, b: Records, dest: string, now: int)
    requires cfg.Valid() && Covers(a, order) && Covers(b, order)
  {
    forall id :: id in order ==>
      && (Eligible(cfg, a[id], dest, now) ==> Eligible(cfg, b[id], dest, now))
      && Score(a[id], dest) == Score(b[id], dest) && a[id].usedToday == b[id].usedToday
  }

  lemma OnePick(cfg: Config, order: seq<string>, recs: Records, dest: string, now: int, i: nat, j: nat)
    requires cfg.Valid() && Covers(recs, order)
    requires IsPick(cfg, order, recs, dest, now, i) && IsPick(cfg, order, recs, dest, now, j)
    ensures i == j
  {
  }

  lemma PickNarrows(cfg: Config, order: seq<string>, a: Records, b: Records, dest: string, now: int, j: nat)
    requires cfg.Valid() && Covers(a, order) && Covers(b, order) && Widens(cfg, order, a, b, dest, now)
    requires IsPick(cfg, order, b, dest, now, j) && Eligible(cfg, a[order[j]], dest, now)
    ensures IsPick(cfg, order, a, dest, now, j)
  {
    forall k | 0 <= k < |order| && Eligible(cfg, a[order[k]], dest, now)
      ensures Eligible(cfg, b[order[k]], dest, now)
      ensures Better(a[order[j]], a[order[k]], dest) <==> Better(b[order[j]], b[order[k]], dest)
      ensures Better(a[order[k]], a[order[j]], dest) <==> Better(b[order[k]], b[order[j]], dest)
    {
    }
  }

  /** The wider pool picks the same identity, or fails alike, exactly if its pick was eligible in the narrower one. */
  lemma SamePickIff(cfg: Config, order: seq<string>, a: Records, b: Records, dest: string, now: int,
                    x: Option<string>, y: Option<string>)
    requires cfg.Valid() && Covers(a, order) && Covers(b, order) && Widens(cfg, order, a, b, dest, now)
    requires Chosen(cfg, order, a, dest, now, x) && Chosen(cfg, order, b, dest, now, y)
    ensures x == y <==> (y.Some? ==> y.value in order && Eligible(cfg, a[y.value], dest, now))
  {
    if x.Some? {
      var i: nat :| IsPick(cfg, order, a, dest, now, i) && order[i] == x.value;
      if y.Some? {
        var j: nat :| IsPick(cfg, order, b, dest, now, j) && order[j] == y.value;
        if Eligible(cfg, a[order[j]], dest, now) {
          PickNarrows(cfg, order, a, b, dest, now, j);
          OnePick(cfg, order, a, dest, now, i, j);
        }
      }
    }
  }

  /** One identity, ranked by the old manager and by the restarted one. */
  lemma RebornRanks(w: World, specs: seq<Spec>, boot: int, states: seq<Saved>, dest: string, now: int, id: string)
    requires w.Valid() && w.order == Fresh(w.cfg, specs, boot).order
    requires Holds(states, w.order, w.recs) && id in w.order && w.recs[id].lastReset != 0
    ensures Restarted(w.cfg, specs, boot, states).Valid() && id in Restarted(w.cfg, specs, boot, states).recs
    ensures var q, q' := Ranked(w, now)[id], Ranked(Restarted(w.cfg, specs, boot, states), now)[id];
            && (Eligible(w.cfg, q', dest, now) <==> EligibleAtHeart(w.cfg, q))
            && (Eligible(w.cfg, q, dest, now) <==> EligibleAtHeart(w.cfg, q) && !Hindered(w.recs[id], dest, now))
            && Score(q', dest) == Score(q, dest) && q'.usedToday == q.usedToday
            && q == Reconciled(w.cfg, w.recs[id], now)
  {
    var v := Restarted(w.cfg, specs, boot, states);
    RestartedAt(w, specs, boot, states, id);
    var spec :| v.recs[id] == Reborn(w.recs[id], spec);
    RebornEligibleIff(w.cfg, w.recs[id], spec, dest, now);
    ReconcileAllAt(w.cfg, w.order, w.recs, now, id);
    ReconcileAllAt(w.cfg, v.order, v.recs, now, id);
  }

  // ---------------------------------------------------------------- the best identity but for what a restart forgets

  /** `order[i]` is the best identity of the pool when breakers and reachability are left out of account. */
  ghost predicate HeartPick(cfg: Config, order: seq<string>, recs: Records, dest: string, i: nat)
    requires cfg.Valid() && Covers(recs, order)
  {
    && i < |order| && EligibleAtHeart(cfg, recs[order[i]])
    && (forall j :: 0 <= j < i && EligibleAtHeart(cfg, recs[order[j]]) ==> Better(recs[order[i]], recs[order[j]], dest))
    && (forall j :: i <= j < |order| && EligibleAtHeart(cfg, recs[order[j]]) ==>
          !Better(recs[order[j]], recs[order[i]], dest))
  }

  ghost predicate BestAtHeart(w: World, dest: string, now: int, x: Option<string>)
    requires w.Valid()
  {
    match x
    case None => forall j :: 0 <= j < |w.order| ==> !EligibleAtHeart(w.cfg, Ranked(w, now)[w.order[j]])
    case Some(id) => exists i: nat :: HeartPick(w.cfg, w.order, Ranked(w, now), dest, i) && w.order[i] == id
  }

  /** Pool `b` finds eligible exactly those that pool `a` would but for breakers and reachability. */
  ghost predicate Forgets(cfg: Config, order: seq<string>, a: Records, b: Records, dest: string, now: int)
    requires cfg.Valid() && Covers(a, order) && Covers(b, order)
  {
    forall id :: id in order ==>
      && (Eligible(cfg, b[id], dest, now) <==> EligibleAtHeart(cfg, a[id]))
      && Score(a[id], dest) == Score(b[id], dest) && a[id].usedToday == b[id].usedToday
  }

  lemma HeartPickIff(cfg: Config, order: seq<string>, a: Records, b: Records, dest: string, now: int, i: nat)
    requires cfg.Valid() && Covers(a, order) && Covers(b, order) && Forgets(cfg, order, a, b, dest, now)
    ensures HeartPick(cfg, order, a, dest, i) <==> IsPick(cfg, order, b, dest, now, i)
  {
    if i < |order| {
      forall j | 0 <= j < |order|
        ensures Eligible(cfg, b[order[j]], dest, now) <==> EligibleAtHeart(cfg, a[order[j]])
        ensures Better(a[order[i]], a[order[j]], dest) <==> Better(b[order[i]], b[order[j]], dest)
        ensures Better(a[order[j]], a[order[i]], dest) <==> Better(b[order[j]], b[order[i]], dest)
      {
      }
    }
  }

  lemma ChosenIsBest(w: World, b: Records, dest: string, now: int, y: Option<string>, x: Option<string>)
    requires w.Valid() && Covers(b, w.order) && Forgets(w.cfg, w.order, Ranked(w, now), b, dest, now)
    requires Chosen(w.cfg, w.order, b, dest, now, y)
    ensures BestAtHeart(w, dest, now, x) <==> x == y
  {
    var a := Ranked(w, now);
    if y.Some? {
      var j: nat :| IsPick(w.cfg, w.order, b, dest, now, j) && w.order[j] == y.value;
      HeartPickIff(w.cfg, w.order, a, b, dest, now, j);
      if BestAtHeart(w, dest, now, x) && x.Some? {
        var i: nat :| HeartPick(w.cfg, w.order, a, dest, i) && w.order[i] == x.value;
        HeartPickIff(w.cfg, w.order, a, b, dest, now, i);
        OnePick(w.cfg, w.order, b, dest, now, i, j);
      }
    }
  }

  /** The restarted pool, next to the old one. */
  lemma RestartForgets(w: World, specs: seq<Spec>, boot: int, states: seq<Saved>, dest: string, now: int)
    requires w.Valid() && w.order == Fresh(w.cfg, specs, boot).order
    requires Holds(states, w.order, w.recs)
    requires forall id :: id in w.recs ==> w.recs[id].lastReset != 0
    ensures var v := Restarted(w.cfg, specs, boot, states);
            && v.Valid() && v.order == w.order && v.cfg == w.cfg && Covers(Ranked(v, now), w.order)
            && Forgets(w.cfg, w.order, Ranked(w, now), Ranked(v, now), dest, now)
            && Widens(w.cfg, w.order, Ranked(w, now), Ranked(v, now), dest, now)
  {
    var v := Restarted(w.cfg, specs, boot, states);
    FreshIsValid(w.cfg, specs, boot);
    forall id | id in w.order
      ensures id in v.recs
      ensures var q, q' := Ranked(w, now)[id], Ranked(v, now)[id];
              && (Eligible(w.cfg, q', dest, now) <==> EligibleAtHeart(w.cfg, q))
              && (Eligible(w.cfg, q, dest, now) ==> EligibleAtHeart(w.cfg, q))
              && Score(q', dest) == Score(q, dest) && q'.usedToday == q.usedToday
    {
      RebornRanks(w, specs, boot, states, dest, now, id);
    }
  }

  /**
   Restart preserves routing: reloading the saved states, in any order, into a fresh manager makes
   the next Binding pick the best identity of the old pool, breakers and reachability forgotten. It
   is the identity the old manager would have picked, or both fail, exactly if that best identity
   was not kept out by an unexpired open breaker or an unreachable agent. A withdrawn identity is
   never picked.
   */
  lemma RestartPreservesRouting(w: World, specs: seq<Spec>, boot: int, states: seq<Saved>, dest: string, now: int,
                                best: Option<string>)
    requires w.Valid() && w.order == Fresh(w.cfg, specs, boot).order
    requires Holds(states, w.order, w.recs)
    requires forall id :: id in w.recs ==> w.recs[id].lastReset != 0
    ensures Restarted(w.cfg, specs, boot, states).Valid()
    ensures BestAtHeart(w, dest, now, best) <==> best == Bind(Restarted(w.cfg, specs, boot, states), dest, now).1
    ensures BestAtHeart(w, dest, now, best) ==>
              && (best.Some? ==> best.value in w.recs && !Withdrawn(Reconciled(w.cfg, w.recs[best.value], now)))
              && (best == Bind(w, dest, now).1 <==> (best.Some? ==> !Hindered(w.recs[best.value], dest, now)))
  {
    var v := Restarted(w.cfg, specs, boot, states);
    RestartForgets(w, specs, boot, states, dest, now);
    BindingChooses(v, dest, now);
    ChosenIsBest(w, Ranked(v, now), dest, now, Bind(v, dest, now).1, best);
    if BestAtHeart(w, dest, now, best) {
      BindingChooses(w, dest, now);
      SamePickIff(w.cfg, w.order, Ranked(w, now), Ranked(v, now), dest, now, Bind(w, dest, now).1, best);
      if best.Some? {
        assert best.value in w.order;
        RebornRanks(w, specs, boot, states, dest, now, best.value);
      }
    }
  }

  /** If nobody was kept out, every destination is routed as before. */
  lemma UnhinderedRestart(w: World, specs: seq<Spec>, boot: int, states: seq<Saved>, dest: string, now: int)
    requires w.Valid() && w.order == Fresh(w.cfg, specs, boot).order
    requires Holds(states, w.order, w.recs)
    requires forall id :: id in w.recs ==> w.recs[id].lastReset != 0 && !Hindered(w.recs[id], dest, now)
    ensures Restarted(w.cfg, specs, boot, states).Valid()
    ensures Bind(Restarted(w.cfg, specs, boot, states), dest, now).1 == Bind(w, dest, now).1
  {
    FreshIsValid(w.cfg, specs, boot);
    var v := Restarted(w.cfg, specs, boot, states);
    RestartPreservesRouting(w, specs, boot, states, dest, now, Bind(v, dest, now).1);
  }
}
