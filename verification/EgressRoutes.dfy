/**
 Routing without records: in a pool whose identities are all in service, the identity a Binding
 hands out is determined by the calls made since the pool was built.
 */
module EgressRoutes {
  import opened Common
  import opened Egress
  import opened EgressRouting
  import opened EgressRuns
  import opened EgressCircuits
  import opened EgressWarmup
  import opened EgressRestart
  import opened EgressHistory
  import opened EgressRanking

  ghost predicate Distinct(specs: seq<Spec>) {
    forall i, j :: 0 <= i < j < |specs| ==> specs[i].id != specs[j].id
  }

  /** The run adds no identity to the pool, though it may refresh the ones it has. */
  ghost predicate NoneAdded(w: World, es: seq<Event>) {
    forall i :: 0 <= i < |es| && es[i].AddIdentity? ==> es[i].spec.id in w.recs
  }

  lemma {:induction false} OrderKept(w: World, es: seq<Event>)
    requires w.Valid() && NoneAdded(w, es)
    ensures After(w, es).order == w.order
  {
    if es != [] {
      OrderKept(w, es[..|es| - 1]);
    }
  }

  /** Reachable, not kept out by its failures, and below the cap of its day: all by the history. */
  ghost predicate Fit(w: World, es: seq<Event>, spec: Spec, start: int, dest: string, now: int)
    requires w.Valid()
  {
    var day := Days(start, now);
    var cap := CapOn(w.cfg, spec.warmUp, 0, day);
    && OnlineAfter(true, es, spec.id) && !Out(w.cfg, es, spec.id, dest, now)
    && (cap > 0 ==> GrantsOn(w, es, spec.id, start, day) < cap)
  }

  /** Better answers at the destination, or as good ones and fewer probes today. */
  ghost predicate Outranks(w: World, es: seq<Event>, a: string, b: string, start: int, dest: string, now: int)
    requires w.Valid()
  {
    var sa := ScoreAfter(w.cfg.alpha, 1.0, KindsIn(es, a, dest));
    var sb := ScoreAfter(w.cfg.alpha, 1.0, KindsIn(es, b, dest));
    var day := Days(start, now);
    sa > sb || (sa == sb && GrantsOn(w, es, a, start, day) < GrantsOn(w, es, b, start, day))
  }

  /** Spec `i` is fit, outranks the fit ones before it, and is outranked by none after it. */
  ghost predicate First(w: World, specs: seq<Spec>, es: seq<Event>, start: int, dest: string, now: int, i: nat)
    requires w.Valid()
  {
    && i < |specs| && Fit(w, es, specs[i], start, dest, now)
    && (forall j :: 0 <= j < i && Fit(w, es, specs[j], start, dest, now) ==>
          Outranks(w, es, specs[i].id, specs[j].id, start, dest, now))
    && (forall j :: i <= j < |specs| && Fit(w, es, specs[j], start, dest, now) ==>
          !Outranks(w, es, specs[j].id, specs[i].id, start, dest, now))
  }

  /** The run gives the history theorems something to stand on: every identity is left in service. */
  ghost predicate AllServe(w: World, specs: seq<Spec>, es: seq<Event>, start: int, now: int)
    requires w.Valid()
  {
    && SteadyBreakers(es, w.cfg.circuitThreshold) && Between(es, start, now) && NoneAdded(w, es)
    && (forall i :: 0 <= i < |specs| ==>
          && specs[i].id in w.recs && Newcomer(w.recs[specs[i].id], specs[i], start)
          && LeftAlone(w, es, specs[i].id))
  }

  /** One identity as the Binding sees it, and as the history says. */
  lemma SeenAsTold(w: World, specs: seq<Spec>, es: seq<Event>, start: int, dest: string, now: int, i: nat)
    requires w.Valid() && AllServe(w, specs, es, start, now) && i < |specs|
    ensures var v, id := After(w, es), specs[i].id;
            && id in v.recs && id in v.order
            && var q := Ranked(v, now)[id];
               && (Eligible(v.cfg, q, dest, now) <==> Fit(w, es, specs[i], start, dest, now))
               && Score(q, dest) == ScoreAfter(w.cfg.alpha, 1.0, KindsIn(es, id, dest))
               && q.usedToday == GrantsOn(w, es, id, start, Days(start, now))
  {
    var v, id := After(w, es), specs[i].id;
    ReconcileAllAt(v.cfg, v.order, v.recs, now, id);
    NewcomerEligibleIff(w, es, id, specs[i], start, dest, now);
    NewcomerScore(w, es, id, specs[i], start, dest);
    ReconcilingKeepsScore(v.cfg, v.recs[id], dest, now);
    UseOnDay(w, es, id, now);
    ConfigKept(w, es);
    SameResets(v.cfg, w.cfg, Recovered(v.recs[id], now), now);
  }

  /**
   Who is handed out, by the history alone: nobody if no identity is fit, otherwise the first among
   the fit ones with the best answers at the destination, counted from full health, and among those
   the ones least used today.
   */
  lemma RoutesByHistory(w: World, specs: seq<Spec>, es: seq<Event>, start: int, dest: string, now: int)
    requires w.Valid() && |specs| == |w.order| && AllServe(w, specs, es, start, now)
    requires forall i :: 0 <= i < |specs| ==> w.order[i] == specs[i].id
    ensures match Handed(After(w, es), Binding(dest, now))
            case None => forall i :: 0 <= i < |specs| ==> !Fit(w, es, specs[i], start, dest, now)
            case Some(id) => exists i: nat :: First(w, specs, es, start, dest, now, i) && specs[i].id == id
  {
    var v := After(w, es);
    OrderKept(w, es);
    BindChooses(v, dest, now);
    var pick := Handed(v, Binding(dest, now));
    if pick.None? {
      forall i | 0 <= i < |specs|
        ensures !Fit(w, es, specs[i], start, dest, now)
      {
        SeenAsTold(w, specs, es, start, dest, now, i);
        assert !Eligible(v.cfg, Ranked(v, now)[v.order[i]], dest, now);
      }
    } else {
      var i: nat :| IsPick(v.cfg, v.order, Ranked(v, now), dest, now, i) && v.order[i] == pick.value;
      PickIsFirst(w, specs, es, start, dest, now, i);
    }
  }

  lemma PickIsFirst(w: World, specs: seq<Spec>, es: seq<Event>, start: int, dest: string, now: int, i: nat)
    requires w.Valid() && |specs| == |w.order| && AllServe(w, specs, es, start, now)
    requires forall i :: 0 <= i < |specs| ==> w.order[i] == specs[i].id
    requires After(w, es).order == w.order
    requires IsPick(After(w, es).cfg, w.order, Ranked(After(w, es), now), dest, now, i)
    ensures First(w, specs, es, start, dest, now, i)
  {
    var v := After(w, es);
    SeenAsTold(w, specs, es, start, dest, now, i);
    forall j | 0 <= j < |specs| && Fit(w, es, specs[j], start, dest, now)
      ensures j < i ==> Outranks(w, es, specs[i].id, specs[j].id, start, dest, now)
      ensures j >= i ==> !Outranks(w, es, specs[j].id, specs[i].id, start, dest, now)
    {
      SeenAsTold(w, specs, es, start, dest, now, j);
      assert Eligible(v.cfg, Ranked(v, now)[v.order[j]], dest, now);
    }
  }

  /** In particular for every new pool of distinct identities. */
  lemma NewPoolRoutesByHistory(cfg: Config, specs: seq<Spec>, es: seq<Event>, start: int, dest: string, now: int)
    requires cfg.Valid() && Distinct(specs)
    ensures var w := Fresh(cfg, specs, start);
            && w.Valid() && (forall i :: 0 <= i < |specs| ==> specs[i].id in w.recs)
            && (SteadyBreakers(es, cfg.circuitThreshold) && Between(es, start, now) && NoneAdded(w, es)
                && (forall i :: 0 <= i < |specs| ==> LeftAlone(w, es, specs[i].id)) ==>
                  match Handed(After(w, es), Binding(dest, now))
                  case None => forall i :: 0 <= i < |specs| ==> !Fit(w, es, specs[i], start, dest, now)
                  case Some(id) => exists i: nat :: First(w, specs, es, start, dest, now, i) && specs[i].id == id)
  {
    var w := Fresh(cfg, specs, start);
    FreshIsValid(cfg, specs, start);
    forall i | 0 <= i < |specs|
      ensures specs[i].id in w.recs && Newcomer(w.recs[specs[i].id], specs[i], start)
    {
      NewPool(cfg, specs, start, i);
    }
    if SteadyBreakers(es, cfg.circuitThreshold) && Between(es, start, now) && NoneAdded(w, es)
       && (forall i :: 0 <= i < |specs| ==> LeftAlone(w, es, specs[i].id)) {
      RoutesByHistory(w, specs, es, start, dest, now);
    }
  }
}
