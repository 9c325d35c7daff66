/**
 What the scores are for: routing prefers the identity with the better answers. This joins the
 history behind a score, the order of scores and the choice of a Binding.
 */
module EgressRanking {
  import opened Common
  import opened Egress
  import opened EgressRouting
  import opened EgressRuns
  import opened EgressCircuits

  /** Equally many answers, and at least as good one by one. */
  ghost predicate AsGood(good: seq<Kind>, bad: seq<Kind>) {
    |good| == |bad| && forall i :: 0 <= i < |good| ==>
      good[i] != OtherKind && bad[i] != OtherKind && Worth(good[i]) >= Worth(bad[i])
  }

  lemma ReconcilingKeepsScore(cfg: Config, r: Record, dest: string, now: int)
    requires cfg.Valid()
    ensures Score(Reconciled(cfg, r, now), dest) == Score(r, dest)
  {
    ResetsClosedForm(cfg, Recovered(r, now), now);
  }

  /** Over a run, the identity with the better answers keeps the higher score. */
  lemma BetterAnswersScoreHigher(w: World, es: seq<Event>, a: string, b: string, dest: string, now: int)
    requires w.Valid() && a in w.recs && b in w.recs && NoReload(es, a) && NoReload(es, b)
    requires 0.0 <= Score(w.recs[b], dest) <= Score(w.recs[a], dest) <= 1.0
    requires AsGood(KindsIn(es, a, dest), KindsIn(es, b, dest))
    ensures var v := After(w, es);
            Score(Reconciled(v.cfg, v.recs[b], now), dest) <= Score(Reconciled(v.cfg, v.recs[a], now), dest)
  {
    var v := After(w, es);
    ScoreIsHistory(w, es, a, dest);
    ScoreIsHistory(w, es, b, dest);
    BetterAnswersRankHigher(w.cfg.alpha, Score(w.recs[a], dest), Score(w.recs[b], dest),
                            KindsIn(es, a, dest), KindsIn(es, b, dest));
    ReconcilingKeepsScore(v.cfg, v.recs[a], dest, now);
    ReconcilingKeepsScore(v.cfg, v.recs[b], dest, now);
  }

  /** Every place of `a` in the order comes after some place of `b`. */
  ghost predicate Precedes(order: seq<string>, b: string, a: string) {
    forall j :: 0 <= j < |order| && order[j] == a ==> b in order[..j]
  }

  /** What speaks for `b` when it is taken although `a` scores no lower. */
  ghost predicate Excused(cfg: Config, order: seq<string>, ra: Record, rb: Record, a: string, b: string, dest: string,
                          now: int)
    requires cfg.Valid()
  {
    || !Eligible(cfg, ra, dest, now)
    || (&& Score(ra, dest) == Score(rb, dest) && ra.usedToday >= rb.usedToday
        && (ra.usedToday == rb.usedToday ==> Precedes(order, b, a)))
  }

  lemma PickIsExcused(cfg: Config, order: seq<string>, recs: Records, a: string, b: string, dest: string, now: int)
    requires cfg.Valid() && Covers(recs, order) && a in order && b in order
    requires Chosen(cfg, order, recs, dest, now, Some(b)) && Score(recs[b], dest) <= Score(recs[a], dest)
    ensures a == b || Excused(cfg, order, recs[a], recs[b], a, b, dest, now)
  {
    var i: nat :| IsPick(cfg, order, recs, dest, now, i) && order[i] == b;
    if a != b && Eligible(cfg, recs[a], dest, now) {
      forall j | 0 <= j < |order| && order[j] == a
        ensures if j < i then Better(recs[b], recs[a], dest) else !Better(recs[a], recs[b], dest)
        ensures recs[a].usedToday == recs[b].usedToday ==> b in order[..j]
      {
        assert Eligible(cfg, recs[order[j]], dest, now);
        if i < j {
          assert order[..j][i] == b;
        }
      }
      var j :| 0 <= j < |order| && order[j] == a;
    }
  }

  /**
   Routing rewards good answers: if the answers of `a` at `dest` have been at least as good as those
   of `b`, one by one, a Binding takes `b` only if `a` is not eligible, or if the two have come out
   with the same score and `a` has been used more, or as much and comes later.
   */
  lemma BetterAnswersAreRouted(w: World, es: seq<Event>, a: string, b: string, dest: string, now: int)
    requires w.Valid() && a in w.recs && b in w.recs && NoReload(es, a) && NoReload(es, b)
    requires 0.0 <= Score(w.recs[b], dest) <= Score(w.recs[a], dest) <= 1.0
    requires AsGood(KindsIn(es, a, dest), KindsIn(es, b, dest))
    ensures var v := After(w, es);
            Handed(v, Binding(dest, now)) == Some(b) ==>
              a == b || Excused(v.cfg, v.order, Reconciled(v.cfg, v.recs[a], now), Reconciled(v.cfg, v.recs[b], now),
                                a, b, dest, now)
  {
    var v := After(w, es);
    if Handed(v, Binding(dest, now)) == Some(b) {
      BetterAnswersScoreHigher(w, es, a, b, dest, now);
      BindChooses(v, dest, now);
      ReconcileAllAt(v.cfg, v.order, v.recs, now, a);
      ReconcileAllAt(v.cfg, v.order, v.recs, now, b);
      PickIsExcused(v.cfg, v.order, Ranked(v, now), a, b, dest, now);
    }
  }
}
