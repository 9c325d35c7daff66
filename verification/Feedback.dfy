/**
 From probes to reputation: the engine names the destination of its feedback
 (pkg/engine/builtin/builtin.go), the egress manager names the destination it routes by
 (internal/egress/manager.go), and a probe teaches the pool something about its own route only
 where the two names agree.
 */
module Feedback {
  import opened Egress
  import opened EgressRouting
  import opened EgressRuns
  import opened EgressCircuits
  import Engine
  import Pipeline

  /** One probe through an identity: what was asked and what the engine found. */
  datatype Probe = Probe(egressId: string, task: Pipeline.Task, finding: Engine.Finding)

  function Route(t: Pipeline.Task): string {
    DestOf(t.provider, t.domain)
  }

  function Report(p: Probe): seq<Signal> {
    Engine.Signals(p.task, p.egressId, p.finding)
  }

  /** A probe reports on its own route exactly when the provider is known, or is itself the domain's name. */
  lemma ReportsOnRouteIff(p: Probe)
    ensures About(Report(p)[0], p.egressId, Route(p.task)) <==> p.task.provider != "custom" || p.task.domain == "custom"
  {
  }

  // ---------------------------------------------------------------- runs that say nothing about a pair

  lemma {:induction false} SilentKinds(es: seq<Event>, id: string, dest: string)
    requires Silent(es, id, dest)
    ensures KindsIn(es, id, dest) == []
  {
    if es != [] {
      var n := |es| - 1;
      SilentKinds(es[..n], id, dest);
      if es[n].Emit? {
        NothingAbout(es[n].signals, id, dest);
      }
    }
  }

  lemma {:induction false} NothingAbout(signals: seq<Signal>, id: string, dest: string)
    requires forall k :: 0 <= k < |signals| ==> !About(signals[k], id, dest)
    ensures KindsAbout(signals, id, dest) == []
  {
    if signals != [] {
      NothingAbout(signals[..|signals| - 1], id, dest);
    }
  }

  /** The breaker as it was, except that Bindings may have half-opened it. */
  predicate AtMostAsked(c: Circuit, c': Circuit) {
    c' == c || (c.state == Open && c' == c.(state := HalfOpen))
  }

  lemma {:induction false} SilentBreaker(w: World, es: seq<Event>, id: string, dest: string)
    requires w.Valid() && id in w.recs && Silent(es, id, dest)
    ensures AtMostAsked(CircuitOf(w.recs[id], dest), CircuitOf(After(w, es).recs[id], dest))
  {
    if es != [] {
      var n := |es| - 1;
      var v := After(w, es[..n]);
      SilentBreaker(w, es[..n], id, dest);
      BreakerStep(v, es[n], id, dest);
      if es[n].Emit? {
        RungNot(v.cfg, CircuitOf(v.recs[id], dest), id, dest, es[n].signals, es[n].now);
      }
    }
  }

  // ---------------------------------------------------------------- what engines report

  ghost predicate FromFunnel(t: Pipeline.Task) {
    exists env, input :: Surviving(env, input, t)
  }

  ghost predicate Surviving(env: Pipeline.World, input: string, t: Pipeline.Task) {
    Pipeline.Funnel(env, input).Survives? && Pipeline.Funnel(env, input).task == t
  }

  /** Every Emit of the run reports one probe of an address that survived the funnel, through any identity. */
  ghost predicate Probing(es: seq<Event>, probes: seq<Probe>) {
    |probes| == |es| &&
    forall i :: 0 <= i < |es| && es[i].Emit? ==> es[i].signals == Report(probes[i]) && FromFunnel(probes[i].task)
  }

  lemma TaskIsNamed(t: Pipeline.Task)
    requires FromFunnel(t)
    ensures '.' !in t.provider && t.provider != "" && '.' in t.domain
  {
    var env, input :| Surviving(env, input, t);
    Pipeline.TaskNames(env, input);
  }

  /** No report of any probe is about the domain of another one: providers are words, domains have dots. */
  lemma ProbingIsSilent(es: seq<Event>, probes: seq<Probe>, id: string, t: Pipeline.Task)
    requires Probing(es, probes) && FromFunnel(t) && t.provider == "custom"
    ensures Silent(es, id, Route(t))
  {
    TaskIsNamed(t);
    forall i | 0 <= i < |es| && es[i].Emit?
      ensures forall k :: 0 <= k < |es[i].signals| ==> !About(es[i].signals[k], id, Route(t))
    {
      TaskIsNamed(probes[i].task);
    }
  }

  /**
   Domains of no known provider are routed one by one, but all of them report as "custom": whatever
   the mail servers answer over a whole run of probes, to any providers through any identities, an
   identity's score and breaker for such a domain stay as they were, and the breaker lets it through
   exactly when it would have. Only a restored snapshot can change the score.
   */
  lemma CustomDomainsAreNotLearned(w: World, es: seq<Event>, probes: seq<Probe>, id: string, t: Pipeline.Task, now: int)
    requires w.Valid() && id in w.recs && Probing(es, probes) && FromFunnel(t) && t.provider == "custom"
    ensures var r, r' := w.recs[id], After(w, es).recs[id];
            && (NoReload(es, id) ==> Score(r', Route(t)) == Score(r, Route(t)))
            && AtMostAsked(CircuitOf(r, Route(t)), CircuitOf(r', Route(t)))
            && ((forall i :: 0 <= i < |es| && es[i].Binding? ==> es[i].now <= now) ==>
                  (Allows(CircuitOf(r', Route(t)), now) <==> Allows(CircuitOf(r, Route(t)), now)))
  {
    var d := Route(t);
    ProbingIsSilent(es, probes, id, t);
    SilentBreaker(w, es, id, d);
    if NoReload(es, id) {
      ScoreIsHistory(w, es, id, d);
      SilentKinds(es, id, d);
    }
    if forall i :: 0 <= i < |es| && es[i].Binding? ==> es[i].now <= now {
      BreakerExcludesIff(w, es, id, d, now);
    }
  }
}
