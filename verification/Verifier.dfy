/** Verifying one address end to end (internal/verifier/verifier.go). */
module Verifier {
  import opened Common
  import opened Verdicts
  import opened Pipeline
  import opened ResultCache
  import Egress
  import Engine
  import SmtpReplies
  import Syntax

  datatype Pacing = Unpaced | Proceeds | TooLong | CallerGone

  /** Everything a probe meets on its way: pacing, an egress identity, an engine, the mail servers. */
  datatype Chance = Chance(
    pacing: string -> Pacing,
    egress: Option<string>,
    remote: bool,
    engineFails: bool,
    detect: bool,
    net: string -> Engine.Session,
    now: int)

  /** The rate limiter is keyed by the primary mail exchanger. */
  function DestinationKey(t: Task): string {
    Syntax.Lower(if t.mx != [] && t.mx[0] != "" then t.mx[0] else t.domain)
  }

  function PolicyKey(t: Task): string {
    if t.provider != "" && t.provider != "custom" then t.provider else t.domain
  }

  function Unprobed(t: Task, checks: Checks, status: Status, sub: SubStatus, now: int): Verdict {
    Verdict(t.email, t.normalized, status, sub, checks, t.provider, "", false, now)
  }

  function Skipped(t: Task, checks: Checks, now: int): Verdict {
    Unprobed(t, checks, Risky, ProviderSkipped, now)
  }

  function Deferred(t: Task, checks: Checks, now: int): Verdict {
    Unprobed(t, checks, Unknown, TemporaryFailure, now)
  }

  /** The engine's verdict with the funnel's findings; a live role account is only risky. */
  function Merged(t: Task, checks: Checks, ev: Verdict): Verdict {
    var v := ev.(checks := checks.(catchAll := ev.checks.catchAll, smtpCode := ev.checks.smtpCode),
                 normalized := if ev.normalized == "" then t.normalized else ev.normalized,
                 provider := if ev.provider == "" then t.provider else ev.provider);
    if v.status == Deliverable && checks.role then v.(status := Risky, subStatus := RoleAccount) else v
  }

  /** The engine is reached when pacing and the egress pool let the probe through. */
  predicate Reaches(t: Task, c: Chance) {
    c.pacing(DestinationKey(t)) in {Unpaced, Proceeds} && c.egress.Some?
  }

  /** What a probe comes to; None is an error handed to the caller. */
  function Probed(t: Task, checks: Checks, c: Chance): Option<Verdict> {
    if c.pacing(DestinationKey(t)) == CallerGone then None
    else if !Reaches(t, c) then Some(Deferred(t, checks, c.now))
    else if c.engineFails then if c.remote then Some(Deferred(t, checks, c.now)) else None
    else Some(Merged(t, checks, Engine.Reported(t, c.egress.value, Engine.FoundBy(c.detect, c.net, t.mx), c.now)))
  }

  function KeyFor(out: Outcome): string
    requires !out.Retry?
  {
    if out.Terminal? then out.verdict.normalized else out.task.normalized
  }

  /** The verdict computed when the cache has none; None is an error. */
  function Computed(out: Outcome, skip: string -> bool, c: Chance): Option<Verdict>
    requires !out.Retry?
  {
    match out
    case Terminal(v) => Some(v)
    case Survives(t, checks) => if skip(PolicyKey(t)) then Some(Skipped(t, checks, c.now)) else Probed(t, checks, c)
  }

  /** Whether computing the verdict runs the engine. */
  predicate Runs(out: Outcome, skip: string -> bool, c: Chance) {
    out.Survives? && !skip(PolicyKey(out.task)) && Reaches(out.task, c)
  }

  function AsCached(v: Verdict): Verdict {
    v.(cached := true)
  }

  /** 24 hours, in the unit of the clock. */
  const DEFAULT_TTL := 24 * 60 * 60 * 1_000_000_000

  class Service {
    const cache: ResultStore?
    const ttl: int

    constructor (cache: ResultStore?, ttl: int)
      ensures this.cache == cache && this.ttl == if ttl == 0 then DEFAULT_TTL else ttl
    {
      this.cache := cache;
      this.ttl := if ttl == 0 then DEFAULT_TTL else ttl;
    }

    method CacheGet(key: string, now: int) returns (v: Option<Verdict>)
      modifies cache
      ensures cache == null || key == "" ==> v == None && (cache != null ==> cache.items == old(cache.items))
      ensures cache != null && key != "" ==>
                v == Hit(old(cache.items), key, now) && cache.items == Looked(old(cache.items), key, now)
    {
      if cache == null || key == "" {
        return None;
      }
      v := cache.Get(key, now);
    }

    method Probe(t: Task, checks: Checks, c: Chance)
      returns (v: Option<Verdict>, signals: seq<Egress.Signal>, runs: nat)
      ensures v == Probed(t, checks, c)
      ensures runs == if Reaches(t, c) then 1 else 0
      ensures signals == if Reaches(t, c) && !c.engineFails
                         then Engine.Signals(t, c.egress.value, Engine.FoundBy(c.detect, c.net, t.mx)) else []
    {
      signals, runs := [], 0;
      var pacing := c.pacing(DestinationKey(t));
      if pacing == CallerGone {
        return None, signals, runs;
      }
      if pacing == TooLong || c.egress.None? {
        return Some(Deferred(t, checks, c.now)), signals, runs;
      }
      runs := runs + 1;
      if c.engineFails {
        if c.remote {
          return Some(Deferred(t, checks, c.now)), signals, runs;
        }
        return None, signals, runs;
      }
      var ev: Verdict;
      ev, signals := Engine.Verify(c.detect, c.net, t, c.egress.value, c.now);
      return Some(Merged(t, checks, ev)), signals, runs;
    }

    /** One verification at a time `now`; `runs` counts the engine's runs. */
    method Verify(env: World, input: string, skip: string -> bool, c: Chance, now: int)
      returns (answer: Option<Verdict>, signals: seq<Egress.Signal>, runs: nat)
      modifies cache
      ensures Answers(Funnel(env, input), skip, c, if cache == null then None else Some(old(cache.items)), now,
                      answer, runs)
      ensures runs == 0 || c.engineFails ==> signals == []
      ensures runs > 0 && !c.engineFails ==>
                var out := Funnel(env, input);
                && out.Survives? && c.egress.Some?
                && signals == Engine.Signals(out.task, c.egress.value, Engine.FoundBy(c.detect, c.net, out.task.mx))
      ensures cache != null ==>
                cache.items == Kept(Funnel(env, input), skip, c, old(cache.items), ttl, now)
    {
      signals, runs := [], 0;
      var out := Pipeline.Run(env, input);
      if out.Retry? {
        return None, signals, runs;
      }
      var key := KeyFor(out);
      var hit := CacheGet(key, now);
      if hit.Some? {
        return Some(AsCached(hit.value)), signals, runs;
      }
      match out {
        case Terminal(v) =>
          answer := Some(v);
        case Survives(t, checks) =>
          if skip(PolicyKey(t)) {
            answer := Some(Skipped(t, checks, c.now));
          } else {
            answer, signals, runs := Probe(t, checks, c);
          }
      }
      if answer.Some? && answer.value.status != Unknown && cache != null && key != "" {
        cache.Put(key, answer.value, ttl, now);
      }
    }
  }

  /** A cached answer stops the verification; otherwise the computed verdict is the answer. */
  ghost predicate Answers(out: Outcome, skip: string -> bool, c: Chance, items: Option<map<string, Entry>>, now: int,
                          answer: Option<Verdict>, runs: nat) {
    if out.Retry? then answer == None && runs == 0
    else
      var hit := if items.Some? && KeyFor(out) != "" then Hit(items.value, KeyFor(out), now) else None;
      if hit.Some? then answer == Some(AsCached(hit.value)) && runs == 0
      else answer == Computed(out, skip, c) && runs == if Runs(out, skip, c) then 1 else 0
  }

  /** The cache after a verification: an expired entry is dropped, a settled verdict is stored. */
  function Kept(out: Outcome, skip: string -> bool, c: Chance, items: map<string, Entry>, ttl: int, now: int)
    : map<string, Entry>
  {
    if out.Retry? || KeyFor(out) == "" || Hit(items, KeyFor(out), now).Some? then items
    else
      var v := Computed(out, skip, c);
      var looked := Looked(items, KeyFor(out), now);
      if v.Some? && v.value.status != Unknown then looked[KeyFor(out) := Stamped(v.value, ttl, now)] else looked
  }

  // ---------------------------------------------------------------- what a verdict can look like

  /** The combinations of status and reason that a computed verdict can carry. */
  predicate Sane(v: Verdict) {
    match v.status
    case Deliverable => v.subStatus == ValidMailbox
    case Undeliverable => v.subStatus in {InvalidSyntax, NoMXRecord, DomainNotFound, MailboxNotFound}
    case Risky => v.subStatus in {Disposable, RoleAccount, ProviderSkipped, FullMailbox, CatchAll}
    case Unknown => v.subStatus in {BlockedUs, Greylisted, TemporaryFailure, NoConnect}
  }

  lemma MergedSane(t: Task, checks: Checks, ev: Verdict, r: SmtpReplies.Reading)
    requires ev.status == r.status && ev.subStatus == r.sub && SmtpReplies.Agrees(r)
    ensures Sane(Merged(t, checks, ev))
    ensures Merged(t, checks, ev).status == Deliverable <==> ev.status == Deliverable && !checks.role
  {
  }

  /**
   Every verdict computed for an address is sane, is not marked cached, carries the key it is filed
   under, and never calls a role account deliverable.
   */
  lemma ComputedIsSane(env: World, input: string, skip: string -> bool, c: Chance)
    requires !Funnel(env, input).Retry? && Computed(Funnel(env, input), skip, c).Some?
    ensures var out := Funnel(env, input);
            var v := Computed(out, skip, c).value;
            Sane(v) && !v.cached && v.normalized == KeyFor(out)
            && (v.status == Deliverable ==> Runs(out, skip, c) && !v.checks.role)
  {
    FunnelGuarantees(env, input);
    var out := Funnel(env, input);
    if out.Survives? && Runs(out, skip, c) && !c.engineFails {
      ProbedIsSane(out.task, out.checks, c);
    }
  }

  lemma ProbedIsSane(t: Task, checks: Checks, c: Chance)
    requires Reaches(t, c) && !c.engineFails && t.normalized != ""
    ensures Probed(t, checks, c).Some?
    ensures var v := Probed(t, checks, c).value;
            Sane(v) && !v.cached && v.normalized == t.normalized && (v.status == Deliverable ==> !v.checks.role)
  {
    var f := Engine.FoundBy(c.detect, c.net, t.mx);
    Engine.OneHonestSignal(c.detect, c.net, t, c.egress.value, c.now);
    MergedSane(t, checks, Engine.Reported(t, c.egress.value, f, c.now), f.reading);
  }
}
