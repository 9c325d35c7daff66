/**
 From an address to its verdict and its download bucket, from the outside: which answers of the
 resolver, the policy, the limiter, the egress pool and the mail servers lead to which verdict.
 */
module VerdictOutcomes {
  import opened Common
  import opened Verdicts
  import opened Syntax
  import opened CanonicalKeys
  import opened FunnelOutcomes
  import opened Verifier
  import Pipeline
  import Engine
  import Egress
  import SmtpReplies
  import Buckets
  import Text

  // ---------------------------------------------------------------- names

  /** What a surviving address is routed and judged by: its provider if it has a known one, or else its domain. */
  ghost function NameFor(env: Pipeline.World, d: string): string {
    if ProviderFor(env, d) == "custom" then d else ProviderFor(env, d)
  }

  lemma ProviderIsNamed(env: Pipeline.World, d: string)
    ensures ProviderFor(env, d) != ""
  {
  }

  /** The first mail exchanger, in lower case, is what the limiter paces by. */
  function PaceName(env: Pipeline.World, d: string): string
    requires HostsFor(env, d) != []
  {
    Lower(HostsFor(env, d)[0])
  }

  lemma HostsAreThere(env: Pipeline.World, d: string)
    requires d != ""
    ensures HostsFor(env, d) != [] && HostsFor(env, d)[0] != ""
  {
    if Exchanged(env, d) {
      NoHostsIff(env.mx(d).hosts);
      Pipeline.HostsAreNamed(env.mx(d).hosts);
    }
  }

  lemma SurvivorIsNamed(env: Pipeline.World, input: string)
    requires Pipeline.Funnel(env, input).Survives?
    ensures AddressIn(input).Some? && HostsFor(env, DomainOf(AddressIn(input).value)) != []
    ensures var t, d := Pipeline.Funnel(env, input).task, DomainOf(AddressIn(input).value);
            && PolicyKey(t) == NameFor(env, d) == Egress.DestOf(t.provider, t.domain)
            && DestinationKey(t) == PaceName(env, d)
  {
    SurvivorIs(env, input);
    Pipeline.DomainIsNamed(Text.TrimSpace(input));
    HostsAreThere(env, DomainOf(AddressIn(input).value));
    ProviderIsNamed(env, DomainOf(AddressIn(input).value));
  }

  /**
   Probes of two addresses are paced together exactly if their first mail exchangers are the same up
   to case, whatever their domains and providers.
   */
  lemma PacedTogetherIff(env: Pipeline.World, x: string, y: string)
    requires Pipeline.Funnel(env, x).Survives? && Pipeline.Funnel(env, y).Survives?
    ensures var s, t := Pipeline.Funnel(env, x).task, Pipeline.Funnel(env, y).task;
            && s.mx != [] && t.mx != []
            && (DestinationKey(s) == DestinationKey(t) <==> Lower(s.mx[0]) == Lower(t.mx[0]))
  {
    SurvivorIsNamed(env, x);
    SurvivorIsNamed(env, y);
    SurvivorIs(env, x);
    SurvivorIs(env, y);
  }

  // ---------------------------------------------------------------- ways a probe can go

  /** The address is left to be probed, and its provider is not one that policy skips. */
  ghost predicate Wanted(env: Pipeline.World, input: string, skip: string -> bool) {
    && Pipeline.Funnel(env, input).Survives? && AddressIn(input).Some?
    && !skip(NameFor(env, DomainOf(AddressIn(input).value)))
  }

  ghost predicate Spared(env: Pipeline.World, input: string, skip: string -> bool) {
    && Pipeline.Funnel(env, input).Survives? && AddressIn(input).Some?
    && skip(NameFor(env, DomainOf(AddressIn(input).value)))
  }

  /** How the limiter answers for a surviving address. */
  ghost function PacingOf(env: Pipeline.World, input: string, c: Chance): Pacing
    requires Pipeline.Funnel(env, input).Survives?
  {
    SurvivorIsNamed(env, input);
    c.pacing(PaceName(env, DomainOf(AddressIn(input).value)))
  }

  /** The limiter and the egress pool let the probe through to an engine. */
  ghost predicate LetThrough(env: Pipeline.World, input: string, skip: string -> bool, c: Chance) {
    && Wanted(env, input, skip) && c.egress.Some?
    && (PacingOf(env, input, c) == Unpaced || PacingOf(env, input, c) == Proceeds)
  }

  /** The probe took place. */
  ghost predicate TookPlace(env: Pipeline.World, input: string, skip: string -> bool, c: Chance) {
    LetThrough(env, input, skip, c) && !c.engineFails
  }

  /** The conversation a probe has: with the first of the address's hosts that can be reached, if any can. */
  function Talk(env: Pipeline.World, input: string, c: Chance): Option<Engine.Session> {
    var out := Pipeline.Funnel(env, input);
    if out.Survives? then FirstTalk(c.net, out.task.mx) else None
  }

  function FirstTalk(net: string -> Engine.Session, hosts: seq<string>): Option<Engine.Session> {
    var k := Engine.FirstUp(net, hosts);
    if k < |hosts| then Some(net(hosts[k])) else None
  }

  /** Errors go to the caller exactly if the caller left, or the local engine failed. */
  lemma FailsIff(env: Pipeline.World, input: string, skip: string -> bool, c: Chance)
    requires !Pipeline.Funnel(env, input).Retry?
    ensures Computed(Pipeline.Funnel(env, input), skip, c).None? <==>
            && Wanted(env, input, skip)
            && (PacingOf(env, input, c) == CallerGone
                || (LetThrough(env, input, skip, c) && c.engineFails && !c.remote))
  {
    if Pipeline.Funnel(env, input).Survives? {
      SurvivorIsNamed(env, input);
    }
  }

  /** The verdict of a probe that took place: the engine's, with the funnel's findings beside it. */
  lemma ProbeSays(env: Pipeline.World, input: string, skip: string -> bool, c: Chance)
    requires TookPlace(env, input, skip, c)
    ensures AddressIn(input).Some?
    ensures var a, hosts := AddressIn(input).value, HostsFor(env, DomainOf(AddressIn(input).value));
            var f := Engine.FoundBy(c.detect, c.net, hosts);
            var role := f.reading.status == Deliverable && env.role(a.local);
            Computed(Pipeline.Funnel(env, input), skip, c) ==
            Some(Verdict(Spelled(a), KeyOf(a), if role then Risky else f.reading.status,
                         if role then RoleAccount else f.reading.sub,
                         Findings(env, a, hosts).(catchAll := f.catchAll, smtpCode := f.code),
                         ProviderFor(env, DomainOf(a)), c.egress.value, false, c.now))
  {
    SurvivorIs(env, input);
    SurvivorIsNamed(env, input);
    ProviderIsNamed(env, DomainOf(AddressIn(input).value));
    Pipeline.FunnelGuarantees(env, input);
    assert Spelled(AddressIn(input).value) != "";
  }

  /** The verdict on an address that was not probed: risky if policy spares it, otherwise to be tried again. */
  lemma UnprobedSays(env: Pipeline.World, input: string, skip: string -> bool, c: Chance)
    requires Pipeline.Funnel(env, input).Survives? && !TookPlace(env, input, skip, c)
    requires Computed(Pipeline.Funnel(env, input), skip, c).Some?
    ensures AddressIn(input).Some?
    ensures var a, hosts := AddressIn(input).value, HostsFor(env, DomainOf(AddressIn(input).value));
            var spared := Spared(env, input, skip);
            Computed(Pipeline.Funnel(env, input), skip, c) ==
            Some(Verdict(Spelled(a), KeyOf(a), if spared then Risky else Unknown,
                         if spared then ProviderSkipped else TemporaryFailure,
                         Findings(env, a, hosts), ProviderFor(env, DomainOf(a)), "", false, c.now))
  {
    SurvivorIs(env, input);
    SurvivorIsNamed(env, input);
  }

  // ---------------------------------------------------------------- buckets

  ghost predicate Rejected(env: Pipeline.World, input: string, sub: SubStatus) {
    Rejection(Pipeline.Funnel(env, input)) == Some(sub)
  }

  /** The conversation says nothing about the mailbox. */
  ghost predicate Inconclusive(s: Engine.Session) {
    Engine.TurnsUsAway(s) || Engine.PutsOff(s) || Engine.Trails(s)
  }

  /** The status an engine reports, by the conversation. */
  lemma HeardStatus(detect: bool, net: string -> Engine.Session, hosts: seq<string>)
    ensures var x, s := Engine.FoundBy(detect, net, hosts).reading, FirstTalk(net, hosts);
            && (x.status == Deliverable <==> s.Some? && Engine.Welcomes(detect, s.value))
            && (x.status == Risky <==> s.Some? && (Engine.TakesAnyone(detect, s.value) || Engine.Overflows(s.value)))
            && (x.status == Undeliverable <==> s.Some? && Engine.Disowns(s.value))
            && (x.status == Unknown <==> s.None? || Inconclusive(s.value))
            && x.sub != RoleAccount && x.sub != ProviderSkipped
  {
    Engine.StatusIff(detect, net, hosts);
    var k := Engine.FirstUp(net, hosts);
    if k < |hosts| {
      Engine.ConversationsAreCovered(detect, net(hosts[k]));
    }
  }

  /** Downgrading a live role account does not change its download. */
  lemma MergedBucket(v: Verdict, status: Status, sub: SubStatus, role: bool)
    requires v.status == (if status == Deliverable && role then Risky else status)
    requires v.subStatus == (if status == Deliverable && role then RoleAccount else sub)
    requires sub != RoleAccount && sub != ProviderSkipped
    ensures var b := Buckets.Classified(v);
            && (b == Buckets.Safe <==> status == Deliverable) && (b == Buckets.RiskyRows <==> status == Risky)
            && (b == Buckets.UndeliverableRows <==> status == Undeliverable) && b != Buckets.SkippedRows
            && (b == Buckets.Retry <==> status == Unknown)
  {
  }

  /** The download of a verdict that was merged from an engine's finding about these hosts. */
  lemma FoundBucket(v: Verdict, detect: bool, net: string -> Engine.Session, hosts: seq<string>, role: bool)
    requires var x := Engine.FoundBy(detect, net, hosts).reading;
             && v.status == (if x.status == Deliverable && role then Risky else x.status)
             && v.subStatus == (if x.status == Deliverable && role then RoleAccount else x.sub)
    ensures FitsTalk(Buckets.Classified(v), detect, FirstTalk(net, hosts))
  {
    var x := Engine.FoundBy(detect, net, hosts).reading;
    HeardStatus(detect, net, hosts);
    MergedBucket(v, x.status, x.sub, role);
  }

  /** The download that a probe with this conversation leads to. */
  ghost predicate FitsTalk(b: Buckets.Bucket, detect: bool, s: Option<Engine.Session>) {
    && (b == Buckets.Safe <==> s.Some? && Engine.Welcomes(detect, s.value))
    && (b == Buckets.RiskyRows <==> s.Some? && (Engine.TakesAnyone(detect, s.value) || Engine.Overflows(s.value)))
    && (b == Buckets.UndeliverableRows <==> s.Some? && Engine.Disowns(s.value))
    && (b == Buckets.Retry <==> s.None? || Inconclusive(s.value)) && b != Buckets.SkippedRows
  }

  lemma ProbedBucket(env: Pipeline.World, input: string, skip: string -> bool, c: Chance)
    requires TookPlace(env, input, skip, c)
    ensures var v := Computed(Pipeline.Funnel(env, input), skip, c);
            v.Some? && FitsTalk(Buckets.Classified(v.value), c.detect, Talk(env, input, c))
  {
    ProbeSays(env, input, skip, c);
    SurvivorIs(env, input);
    var a := AddressIn(input).value;
    FoundBucket(Computed(Pipeline.Funnel(env, input), skip, c).value, c.detect, c.net, HostsFor(env, DomainOf(a)),
                env.role(a.local));
  }

  lemma UnprobedBucket(env: Pipeline.World, input: string, skip: string -> bool, c: Chance)
    requires Pipeline.Funnel(env, input).Survives? && !TookPlace(env, input, skip, c)
    requires Computed(Pipeline.Funnel(env, input), skip, c).Some?
    ensures AddressIn(input).Some?
    ensures Buckets.Classified(Computed(Pipeline.Funnel(env, input), skip, c).value) ==
            if Spared(env, input, skip) then Buckets.SkippedRows else Buckets.Retry
  {
    UnprobedSays(env, input, skip, c);
    PlainBucket(Computed(Pipeline.Funnel(env, input), skip, c).value, Spared(env, input, skip));
  }

  lemma PlainBucket(v: Verdict, spared: bool)
    requires v.status == (if spared then Risky else Unknown)
    requires v.subStatus == (if spared then ProviderSkipped else TemporaryFailure)
    ensures Buckets.Classified(v) == if spared then Buckets.SkippedRows else Buckets.Retry
  {
  }

  lemma RejectedBucket(env: Pipeline.World, input: string)
    requires Pipeline.Funnel(env, input).Terminal?
    ensures Buckets.Classified(Pipeline.Funnel(env, input).verdict) ==
            if Rejected(env, input, Disposable) then Buckets.RiskyRows else Buckets.UndeliverableRows
    ensures Rejected(env, input, Disposable) || Rejected(env, input, InvalidSyntax) ||
            Rejected(env, input, NoMXRecord) || Rejected(env, input, DomainNotFound)
  {
    Pipeline.FunnelGuarantees(env, input);
  }

  /**
   Which download an address ends up in. "Safe" holds exactly the addresses whose first reachable host
   took the recipient and no stranger; "undeliverable" the ones rejected for their syntax or by the
   resolver, or disowned by that host; "risky" the disposable, catch-all and overflowing ones;
   "skipped" the ones policy spared; and to be tried again are the ones whose probe did not take place,
   reached nobody or was inconclusive.
   */
  lemma BucketIff(env: Pipeline.World, input: string, skip: string -> bool, c: Chance)
    requires !Pipeline.Funnel(env, input).Retry? && Computed(Pipeline.Funnel(env, input), skip, c).Some?
    ensures var b := Buckets.Classified(Computed(Pipeline.Funnel(env, input), skip, c).value);
            var took, s := TookPlace(env, input, skip, c), Talk(env, input, c);
            var heard := took && s.Some?;
            && (b == Buckets.Safe <==> heard && Engine.Welcomes(c.detect, s.value))
            && (b == Buckets.RiskyRows <==>
                || Rejected(env, input, Disposable)
                || (heard && (Engine.TakesAnyone(c.detect, s.value) || Engine.Overflows(s.value))))
            && (b == Buckets.UndeliverableRows <==>
                || Rejected(env, input, InvalidSyntax) || Rejected(env, input, NoMXRecord)
                || Rejected(env, input, DomainNotFound)
                || (heard && Engine.Disowns(s.value)))
            && (b == Buckets.SkippedRows <==> Spared(env, input, skip))
            && (b == Buckets.Retry <==>
                Wanted(env, input, skip) && (!took || s.None? || Inconclusive(s.value)))
  {
    var out := Pipeline.Funnel(env, input);
    if out.Terminal? {
      RejectedBucket(env, input);
    } else if TookPlace(env, input, skip, c) {
      ProbedBucket(env, input, skip, c);
    } else {
      UnprobedBucket(env, input, skip, c);
    }
  }
}
