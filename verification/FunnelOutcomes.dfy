/**
 What the funnel decides, from the outside: which answers of the resolver and the word lists lead to
 which outcome, and what the outcome says. The stages are not mentioned.
 */
module FunnelOutcomes {
  import opened Common
  import opened Text
  import opened Syntax
  import opened CanonicalKeys
  import opened Verdicts
  import opened Pipeline

  // ---------------------------------------------------------------- names of mail exchangers

  /** A record that names no host: nothing is left once the root's dot is cut off. */
  predicate Nameless(h: string) {
    h == "" || h == "." || h == ".."
  }

  /** Collecting hosts works record by record and keeps the resolver's order. */
  lemma HostsOfMore(front: seq<string>, h: string)
    ensures MxHosts(front + [h]) == MxHosts(front) + MxHosts([h])
  {
    var all := front + [h];
    assert all[..|all| - 1] == front && all[|all| - 1] == h;
    assert [h][..0] == [];
  }

  /** A record stands for the name it spells, written with or without the root's dot. */
  lemma HostOfOne(h: string)
    ensures MxHosts([h]) == [] <==> Nameless(h)
    ensures h != "" && h != "." ==> MxHosts([h + "."]) == [h]
    ensures h != "" && h[|h| - 1] != '.' ==> MxHosts([h]) == [h]
  {
    assert [h][..0] == [] && [h + "."][..0] == [];
    assert TrimDot(h + ".") == h;
    if h != "" && h[|h| - 1] == '.' {
      assert h == TrimDot(h) + ".";
    }
  }

  lemma {:induction false} NoHostsIff(records: seq<string>)
    ensures MxHosts(records) == [] <==> forall i :: 0 <= i < |records| ==> Nameless(records[i])
  {
    if records != [] {
      var n := |records| - 1;
      NoHostsIff(records[..n]);
      HostOfOne(records[n]);
      HostsOfMore(records[..n], records[n]);
      assert records == records[..n] + [records[n]];
    }
  }

  // ---------------------------------------------------------------- providers

  /** The host's name, in any case and with or without the root's dot, ends like this. */
  ghost predicate NamedUnder(host: string, suffix: string) {
    exists front :: Lower(TrimDot(host)) == front + suffix
  }

  lemma SuffixIff(s: string, suffix: string)
    ensures HasSuffix(s, suffix) <==> exists front :: s == front + suffix
  {
    if HasSuffix(s, suffix) {
      assert s == s[..|s| - |suffix|] + suffix;
    }
  }

  ghost predicate Google(host: string) {
    NamedUnder(host, "google.com") || NamedUnder(host, "googlemail.com")
  }

  ghost predicate Microsoft(host: string) {
    NamedUnder(host, "outlook.com")
  }

  /** The first host that gives a provider away; |hosts| when none does. */
  ghost function Telltale(hosts: seq<string>): (k: nat)
    ensures k <= |hosts|
  {
    if hosts == [] || Google(hosts[0]) || Microsoft(hosts[0]) then 0 else 1 + Telltale(hosts[1..])
  }

  /** The provider is told by the first host that belongs to one of the two, and by no other. */
  lemma {:induction false} ProviderIsTold(hosts: seq<string>)
    ensures var k := Telltale(hosts);
            RefinedProvider(hosts) ==
            if k == |hosts| then "" else if Google(hosts[k]) then "google_workspace" else "microsoft365"
  {
    if hosts != [] {
      SuffixIff(Lower(TrimDot(hosts[0])), "google.com");
      SuffixIff(Lower(TrimDot(hosts[0])), "googlemail.com");
      SuffixIff(Lower(TrimDot(hosts[0])), "outlook.com");
      ProviderIsTold(hosts[1..]);
    }
  }

  // ---------------------------------------------------------------- which answers lead where

  /** The address of the input, if it has one. */
  function AddressIn(input: string): Option<Address> {
    SplitAndValidate(TrimSpace(input))
  }

  function DomainOf(a: Address): string {
    Lower(a.domain)
  }

  /** The resolver names at least one mail exchanger. */
  predicate Exchanged(env: World, d: string) {
    env.mx(d).MxRecords? && exists i | 0 <= i < |env.mx(d).hosts| :: !Nameless(env.mx(d).hosts[i])
  }

  /** The domain declares that it takes no mail (RFC 7505). */
  predicate NullMx(env: World, d: string) {
    env.mx(d) == MxRecords(["."])
  }

  /** A domain without mail exchangers takes its own mail if it has an address (section 5.1 of RFC 5321). */
  predicate OwnExchanger(env: World, d: string) {
    !Exchanged(env, d) && !NullMx(env, d) && env.hasHost(d)
  }

  /** The address is well formed and its domain is not a disposable one. */
  predicate Plausible(env: World, input: string) {
    AddressIn(input).Some? && !env.disposable(DomainOf(AddressIn(input).value))
  }

  function Rejection(out: Outcome): Option<SubStatus> {
    if out.Terminal? then Some(out.verdict.subStatus) else None
  }

  lemma ResolvedIff(env: World, w: Work)
    requires w.terminal.None?
    ensures var d, r := w.domain, Resolved(env, w);
            var named, own := Exchanged(env, d), OwnExchanger(env, d);
            && (r.None? <==> !named && !own && env.mx(d) == MxFailed(Temporary))
            && (r.Some? && r.value.terminal.None? <==> named || own)
            && (r.Some? && r.value.terminal.Some? ==>
                  && r.value.terminal.value ==
                     Verdict(w.email, w.normalized, Undeliverable, r.value.terminal.value.subStatus, w.checks,
                             w.provider, "", false, env.now)
                  && r.value.terminal.value.subStatus ==
                     (if env.mx(d) == MxFailed(NotFound) then DomainNotFound else NoMXRecord))
  {
    match env.mx(w.domain)
    case MxFailed(_) =>
    case MxRecords(records) =>
      NoHostsIff(records);
      if NullMx(env, w.domain) {
        assert forall i :: 0 <= i < |records| ==> records[i] == ".";
      }
  }

  /**
   Which answers lead where. An address is rejected for its syntax, for its domain's reputation, or by
   the resolver; a lookup that fails for now is handed back to be tried again, unless the domain has
   an address of its own; and everything else is left to be probed.
   */
  lemma OutcomeIff(env: World, input: string)
    ensures var a, out := AddressIn(input), Funnel(env, input);
            && (Rejection(out) == Some(InvalidSyntax) <==> a.None?)
            && (a.Some? ==>
                  var d := DomainOf(a.value);
                  var served := Exchanged(env, d) || OwnExchanger(env, d);
                  && (Rejection(out) == Some(Disposable) <==> env.disposable(d))
                  && (out.Retry? <==> Plausible(env, input) && !served && env.mx(d) == MxFailed(Temporary))
                  && (Rejection(out) == Some(DomainNotFound) <==>
                      Plausible(env, input) && !served && env.mx(d) == MxFailed(NotFound))
                  && (Rejection(out) == Some(NoMXRecord) <==>
                      && Plausible(env, input) && !served
                      && (env.mx(d) == MxFailed(OtherError) || env.mx(d).MxRecords?))
                  && (out.Survives? <==> Plausible(env, input) && served))
  {
    var a := AddressIn(input);
    if a.None? {
      RejectsMalformed(env, input);
    } else {
      var w := Located(input, a.value);
      Locates(env, input, a.value);
      AfterNormalizing(env, w);
      ResolvedIff(env, Flagged(env, w));
    }
  }

  /** The findings of the funnel about an address that reached the resolver. */
  function Findings(env: World, a: Address, mx: seq<string>): Checks {
    Checks(true, mx, false, env.role(a.local), env.free(DomainOf(a)), false, 0)
  }

  function Spelled(a: Address): string {
    a.local + "@" + DomainOf(a)
  }

  /** What a rejection says: the address as it will be filed, the findings so far, and no server asked. */
  lemma RejectionSays(env: World, input: string)
    requires Funnel(env, input).Terminal?
    ensures var a, v := AddressIn(input), Funnel(env, input).verdict;
            if a.None?
            then v == Verdict(TrimSpace(input), input, Undeliverable, InvalidSyntax, NoChecks, "", "", false, env.now)
            else var d := DomainOf(a.value);
                 if env.disposable(d)
                 then v == Verdict(Spelled(a.value), KeyOf(a.value), Risky, Disposable,
                                   Checks(true, [], true, false, false, false, 0), ProviderForDomain(d), "", false,
                                   env.now)
                 else v == Verdict(Spelled(a.value), KeyOf(a.value), Undeliverable, v.subStatus,
                                   Findings(env, a.value, []), ProviderForDomain(d), "", false, env.now)
  {
    var a := AddressIn(input);
    if a.None? {
      RejectsMalformed(env, input);
    } else {
      var w := Located(input, a.value);
      Locates(env, input, a.value);
      AfterNormalizing(env, w);
      ResolvedIff(env, Flagged(env, w));
    }
  }

  /** The hosts a surviving address is to be probed at. */
  function HostsFor(env: World, d: string): seq<string> {
    if Exchanged(env, d) then MxHosts(env.mx(d).hosts) else [d]
  }

  /** The provider an address is routed by: its domain's, or the one its mail exchangers give away. */
  ghost function ProviderFor(env: World, d: string): string {
    var own := ProviderForDomain(d);
    if own != "custom" || !Exchanged(env, d) then own
    else
      var hosts := MxHosts(env.mx(d).hosts);
      var k := Telltale(hosts);
      if k == |hosts| then own else if Google(hosts[k]) then "google_workspace" else "microsoft365"
  }

  lemma ResolvedTo(env: World, w: Work)
    requires w.terminal.None? && w.provider == ProviderForDomain(w.domain)
    requires Exchanged(env, w.domain) || OwnExchanger(env, w.domain)
    ensures Resolved(env, w) ==
            Some(w.(mx := HostsFor(env, w.domain), checks := w.checks.(mx := HostsFor(env, w.domain)),
                    provider := ProviderFor(env, w.domain)))
  {
    match env.mx(w.domain)
    case MxFailed(_) =>
    case MxRecords(records) =>
      NoHostsIff(records);
      ProviderIsTold(MxHosts(records));
  }

  /** What an address that survives is probed as: its hosts in the resolver's order, its provider and its key. */
  lemma SurvivorIs(env: World, input: string)
    requires Funnel(env, input).Survives?
    ensures AddressIn(input).Some?
    ensures var a, out := AddressIn(input).value, Funnel(env, input);
            var d := DomainOf(a);
            && out.task == Task(Spelled(a), KeyOf(a), d, ProviderFor(env, d), HostsFor(env, d))
            && out.checks == Findings(env, a, HostsFor(env, d))
  {
    OutcomeIff(env, input);
    var a := AddressIn(input).value;
    var w := Located(input, a);
    Locates(env, input, a);
    AfterNormalizing(env, w);
    ResolvedTo(env, Flagged(env, w));
  }
}
