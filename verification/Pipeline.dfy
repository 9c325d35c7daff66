/**
 The verification funnel (internal/pipeline): stages that run in order over one mutable state and
 either decide an address or leave it to be probed. DNS and the word lists are oracles.
 */
module Pipeline {
  import opened Common
  import opened Text
  import opened Syntax
  import opened CanonicalKeys
  import opened Verdicts

  datatype DnsError = NotFound | Temporary | OtherError

  datatype MxAnswer = MxFailed(error: DnsError) | MxRecords(hosts: seq<string>)

  /** What the outside world answers; `hasHost` says whether A or AAAA records exist. */
  datatype World = World(
    mx: string -> MxAnswer,
    hasHost: string -> bool,
    disposable: string -> bool,
    role: string -> bool,
    free: string -> bool,
    now: int)

  datatype Task = Task(email: string, normalized: string, domain: string, provider: string, mx: seq<string>)

  /** The result of the funnel: a transient DNS failure, a final verdict, or an address to probe. */
  datatype Outcome = Retry | Terminal(verdict: Verdict) | Survives(task: Task, checks: Checks)

  datatype Stage = SyntaxStage | NormalizeStage | DisposableStage | RoleStage | FreeStage | MxStage

  const STAGES := [SyntaxStage, NormalizeStage, DisposableStage, RoleStage, FreeStage, MxStage]

  /** The working state threaded through the stages. */
  datatype Work = Work(
    input: string,
    email: string,
    normalized: string,
    local: string,
    domain: string,
    provider: string,
    mx: seq<string>,
    checks: Checks,
    terminal: Option<Verdict>)

  function Begun(input: string): Work {
    Work(input, input, input, "", "", "", [], NoChecks, None)
  }

  function Rejecting(w: Work, status: Status, sub: SubStatus, now: int): Work {
    w.(terminal := Some(Verdict(w.email, w.normalized, status, sub, w.checks, w.provider, "", false, now)))
  }

  // ---------------------------------------------------------------- mail exchangers

  function TrimDot(h: string): string {
    if h != "" && h[|h| - 1] == '.' then h[..|h| - 1] else h
  }

  /** Trimmed, non-empty host names, in the resolver's order. */
  function MxHosts(records: seq<string>): seq<string> {
    if records == [] then []
    else
      var rest, h := MxHosts(records[..|records| - 1]), TrimDot(records[|records| - 1]);
      if h != "" && h != "." then rest + [h] else rest
  }

  predicate HasSuffix(s: string, suffix: string) {
    |suffix| <= |s| && s[|s| - |suffix|..] == suffix
  }

  /** The provider class that the mail exchangers give away, or "". */
  function RefinedProvider(hosts: seq<string>): string {
    if hosts == [] then ""
    else
      var h := Lower(TrimDot(hosts[0]));
      if HasSuffix(h, "google.com") || HasSuffix(h, "googlemail.com") then "google_workspace"
      else if HasSuffix(h, "outlook.com") then "microsoft365"
      else RefinedProvider(hosts[1..])
  }

  function WithMx(w: Work, hosts: seq<string>): Work {
    w.(mx := hosts, checks := w.checks.(mx := hosts))
  }

  function WithImplicitMx(w: Work): Work {
    WithMx(w, [w.domain])
  }

  function Resolved(env: World, w: Work): Option<Work> {
    match env.mx(w.domain)
    case MxFailed(error) =>
      if env.hasHost(w.domain) then Some(WithImplicitMx(w))
      else if error == NotFound then Some(Rejecting(w, Undeliverable, DomainNotFound, env.now))
      else if error == Temporary then None
      else Some(Rejecting(w, Undeliverable, NoMXRecord, env.now))
    case MxRecords(records) =>
      if records == ["."] then Some(Rejecting(w, Undeliverable, NoMXRecord, env.now))
      else if MxHosts(records) == [] then
        Some(if env.hasHost(w.domain) then WithImplicitMx(w) else Rejecting(w, Undeliverable, NoMXRecord, env.now))
      else
        var w1 := WithMx(w, MxHosts(records));
        var refined := RefinedProvider(MxHosts(records));
        Some(if w.provider == "custom" && refined != "" then w1.(provider := refined) else w1)
  }

  // ---------------------------------------------------------------- the stages

  /** One stage; None is a fault to retry. */
  function Staged(env: World, stage: Stage, w: Work): Option<Work> {
    match stage
    case SyntaxStage =>
      var addr := TrimSpace(w.input);
      var w1 := w.(email := addr);
      (match SplitAndValidate(addr)
       case None =>
         Some(Rejecting(w1.(checks := w1.checks.(syntaxValid := false)), Undeliverable, InvalidSyntax, env.now))
       case Some(a) => Some(w1.(local := a.local, domain := a.domain, checks := w1.checks.(syntaxValid := true))))
    case NormalizeStage =>
      var domain := Lower(w.domain);
      var provider := ProviderForDomain(domain);
      Some(w.(domain := domain, email := w.local + "@" + domain, provider := provider,
              normalized := CanonicalKey(w.local, domain, provider)))
    case DisposableStage =>
      Some(if env.disposable(w.domain)
           then Rejecting(w.(checks := w.checks.(disposable := true)), Risky, Disposable, env.now) else w)
    case RoleStage => Some(if env.role(w.local) then w.(checks := w.checks.(role := true)) else w)
    case FreeStage => Some(if env.free(w.domain) then w.(checks := w.checks.(free := true)) else w)
    case MxStage => Resolved(env, w)
  }

  /** The stage loop: stop at the first fault or terminal verdict. */
  function Through(env: World, stages: seq<Stage>, w: Work): Option<Work> {
    if stages == [] || w.terminal.Some? then Some(w)
    else
      match Staged(env, stages[0], w)
      case None => None
      case Some(w1) => Through(env, stages[1..], w1)
  }

  function Concluded(w: Option<Work>): Outcome {
    match w
    case None => Retry
    case Some(w) =>
      if w.terminal.Some? then Terminal(w.terminal.value)
      else Survives(Task(w.email, w.normalized, w.domain, w.provider, w.mx), w.checks)
  }

  function Funnel(env: World, input: string): Outcome {
    Concluded(Through(env, STAGES, Begun(input)))
  }

  // ---------------------------------------------------------------- as it is written

  class State {
    var work: Work

    constructor (input: string)
      ensures work == Begun(input)
    {
      work := Begun(input);
    }

    method Reject(status: Status, sub: SubStatus, now: int)
      modifies this
      ensures work == Rejecting(old(work), status, sub, now)
    {
      var v := Verdict(work.email, work.normalized, status, sub, work.checks, work.provider, "", false, now);
      work := work.(terminal := Some(v));
    }

    method ImplicitMx(env: World) returns (ok: bool)
      modifies this
      ensures ok == env.hasHost(old(work).domain)
      ensures work == if ok then WithImplicitMx(old(work)) else old(work)
    {
      ok := env.hasHost(work.domain);
      if ok {
        work := work.(mx := [work.domain], checks := work.checks.(mx := [work.domain]));
      }
    }

    method RunSyntax(env: World)
      modifies this
      ensures Some(work) == Staged(env, SyntaxStage, old(work))
    {
      var addr := TrimSpace(work.input);
      work := work.(email := addr);
      var split := SplitAndValidate(addr);
      if split.None? {
        work := work.(checks := work.checks.(syntaxValid := false));
        Reject(Undeliverable, InvalidSyntax, env.now);
        return;
      }
      work := work.(local := split.value.local, domain := split.value.domain,
                    checks := work.checks.(syntaxValid := true));
    }

    method RunNormalize(env: World)
      modifies this
      ensures Some(work) == Staged(env, NormalizeStage, old(work))
    {
      var domain := Lower(work.domain);
      work := work.(domain := domain, email := work.local + "@" + domain);
      var provider := ProviderForDomain(domain);
      work := work.(provider := provider, normalized := CanonicalKey(work.local, domain, provider));
    }

    method RunMx(env: World) returns (ok: bool)
      modifies this
      ensures ok == Resolved(env, old(work)).Some?
      ensures ok ==> work == Resolved(env, old(work)).value
      ensures !ok <==> env.mx(old(work).domain) == MxFailed(Temporary) && !env.hasHost(old(work).domain)
    {
      ok := true;
      match env.mx(work.domain)
      case MxFailed(error) =>
        var implicit := ImplicitMx(env);
        if implicit {
          return;
        }
        if error == NotFound {
          Reject(Undeliverable, DomainNotFound, env.now);
        } else if error == Temporary {
          ok := false;
        } else {
          Reject(Undeliverable, NoMXRecord, env.now);
        }
      case MxRecords(records) =>
        if |records| == 1 && records[0] == "." {
          Reject(Undeliverable, NoMXRecord, env.now);
          return;
        }
        var hosts := CollectHosts(records);
        if |hosts| == 0 {
          var implicit := ImplicitMx(env);
          if !implicit {
            Reject(Undeliverable, NoMXRecord, env.now);
          }
          return;
        }
        work := work.(mx := hosts, checks := work.checks.(mx := hosts));
        if work.provider == "custom" {
          var refined := RefinedProvider(hosts);
          if refined != "" {
            work := work.(provider := refined);
          }
        }
    }

    method RunStage(env: World, stage: Stage) returns (ok: bool)
      modifies this
      ensures ok == Staged(env, stage, old(work)).Some?
      ensures ok ==> work == Staged(env, stage, old(work)).value
    {
      ok := true;
      match stage
      case SyntaxStage => RunSyntax(env);
      case NormalizeStage => RunNormalize(env);
      case DisposableStage =>
        if env.disposable(work.domain) {
          work := work.(checks := work.checks.(disposable := true));
          Reject(Risky, Disposable, env.now);
        }
      case RoleStage =>
        if env.role(work.local) {
          work := work.(checks := work.checks.(role := true));
        }
      case FreeStage =>
        if env.free(work.domain) {
          work := work.(checks := work.checks.(free := true));
        }
      case MxStage => ok := RunMx(env);
    }
  }

  method CollectHosts(records: seq<string>) returns (hosts: seq<string>)
    ensures hosts == MxHosts(records)
  {
    hosts := [];
    for i := 0 to |records|
      invariant hosts == MxHosts(records[..i])
    {
      assert records[..i + 1][..i] == records[..i];
      var h := TrimDot(records[i]);
      if h != "" && h != "." {
        hosts := hosts + [h];
      }
    }
    assert records[..|records|] == records;
  }

  method Run(env: World, input: string) returns (out: Outcome)
    ensures out == Funnel(env, input)
  {
    var s := new State(input);
    var i := 0;
    while i < |STAGES| && s.work.terminal.None?
      invariant 0 <= i <= |STAGES|
      invariant Through(env, STAGES[i..], s.work) == Through(env, STAGES, Begun(input))
    {
      assert STAGES[i..][0] == STAGES[i] && STAGES[i..][1..] == STAGES[i + 1..];
      var ok := s.RunStage(env, STAGES[i]);
      if !ok {
        return Retry;
      }
      i := i + 1;
    }
    assert i == |STAGES| ==> STAGES[i..] == [];
    if s.work.terminal.Some? {
      return Terminal(s.work.terminal.value);
    }
    return Survives(Task(s.work.email, s.work.normalized, s.work.domain, s.work.provider, s.work.mx), s.work.checks);
  }

  // ---------------------------------------------------------------- what the funnel guarantees

  /** The verdicts the funnel can reach by itself. */
  predicate FunnelVerdict(v: Verdict) {
    || (v.status == Undeliverable && v.subStatus in {InvalidSyntax, NoMXRecord, DomainNotFound})
    || (v.status == Risky && v.subStatus == Disposable)
  }

  lemma {:induction false} HostsAreNamed(records: seq<string>)
    ensures forall i :: 0 <= i < |MxHosts(records)| ==> MxHosts(records)[i] != ""
  {
    if records != [] {
      HostsAreNamed(records[..|records| - 1]);
    }
  }

  lemma OneStage(env: World, stage: Stage, rest: seq<Stage>, w: Work, next: Work)
    requires w.terminal.None? && Staged(env, stage, w) == Some(next)
    ensures Through(env, [stage] + rest, w) == Through(env, rest, next)
  {
    assert ([stage] + rest)[1..] == rest;
  }

  const LATER := [DisposableStage, RoleStage, FreeStage, MxStage]

  /** What the classification stages make of an address that has been split and normalized. */
  lemma AfterNormalizing(env: World, w: Work)
    requires w.terminal.None?
    ensures Through(env, LATER, w) ==
            if env.disposable(w.domain)
            then Some(Rejecting(w.(checks := w.checks.(disposable := true)), Risky, Disposable, env.now))
            else Resolved(env, Flagged(env, w))
  {
    var w1 := Staged(env, DisposableStage, w).value;
    assert LATER == [DisposableStage] + [RoleStage, FreeStage, MxStage];
    OneStage(env, DisposableStage, [RoleStage, FreeStage, MxStage], w, w1);
    if !env.disposable(w.domain) {
      var w2 := Staged(env, RoleStage, w).value;
      assert [RoleStage, FreeStage, MxStage] == [RoleStage] + [FreeStage, MxStage];
      OneStage(env, RoleStage, [FreeStage, MxStage], w, w2);
      var w3 := Staged(env, FreeStage, w2).value;
      assert [FreeStage, MxStage] == [FreeStage] + [MxStage];
      OneStage(env, FreeStage, [MxStage], w2, w3);
      assert w3 == Flagged(env, w);
      LastStage(env, w3);
    }
  }

  lemma LastStage(env: World, w: Work)
    requires w.terminal.None?
    ensures Through(env, [MxStage], w) == Resolved(env, w)
  {
    assert [MxStage][1..] == [];
  }

  function Flagged(env: World, w: Work): Work {
    w.(checks := w.checks.(role := w.checks.role || env.role(w.local), free := w.checks.free || env.free(w.domain)))
  }

  /** The state of a valid address once it is split and normalized. */
  function Located(input: string, a: Address): Work {
    var domain := Lower(a.domain);
    Work(input, a.local + "@" + domain, KeyOf(a), a.local, domain, ProviderForDomain(domain), [],
         NoChecks.(syntaxValid := true), None)
  }

  function Parsed(input: string, a: Address): Work {
    Begun(input).(email := TrimSpace(input), local := a.local, domain := a.domain,
                  checks := NoChecks.(syntaxValid := true))
  }

  lemma Parses(env: World, input: string, a: Address)
    requires SplitAndValidate(TrimSpace(input)) == Some(a)
    ensures Staged(env, SyntaxStage, Begun(input)) == Some(Parsed(input, a))
  {
  }

  lemma Locates(env: World, input: string, a: Address)
    requires SplitAndValidate(TrimSpace(input)) == Some(a)
    ensures Funnel(env, input) == Concluded(Through(env, LATER, Located(input, a)))
  {
    Parses(env, input, a);
    assert STAGES == [SyntaxStage] + ([NormalizeStage] + LATER);
    OneStage(env, SyntaxStage, [NormalizeStage] + LATER, Begun(input), Parsed(input, a));
    Normalizes(env, input, a);
    OneStage(env, NormalizeStage, LATER, Parsed(input, a), Located(input, a));
  }

  lemma Normalizes(env: World, input: string, a: Address)
    ensures Staged(env, NormalizeStage, Parsed(input, a)) == Some(Located(input, a))
  {
  }

  function Malformed(input: string, now: int): Work {
    Rejecting(Begun(input).(email := TrimSpace(input)), Undeliverable, InvalidSyntax, now)
  }

  lemma FailsSyntax(env: World, input: string)
    requires SplitAndValidate(TrimSpace(input)).None?
    ensures Staged(env, SyntaxStage, Begun(input)) == Some(Malformed(input, env.now))
  {
    assert NoChecks.(syntaxValid := false) == NoChecks;
  }

  lemma RejectsMalformed(env: World, input: string)
    requires SplitAndValidate(TrimSpace(input)).None?
    ensures Funnel(env, input) ==
            Terminal(Verdict(TrimSpace(input), input, Undeliverable, InvalidSyntax, NoChecks, "", "", false, env.now))
  {
    FailsSyntax(env, input);
    StopsAtOnce(env, Begun(input), Malformed(input, env.now));
  }

  lemma StopsAtOnce(env: World, w: Work, next: Work)
    requires w.terminal.None? && next.terminal.Some? && Staged(env, SyntaxStage, w) == Some(next)
    ensures Through(env, STAGES, w) == Some(next)
  {
    assert STAGES == [SyntaxStage] + ([NormalizeStage] + LATER);
    OneStage(env, SyntaxStage, [NormalizeStage] + LATER, w, next);
  }

  lemma DomainIsNamed(addr: string)
    requires SplitAndValidate(addr).Some?
    ensures Lower(SplitAndValidate(addr).value.domain) != ""
  {
    WrittenSplit(addr);
  }

  /** What DNS leaves of a located address: a verdict of its own, or a named exchanger. */
  lemma ResolvedShape(env: World, w: Work)
    requires w.terminal.None? && w.domain != "" && w.checks.smtpCode == 0
    ensures match Resolved(env, w)
            case None => true
            case Some(r) =>
              && (r.terminal.Some? ==> FunnelVerdict(r.terminal.value) && Plain(r.terminal.value)
                                       && r.terminal.value.normalized == w.normalized)
              && (r.terminal.None? ==>
                    && r.mx != [] && (forall i :: 0 <= i < |r.mx| ==> r.mx[i] != "")
                    && r.normalized == w.normalized && r.checks == w.checks.(mx := r.mx))
  {
    match env.mx(w.domain)
    case MxFailed(_) =>
    case MxRecords(records) => HostsAreNamed(records);
  }

  /** Not from the cache, and no mail server was asked. */
  predicate Plain(v: Verdict) {
    !v.cached && v.checks.smtpCode == 0
  }

  /**
   Every address that survives the funnel has at least one named mail exchanger and its canonical
   key; every address that does not gets one of the funnel's own verdicts, filed under its canonical
   key, or under the raw input when it is malformed.
   */
  lemma FunnelGuarantees(env: World, input: string)
    ensures var split := SplitAndValidate(TrimSpace(input));
            match Funnel(env, input)
            case Retry => split.Some?
            case Terminal(v) =>
              && FunnelVerdict(v) && Plain(v)
              && (v.subStatus == InvalidSyntax <==> split.None?)
              && v.normalized == (if split.Some? then KeyOf(split.value) else input)
            case Survives(t, checks) =>
              && t.mx != [] && (forall i :: 0 <= i < |t.mx| ==> t.mx[i] != "")
              && split.Some? && t.normalized == KeyOf(split.value)
              && checks.mx == t.mx && checks.smtpCode == 0
              && !env.disposable(Lower(split.value.domain)) && checks.role == env.role(split.value.local)
  {
    var split := SplitAndValidate(TrimSpace(input));
    if split.None? {
      RejectsMalformed(env, input);
    } else {
      Locates(env, input, split.value);
      DomainIsNamed(TrimSpace(input));
      LocatedGuarantees(env, Located(input, split.value));
    }
  }

  lemma LocatedGuarantees(env: World, w: Work)
    requires w.terminal.None? && w.domain != "" && w.checks == NoChecks.(syntaxValid := true)
    ensures match Concluded(Through(env, LATER, w))
            case Retry => true
            case Terminal(v) =>
              FunnelVerdict(v) && Plain(v) && v.subStatus != InvalidSyntax && v.normalized == w.normalized
            case Survives(t, checks) =>
              && t.mx != [] && (forall i :: 0 <= i < |t.mx| ==> t.mx[i] != "")
              && t.normalized == w.normalized && checks.mx == t.mx && checks.smtpCode == 0
              && !env.disposable(w.domain) && checks.role == env.role(w.local)
  {
    AfterNormalizing(env, w);
    ResolvedShape(env, Flagged(env, w));
    ResolvedIsNotSyntax(env, Flagged(env, w));
  }

  lemma ResolvedIsNotSyntax(env: World, w: Work)
    requires w.terminal.None?
    ensures Resolved(env, w).Some? && Resolved(env, w).value.terminal.Some? ==>
              Resolved(env, w).value.terminal.value.subStatus in {NoMXRecord, DomainNotFound}
  {
  }

  // ---------------------------------------------------------------- names for routing

  lemma DomainHasDot(d: string)
    requires ValidDomain(d)
    ensures '.' in d
  {
    if '.' !in d {
      SplitWord(d);
    }
  }

  lemma ResolvedNames(env: World, w: Work)
    requires '.' !in w.provider && w.provider != "" && w.terminal.None?
    ensures Resolved(env, w).Some? ==>
              var r := Resolved(env, w).value;
              r.domain == w.domain && '.' !in r.provider && r.provider != ""
  {
    if env.mx(w.domain).MxRecords? {
      RefinedHasNoDot(MxHosts(env.mx(w.domain).hosts));
    }
  }

  lemma {:induction false} RefinedWords(hosts: seq<string>)
    ensures var p := RefinedProvider(hosts);
            p == "" || p == "google_workspace" || p == "microsoft365"
  {
    if hosts != [] {
      RefinedWords(hosts[1..]);
    }
  }

  lemma RefinedHasNoDot(hosts: seq<string>)
    ensures '.' !in RefinedProvider(hosts)
  {
    RefinedWords(hosts);
    WordsHaveNoDot();
  }

  lemma WordsHaveNoDot()
    ensures '.' !in "" && '.' !in "google_workspace" && '.' !in "microsoft365"
  {
  }

  lemma ProviderHasNoDot(d: string)
    ensures '.' !in ProviderForDomain(d) && ProviderForDomain(d) != ""
  {
  }

  /** A surviving address is routed by a provider that is a word or by a domain with a dot in it. */
  lemma TaskNames(env: World, input: string)
    requires Funnel(env, input).Survives?
    ensures var t := Funnel(env, input).task;
            '.' !in t.provider && t.provider != "" && '.' in t.domain
  {
    FunnelGuarantees(env, input);
    var a := SplitAndValidate(TrimSpace(input)).value;
    WrittenSplit(TrimSpace(input));
    LowerKeepsDomain(a.domain);
    DomainHasDot(Lower(a.domain));
    ProviderHasNoDot(Lower(a.domain));
    Locates(env, input, a);
    LocatedNames(env, Located(input, a));
  }

  lemma LocatedNames(env: World, w: Work)
    requires w.terminal.None? && '.' !in w.provider && w.provider != ""
    ensures match Concluded(Through(env, LATER, w))
            case Survives(t, _) => t.domain == w.domain && '.' !in t.provider && t.provider != ""
            case _ => true
  {
    AfterNormalizing(env, w);
    ResolvedNames(env, Flagged(env, w));
  }
}
