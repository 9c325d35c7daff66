/** The public result types of pkg/verdict. */
module Verdicts {

  datatype Status = Deliverable | Undeliverable | Risky | Unknown

  datatype SubStatus =
    | ValidMailbox
    | InvalidSyntax | NoMXRecord | DomainNotFound | MailboxNotFound
    | CatchAll | RoleAccount | Disposable | FullMailbox | LowDeliverability
    | Greylisted | TimedOut | BlockedUs | Port25Blocked | ProviderSkipped | TemporaryFailure | NoConnect

  /** Per-stage findings; `mx` holds the mail exchangers found. */
  datatype Checks = Checks(
    syntaxValid: bool,
    mx: seq<string>,
    disposable: bool,
    role: bool,
    free: bool,
    catchAll: bool,
    smtpCode: int)

  const NoChecks := Checks(false, [], false, false, false, false, 0)

  datatype Verdict = Verdict(
    email: string,
    normalized: string,
    status: Status,
    subStatus: SubStatus,
    checks: Checks,
    provider: string,
    egressId: string,
    cached: bool,
    checkedAt: int)
}
