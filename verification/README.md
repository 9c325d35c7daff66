# rcptto, verified

A Dafny model of the decision logic of rcptto, an e-mail address verifier that protects the
reputation of the addresses it probes from, and proofs about that model. The clock, DNS, mail
servers and goroutine scheduling are inputs or arbitrary interleavings; everything else follows the
Go source branch by branch. Code that updates things in place is modelled by classes and loops, each
proved against a specification function; the properties are then proved about those functions, for
every input, every run and every interleaving.

`dafny verify dfyconfig.toml` checks the whole project.

## What is proved

**Rate limiting** (`RateLimit`, `RateIsolation`, `RateSchedule`, `RateBound`, `RateEviction`,
`RateKeeping`, `RateTraces`). The token bucket with reservations refines a one-variable virtual
schedule. From that follow the rate bound between any two releases and over any window of time, and
first-come-first-served release, as long as a bucket is full again before it is dropped as idle.
Bounded debt and isolation between destinations hold always. For the limiter as it runs, with
eviction, four promises turn out to hold under one and the same exact condition on the settings:
eviction is unobservable, the rate is kept, answers follow the schedule, and refused calls leave no
trace. When the condition fails, the proofs construct the runs that show it.

**Egress reputation** (`Egress`, `EgressRouting`, `EgressRuns`, `EgressCircuits`, `EgressLocality`,
`EgressRanking`, `EgressWarmup`, `EgressWitnesses`, `EgressRestart`, `EgressHistory`,
`EgressRoutes`, `EgressManager`, `Feedback`). A run is any sequence of manager calls. Proved over
every run: routing picks the right identity although it changes breakers while it looks; block
streaks and breaker counters are exact; nothing is probed through a quarantined or disabled identity
or an open breaker; feedback about one destination reaches another only through the quarantine and
the daily cap; a daily window and a whole warm-up stay within their budgets; scores are the moving
average of the history, better histories never rank lower, and routing prefers them; a restart keeps
the routing decision exactly if the best identity, breakers and reachability aside, had not been
kept out by them. For identities that are left in service, stage, daily use, breaker and score are
exact functions of the calls made since they joined, so eligibility and the identity a Binding hands
out are read off the history alone; for the server's own settings this is spelled out in numbers.

**Bulk jobs** (`JobRows`, `RowOrder`, `JobPairs`, `JobStore`, `JobRuns`, `JobProgress`,
`JobEndings`, `Jobs`, `Export`, `Buckets`). The dispatcher, its worker pool, Cancel callers and the
finishing goroutine are a state machine over atomic steps. For every interleaving: no address is
verified twice, the pool bound holds, the stored rows are always some of the owed ones and all of
them at completion, the status means what it says, the end is stamped once, and the job finishes. A
completed job has exactly one row per submitted pair if and only if no two pairs collide. The export
returns the job exactly as it stood at the last page read. The counts beside the download buttons
equal the sizes of the downloads if and only if role accounts and skipped providers are only
reported as risky, which the verifier guarantees.

**Verification** (`Text`, `Syntax`, `AddressGrammar`, `CanonicalKeys`, `TagOnlyKeys`, `Pipeline`,
`FunnelOutcomes`, `SmtpReplies`, `Engine`, `ResultCache`, `Verifier`, `VerifierRuns`,
`CacheFreshness`, `VerdictOutcomes`). The parser accepts exactly a dot-atom of section 3.2.3 of RFC
5322, an '@' and a host name of RFC 1035 with an alphabetic top-level domain, within the size
limits; canonical keys are fixed points and separate mailboxes, except exactly among Gmail addresses
that start with '+'; a reply is a policy refusal exactly if it opens with an x.7.x code of RFC 3463
or has a block keyword. Which answers of the resolver and the word lists lead to which outcome,
which of seven kinds of conversation with the first reachable host leads to which verdict and
signal, and from both which download an address ends up in, are stated as equivalences that mention
no stage. Concurrent verifications over the shared cache are a state machine: a hit is the last
verdict written for the key if and only if it is still good, eviction spares live entries, nothing
unknown is ever stored, every settled verdict is, a cached answer is never older than its time to
live, and the engine runs at most once per call.

## Where the code does less than its comments say

Each of these is stated as an exact condition, and shown at an input or a run where it bites.

- An open breaker lets every caller through once its cool-down is over, not a single trial
  (`EgressCircuits.BreakerExcludesIff`, `EgressWitnesses.HalfOpenServesTwice`).
- A recovered identity can go straight to active, when enough days of resets are due
  (`EgressRouting.RecoveredIsActiveIff`, `EgressWitnesses.RecoversToActive`); so can an enabled one,
  exactly if that many days of its old window are over (`EgressHistory.EnabledRestarts`).
- Disable ends without Enable when the identity is quarantined or when feedback carries its block
  streak to the threshold (`EgressRuns.DisabledStaysIff`, `EgressWitnesses.DisabledServesAgain`,
  `EgressWitnesses.QuarantineEndsDisable`).
- Damage at one destination is meant to stay there, but all destinations share an identity's daily
  cap: a failure at one changes who is used there, and so who is left for another
  (`EgressLocality.FeedbackIsLocalOverRuns`, `EgressLocality.CapIsShared`).
- A warm-up stage with a cap of zero or less is unlimited (`EgressWarmup.StageCapBindsIff`).
- Domains of no known provider report as "custom" but are routed by their own name, so their
  feedback never reaches their own route, over any run (`Feedback.ReportsOnRouteIff`,
  `Feedback.CustomDomainsAreNotLearned`).
- Cancel can turn a completed job into a canceled one when its check and its write straddle the
  completion (`JobRuns.CompletedIsFinalIff`, `JobRuns.CompletedThenCanceled`).
- A NUL inside an address can make two different rows collapse into one, so that a pair gets no row
  (`Jobs.CompletedJobHasOneRowEachIff`, `JobRows.NulLosesARow`).
- A Gmail address whose local part starts with '+' has a key that is not an address and is shared
  with malformed input (`CanonicalKeys.KeyIsValidIff`, `CanonicalKeys.RejectedSharesKeyIff`).
- All those addresses share that one key, so mailboxes as different as +a@gmail.com and +b@gmail.com
  share one cache entry (`TagOnlyKeys.StrangersShareKeyIff`, `TagOnlyKeys.PlusAPlusB`).
- A hard refusal of the sender is reported as a missing mailbox
  (`Engine.DeadMailboxWasNamedIff`, `Engine.SenderRefusalCondemns`).
- Dropping idle buckets is only harmless, and the rate only kept, under a condition on the limiter's
  settings that slow rates do not meet (`RateEviction.EvictionUnobservableIff`,
  `RateKeeping.KeepsRateIff`, `RateKeeping.SlowRateIsNotKept`).
- A refused call takes no token, as documented, but it counts as use of its bucket, so where
  that condition fails it can change later answers (`RateTraces.TracelessIff`).

## Model

| member | source | states |
|---|---|---|
| `RateLimit.Limiter.constructor` | internal/ratelimit/ratelimit.go:74-103 | starts empty with valid settings; each positive setting is kept and each other one replaced by its own default |
| `RateLimit.Limiter.EvictIdle` | internal/ratelimit/ratelimit.go:163-169 | keeps exactly the buckets that are not idle, unchanged, whatever the map order |
| `RateLimit.Limiter.Refill` | internal/ratelimit/ratelimit.go:137-145 | elapsed time earns tokens at the rate, capped at the burst |
| `RateLimit.Limiter.Reserve` | internal/ratelimit/ratelimit.go:123-159 | the new buckets and the answer are those of the reservation function the run theorems are about |
| `RateLimit.Limiter.Wait` | internal/ratelimit/ratelimit.go:109-118 | refused without sleeping, or proceeds after the promised delay; a caller that leaves does not get its token back |
| `RateLimit.Limiter.SetRate` | internal/ratelimit/ratelimit.go:193-202 | positive values take effect, others are ignored, balances survive, settings stay valid |
| `RateIsolation.AnswerFromOwnCalls` | internal/ratelimit/ratelimit.go:123-169 | whatever other destinations do or get evicted, an answer depends only on earlier calls for the same destination |
| `RateSchedule.FollowsSchedule` | internal/ratelimit/ratelimit.go:131-158 | the token bucket refines a virtual schedule of one variable, without eviction, or with it when rate * (maxIdle - maxWait) >= burst |
| `RateSchedule.MarksSpaced` | internal/ratelimit/ratelimit.go:147-158 | the schedule's releases never go back and cost their tokens, less one burst |
| `RateBound.ReleasesMarked` | internal/ratelimit/ratelimit.go:123-159 | without eviction, or with it when rate * (maxIdle - maxWait) >= burst, the limiter's releases stand exactly where the schedule puts them |
| `RateBound.RateBoundHolds` | internal/ratelimit/ratelimit.go:123-159 | without eviction, or with it when rate * (maxIdle - maxWait) >= burst, any two releases for a destination are in call order and at least (number of releases - max(1, burst)) / rate apart |
| `RateBound.WindowBound` | internal/ratelimit/ratelimit.go:123-159 | without eviction, or with it when rate * (maxIdle - maxWait) >= burst, any window of time holds at most max(1, burst) plus rate times its length releases |
| `RateBound.DebtBounded` | internal/ratelimit/ratelimit.go:123-159 | in every reachable state balances lie between minus rate times the longest wait and the burst, and no granted delay exceeds the longest wait |
| `RateEviction.EvictionUnobservableIff` | internal/ratelimit/ratelimit.go:123-169 | no call sequence tells the limiter from one that never evicts, if and only if rate * (maxIdle - maxWait) >= burst or nothing can ever be granted |
| `RateKeeping.KeepsRateIff` | internal/ratelimit/ratelimit.go:123-169 | the limiter as it runs, with eviction, keeps the rate between any two releases, and over any window, of every run, if and only if rate * (maxIdle - maxWait) >= burst or nothing can ever be granted |
| `RateKeeping.SlowRateIsNotKept` | internal/ratelimit/ratelimit.go:29-32 | the built-in settings keep the rate; one probe in 200 seconds, with everything else as built in, does not |
| `RateTraces.OnScheduleIff` | internal/ratelimit/ratelimit.go:123-169 | the limiter as it runs answers as the virtual schedule does, in every run, if and only if rate * (maxIdle - maxWait) >= burst or nothing can ever be granted |
| `RateEviction.RefusalLeavesNoTrace` | internal/ratelimit/ratelimit.go:153-156 | without eviction, or with it when rate * (maxIdle - maxWait) >= burst, dropping a refused call from a run changes no later answer |
| `RateTraces.TracelessIff` | internal/ratelimit/ratelimit.go:145-156 | refused calls change no later answer of any run of the limiter if and only if rate * (maxIdle - maxWait) >= burst or nothing can ever be granted: a refused call counts as use and can keep a bucket from being dropped |
| `EgressManager.Record.HealthFor` | internal/egress/manager.go:385-392 | the destination's score, created at 1.0 without samples on first use |
| `EgressManager.Record.CircuitFor` | internal/egress/manager.go:394-401 | the destination's breaker, created closed without failures on first use |
| `EgressManager.Record.Score` | internal/egress/manager.go:403-408 | the destination's score without creating it, 1.0 for an unproven identity |
| `EgressManager.Record.Apply` | internal/egress/manager.go:178-200 | one signal updates health, breaker, streak and state of its record as the feedback function says |
| `EgressManager.Record.Reconcile` | internal/egress/manager.go:342-362 | quarantine expiry and the daily-reset loop do what the reconciling function says, and the loop ends |
| `EgressManager.Record.Eligible` | internal/egress/manager.go:321-338 | answers eligibility of the record as it was, and leaves only the breaker it asked changed |
| `EgressManager.Record.CapFor` | internal/egress/manager.go:365-374 | the cap of the current stage, the last stage's past the end, or the active cap |
| `EgressManager.Record.RestoreFrom` | internal/egress/manager.go:455-469 | overwrites the persisted fields and adds the saved scores |
| `EgressManager.Manager.constructor` | internal/egress/manager.go:88-140 | a pool of new records in the order given, with defaulted settings |
| `EgressManager.Manager.Reconcile` | internal/egress/manager.go:341-363 | reconciles every record of the pool |
| `EgressManager.Manager.Look` | internal/egress/manager.go:321-338 | asking one identity changes at most the breaker asked |
| `EgressManager.Manager.Consider` | internal/egress/manager.go:306-317 | one turn of the loop compares with the best so far as the scan function does |
| `EgressManager.Manager.Select` | internal/egress/manager.go:305-319 | the loop leaves the records and the choice of the scan function |
| `EgressManager.Manager.Binding` | internal/egress/manager.go:144-164 | new pool is that of one step of a run, and the metadata of the identity it chose is handed out |
| `EgressManager.Manager.Emit` | internal/egress/manager.go:168-202 | new pool is that of one feedback step; unknown identities are skipped |
| `EgressManager.Manager.Enable` | internal/egress/manager.go:234-246 | the identity warms up from the first stage with a clean streak and no reason; no other record changes |
| `EgressManager.Manager.Disable` | internal/egress/manager.go:251-261 | the identity is disabled for the given reason; no other record changes |
| `EgressManager.Manager.Quarantine` | internal/egress/manager.go:265-276 | the identity is quarantined until the end of the cool-down for the given reason; no other record changes |
| `EgressManager.Manager.SetOnline` | internal/egress/manager.go:533-541 | changes reachability only |
| `EgressManager.Manager.AddIdentity` | internal/egress/manager.go:547-569 | replaces the spec of a known identity and keeps its reputation, or appends a new record |
| `EgressManager.Manager.SetThresholds` | internal/egress/manager.go:574-583 | positive thresholds take effect; settings stay valid |
| `EgressManager.Manager.Snapshot` | internal/egress/manager.go:415-439 | one saved state per identity, in pool order |
| `EgressManager.Manager.RestoreOne` | internal/egress/manager.go:452-469 | one saved state changes one known identity and no other record |
| `EgressManager.Manager.Restore` | internal/egress/manager.go:448-471 | every saved state of a known identity is applied in turn |
| `EgressRouting.ResetsClosedForm` | internal/egress/manager.go:350-361 | the reset loop in closed form: whole days due, counter cleared exactly when a day was due, stage and state after any number of missed days |
| `EgressRouting.RecoveredIsActiveIff` | internal/egress/manager.go:345-361 | a recovered identity is active at once exactly if as many days of resets are due as there are stages |
| `EgressRouting.ReconciledTwice` | internal/egress/manager.go:341-363 | reconciling again at the same time changes nothing |
| `EgressRouting.ScanChooses` | internal/egress/manager.go:305-338 | although it changes breakers as it looks, the scan fails exactly when nobody is eligible and otherwise picks the best score, then the lowest use, then the earliest identity of the pool it started from |
| `EgressRouting.BindingChooses` | internal/egress/manager.go:144-164 | the same for Binding on the reconciled pool; only the chosen identity is charged, and a second look finds the same identities eligible |
| `EgressRouting.StepAt` | internal/egress/manager.go:144-583 | every call acts on each identity's record separately, and only an eligible identity is handed out |
| `EgressRouting.RestoreSparesBreakers` | internal/egress/manager.go:448-471 | reloading saved states changes no breaker and no reachability |
| `EgressRuns.EmitWithdrawsIff` | internal/egress/manager.go:168-202 | feedback withdraws an identity exactly when its streak of blocks reaches the threshold; warm-up progress and use stay |
| `EgressRuns.BlockStreakExact` | internal/egress/manager.go:168-246 | over every run that does not restore the identity the streak counts the blocks since the last clean answer, Enable or quarantine expiry |
| `EgressRuns.NoProbeWhileQuarantined` | internal/egress/manager.go:192-195 | after a withdrawal no Binding of the run hands the identity out up to the end of the cool-down, unless it is enabled or restored |
| `EgressRuns.DisabledStaysIff` | internal/egress/manager.go:251-276 | over every run that neither enables nor restores it, a disabled identity stays disabled throughout exactly if nothing quarantines it and no feedback carries its streak to the threshold then in force; in the end it is disabled exactly then, unless disabled anew |
| `EgressCircuits.BreakerCountsExactly` | internal/egress/health.go:60-73 | over every run, restores included, a breaker counts the pair's failures since its last clean answer, and is closed exactly below the threshold |
| `EgressCircuits.EmitTripsIff` | internal/egress/health.go:60-73 | a batch of feedback leaves a breaker open for a full cool-down exactly if a failure in it reaches the threshold or is the first answer to a half-open breaker, with no clean answer after, or if it was open that long already |
| `EgressCircuits.NoProbeWhileOpen` | internal/egress/health.go:48-73 | once feedback opens a breaker, no Binding of the run uses the pair up to the end of the cool-down, whatever else happens, unless a clean answer arrives |
| `EgressCircuits.BreakerExcludesIff` | internal/egress/health.go:48-57 | over every run without feedback about the pair, it is excluded exactly while the original deadline has not passed, for every caller |
| `EgressCircuits.FeedbackIsLocal` | internal/egress/manager.go:168-202 | feedback about other destinations changes rank and eligibility only through the block-streak quarantine |
| `EgressLocality.FeedbackIsLocalOverRuns` | internal/egress/manager.go:168-202 | two runs that differ only in feedback about other destinations, short of a quarantine, leave an identity the same score, the same cap and in or out of service alike for the destination at every point; its eligibility can differ only by how far its cap is used up |
| `EgressLocality.CapIsShared` | internal/egress/manager.go:321-338 | when the first stage allows one probe, two runs from a new pool that differ in one temporary failure at another destination, and so in whether an identity is eligible |
| `EgressCircuits.ScoreIsHistory` | internal/egress/health.go:17-24 | over every run that does not restore the identity the score is the moving average of the answers at the destination |
| `EgressCircuits.BetterAnswersRankHigher` | internal/egress/manager.go:179-199 | scores stay in [0, 1], and a history at least as good answer by answer never scores lower, for every weight in (0, 1] |
| `EgressRanking.BetterAnswersAreRouted` | internal/egress/manager.go:305-319 | over every run that restores neither, if one identity starts with a score at least as high as another's at a destination and its answers there are at least as good, one by one, a Binding takes the other only if the first is not eligible, or tied in score and used more, or as much and later in the pool |
| `EgressHistory.NewPool` | internal/egress/manager.go:123-138 | every identity of a new pool starts at full health with closed breakers, nothing used, and warming exactly if asked to; of several specs with one id the last counts |
| `EgressHistory.Introduced` | internal/egress/manager.go:547-570 | an identity added later starts the same way; a known one keeps everything but its metadata |
| `EgressHistory.LabelsAreLatest` | internal/egress/manager.go:533-541 | over every run reachability, metadata and reason are what was said last; nothing else touches them |
| `EgressHistory.SentAsLatest` | internal/egress/manager.go:144-164 | a probe is sent with the metadata last given for the identity that was chosen |
| `EgressHistory.NewcomerScore` | internal/egress/manager.go:403-408 | over every run that does not restore it, a new identity's score is the moving average of its answers, counted from 1.0 |
| `EgressHistory.SamplesAreCounted` | internal/egress/health.go:17-24 | over every run, the samples of a pair are the number of answers behind its score |
| `EgressHistory.NoProbeWhileDisabled` | internal/egress/manager.go:248-261 | after Disable no Binding hands the identity out, over every later run that does not enable, restore or quarantine it, or carry its streak to the threshold |
| `EgressHistory.BreakerIsOutIff` | internal/egress/health.go:46-73 | over every run with a steady threshold, a breaker keeps a pair out exactly if it failed up to the threshold since its last clean answer and last failed within the cool-down |
| `EgressHistory.RampIsExact` | internal/egress/manager.go:341-363 | over every run that leaves it in service, an identity has climbed exactly one stage for every whole day up to the last Binding, and is active past the last stage |
| `EgressHistory.UseIsCounted` | internal/egress/manager.go:156-157 | over such a run the daily counter is exactly the number of times the identity was handed out that day |
| `EgressHistory.EligibleIff` | internal/egress/manager.go:321-338 | over such a run an identity is eligible exactly if it was last reported reachable, its pair is not kept out, and it was handed out less often today than its day on the ramp allows |
| `EgressHistory.NewcomerEligibleIff` | internal/egress/manager.go:321-338 | the same for a new identity, from nothing |
| `EgressHistory.EnabledRestarts` | internal/egress/manager.go:234-246 | after Enable, over every run that leaves it in service, an identity is as many stages up the ramp as whole days have passed in its window, with its streak counted from zero |
| `EgressHistory.ThresholdsAreLatest` | internal/egress/manager.go:574-583 | over every run both thresholds are the last positive ones set, and no other setting changes |
| `EgressHistory.DirectServesIff` | cmd/rcptto-server/main.go:82-91 | with the server's own settings, the identity "direct" serves without a cap from the first day and is kept from a destination exactly for 15 minutes after three failures in a row; its score moves by 3/10 |
| `EgressHistory.DefaultRamp` | internal/egress/manager.go:31-31 | the default warm-up allows 50, 200, 1000 and 5000 probes, a day each, and then any number |
| `EgressHistory.DefaultQuarantine` | internal/egress/manager.go:21-28 | by default a quarantine ends an hour after it began, and no sooner |
| `EgressHistory.DefaultWithdrawal` | internal/egress/manager.go:21-28 | by default a withdrawn identity is not handed out for an hour |
| `EgressRoutes.RoutesByHistory` | internal/egress/manager.go:144-164 | in a pool whose identities stay in service, who is handed out is read off the calls alone: nobody if none is fit, otherwise the best answers counted from full health, then the fewest probes today, then the earliest |
| `EgressRoutes.NewPoolRoutesByHistory` | internal/egress/manager.go:144-164 | the same for every new pool of distinct identities |
| `EgressWarmup.WindowBudget` | internal/egress/manager.go:144-164 | over every run the grants in one daily window under a positive cap do not exceed it |
| `EgressWarmup.StageCapBindsIff` | internal/egress/manager.go:321-374 | some bound holds for a stage's daily grants exactly if its cap is positive, and then the cap does |
| `EgressWarmup.AlwaysOnRamp` | internal/egress/manager.go:341-374 | in every run that does not restore it a warming identity is at an existing stage |
| `EgressWarmup.EpisodeBudget` | internal/egress/manager.go:144-164 | the grants over a whole warm-up, plus what is left of the ramp, do not exceed the sum of all stages |
| `EgressWitnesses.DisabledServesAgain` | internal/egress/manager.go:192-195 | under any settings, a run from a new pool in which a disabled identity is handed out again without Enable |
| `EgressWitnesses.QuarantineEndsDisable` | internal/egress/manager.go:265-276 | under any settings, a run from a new pool in which a disabled identity is quarantined and then handed out, with no Enable and no feedback |
| `EgressWitnesses.RecoversToActive` | internal/egress/manager.go:345-361 | under any settings, a run from a new pool in which a quarantined identity is active at its next Binding |
| `EgressWitnesses.HalfOpenServesTwice` | internal/egress/health.go:48-57 | under any settings, a run from a new pool in which two Bindings without feedback in between both get a half-open pair |
| `EgressRestart.SnapshotHolds` | internal/egress/manager.go:415-439 | a snapshot holds every identity's state, so the store may return it in any order |
| `EgressRestart.RebornEligibleIff` | internal/egress/manager.go:448-471 | a restored identity is eligible exactly if it was, forgetting breakers and reachability; it ranks as before |
| `EgressRestart.RestartPreservesRouting` | internal/egress/manager.go:415-471 | after reloading saved states in any order, Binding picks the best identity of the old pool with breakers and reachability left out of account; that is the old pick, or both fail, exactly if that best identity was not kept out by a breaker or by being unreachable; a withdrawn identity is never picked |
| `EgressRestart.UnhinderedRestart` | internal/egress/manager.go:415-471 | if nobody was kept out of a destination by a breaker or by being unreachable, the restart routes it as before |
| `Feedback.ReportsOnRouteIff` | pkg/engine/builtin/builtin.go:224-237 | a probe reports under the name its task is routed by exactly if the provider is known, or is the domain's own name |
| `Feedback.CustomDomainsAreNotLearned` | internal/egress/manager.go:378-383 | over every run whose feedback comes from probes of addresses that survived the funnel, an identity's score and breaker for a domain of no known provider stay as they were |
| `JobRows.Dedup` | internal/jobs/runner.go:253-270 | the loop computes the deduplicated rows |
| `JobRows.DedupDistinct` | internal/jobs/runner.go:253-270 | kept keys are distinct |
| `JobRows.DedupSound` | internal/jobs/runner.go:253-270 | every kept row is a submitted one with an address, trimmed |
| `JobRows.DedupCovers` | internal/jobs/runner.go:253-270 | every submitted row with an address has its key kept |
| `RowOrder.DedupKeepsFirst` | internal/jobs/runner.go:250-270 | of equal rows the first is kept, trimmed and as written, in input order |
| `RowOrder.TrimCuts` | internal/jobs/runner.go:257-261 | trimming cuts white space off both ends and nothing else |
| `RowOrder.GroupsInOrder` | internal/jobs/runner.go:190-199 | addresses are worked off as first seen and first written, each with its labels in order |
| `JobRows.RowForEveryPairIff` | internal/jobs/runner.go:253-270 | every submitted pair has a row exactly if no two different pairs share a key |
| `JobRows.CollisionNeedsNul` | internal/jobs/runner.go:262 | different pairs share a key only if an address contains NUL |
| `JobRows.NulFreeIsCollisionFree` | internal/jobs/runner.go:262 | without NUL in addresses no two pairs share a key |
| `JobRows.NulLosesARow` | internal/jobs/runner.go:262 | two concrete rows of which one is lost |
| `JobRows.Group` | internal/jobs/runner.go:190-199 | the loop computes the groups in first-seen order |
| `JobRows.GroupsPartition` | internal/jobs/runner.go:190-199 | each case-folded address has exactly one group, and none is empty |
| `JobRows.GroupingConserves` | internal/jobs/runner.go:190-228 | fanning the groups out gives back exactly the rows, as a multiset |
| `JobPairs.OneRowEachIff` | internal/jobs/runner.go:98-106 | among the owed rows, in any order, every submitted pair with an address has exactly one if and only if no two pairs share a key |
| `JobPairs.OnlySubmittedPairs` | internal/jobs/runner.go:253-270 | no owed row is for a pair that was not submitted |
| `JobStore.Store.CreateJob` | internal/store/memory/jobs.go:30-35 | the job is stored with no results; other jobs are unchanged |
| `JobStore.Store.GetJob` | internal/store/memory/jobs.go:38-46 | the stored job, or not found |
| `JobStore.Store.AppendResult` | internal/store/memory/jobs.go:49-64 | appends, counts, and completes the job at its total unless canceled |
| `JobStore.Store.SetStatus` | internal/store/memory/jobs.go:98-113 | sets the status and stamps the first end of the job |
| `JobStore.Store.Results` | internal/store/memory/jobs.go:67-95 | the page at the cursor and the next cursor, 0 at the end |
| `JobStore.Store.Stats` | internal/store/memory/jobs.go:136-166 | not found, or an aggregate that counts the job's results |
| `JobStore.Aggregate` | internal/store/memory/jobs.go:136-166 | the one-pass counters equal the number of rows with each status, reason and provider, and of probed rows |
| `JobRuns.JobConserves` | internal/jobs/runner.go:189-233 | for every interleaving: no address verified twice, at most `concurrency` in flight, stored rows a sub-multiset of the owed ones, each with the one answer for its address |
| `JobRuns.JobLifecycle` | internal/jobs/runner.go:237-248 | for every interleaving: Done counts the results and is at most Total, completed means every owed row is there, an undisturbed job ends completed, a finished job is not running |
| `JobRuns.CanceledIsFinal` | internal/store/memory/jobs.go:58-61 | a canceled job stays canceled whatever its workers still store |
| `JobRuns.CompletedIsFinalIff` | internal/jobs/runner.go:164-179 | a completed job keeps its status in every continuation exactly if no Cancel is between its check and its write |
| `JobRuns.CompletedThenCanceled` | internal/jobs/runner.go:164-179 | a run from a new job that is completed and then canceled |
| `JobEndings.EndIsStampedOnce` | internal/store/memory/jobs.go:49-63 | under every interleaving a job has an end time exactly while it is over, that of the step that ended it first |
| `JobEndings.StatusLaw` | internal/store/memory/jobs.go:98-113 | setting a status changes nothing else, except that the first final one stamps the end |
| `JobEndings.CancelStopsDispatch` | internal/jobs/runner.go:164-180 | once a Cancel signalled, the dispatcher may stop before every further address |
| `JobEndings.CancelsAreConserved` | internal/jobs/runner.go:164-180 | every Cancel that finds the job still going is on its way until it writes, exactly once; one that finds it over does nothing |
| `JobEndings.ContextIsReleased` | internal/jobs/runner.go:237-243 | under every interleaving the cancel func is registered exactly until the finishing goroutine lets go of it, and the context is canceled from then on |
| `JobEndings.UndisturbedStartsAll` | internal/jobs/runner.go:204-234 | without a Cancel past its check every address is verified before the job drains |
| `JobEndings.CancelCancels` | internal/jobs/runner.go:164-180 | a Cancel that gets to write leaves the job canceled for good |
| `JobEndings.PageLaw` | internal/store/memory/jobs.go:67-95 | a page is the stretch from the cursor on, at most the limit long and shorter only at the end, and the next cursor is where it stops |
| `JobEndings.PageEdges` | internal/store/memory/jobs.go:67-95 | cursors out of range read as the start or the end |
| `JobRuns.ResultsOnlyGrow` | internal/store/memory/jobs.go:49-64 | in every interleaving stored results stay in place and only get longer |
| `JobProgress.JobFinishes` | internal/jobs/runner.go:189-248 | every job finishes: in every interleaving a bounded number of its own steps can happen, and until it is finished one of them always can |
| `JobRuns.PlanOwesRows` | internal/jobs/runner.go:189-199 | the work planned from the rows owes exactly those rows, and Total is their number |
| `Jobs.Submit` | internal/jobs/runner.go:106-140 | refuses exactly when all addresses are blank, or when there are too many; otherwise stores a running job whose total is the number of deduplicated rows |
| `Jobs.SubmittedJobDelivers` | internal/jobs/runner.go:106-270 | a submitted job, under every interleaving, starts as stored, verifies no address twice, stores only deduplicated rows, each with the answer for its address, has all of them when completed, and ends completed unless a Cancel got through |
| `Jobs.CompletedJobHasOneRowEachIff` | internal/jobs/runner.go:98-106 | a completed job holds exactly one row for every submitted pair with an address if and only if no two pairs share a key, and never a row for another pair |
| `Jobs.NulFreeJobHasOneRowEach` | internal/jobs/runner.go:98-106 | in particular when no address contains NUL |
| `Jobs.JobOnlyAppends` | internal/web/upload.go:296-309 | page reads taken at any moments of any run of a job see results that only grow, up to the job's total, as the export needs |
| `Jobs.DownloadsMatchCounts` | internal/web/buckets.go:87-142 | at every moment of every job fed by the verifier or by the error fallback, the count shown for each bucket is the size of its download |
| `Jobs.FallbackIsRetried` | internal/jobs/runner.go:218-226 | a failed verification is listed under the address as given, to be tried again |
| `Export.Feed.ReadPage` | internal/store/memory/jobs.go:67-95 | each read takes one page of what the store holds at that read, or reports an unknown job |
| `Export.AllResults` | internal/web/upload.go:296-309 | with results appended between page reads, the export ends and equals the results as they stood at the last page it read |
| `Buckets.FilterBucket` | internal/web/buckets.go:131-142 | the loop computes the bucket's rows |
| `Buckets.FilteredRows` | internal/web/buckets.go:131-142 | a bucket holds each of its rows as often as the job does, and no other row |
| `Buckets.FilteredPieces` | internal/web/buckets.go:131-142 | filtering keeps the order of the rows |
| `Buckets.BucketsPartition` | internal/web/buckets.go:63-80 | the five buckets together hold every row exactly as often as the job does |
| `Buckets.Clamped` | internal/web/buckets.go:105-109 | negative counters become zero and others stay, in any map order |
| `Buckets.BucketCounts` | internal/web/buckets.go:87-111 | every bucket is shown with its derived counter, never negative |
| `Buckets.CountsMatchFilesIff` | internal/web/buckets.go:82-111 | for any results and their aggregate, all counts equal the sizes of the filtered lists exactly if every role account and skipped provider is reported as risky |
| `Buckets.StrayRowMiscounts` | internal/web/buckets.go:87-110 | a deliverable role account is counted twice and downloaded once, and the negative count it leaves is shown as zero |
| `Syntax.ValidLocalIffDotAtom` | internal/pipeline/syntax.go:54-75 | the local-part recogniser accepts exactly the dot-atoms of the grammar |
| `Syntax.AtextIs` | internal/pipeline/syntax.go:18-22 | the characters of an atom are exactly the letters, digits and marks that section 3.2.3 of RFC 5322 lists |
| `Syntax.SplitWritten` | internal/pipeline/syntax.go:54-75 | splitting the written form of a valid address gives the address back |
| `Syntax.WrittenSplit` | internal/pipeline/syntax.go:54-98 | what is accepted is the written form of a valid address |
| `AddressGrammar.HostNameIff` | internal/pipeline/syntax.go:80-98 | domains accepted are exactly the host names of the grammar: two or more labels of at most 63 letters, digits and inner hyphens, the last a word of two letters or more |
| `AddressGrammar.AddressIff` | internal/pipeline/syntax.go:54-75 | an input is split into these two parts exactly if the grammar derives it so, with at most 64 characters before the last "@" and 254 in all |
| `AddressGrammar.RejectedIff` | internal/pipeline/syntax.go:54-75 | an input is rejected exactly if the grammar derives no address from it |
| `CanonicalKeys.CanonTwice` | internal/pipeline/normalize.go:35-47 | canonicalising is idempotent on valid addresses |
| `CanonicalKeys.KeyIsValidIff` | internal/pipeline/normalize.go:35-47 | a key is a valid address, and then its own key, exactly if the address is not a Gmail one starting with '+' |
| `CanonicalKeys.RejectedSharesKeyIff` | internal/pipeline/pipeline.go:112-113 | malformed input can share an address's key exactly in that case |
| `CanonicalKeys.SameKeyIff` | internal/pipeline/normalize.go:32-47 | two valid addresses share a key exactly if a chain of case changes, Gmail dots or tags and the googlemail fold, through valid addresses, links them, or if both are Gmail addresses starting with '+' |
| `TagOnlyKeys.LinkedTagsIff` | internal/pipeline/normalize.go:39-45 | Gmail addresses starting with '+' are linked by such edits exactly if they agree in their first tag, case and dots aside |
| `TagOnlyKeys.StrangersShareKeyIff` | internal/pipeline/normalize.go:39-45 | two valid addresses that are not linked share a key exactly if both are Gmail ones starting with '+' that differ in their first tag |
| `TagOnlyKeys.PlusAPlusB` | internal/pipeline/normalize.go:39-45 | two concrete mailboxes with one key |
| `Pipeline.State.constructor` | internal/pipeline/pipeline.go:112-113 | the working state before the first stage |
| `Pipeline.State.Reject` | internal/pipeline/pipeline.go:57-69 | sets the terminal verdict from what is known so far |
| `Pipeline.State.ImplicitMx` | internal/pipeline/mx.go:81-89 | a domain with addresses becomes its own exchanger, otherwise nothing changes |
| `Pipeline.State.RunSyntax` | internal/pipeline/syntax.go:35-50 | splits the trimmed input or rejects it |
| `Pipeline.State.RunNormalize` | internal/pipeline/normalize.go:15-30 | sets domain, probe target, provider and key |
| `Pipeline.State.RunMx` | internal/pipeline/mx.go:27-77 | leaves the state that the resolving function says; faults exactly on a transient failure without an address record |
| `Pipeline.State.RunStage` | internal/pipeline/classify.go:18-51 | each stage does to the state what the stage function says |
| `Pipeline.CollectHosts` | internal/pipeline/mx.go:93-102 | the loop computes the trimmed, non-empty hosts in order |
| `Pipeline.Run` | internal/pipeline/pipeline.go:112-148 | the stage loop computes the funnel's outcome |
| `Pipeline.HostsAreNamed` | internal/pipeline/mx.go:93-102 | no kept host is empty |
| `Pipeline.FunnelGuarantees` | internal/pipeline/pipeline.go:112-148 | an address survives only with named exchangers, its canonical key and its role flag; any other gets one of four verdicts, filed under its key or, exactly if malformed, under the raw input |
| `FunnelOutcomes.HostOfOne` | internal/pipeline/mx.go:93-102 | a record stands for the name it spells with or without the root's dot, and for none exactly if nothing is left |
| `FunnelOutcomes.ProviderIsTold` | internal/pipeline/data.go:107-119 | the refined provider is that of the first host under google.com, googlemail.com or outlook.com, in any case |
| `FunnelOutcomes.OutcomeIff` | internal/pipeline/mx.go:27-77 | which answers lead where: syntax, reputation, no such domain, no exchanger, a retry exactly on a transient failure without an address record, and survival exactly with a named exchanger or as its own |
| `FunnelOutcomes.RejectionSays` | internal/pipeline/pipeline.go:57-70 | every field of a rejection |
| `FunnelOutcomes.SurvivorIs` | internal/pipeline/pipeline.go:112-148 | every field of what a surviving address is probed as: spelling, key, domain, provider, hosts in order, and findings |
| `Pipeline.TaskNames` | internal/pipeline/pipeline.go:133-147 | a surviving address's provider is a word without dots and its domain has one |
| `SmtpReplies.KeywordBlock` | pkg/engine/builtin/classify.go:70-78 | the search finds exactly the replies that contain a block keyword |
| `SmtpReplies.BlocksIff` | pkg/engine/builtin/classify.go:70-78 | a text blocks exactly if one of the keywords stands somewhere in it, in any case |
| `SmtpReplies.PolicyIffShaped` | pkg/engine/builtin/classify.go:63-105 | the recogniser accepts exactly the replies that open with class "." "7" "." detail |
| `SmtpReplies.ReadingLaws` | pkg/engine/builtin/classify.go:26-59 | which replies make a mailbox live, dead, full, greylisted or us blocked, each both ways, and the feedback kind agrees with the verdict |
| `Engine.ProbeHost` | pkg/engine/builtin/builtin.go:114-163 | the finding of a reachable host is the one its kind of conversation calls for, with its reply code |
| `Engine.Verify` | pkg/engine/builtin/builtin.go:93-109 | the verdict and the one signal are those that the conversation with the first reachable host calls for, or "no connection" |
| `Engine.OneHonestSignal` | pkg/engine/builtin/builtin.go:224-237 | one signal, about the identity the probe went through, that agrees with the verdict |
| `Engine.StatusIff` | pkg/engine/builtin/builtin.go:114-163 | each of the seven kinds of conversation gives its own verdict, reason and signal, and only that one; a host that does not greet with 220, takes no hello or blames us is a block; unreachable exactly if no host answers |
| `Engine.FoundDetails` | pkg/engine/builtin/builtin.go:197-221 | the reply code kept is that of the decisive reply; catch-all is marked exactly if a stranger was taken too |
| `Engine.DeadMailboxWasNamedIff` | pkg/engine/builtin/builtin.go:137-141 | a dead mailbox was refused by name exactly if the sender was not refused first |
| `Engine.SenderRefusalCondemns` | pkg/engine/builtin/builtin.go:137-141 | a concrete host that would take the recipient, yet makes the mailbox not found |
| `ResultCache.ResultStore.Get` | internal/store/memory/memory.go:33-50 | the stored verdict unless expired; an expired entry is dropped |
| `ResultCache.ResultStore.Put` | internal/store/memory/memory.go:53-62 | the verdict is found under its key up to its time to live and no later, or for good without one; no other entry changes |
| `Verifier.Service.constructor` | internal/verifier/verifier.go:83-115 | an unset time to live becomes 24 hours |
| `Verifier.Service.CacheGet` | internal/verifier/verifier.go:287-296 | no cache or an empty key is a miss that changes nothing |
| `Verifier.Service.Probe` | internal/verifier/verifier.go:185-217 | verdict, signals and engine runs of a probe, for every way it can be held up |
| `Verifier.Service.Verify` | internal/verifier/verifier.go:118-152 | a hit answers without the engine, marked cached; a miss answers what is computed, and only settled verdicts are stored |
| `Verifier.MergedSane` | internal/verifier/verifier.go:264-285 | merging yields an allowed pair of status and reason, and is deliverable exactly if the engine says so and it is no role account |
| `Verifier.ComputedIsSane` | internal/verifier/verifier.go:118-285 | every computed verdict has an allowed pair of status and reason, its own key, no cached mark, and is deliverable only after an engine run |
| `VerdictOutcomes.SurvivorIsNamed` | internal/verifier/verifier.go:157-163 | policy and routing go by the provider unless it is "custom", then by the domain; the limiter goes by the first exchanger |
| `VerdictOutcomes.PacedTogetherIff` | internal/verifier/verifier.go:235-240 | two addresses are paced together exactly if their first exchangers are equal up to case |
| `VerdictOutcomes.FailsIff` | internal/verifier/verifier.go:185-218 | the caller gets an error exactly if it left while waiting or the local engine failed |
| `VerdictOutcomes.ProbeSays` | internal/verifier/verifier.go:264-284 | every field of the verdict of a probe that took place |
| `VerdictOutcomes.UnprobedSays` | internal/verifier/verifier.go:169-181 | every field of the verdict of an address that was skipped or deferred |
| `VerdictOutcomes.BucketIff` | internal/web/buckets.go:22-81 | from the address to its download: safe exactly if the first reachable host took the recipient and no stranger; undeliverable, risky and skipped by equally exact conditions |
| `VerifierRuns.OnlySettledVerdictsAreCached` | internal/verifier/verifier.go:146-150 | under every schedule of concurrent calls, whatever is stored is settled and filed under its own key, and the cache holds only the last write of a key |
| `VerifierRuns.LiveVerdictsAreKept` | internal/store/memory/memory.go:40-47 | under every schedule, the two-step eviction never removes a verdict that is still good |
| `VerifierRuns.LookupAnswersLastLive` | internal/store/memory/memory.go:33-50 | under every schedule, a lookup hits exactly if the last write it saw is still good, and answers it with only the cached mark changed |
| `CacheFreshness.CachedAnswersAreFresh` | internal/store/memory/memory.go:33-62 | under every schedule a cached answer is a verdict that an earlier step computed for the same key, at most the time to live before its expiry was judged |
| `CacheFreshness.SettledAnswersAreStored` | internal/verifier/verifier.go:144-151 | under every schedule a settled verdict that a finished call computed has been written under its key |
| `VerifierRuns.FinishedAnswersAreSound` | internal/verifier/verifier.go:118-217 | under every schedule, at most one engine run per call, only for a surviving, unskipped miss with an exchanger; answers are sane, for the call's key, and never a cached unknown |
| `VerifierRuns.AloneIsSequential` | internal/verifier/verifier.go:118-152 | a call that nothing interrupts does exactly what the service's method is specified to do |

## Left out

- A record's scores and breakers are entries of its maps, which the methods reassign; that the source keeps each of them as a heap object of its own, and could share it, is not captured.
- Persisted stage, use and streak counters are taken as non-negative; a restored record's last reset is taken as set, which it is for every record the manager ever wrote.
- Go's floating-point rounding and the truncation of a delay to nanoseconds: rates and tokens are exact reals.
- A change of rate in the middle of a run: the rate theorems are for fixed settings, and SetRate only keeps balances.
- The dirty flag and the timing of PersistLoop: a snapshot and the clearing of the flag are not atomic, so no clean invariant holds.
- HTTP API, dashboard, templates, authentication, uploads and spreadsheet parsing: request plumbing.
- Postgres adapters: the in-memory stores are the reference.
- Dialing, DNS, SMTP transport, DNSBL audits and remote agents: oracles, or a transport failure of the engine.
- Verdicts that a remote agent returns are those of the same builtin engine; other engines are not modelled.
- The policy map, role and free word lists and the disposable set: arbitrary predicates.
- The table of consumer domains and the block keywords are data: apart from Gmail's entries, no theorem depends on which names stand there.
- Unicode case folding: job rows use an arbitrary folding function; addresses and replies fold ASCII letters only.
- A status outside the four defined ones, which the source would treat as one to retry.
- Text-only fields of a verdict (response snippets, details, confidence) and random identifiers; job ids are taken as unique.
- Job listing, the limits setter and graceful shutdown: would only add easy members.
