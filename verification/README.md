# Verified model of the backend's stateful services

The backend keeps money, sessions and outreach in a shared store that several
handlers read and write. This project models that store explicitly (tables as
sequences and maps, a clock, guarded `updateMany`, partial unique indexes, Redis
keys with an expiry) and proves what the handlers keep over whole runs.

Each component has three layers:

- a step machine on values: one function per database call or per handler, and a
  `Run` or `Exec` over any list of actions;
- lemmas about all runs of that machine;
- a class with the source's own fields, loops and call order, whose methods are
  proved equal to the machine's steps or, where calls interleave, to be one
  thread of it. So what is proved of the machine holds of the code's shape.

| component | granularity | files |
|---|---|---|
| Lead Finder credits and search jobs | one step per call; any worker call may throw | `OverFetch`, `SearchJobs`, `SearchJobsInvariant`, `CreditConservation`, `CancelBound`, `JobCompletion`, `RunEndings`, `RowOutcomes`, `CollectedPeople`, `ApolloSearchProcessor`, `LeadsService`, `DailyLimit`, `PaidAccess` |
| Stripe customer compare-and-set | one step per call | `StripeCustomer` |
| Refresh-token rotation and session cap | one step per handler; refreshes and logins also call by call | `Sessions`, `SessionOutcomes`, `AuthService`, `InterleavedRotation`, `RotationAlone` |
| Token and challenge lifetimes | one step per Redis call | `TokenLifetimes` |
| Stripe to local subscription sync | one step per webhook event (the worker runs one at a time) | `Billing`, `BillingHistory`, `BillingRecords`, `BillingDispatch`, `BillingService` |
| Prospect drip campaign | one step per handler | `ProspectCampaign`, `CampaignSafety`, `CampaignHistory`, `CampaignService` |
| Login lockout and renewal reminders | one step per handler | `LoginLockout`, `RenewalReminder`, `ReminderMails` |

`dafny verify dfyconfig.toml` checks everything.

## Findings

Where a promise does not hold on every input, the exact condition is proved, with
inputs on which it fails.

- Over-fetching finds what filtering the whole ranking would, on every ranking, if
  and only if the cap is zero or cap plus exclusions is at most 100
  (`OverFetch.OverFetchIsEnoughIff`). At the default cap of 50 the second extension
  already has 50 + 100.
- After CANCELLED, unless the job is revived, a run begins at most one more
  enrichment call if and only if it is the job's only unfinished run or has at most
  one call ahead (`CancelBound.AtMostOneIff`, and `CancelBound.CancelBoundIff` for
  every bound). Another run of the job writes over CANCELLED, COMPLETED when it ends
  and FAILED when it throws. Start, cancel, get more, cancel again reaches such a
  state from any initial store and lets the first run begin any number of calls
  (`CancelBound.CancelCanBeUndone`). Two runs of one job are only at work together
  when at least two worker processes serve the queue: the processor sets no
  concurrency (`src/leads/apollo-search.processor.ts:28`), so one process takes one
  run at a time.
- A cancel that lands after a run's last status check is overwritten with COMPLETED
  (`JobCompletion.LateCancelIsOverwritten`); one that lands before it is obeyed, unless
  the run throws or the job is extended (`JobCompletion.CancelIsObeyed`).
- The 4 free searches of a day are kept if and only if a user's requests never overlap
  between the count and the creation of the job; with m of them at once the exact limit
  is 3 + m (`DailyLimit.FreeLimitIff`).
- Agreement on one Stripe customer holds if and only if the user row exists
  (`StripeCustomer.AgreementIffUserExists`).
- A refresh whose two writes are interleaved with other handlers keeps its user's
  number of active sessions if and only if the session it rotates is still live
  by then (`InterleavedRotation.RotationKeepsCountIff`). Over any run of single calls,
  of logins and refreshes alike, the cap is exceeded by at most the rotations half
  done plus the writes that came too late: rotations linked when their session was no
  longer live, and logins created when their place had been taken
  (`InterleavedRotation.CapUpToLateWrites`). From a new installation and for every cap,
  one refresh that straddles a login ends one over it
  (`InterleavedRotation.CapIsExceededFromTheStart`), and so do two interleaved logins
  without any refresh (`InterleavedRotation.LoginsExceedTheCapFromTheStart`). A refresh
  that straddles a sign-out everywhere leaves the user signed in
  (`InterleavedRotation.SignOutDuringRotation`).
- A refresh token presented a second time yields a second pair if and only if at most
  15 seconds have passed and the first pair's session still lives
  (`SessionOutcomes.SecondPairIff`).
- A revocation covers a 600-second impersonation token if and only if the access
  token lifetime is at least 600 seconds (`TokenLifetimes.ImpersonationCoveredIff`).
- The order of the two webhook handlers matters if and only if one of them throws
  for a missing user while the other has something to write
  (`BillingDispatch.HandlersCommuteIff`); without a throw it never does, whatever the
  metadata. The two tables' ids stay disjoint if and only if the event does not
  leave its subscription in both (`BillingDispatch.DisjointIff`), which a session of
  the other kind than its subscription's brings about
  (`BillingDispatch.InconsistentSessionOverlaps`).
- A period's reminder goes out exactly once if and only if, among the scans in the
  window up to the first that marks the row, exactly one put the mail in the queue
  (`RenewalReminder.ExactlyOneIff`). A mark that fails after the mail was queued
  sends two; a queue failure, which the e-mail service swallows before the row is
  marked, sends none.
- The widest gap between reminder scans that never misses a subscription is two
  days and one millisecond (`RenewalReminder.GapIsSafeIff`).

Where code and comments disagree the code is followed: comments in
`src/leads/leads.service.ts` speak of 3 free searches with 3 results each, the
constants are 4 and 25; the comment above
`cancelSearchJob` (`src/leads/leads.service.ts:787-791`) calls it idempotent, but
its write no longer looks at the status it read, so it can turn a job that has
completed in between into CANCELLED.

## Model

| member | source | states |
|---|---|---|
| SearchJobsInvariant.StepKeepsWf | src/leads/apollo-search.processor.ts:41-226 | every atomic step of any worker, webhook or request keeps the store well-formed: balances stay non-negative, each row belongs to one run and candidate, a run that ended cleanly has no pending row |
| SearchJobsInvariant.Exec | src/leads/apollo-search.processor.ts:41-226 | any interleaving, of any length, ends in a well-formed store |
| SearchJobsInvariant.SkipPendingKeepsWf | src/leads/apollo-search.processor.ts:92-95 | after the bulk skip no row of the job is pending and nothing else about the store breaks |
| SearchJobsInvariant.UpdateResultKeepsWf | src/leads/apollo-search.processor.ts:113-139 | recording a result changes exactly one row, the one the run created for its current candidate and has not enriched yet, and keeps the store well-formed |
| CreditConservation.CreditsAreConserved | src/leads/leads.service.ts:540-556 | over any interleaving, with the unlimited flag toggled at will, balance + paid rows + credits held, stranded or minted = start + grants, and the balance stays at or above zero |
| CreditConservation.MeteredConservation | src/leads/apollo-search.processor.ts:86-140 | for a user who stays metered, balance + enriched rows + credits in flight + credits stranded by a failed run = starting balance + credits granted; a run strands at most one, by the exception that ended it |
| CreditConservation.CleanRunSettles | src/leads/apollo-search.processor.ts:41-167 | a criteria search that ended without an exception leaves no row pending, made at most `cap` rows, none of an excluded person, and cost a metered user one credit per enriched row |
| CreditConservation.StepKeepsRunsBalance | src/leads/apollo-search.processor.ts:107-140 | what each run has spent is always accounted for by its own paid rows and reservations |
| CreditConservation.LedgerAccountsForGrants | src/subscriptions/subscriptions.service.ts:441-454 | every credit ever granted, redeliveries included, has its ledger row, except those of deliveries caught between their two writes |
| CreditConservation.DeliveryStepKeepsLedgerGap | src/lead-finder-billing/lead-finder-billing.service.ts:375-388 | each of a delivery's two writes, or a throw between them, keeps granted = in the ledger + not yet in the ledger |
| CreditConservation.StepKeepsMetered | src/leads/leads.service.ts:540-556 | while the flag stays off every reservation costs a credit and no refund gives back what was never taken |
| CancelBound.EachRunBeginsAtMostOneCall | src/leads/apollo-search.processor.ts:87-101 | while the status stays CANCELLED each run of the job begins at most one more enrichment call, none if it had not passed its check |
| CancelBound.CancelStopsASoloRun | src/leads/apollo-search.processor.ts:87-145 | with one run left at work and no reopening, at most one further call starts after CANCELLED, even if the run's last write overwrites the status |
| CancelBound.CancelBoundIff | src/leads/apollo-search.processor.ts:87-166 | for every bound: over every continuation that does not revive the job a run begins at most that many further calls if and only if the bound covers its slack and, unless it is the job's only unfinished run, the turns it has left |
| CancelBound.AtMostOneIff | src/leads/apollo-search.processor.ts:87-101 | at most one further call begins after CANCELLED if and only if the run is the job's only unfinished one or has at most one call ahead |
| CancelBound.NeverMoreThanPotential | src/leads/apollo-search.processor.ts:84-140 | whatever happens, a run begins no more calls than its position and its candidates, or its cap before the search, leave it |
| CancelBound.FurtherCallsHappen | src/leads/apollo-search.processor.ts:87-166 | and the largest number the bound allows does happen |
| CancelBound.SecondRunUndoesCancel | src/leads/apollo-search.processor.ts:158-166 | any other unfinished run of the job, whatever it is doing, can throw and write FAILED over CANCELLED, after which the first begins every call it had ahead |
| CancelBound.CancelCanBeUndone | src/leads/leads.service.ts:751-807 | from any initial store a search, a cancel, an extension and a second cancel lead to a CANCELLED job that still begins any number of calls |
| JobCompletion.CleanJobReadsCompleted | src/leads/apollo-search.processor.ts:142-145 | over any interleaving in which nobody cancels a job and its extensions follow one another, by criteria or direct match, the job reads RUNNING while a run of it works or is about to be queued, and COMPLETED once all its runs have ended cleanly |
| JobCompletion.CancelIsObeyed | src/leads/apollo-search.processor.ts:87-98 | a cancelled job whose one run at work has a status check ahead stays CANCELLED and begins no further call, unless that run throws or the job is extended |
| JobCompletion.LateCancelIsOverwritten | src/leads/apollo-search.processor.ts:142-145 | a cancel after the last check is overwritten with COMPLETED |
| RunEndings.EndingIsEarned | src/leads/apollo-search.processor.ts:147-166 | over any interleaving a run ends failed exactly if a call of it threw; one that ends cleanly has written one audit record, unless it stopped at a cancel or had nobody to look for, and none writes two |
| RowOutcomes.AnswersAreRecorded | src/leads/apollo-search.processor.ts:109-140 | over any interleaving the k-th row of a run is enriched or failed exactly as the k-th answer of the enrichment service to that run was a hit or a miss; only the last answer can be lost, to an exception; rows not reached are pending or skipped |
| RowOutcomes.EndedRunRows | src/leads/apollo-search.processor.ts:86-140 | once a criteria search has ended cleanly every candidate has its row, decided up to where the run got and skipped beyond |
| RowOutcomes.UnlimitedIsFree | src/leads/leads.service.ts:540-556 | while an account stays unlimited its balance moves by grants alone: no search charges it and none refunds it |
| OverFetch.CandidatesAreTheFirst | src/leads/apollo-search.processor.ts:59-61 | the candidates are everybody not excluded up to some point of the answer, in order, and that point is its end unless there are `cap` of them |
| OverFetch.PageSufficesIff | src/leads/apollo-search.processor.ts:50-61 | one page gives what dropping the exclusions from the whole ranking would give exactly when it holds `cap` fresh people or nobody fresh lies beyond it |
| OverFetch.OverFetchIsEnoughIff | src/leads/apollo-search.processor.ts:50-61 | that holds on every duplicate-free ranking exactly when the cap is zero or cap + exclusions is at most 100 |
| OverFetch.FreshIsLong | src/leads/apollo-search.processor.ts:50-61 | pigeonhole: a duplicate-free page loses at most one person per exclusion |
| OverFetch.RunsCollectAPrefix | src/leads/leads.service.ts:751-771 | selections that each exclude all earlier ones collect, without repeats, exactly the first c1 + .. + cn people of the ranking, up to the page ceiling |
| CollectedPeople.JobCollectsAPrefix | src/leads/apollo-search.processor.ts:50-82 | in the store: over any interleaving in which a job's extensions are asked for one after the other and searches answer with pages of one ranking, the people on file for the job, once its runs have finished cleanly, are exactly the first c1 + .. + cn of the ranking, each once |
| CollectedPeople.RowsArePicked | src/leads/apollo-search.processor.ts:70-82 | once a job's runs have finished cleanly its rows hold exactly the people its runs picked |
| ApolloSearch.ApolloSearchProcessor.TryReserveCredit | src/leads/leads.service.ts:540-547 | whatever others do before each of its two calls it is one thread of the machine, and it reports a reservation exactly when the enrichment call may begin |
| ApolloSearch.ApolloSearchProcessor.RefundCredit | src/leads/leads.service.ts:550-556 | one thread of the machine, ending where the miss is recorded |
| ApolloSearch.ApolloSearchProcessor.EnrichNext | src/leads/apollo-search.processor.ts:86-140 | one turn of the loop, with other activity and a possible throw at every call, is one thread of the machine; it advances by one candidate, ends the loop, or has thrown; it stops for good exactly if the job reads CANCELLED when nobody else writes a job meanwhile |
| ApolloSearch.ApolloSearchProcessor.SearchAndEnrich | src/leads/apollo-search.processor.ts:50-157 | the criteria search, for any answers and any activity at each call, is one thread of the machine that ends cleanly unless one of its calls throws; when nobody else writes a job meanwhile a clean end leaves the job COMPLETED, or CANCELLED if it was that already and there were candidates |
| ApolloSearch.ApolloSearchProcessor.Process | src/leads/apollo-search.processor.ts:41-167 | either path within its try block: a clean end if no call throws, with the job COMPLETED (or still CANCELLED) when nobody else writes a job meanwhile; otherwise the job ends FAILED unless that write throws too |
| ApolloSearch.ApolloSearchProcessor.ProcessDirectMatch | src/leads/apollo-search.processor.ts:175-226 | the same for the direct match, with activity at each of its calls: COMPLETED after a clean end unless somebody writes a job between its last two calls |
| Leads.SearchAnswer | src/leads/leads.service.ts:658-702 | a search starts exactly when there is balance (or unlimited access) and a paid plan or one of 4 free searches left today; its cap is the plan's limit (25 without a plan) or, when metered, the balance read, whichever is less |
| Leads.MoreAnswer | src/leads/leads.service.ts:739-749 | an extension starts exactly when there is balance or unlimited access; its cap is the least of the limit, the count asked for and, when metered, the balance read |
| Leads.JobsSinceCounts | src/leads/leads.service.ts:273-280 | the searches counted against the daily limit are the user's jobs created since the given instant |
| DailyLimit.FreeLimitIff | src/leads/leads.service.ts:674-690 | over every schedule in which at most m requests are between the count and the creation of their job, the most searches a user without a plan makes in a day is exactly 3 + m |
| DailyLimit.BoundedByOverlap | src/leads/leads.service.ts:273-280 | at every moment the day's searches plus those about to be created are at most 3 plus the largest overlap so far |
| PaidAccess.PaidFollowsHistory | src/leads/leads.service.ts:232-247 | after any Stripe events, and whichever live row the database finds first, a user counts as paid exactly if unlimited, owner of a credit pack, or holder of a tier subscription that is paid up or less than a grace period into its current past-due streak |
| Leads.LeadsService.StartAiSearch | src/leads/leads.service.ts:658-702 | answers as SearchAnswer does of balance and flag, read by two concurrent calls in either order, the paid tier read next and the searches counted last, whatever happens in between; a refused search writes nothing, a started one leaves a job of the user, created now, and, one call later, its run in the queue |
| Leads.LeadsService.GetMoreLeads | src/leads/leads.service.ts:710-774 | refuses exactly a missing or foreign job, a running one and one without stored filters untouched, then an unpaid or spent-out user without reopening; otherwise the run it queues leaves out exactly the people read before the checks |
| Leads.LeadsService.CancelSearchJob | src/leads/leads.service.ts:792-807 | a job that was not running is left alone; a running one ends CANCELLED whatever happened between read and write |
| StripeCustomer.EveryCallerReturnsTheStoredId | src/billing/stripe-customer.service.ts:28-64 | under any interleaving of any number of callers every caller that returned, returned the one stored id |
| StripeCustomer.StoredIdIsWriteOnce | src/billing/stripe-customer.service.ts:47-50 | once stored, the id never changes |
| StripeCustomer.AgreementIffUserExists | src/billing/stripe-customer.service.ts:52-64 | agreement over all interleavings holds exactly when the user row exists |
| StripeCustomer.OrphanCount | src/billing/stripe-customer.service.ts:37-50 | with an id already set no customer is created; otherwise orphans = customers created - 1 once any caller has returned |
| StripeCustomer.StripeCustomerService.GetOrCreateStripeCustomer | src/billing/stripe-customer.service.ts:23-65 | the handler, with others acting between all its calls, is one thread of the protocol and returns what that thread returns |
| Sessions.StepKeepsWf | src/sessions/sessions.service.ts:66-152 | every handler keeps rotation links forward, within one user and device, to sessions that expire no earlier, and with at most one predecessor each |
| Sessions.PathFacts | src/sessions/sessions.service.ts:123-137 | rotation paths are disjoint and acyclic and only the last session of one can be unrevoked |
| Sessions.EnforceLimitEvictsTheOldest | src/sessions/sessions.service.ts:51-63 | exactly the oldest active sessions are signed out, as many as needed to leave one place free; other users keep theirs |
| Sessions.RotatedActive | src/sessions/sessions.service.ts:123-137 | a rotation replaces one active session by one of the same user |
| Sessions.SessionCapHolds | src/auth/auth.service.ts:843-922 | over any run of login, refresh, theft response, logout, device removal and time no user exceeds the cap |
| Sessions.StepSpendsBudget | src/auth/auth.service.ts:395-475 | every pair a token yields uses up one of its two chances and no handler gives one back |
| Sessions.AtMostTwoPairsPerToken | src/auth/auth.service.ts:395-475 | one raw token yields at most two pairs over any run; after that each presentation is refused and signs its user out everywhere |
| Sessions.ReplayRevokesEverySession | src/auth/auth.service.ts:432-452 | a revoked token outside the grace rule is refused and leaves its user no active session |
| Sessions.PairContinuesThePath | src/auth/auth.service.ts:399-474 | a pair belongs to the token's user and device, extends the token's own path and leaves the number of active sessions as it was |
| Sessions.RevokedStaysRevoked | src/sessions/sessions.service.ts:123-152 | no run of handlers brings a revoked session back |
| SessionOutcomes.PairIff | src/auth/auth.service.ts:395-475 | a pair is issued exactly when the token's own session is neither revoked nor expired, or was revoked at most 15 seconds ago with a live successor, and the user of that session is enabled |
| SessionOutcomes.PairTable | src/sessions/sessions.service.ts:123-137 | a refresh that issues a pair revokes and links that one session and adds one for the same user and device, created now; no other row changes |
| SessionOutcomes.RefusalTable | src/auth/auth.service.ts:432-458 | a refused refresh revokes exactly the session that answered if its user is disabled, every session of the user if a revoked token has none to answer for it, and nothing for an unknown or merely expired token |
| SessionOutcomes.DisabledGetsNoPair | src/auth/auth.service.ts:454-458 | while an account is not enabled none of its tokens yields a pair, over any run |
| SessionOutcomes.SecondPairIff | src/auth/auth.service.ts:399-430 | presented again after a while, the token of a session just rotated yields its second pair exactly within 15 seconds and the new session's life, so the two pairs of the bound do happen |
| SessionOutcomes.ReplayEndsEveryToken | src/auth/auth.service.ts:432-452 | after a replay no token its user has been issued so far yields a pair in any run |
| SessionOutcomes.LogoutEndsTheSession | src/auth/auth.service.ts:477-487 | a logout revokes exactly the session of a live token, whose token never yields a pair again, and with any other token changes nothing |
| SessionOutcomes.RevokedUserIsSignedOut | src/sessions/sessions.service.ts:147-152 | after a sign-out everywhere no token of the user yields a pair in any run |
| SessionOutcomes.RemovedDeviceTable | src/sessions/devices.service.ts:121-138 | removing a device revokes its unrevoked sessions, unlinks all of them, and changes no other session |
| SessionOutcomes.RemovedDeviceIsSignedOut | src/sessions/devices.service.ts:121-138 | no token of the device's sessions, rotated or not, yields a pair in any run that follows |
| SessionOutcomes.LoginTable | src/auth/auth.service.ts:843-922 | a login adds one session of the user on the device, revokes only active sessions of that user, and leaves one active session more, up to the cap |
| InterleavedRotation.LinksSurviveInterleaving | src/sessions/sessions.service.ts:123-137 | with rotation split into its calls, interleaved with everything else, links stay acyclic and revoked sessions revoked |
| InterleavedRotation.InterleavedRefreshesGainASession | src/sessions/sessions.service.ts:123-137 | two interleaved refreshes of one live token leave one active session more than before |
| InterleavedRotation.RotationKeepsCountIff | src/sessions/sessions.service.ts:123-137 | one rotation keeps the number of active sessions exactly when the session it rotates is still live by then; otherwise there is one more |
| InterleavedRotation.CapUpToLateWrites | src/sessions/sessions.service.ts:51-63 | over any interleaving of the single calls of logins and refreshes with everything else, the cap is exceeded by at most the rotations created but not linked, those linked when their session was no longer live, and the logins created when their place had been taken |
| InterleavedRotation.TwoLoginsExceedTheCap | src/auth/auth.service.ts:866-880 | two logins that both find the last place free end one over the cap |
| InterleavedRotation.LoginsExceedTheCapFromTheStart | src/auth/auth.service.ts:866-880 | a new installation reaches one session over any cap by logins alone |
| InterleavedRotation.LoginDuringRotation | src/auth/auth.service.ts:866-880 | at any cap, a login that evicts the session being refreshed ends one over the cap |
| InterleavedRotation.SignOutDuringRotation | src/auth/auth.service.ts:489-493 | a sign-out everywhere during a refresh leaves exactly the refreshed session active |
| InterleavedRotation.CapIsExceededFromTheStart | src/sessions/sessions.service.ts:51-63 | a new installation reaches one session over any cap |
| RotationAlone.AloneRefreshIsRefresh | src/auth/auth.service.ts:395-475 | the calls of a refresh with nobody in between leave the table of the whole handler |
| RotationAlone.AloneLoginIsLogin | src/auth/auth.service.ts:866-880 | and so do those of a login, whatever it has to sign out |
| RotationAlone.RemovalStopsRefresh | src/sessions/devices.service.ts:130-137 | a refresh that has read its session when the session's device is removed writes nothing, at whatever later moment its calls come |
| RotationAlone.RemovalStopsLogin | src/sessions/devices.service.ts:130-137 | a login under way on a device that is removed creates no session, whenever its last call comes |
| Auth.AuthService.EnforceLimit | src/sessions/sessions.service.ts:51-63 | listing the active sessions oldest first and signing out the surplus gives the table the eviction rule calls for |
| Auth.AuthService.Rotate | src/sessions/sessions.service.ts:123-137 | creating the new session and then linking the old one is the rotation of the model |
| Auth.AuthService.RefreshTokens | src/auth/auth.service.ts:395-475 | for any token the handler's branches give the model's new table and outcome, which the rows of SessionOutcomes state column by column: direct rotation, grace link, theft response, inactive account or unknown token |
| Auth.AuthService.IssueTokenPair | src/auth/auth.service.ts:843-922 | room is made first and then one session created |
| Auth.AuthService.RemoveDevice | src/sessions/devices.service.ts:121-138 | a missing or foreign device is refused and nothing changes; otherwise its unrevoked sessions are revoked, all its sessions unlinked and the device is gone |
| TokenLifetimes.RevokedTokensStayRejected | src/common/token-revocation/token-revocation.service.ts:49-83 | every access token signed up to a revocation, for at most the key's lifetime, is rejected at every later instant, by the key or by its own expiry |
| TokenLifetimes.RevocationCoversIff | src/auth/guards/jwt-auth.guard.ts:22-60 | a revocation covers tokens of a given lifetime exactly when the key lives at least as long |
| TokenLifetimes.ImpersonationCoveredIff | src/auth/auth.service.ts:931-945 | so impersonation tokens are covered exactly when the access lifetime is at least 600 seconds |
| TokenLifetimes.AtMostFiveComparisons | src/auth/auth.service.ts:313-375 | one login challenge admits at most five code comparisons over its whole validity, since its counter outlives it |
| TokenLifetimes.FiveComparisonsHappen | src/common/token-revocation/token-revocation.service.ts:99-117 | and five do happen, so no smaller bound holds |
| TokenLifetimes.FirstFiveAreCompared | src/auth/auth.service.ts:313-375 | over any run exactly the first five presentations of a challenge before its expiry reach the code comparison |
| TokenLifetimes.AdmittedIff | src/auth/guards/jwt-auth.guard.ts:39-56 | after any run a token is admitted exactly if it is an access token, so never a login challenge, has not expired, and its user's last revocation is a key's lifetime ago |
| TokenLifetimes.TokenRevocationService.RegisterChallengeAttempt | src/common/token-revocation/token-revocation.service.ts:99-117 | counts one more attempt, with an expiry set only by the first, and allows the first five |
| TokenLifetimes.TokenRevocationService.CanActivate | src/auth/guards/jwt-auth.guard.ts:22-60 | a request passes exactly on a public route or with an unexpired access token of a user who is not revoked |
| BillingHistory.RunKeepsWf | prisma/migrations/20260810000000_one_active_subscription_per_user/migration.sql:11-17 | every event sequence keeps at most one live row per user and product, PAST_DUE rows with `pastDueSince` and ACTIVE or TRIALING ones without |
| BillingHistory.LiveEventIsRecordedOrCancelled | src/subscriptions/subscriptions.service.ts:503-556 | after any run, in either product, an event with a subscription that Stripe calls active, trialing, past due, unpaid or paused ends with its row saying the same, or with that subscription cancelled in Stripe and nothing else changed while another row of the user is live |
| BillingHistory.SyncEventOutcome | src/lead-finder-billing/lead-finder-billing.service.ts:228-313 | for every Stripe status: the row ends ACTIVE exactly for active, TRIALING for trialing, PAST_DUE for past due, unpaid and paused, CANCELED for canceled, EXPIRED for incomplete ones, with Stripe's period end and pending cancellation and nothing else changed; only a live one beside another live row is cancelled instead; it throws only for a user who does not exist |
| BillingHistory.PastDueSinceIsFirstLate | src/subscriptions/subscriptions.service.ts:595-644 | in either table, over any changes, `pastDueSince` is the first observation that was past due, unpaid, paused or a failed payment after the last one that was not; deletes, repeats, rejected writes and other subscriptions do not matter |
| BillingHistory.FirstLateExtends | src/lead-finder-billing/lead-finder-billing.service.ts:244-256 | keeping the old time on a repeat and clearing it otherwise maintains that function of the history |
| BillingHistory.FirstLateIsUnique | src/subscriptions/subscriptions.service.ts:609-613 | a history determines that time |
| BillingHistory.AccessEndsWithTheGracePeriod | src/subscriptions/subscription-access.util.ts:20-63 | in every reachable state the defensive branch is unused, and access in a past-due streak ends exactly at the streak's first observation plus the grace period |
| BillingRecords.RowFollowsNotices | src/subscriptions/subscriptions.service.ts:385-414 | over any changes, in either table, a row exists exactly if a sync of it was accepted; its user is the first one's, its status the last notice's (sync, failed payment, deletion, local cancel), its period end and pending cancellation those of the last sync unless cancelled here since |
| BillingRecords.CancelledIff | src/subscriptions/subscriptions.service.ts:525-556 | the backend cancels a subscription in Stripe exactly when it is live beside another live row of its user, or is replaced by a new checkout |
| BillingRecords.BalanceIsStartPlusGrants | src/subscriptions/subscriptions.service.ts:424-454 | over any changes the grants recorded are exactly the packs paid for and the months of the tiers invoiced, for users who exist, in order, and every balance is what it was plus those of its user |
| BillingRecords.InvoiceFollowsEvents | src/subscriptions/subscriptions.service.ts:646-692 | an invoice of a Directory row is recorded as the last event about it said, even when the event went on to throw |
| BillingDispatch.HandlersCommuteIff | src/subscriptions/stripe-webhook.processor.ts:30-37 | for any state and event the two dispatch orders give the same state and throw exactly when no service throws for a missing user while the other has something to write |
| BillingDispatch.ThrowGuards | src/subscriptions/subscriptions.service.ts:357-471 | the guards, on the input alone, behind which each service throws |
| BillingDispatch.WithoutThrowsOrderIsIrrelevant | src/subscriptions/stripe-webhook.processor.ts:30-37 | when no guard is met the orders agree, whatever the metadata |
| BillingDispatch.OrdersCanDiffer | src/lead-finder-billing/lead-finder-billing.service.ts:352-398 | in a state one event away from empty tables, a paid invoice of an existing user's Directory subscription whose tier metadata names a missing user is recorded in one order only |
| BillingDispatch.RunKeepsUsers | src/subscriptions/subscriptions.service.ts:503-523 | over any changes every row of either table belongs to a user who exists |
| BillingDispatch.DisjointIff | src/lead-finder-billing/lead-finder-billing.service.ts:184-226 | disjoint tables stay disjoint exactly when the event does not leave its subscription in both |
| BillingDispatch.ConsistentEventsKeepApart | src/subscriptions/subscriptions.service.ts:463-471 | with consistent kinds the order never matters and an event changes at most one product's data |
| BillingDispatch.ConsistentRuns | src/subscriptions/stripe-webhook.processor.ts:30-37 | over any run of consistent events the order never matters and the tables end disjoint |
| BillingDispatch.DispatchOrderIsIrrelevant | src/subscriptions/stripe-webhook.processor.ts:30-37 | over any run on which the order never matters, all choices of orders end in the same state |
| BillingDispatch.OtherServiceIsIdle | src/lead-finder-billing/lead-finder-billing.service.ts:184-226 | the service an event is not for does nothing with it |
| BillingDispatch.InconsistentSessionOverlaps | src/lead-finder-billing/lead-finder-billing.service.ts:186-198 | a session whose kind differs from its subscription's puts the subscription into both tables, without a throw and in either order |
| BillingServices.StripeWebhookProcessor.SyncSubscriptionFromStripe | src/subscriptions/subscriptions.service.ts:463-564 | for any table and any Stripe object the branches (other product, no metadata, upsert, duplicate, missing user) have the model's effect, which SyncEventOutcome and RowFollowsNotices state by Stripe's status, and throw when it does |
| BillingServices.StripeWebhookProcessor.MarkPastDue | src/subscriptions/subscriptions.service.ts:618-644 | PAST_DUE with the first failure's time kept, or a throw when the index rejects it |
| BillingServices.StripeWebhookProcessor.SyncFromStripe | src/lead-finder-billing/lead-finder-billing.service.ts:228-313 | the same for a tier subscription, which needs our metadata |
| BillingServices.StripeWebhookProcessor.GrantMonthlyCredits | src/lead-finder-billing/lead-finder-billing.service.ts:352-398 | a tier invoice adds the tier's credits to the balance and one ledger entry, anything else nothing; over runs see BalanceIsStartPlusGrants |
| BillingServices.StripeWebhookProcessor.ProcessEvent | src/subscriptions/stripe-webhook.processor.ts:30-37 | both services in order, the second skipped when the first throws |
| BillingServices.StripeWebhookProcessor.CreateCheckoutSession | src/subscriptions/subscriptions.service.ts:123-160 | refused exactly while the user's live row grants access; otherwise no live row of the user is left, and the one replaced, whose access had ended, is the one subscription cancelled in Stripe |
| CampaignSafety.UploadMeetsItsSpecification | src/prospect-campaign/prospect-campaign.service.ts:67-150 | an upload queues exactly the distinct valid normalised addresses that are neither users nor suppressed nor queued, once each, behind the old queue |
| CampaignSafety.RepeatedUploadQueuesNothing | src/prospect-campaign/prospect-campaign.service.ts:67-150 | repeating an upload queues nothing |
| CampaignSafety.HandedOverOnce | src/prospect-campaign/prospect-campaign.service.ts:341-385 | a drip hands over no user, no suppressed address and none that was ever handed over |
| CampaignSafety.CampaignIsSafe | src/prospect-campaign/prospect-campaign.service.ts:313-422 | over any run each address is handed over at most once, rows stay put and move forward only, and bounced or complaining addresses are suppressed |
| CampaignSafety.StepMovesForward | src/prospect-campaign/prospect-campaign.service.ts:408-422 | statuses leave PENDING once and then only go from SENT to BOUNCED or COMPLAINED |
| CampaignSafety.DripDrains | src/prospect-campaign/prospect-campaign.service.ts:330-385 | an unpaused drip takes exactly the first min(pending, cap) rows out of PENDING |
| CampaignSafety.SentPlusSkippedIsTheBatch | src/prospect-campaign/prospect-campaign.service.ts:355-405 | rows sent plus rows skipped make up the batch |
| CampaignSafety.RowLeavesPending | src/prospect-campaign/prospect-campaign.service.ts:330-385 | at a constant cap a row with k pending rows ahead has left PENDING by the (k / cap + 1)-th unpaused drip, whatever is uploaded behind it |
| CampaignHistory.EventTable | src/prospect-campaign/prospect-campaign.service.ts:341-422 | what each event does to a row: an unpaused drip closes the first cap pending rows, as a user's, as opted out or as sent in that order of precedence; feedback turns the address's SENT row into BOUNCED or COMPLAINED as reported and suppresses it; nothing else changes a status |
| CampaignHistory.EveryStatusHasItsReason | src/prospect-campaign/prospect-campaign.service.ts:313-422 | over any run from an empty queue: pending and skipped addresses were never handed over, sent ones were, a skipped one was a user when a drip came to it or is suppressed, bounces and complaints were reported as such |
| CampaignHistory.DripReportCounts | src/prospect-campaign/prospect-campaign.service.ts:341-405 | the drip's three counts are the numbers of batch rows whose address is a user's, is only suppressed, or is neither |
| CampaignHistory.QueuedInListOrder | src/prospect-campaign/prospect-campaign.service.ts:67-150 | an upload queues its addresses in the order in which the list first names them |
| CampaignHistory.InvalidLinesCounted | src/prospect-campaign/prospect-campaign.service.ts:67-150 | the invalid count is the number of lines whose address is not valid, repeats included |
| CampaignServices.ProspectCampaignService.EnqueueUploadedEmails | src/prospect-campaign/prospect-campaign.service.ts:67-150 | for any list and any chunk size the chunked look-up loop has the specified effect and reports the specified counts |
| CampaignServices.ProspectCampaignService.RunDailyDrip | src/prospect-campaign/prospect-campaign.service.ts:313-406 | the drip loop and its bulk update have the specified effect, and its report counts the rows sent, closed for an account and closed for an opt-out, which add up to the batch |
| CampaignServices.ProspectCampaignService.SuppressAndUpdateStatus | src/prospect-campaign/prospect-campaign.service.ts:408-422 | the address is suppressed and only its SENT row changes |
| LoginLockout.FailedChecksAreBounded | src/auth/auth.service.ts:221-255 | in any half-open interval without a success the failed password checks number at most maxAttempts per started lockout period |
| LoginLockout.PeriodsIsCeiling | src/users/users.service.ts:89-106 | the periods counted are the interval's length over the lockout, rounded up |
| LoginLockout.BoundIsMet | src/users/users.service.ts:89-106 | guessing in bursts reaches the bound, so no smaller one holds |
| LoginLockout.CounterStaysBelow | src/users/users.service.ts:89-113 | the counter is below the limit after every attempt |
| LoginLockout.AttemptAnswers | src/auth/auth.service.ts:228-257 | locked before anything else and exactly until the instant stored, then inactive, then the password; a right one clears counter and lock, a refusal without a check changes nothing |
| LoginLockout.SuccessAllowsAFullRound | src/users/users.service.ts:89-113 | after a success, wrong passwords lock the account exactly when there are maxAttempts of them, and exactly until the lockout is over |
| LoginLockout.UsersService.RegisterFailedLogin | src/users/users.service.ts:89-106 | the increment, and at the threshold the lock and the reset |
| LoginLockout.UsersService.LoginAttempt | src/auth/auth.service.ts:221-255 | an attempt is refused while locked or inactive without a check; otherwise the check's outcome updates counter and lock |
| RenewalReminder.OneBeyondTheUnmarked | src/renewal-reminder/renewal-reminder.service.ts:48-73 | while the period end stays, at most one reminder goes out beyond those queued whose row could not be marked, and none once it is marked |
| RenewalReminder.IssuedAreTheSending | src/renewal-reminder/renewal-reminder.service.ts:29-73 | an eligible row's reminders are exactly the scans in the window, up to the first that marks the row, that queued the mail |
| RenewalReminder.ExactlyOneIff | src/renewal-reminder/renewal-reminder.service.ts:29-73 | exactly one goes out if and only if exactly one of those scans queued it |
| RenewalReminder.FailedMarkSendsTwice | src/renewal-reminder/renewal-reminder.service.ts:55-72 | a mark that fails after the mail was queued leads to a second mail |
| RenewalReminder.SwallowedFailureSendsNone | src/email/email.service.ts:239-254 | a swallowed queue failure leaves the row marked and no later scan sends anything |
| RenewalReminder.ExactlyOneReminder | src/renewal-reminder/renewal-reminder.service.ts:29-112 | any schedule with gaps of at most two days that covers the window issues exactly one, if the first scan in the window succeeds in both calls |
| RenewalReminder.GapIsSafeIff | src/renewal-reminder/renewal-reminder.service.ts:5-6 | the widest gap that never misses a subscription |
| ReminderMails.OneMailPerWantedRow | src/renewal-reminder/renewal-reminder.service.ts:36-73 | a scan queues exactly one mail, with the row's period end, for each row of its product that renews in 6 to 8 days, is not ending, has not been reminded of that period end and whose mail the queue takes, and no other |
| ReminderMails.MailsAreTheIssued | src/renewal-reminder/renewal-reminder.service.ts:29-112 | over any history of both tables (scans, renewals, cancellations, new rows) the mails queued about a row are, one by one and with their period ends, the reminders issued by that row's own events |
| ReminderMails.MailCountIsIssued | src/renewal-reminder/renewal-reminder.service.ts:29-112 | so their number is the one the results above are about |
| ReminderMails.SentCountsMarks | src/renewal-reminder/renewal-reminder.service.ts:67-110 | the count reported is the number of due rows that could be marked, whether or not their mails were queued |
| RenewalReminder.RenewalReminderService.SendDueReminders | src/renewal-reminder/renewal-reminder.service.ts:36-112 | both loops have the effect of one scan of the model on rows and queue, and count the marks; ReminderMails states that effect row by row |

## Left out

- ApolloSearch.ApolloSearchProcessor.CreatePendingRows: gives one order of the creates that `Promise.all` starts together, and none of those that go on after one has thrown, because the machine proves the rest for every order.
- TokenLifetimes.TokenRevocationService.VerifyLogin: the look-ups of user, TOTP secret and stored code hash are not modelled; they only make fewer comparisons happen.
- BillingServices.StripeWebhookProcessor.CreateCheckoutSession: only the local rows and the Stripe cancel; plan look-up, customer creation and the session itself are left out.
- BillingServices.StripeWebhookProcessor.GrantMonthlyCredits: the increment and the ledger row are one write here; a throw between them is a step of `CreditConservation`, whose LedgerAccountsForGrants covers it.
- CampaignSafety.RowLeavesPending: "ahead" is the order of the queue in the model; one upload gives all its rows the same `createdAt` and the drip orders by nothing else, so in the database rows of the same instant count as ahead too.
- RenewalReminder.ExactlyOneIff: a row another writer marks, renews or cancels between the scan's read of all rows and its own calls for that row is not modelled.
- Session handlers, drip and login checks are atomic steps: read-then-write without a transaction loosens the session cap (see `InterleavedRotation`) and would break "handed over once" and the attempt limit in the same way.
- Exactly-once credit grants: a redelivered event is another delivery and grants again; conservation counts it as a grant.
- SENT does not imply the mail was queued: failures inside the bulk sender are logged and swallowed by the e-mail service, and `handed` means handed to it.
- `verifyLogin` has no account status test, so nothing is claimed about users who are not ACTIVE obtaining tokens there; new logins right after a revocation are rejected too, as the key is per user.
- Redis outages, where revocation and attempt counting fail open.
- Devices are numbers; the trust flag is not modelled. Sessions created in the same millisecond are ordered by creation.
- Configuration values are constant during a run, except the campaign's cap and pause.
- Foreign keys other than a row's user, plan and tier rows, money amounts, invoice details and e-mail on billing events.
- Cryptography, token formats, request validation, audit records other than a search run's, logging and HTTP.
- Anonymous search limits, risk scoring, directory search, pagination, CSV and admin lists: easy queries with no protocol.
