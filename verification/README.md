# SurfaceWatch: protocols and algorithms, verified

A Dafny model of the parts of SurfaceWatch that keep state across transactions, processes and time, with
proofs about them. `dafny verify dfyconfig.toml` checks the whole project.

| file | what it models |
|---|---|
| `ScanSlots.dfy` | scan rows, broker messages and module chains as one transition system shared by the API, the scheduler and the workers |
| `ScanHistory.dfy` | the state of a scan explained by everything that happened to it |
| `ScanService.dfy` | the API handlers and worker tasks that move scans, each proved to be a step of that system |
| `Calendar.dfy`, `Schedules.dfy` | cadence arithmetic, schedule rows, edits, and how often a schedule fires |
| `Dispatch.dfy` | one scheduler tick: phase one under row locks, phase two against a broker that may refuse |
| `Sessions.dfy`, `SessionRuns.dfy`, `Deactivation.dfy` | accounts, tokens and refresh families; atomic handlers, refreshes interleaved under the row lock, and what a deactivation means for every continuation |
| `Browser.dfy` | the browser client's single-flight refresh composed with the server's rotation |
| `Scope.dfy`, `Urls.dfy`, `ClaimableDomains.dfy`, `RefusedNames.dfy` | host normalisation and its meaning on URLs, scope by dotted suffix, which domains can be claimed, and which names are refused |
| `DnsChecks.dfy`, `StoredTargets.dfy`, `Authority.dfy`, `Rechecks.dfy`, `Revocations.dfy`, `Sweeps.dfy` | proof of ownership by DNS, the targets schedules store, domain claims, the cached authority list, the two-phase re-verification sweep, when re-checks revoke, what a revocation does to schedules, when DNS is asked and whom a sweep may touch |
| `RateLimit.dfy` | fixed windows over counters with expiry |
| `LogStream.dfy` | subscribe, replay, live loop, with workers publishing meanwhile |
| `Passwords.dfy` | keyboard runs and repeated units |
| `Graph.dfy`, `GraphColumns.dfy` | the blast-radius graph builder, and what the columns of its nodes count |
| `Results.dfy`, `Sets.dfy`, `Strings.dfy` | option and result types, set sizes, string operations |

Objects and tables that the source changes in place are classes whose fields the methods reassign
(`ScanSchedule`, `Dispatcher`, `Service`, `AuthService`, `Page`, `DomainBook`, `RateLimiter`, `Channel`,
`GraphBuilder`). Each method is proved against a function on values, and the properties below are proved
about those functions over every input, run or reachable state. A database table is a map from key to row;
a handler is one step unless it is split below; the clock, new ids and tokens, the broker's answers, DNS
answers and store outages are parameters.

## Where the code and its comments differ

The model follows the code.

- A scan cancelled while its publication is failing ends FAILED, because the reconciliation does not look at
  the status (`ScanSlots.CancelledCanBecomeFailed`); exactly while the publication is open
  (`ScanSlots.CancelCanFailIff`), so a recorded task id makes a cancel final.
- Unresolved DNS checks do count towards the revocation threshold, although the comment says they never
  accumulate; they only never revoke by themselves (`Rechecks.RevokedIff`, `Rechecks.UnresolvedCounts`).
- A check whose dedicated lookup failed and whose apex answered without the token counts as a missing record
  (`DnsChecks.CheckDomainToken`).
- `assert_under` refuses only above the limit, so a failure counter admits limit + 1 failures per window
  (`RateLimit.LockoutAdmitsOneMore`).
- The label pattern ends in `$`, which also accepts a final newline: such a domain is accepted and is not a
  fixed point of the normaliser (`ClaimableDomains.AcceptedIsFixedPointIff`, `ClaimableDomains.NewlineSurvives`).
- That a chunk is a slice of a keyboard row whenever its pairs are adjacent fails for "qwqw"
  (`Passwords.BackAndForthIsNoSlice`); `Passwords.SliceIffSteps` is the corrected equivalence.
- The refresh promise made while no token is stored is never cleared, and it is the only such promise
  (`Browser.StuckIff`, `Browser.SettledIsDroppedIff`); that page never refreshes again (`Browser.StuckForever`).
- Revocation compares stored targets as text (`Revocations.LeftBehindIff`, `Revocations.SweepLeavesBehindIff`). For
  stored normal hosts nothing out of scope is left enabled (`Revocations.SweepLeavesNoDependent`,
  `Revocations.NormalHostCoverage`). A request "[[host:port]]" is stored
  with its port, is in scope as a host, and is not switched off (`StoredTargets.PortHidesDomain`,
  `Revocations.PortSurvivesRevocation`); a schedule still covered by another domain is switched off all the same
  (`Revocations.DisabledThoughCoveredIff`).
- A target without a scheme that holds "://" further on, as in a query, is read from there: the host named is the later
  one (`Urls.LaterSchemeHidesTheHost`).
- A replayed end event does not stop the stream; only one taken live does (`LogStream.ClosesOnLiveEndIff`).
- Reading the history with limit zero returns all of it, because the range starts at minus zero
  (`LogStream.Channel.ReadHistory`); the handler does not ask for that.

## Model

| member | source | states |
|---|---|---|
| ScanSlots.RunKeepsInv | backend/routes/scans.py:64-123 | In every run of API, scheduler and worker steps, with any publish failures and cancels: no organisation exceeds its cap, every QUEUED scan still has a publication or message pending, every RUNNING scan has a chain in flight, and no scan is owed twice |
| ScanSlots.StepKeepsInv | backend/workers/orchestrator.py:81-207 | Each single step of any kind keeps those invariants |
| ScanSlots.QuiescentMeansTerminal | backend/workers/scheduler.py:137-237 | When nothing is pending in a reachable state, every scan is terminal: no slot leaks |
| ScanSlots.WorkRunsOut | backend/workers/scheduler.py:186-237 | However owed publishes, reconciliations, deliveries and callbacks are taken up, a run of such steps is never longer than what was owed at its start |
| ScanSlots.PendingWorkDrains | backend/workers/scheduler.py:186-237 | From every state some run that only takes up what is owed, no longer than that, reaches a state with nothing pending |
| ScanSlots.TerminalChangesIff | backend/workers/orchestrator.py:155-207 | In a reachable state a step changes the status of a remaining terminal row exactly when the row is cancelled, its publish was refused and the step reconciles that; it then becomes FAILED |
| ScanSlots.CancelCanFailIff | backend/workers/scheduler.py:215-229 | A cancelled row can still end FAILED in some continuation exactly when its publish is undecided or refused and not reconciled |
| ScanSlots.RecordedTaskMakesCancelFinal | backend/routes/scans.py:211-232 | A cancelled row that carries a task id stays CANCELLED in every continuation of every run |
| ScanSlots.CancelledCanBecomeFailed | backend/workers/scheduler.py:215-229 | A concrete run in which a cancelled scan ends FAILED |
| ScanHistory.StatusInEveryRun | backend/workers/orchestrator.py:135-207 | In every run a remaining row is COMPLETED exactly when the success callback of its chain found it not cancelled, and FAILED exactly when the error callback did or a refused publish was reconciled; CANCELLED, RUNNING and a recorded task likewise, by what happened to the scan |
| ScanHistory.HistoryExplainsState | backend/workers/scheduler.py:186-237 | In every run, whether a scan's row exists and whether a publish, a reconciliation, a task id, a message or a callback is still owed to it is exactly what its past says; a cancel takes a message away only if the row carried a task id and the revocation dropped it |
| ScanHistory.NothingHappensTwice | backend/workers/orchestrator.py:63-131 | Nothing of all this happens to one scan twice: one message, one delivery, one chain, one callback that takes it up |
| ScanHistory.RowsWereAsked | backend/routes/scans.py:64-99 | Every row of every run was asked for under its id, in its organisation and with its target |
| ScanService.Service.constructor | backend/routes/scans.py:50-63 | A fresh service holds no scans and owes nothing |
| ScanService.Service.QueueScan | backend/routes/scans.py:50-99 | Creation up to the commit: not found, out of scope, over the cap, or exactly the create step, raising the organisation's active count by one |
| ScanService.Service.HandOver | backend/routes/scans.py:100-123 | The broker call and its reconciliation are the two matching lifecycle steps; a refusal is reported and leaves the row FAILED |
| ScanService.Service.CancelScan | backend/routes/scans.py:211-232 | Another tenant's scan reads as missing, a terminal one conflicts, otherwise the row is CANCELLED and a recorded task's message may be dropped |
| ScanService.Service.DeleteScan | backend/routes/scans.py:236-245 | Only the caller's own terminal scans are removed |
| ScanService.Service.RunPipeline | backend/workers/orchestrator.py:73-131 | Delivery: a chain starts exactly when the row exists and is not CANCELLED, and then the row is RUNNING |
| ScanService.Service.CloseScan | backend/workers/orchestrator.py:135-207 | Success of the chain leaves a row COMPLETED and an error FAILED, unless it is cancelled, which stays; a missing row is reported, otherwise the status the row ends in |
| Calendar.NextOccurrenceIsLeast | backend/models/scan_schedule.py:49-97 | The result is the least grid instant strictly after the given moment, and at most one period later |
| Calendar.LeastIsUnique | backend/models/scan_schedule.py:56-65 | Any grid instant that is least after the moment is the result: minimality determines it |
| Calendar.NextOccurrenceFailsIff | backend/models/scan_schedule.py:74-97 | It succeeds exactly when a daily or weekly cadence has an hour from 0 to 23 and a weekly one has a weekday |
| Calendar.AdvanceIsStepping | backend/models/scan_schedule.py:192-198 | From any next run on the grid, advancing past a moment equals stepping one period at a time until past it, exactly when the next run lies at most one period beyond the moment, as it does for every due row |
| Calendar.OnGridAtTick | backend/models/scan_schedule.py:67-95 | A moment lies on the grid exactly when its tick is among those counted |
| Schedules.ScanSchedule.constructor | backend/routes/schedules.py:90-109 | A new schedule is enabled and due no earlier than the first grid instant after now |
| Schedules.ScanSchedule.Advance | backend/models/scan_schedule.py:192-198 | Moves only the next run, to the next occurrence after the given moment or after the old value |
| Schedules.SwitchedOffStaysOff | backend/workers/scheduler.py:70-78 | A schedule that was switched off is never dispatched again, whatever happens, until an edit switches it on |
| Schedules.ManualRunsKeepCadence | backend/routes/schedules.py:167-204 | Leaving all manual runs out of a history changes neither how often the schedule is dispatched nor anything of its row but the last run |
| Schedules.ScanSchedule.Update | backend/routes/schedules.py:118-163 | The handler's field by field update equals the edit function, and a refused edit changes nothing |
| Schedules.EditLaw | backend/routes/schedules.py:118-164 | An edit is refused exactly when it makes the schedule weekly without a day; otherwise each column is as the edit and the old row say, switching on clears the failures and the reason, and the next run is the first on the new grid |
| Schedules.FailuresCountTheStreak | backend/workers/scheduler.py:202-237 | The failure counter is the number of failed publishes since the last success or the last time an edit switched the schedule on |
| Schedules.StreakSwitchesOffIff | backend/workers/scheduler.py:226-237 | A failed publish switches the schedule off exactly when that number has reached the limit |
| Schedules.SwitchedOffIff | backend/workers/scheduler.py:71-79 | Exactly which events switch an enabled schedule off, and the reason each leaves |
| Schedules.FiresAgainIff | backend/workers/scheduler.py:91-118 | Left alone since a dispatch and still enabled, a schedule is dispatched by the next tick that selects it exactly when its grid has an instant since that dispatch |
| Schedules.LastRunIsRemembered | backend/routes/schedules.py:167-232 | The last-run columns hold the moment of the last dispatch or manual run, and the last scan one of these made |
| Schedules.AfterKeepsWellFormed | backend/routes/schedules.py:118-163 | Ticks, edits, manual runs, broker answers and revocations all keep a row runnable with its next run on the grid in force |
| Schedules.NoDoubleFire | backend/workers/scheduler.py:91-176 | Between two dispatches of one schedule lies a grid instant after the first and no later than the second, whatever edits came between |
| Schedules.NoCatchUp | backend/workers/scheduler.py:91-176 | Left unedited, a schedule is dispatched at most as often as its grid has instants since creation, whichever exit each tick took |
| Dispatch.GreedyPerOrganisation | backend/workers/scheduler.py:88-176 | Per organisation a tick grants exactly min(max(0, cap - active), asked) scans, to the earliest eligible schedules, although the loop mixes organisations |
| Dispatch.TallyIsGreedy | backend/workers/scheduler.py:105-176 | The sequential loop with its in-memory counts computes that greedy allocation, with every row counted as queued, skipped or disabled |
| Dispatch.TickStepIsGreedy | backend/workers/scheduler.py:137-176 | The tick step of the lifecycle inserts exactly the greedy requests and owes their publication |
| Dispatch.TableAfterAt | backend/workers/scheduler.py:105-176 | Each due row takes exactly one step of its own history, with the exit decided by scope and cap |
| Dispatch.PhaseOneIsTick | backend/workers/scheduler.py:88-183 | Phase one is the tick step of the scan lifecycle |
| Dispatch.PublishedIsTwoSteps | backend/workers/scheduler.py:186-237 | Recording one broker answer is two steps of the scan lifecycle |
| Dispatch.PublishedRows | backend/workers/scheduler.py:186-237 | After phase two every pending row is QUEUED with a message or FAILED, by the broker's answer, and the rest are untouched |
| Dispatch.TickLaws | backend/workers/scheduler.py:101-176 | What a tick does to each due row and to the scan table, said from organisation, scope and cap alone: next run and last run, switched off and why, last scan, how its failure streak goes on by the broker answer, which scans are new and for whom |
| Dispatch.Dispatcher.constructor | backend/workers/scheduler.py:81-87 | A fresh dispatcher has empty tables |
| Dispatch.Dispatcher.TakeOne | backend/workers/scheduler.py:108-176 | One due row: advanced first; refused as inactive exactly when its organisation is missing or switched off, refused as unauthorised exactly when that organisation does not cover the target, skipped exactly at the cap, otherwise one queued scan is inserted; the in-memory counts stay right |
| Dispatch.Dispatcher.PhaseOne | backend/workers/scheduler.py:88-183 | The loop over the batch yields the specified schedule table, scans and tally |
| Dispatch.Dispatcher.RecordSuccess | backend/workers/scheduler.py:203-212 | Writes the task id and ends the failure streak |
| Dispatch.Dispatcher.RecordFailure | backend/workers/scheduler.py:215-237 | Writes FAILED, counts the failure and switches the schedule off at the threshold |
| Dispatch.Dispatcher.Publish | backend/workers/scheduler.py:186-200 | Phase two over all pending rows equals folding the broker's answers in order, with exact counters |
| Dispatch.Dispatcher.DispatchDueScans | backend/workers/scheduler.py:81-183 | For every pattern of broker answers due = queued + failed + skipped + disabled, disabled counts exactly the rows without a standing, covering organisation, each refused row ends switched off for its own reason, every inserted scan belongs to a covered due row and has the host the check gave, and the tables are exactly phase one followed by phase two |
| Sessions.ReuseKillsFamily | backend/routes/auth.py:309-320 | Presenting a spent token again while the account checks pass is reuse: nothing is minted, its whole family is revoked, other families are untouched |
| Sessions.DeadFamilyYieldsNothing | backend/routes/auth.py:107-123 | No token of a fully revoked family is exchanged, whatever else holds |
| Sessions.SignOutRevokesAll | backend/routes/auth.py:126-143 | A password change or deactivation leaves no unrevoked row of the user and raises the version |
| Sessions.FreshPairWorks | backend/core/deps.py:54-83 | After a login the access token resolves to the account exactly until it expires, the refresh token is exchanged until it expires, and neither does the other's job |
| Sessions.ExchangeSpendsAndHandsOver | backend/routes/auth.py:322-352 | After an exchange the old token is answered as reuse, the new pair works, the successor keeps family and user, and every other row is untouched |
| Sessions.TokensWorkIff | backend/core/deps.py:54-83 | An access token resolves exactly until it expires and while its account is there, active, in its organisation and at its version; a refresh token is exchanged exactly then and while its row is unrevoked and unexpired |
| Sessions.RefusalRevokes | backend/routes/auth.py:276-352 | A token that is not exchanged mints nothing: its family is revoked when the account changed or the token was spent, its own row when that has merely expired, and no other row changes |
| Sessions.AuthService.constructor | backend/routes/auth.py:76-82 | No accounts, tokens or sessions to begin with |
| Sessions.AuthService.RevokeRows | backend/routes/auth.py:107-143 | The loop over active rows revokes exactly the chosen ones |
| Sessions.AuthService.Login | backend/routes/auth.py:76-104 | A login mints one pair and one active row that is the only row of its new family |
| Sessions.AuthService.RefreshTokens | backend/routes/auth.py:261-352 | The handler's checks in order equal the atomic refresh: rotate, refuse, or revoke the row or its family |
| Sessions.AuthService.Logout | backend/routes/auth.py:362-379 | Revokes the presented session only |
| Sessions.AuthService.SignOutEverywhere | backend/routes/auth.py:508-516 | Version raised, every row of the user revoked, the account switched off exactly on deactivation, and nothing else of it changed |
| SessionRuns.RunKeepsInv | backend/routes/auth.py:276-352 | Under row-locked refreshes interleaved with logins, revocations and version bumps, families stay chains and every locked row is what its holder read |
| SessionRuns.FamilyShapeInEveryRun | backend/models/refresh_session.py:69-86 | Each family is one acyclic chain of distinct tokens, no two rows share a successor, a linked row is revoked, and at most one row is unrevoked, the last |
| SessionRuns.ExchangedAtMostOnce | backend/routes/auth.py:276-283 | Over any run each refresh token is exchanged at most once |
| SessionRuns.DeadFamilyNeverYields | backend/routes/auth.py:107-123 | Once every row of a family is revoked it stays so, and none of its tokens is ever exchanged again, in any interleaving |
| SessionRuns.VersionCutsEarlierTokens | backend/core/deps.py:64-81 | After the version is raised, in any run no earlier access token resolves, and no earlier refresh token is exchanged except by a refresh that had already read the account; what that one mints is cut as well and never exchanged |
| SessionRuns.InterleavedIsAtomicIff | backend/routes/auth.py:261-352 | Run without interruption, the separate steps alone have the effect of the atomic handler, for every outcome; on a refusal exactly when the rows of the family that other refreshes hold are already revoked |
| SessionRuns.ReplayKillsFamilyIff | backend/routes/auth.py:309-320 | In any reachable state a token already exchanged and presented again mints nothing, and leaves its family dead for every continuation exactly when no other refresh in flight holds an unrevoked row of it |
| Deactivation.DeactivationIsForGood | backend/routes/auth.py:571-593 | After a deactivation, in every continuation: the account stays off, no login of the user does anything, no access token of the user resolves, and the only exchanges of the user are those of refreshes that had already read the account, which mint cut tokens only |
| Deactivation.AccountInEveryRun | backend/routes/auth.py:487-516 | In every run an account is active exactly if it was and no deactivation came, its version has risen once per password change or deactivation, and its organisation is the same |
| Deactivation.NewAccountSignsIn | backend/routes/auth.py:146-216 | A new account is active, can sign in at once, and its access token resolves until it expires |
| Deactivation.EveryExchangeIsLogged | backend/routes/auth.py:330-352 | In every run each link from a spent token to its successor stands in the log of exchanges, so that what is proved of the log is proved of all rotations |
| Browser.AtMostOnePost | frontend/src/lib/api.ts:167-203 | In every run, with lost responses, logins and logouts, at most one refresh POST is outstanding, and exactly while the promise is unsettled |
| Browser.NeverReplays | frontend/src/lib/api.ts:167-203 | With the server: if no response is lost, nobody signs in or out during a refresh and the account stands, no refresh token is sent twice and every answer is a new pair, so the reuse branch is never reached |
| Browser.AnswerIsIssued | backend/routes/auth.py:309-352 | In a sound state the outstanding token is live and is rotated into one never sent |
| Browser.StuckIff | frontend/src/lib/api.ts:179-181 | A step leaves a promise that is never dropped exactly when there was one already, or it is a 401 with no refresh in flight and no token stored |
| Browser.SettledIsDroppedIff | frontend/src/lib/api.ts:193-199 | In every run the next microtask drops a settled promise exactly when it is not that one |
| Browser.StuckForever | frontend/src/lib/api.ts:176-203 | From then on no run of the page, later sign-ins included, posts a refresh |
| Browser.Page.constructor | frontend/src/lib/api.ts:167-167 | A loaded page has no refresh in flight |
| Browser.Page.RefreshAccessToken | frontend/src/lib/api.ts:176-182 | Joins the refresh in flight or starts one; a POST is sent exactly when none is in flight and a token is stored |
| Browser.NobodyIsForgotten | frontend/src/lib/api.ts:176-203 | In every run a caller that awaits the refresh waits only while a POST is out and has its answer as soon as none is |
| Browser.CallersAreToldTheFate | frontend/src/lib/api.ts:177-203 | In every run the waiting callers are told nothing while the POST is out, and then `true` exactly when it came back with a new pair |
| Browser.CallersShareThePromise | frontend/src/lib/api.ts:177-178 | Every 401 leaves its caller waiting for the one promise, or with the value it settled with |
| Browser.ArrivalStoresToken | frontend/src/lib/api.ts:182-193 | A token that arrives replaces the stored one; a refused, failed or lost refresh stores nothing |
| Browser.AnswerIsActedOnOnce | frontend/src/lib/api.ts:262-269 | A caller acts once on its answer: on `true` the tokens stay for its retry, on `false` they are cleared |
| Browser.EveryPostIsAnswered | backend/routes/auth.py:261-352 | When no response is lost, every refresh posted but the one on the wire has had exactly one answer |
| Browser.SignInTakesEffect | backend/routes/auth.py:219-257 | After a sign-in the page holds a refresh token the server exchanges and an access token that resolves |
| Browser.LogoutEndsTheSession | backend/routes/auth.py:362-378 | Signing out forgets the token on the page, and where the server heard of it the token is never exchanged again |
| Browser.Page.ResumeCaller | frontend/src/lib/api.ts:262-269 | A caller told true retries, one told false clears the stored tokens |
| Scope.UnderIffLabelSuffix | backend/core/scoring.py:191-200 | The dotted-suffix test is label-sequence suffix, on any two strings |
| Scope.UnderTransitive | backend/core/scoring.py:191-200 | The test is transitive |
| Scope.CoveringNamesNest | backend/core/scoring.py:191-200 | Two names of equal length that cover one host are equal |
| Scope.ScopeIsHereditary | backend/core/scoring.py:191-200 | Whatever lies below a covered host is covered by the same list |
| Scope.AllDomains | backend/models/organisation.py:85-104 | The loop yields the keys in first-seen order |
| Scope.KeysShape | backend/models/organisation.py:85-104 | That list has no duplicates and holds exactly the keys of the stored domains, each already in key form |
| Scope.AllDomainsKeepsScope | backend/models/organisation.py:85-104 | Reading scope through it changes nothing |
| Urls.UrlNamesItsHost | backend/core/scoring.py:170-188 | For every URL, with or without scheme, credentials, port and anything after the authority, the normaliser gives the host in lower case without outer dots |
| Urls.BracketedAddressIsKept | backend/core/scoring.py:180-184 | An address in brackets is kept whole, whatever follows the bracket |
| Urls.BareAddressIsKept | backend/core/scoring.py:186-188 | Text with several colons is not cut at a port |
| Urls.LaterSchemeHidesTheHost | backend/core/scoring.py:173-174 | Without a scheme, a later "://" makes the normaliser read the host after it |
| Urls.SpaceAndCaseDoNotMatter | backend/core/scoring.py:172 | Whitespace around any text and its case do not matter |
| Urls.UrlScopeIsHostScope | backend/core/scoring.py:203-236 | A URL is in scope, private or refused exactly as its bare host is |
| RefusedNames.PrivateIff | backend/core/scoring.py:156-167 | A host is private exactly when it is one of the local names, lies below a private zone by labels, or is an unsafe address |
| RefusedNames.ScopeVerdictOnUrl | backend/core/scoring.py:203-236 | Which refusal the scope check gives on any URL with a named host, or the host, by the host's labels and the kind of address alone |
| RefusedNames.NeverReturnsPrivate | backend/core/scoring.py:220-236 | Whatever the text, the check returns its normal form, and never a private host or one out of scope |
| ClaimableDomains.AcceptedShape | backend/core/domains.py:64-124 | An accepted domain has at least two labels of 1 to 63 permitted characters joined by single dots, at most 253 in all (section 2.3.4 of RFC 1035, section 2.1 of RFC 1123), a final newline aside |
| ClaimableDomains.AcceptedIsFixedPointIff | backend/core/domains.py:64-124 | An accepted domain is its own normal form, is accepted again as itself and is in its own scope exactly when it does not end in a newline |
| ClaimableDomains.AcceptedWithoutNewline | backend/core/domains.py:114-122 | An input without a newline always gives such a fixed point, with strictly well-formed labels |
| ClaimableDomains.NewlineSurvives | backend/core/domains.py:118-122 | A concrete input that the shipped rules accept with a final newline |
| RefusedNames.ClaimVerdict | backend/core/domains.py:64-124 | Exactly which claims are refused and as what: empty, too long, an address, without a dot, private, a public suffix, or with a bad label; everything else is accepted as the normal form |
| RefusedNames.FirstBadLabel | backend/core/domains.py:108-122 | The blame goes to the first bad label and fits it |
| RefusedNames.PlainLabelIff | backend/core/domains.py:17-22 | A label without hyphens is good exactly at 1 to 63 lower-case letters and digits |
| RefusedNames.ShippedRefusals | backend/core/domains.py:102-107 | Under the shipped rules no URL names a claimable public suffix, address, local name or name below a private zone |
| DnsChecks.LookupTxt | backend/core/dns_verify.py:67-102 | Authoritative nothing counts as an answer, every other failure as an error; values are the joined, stripped, non-empty strings in order |
| DnsChecks.CheckDomainToken | backend/core/dns_verify.py:105-131 | Proven exactly when the token stands at the dedicated label or prefixed at the apex; read as unresolved exactly when neither place answered; otherwise absent |
| DnsChecks.ExplainTellsApart | backend/core/dns_verify.py:134-162 | The text by which the sweep recognises an unresolved check occurs in the message exactly when both lookups failed, for every domain without a capital C |
| DnsChecks.ExplainNamesTheFailure | backend/core/dns_verify.py:134-162 | The message begins with the words of the failure that occurred: both lookups failed, nothing published, or something else published |
| DnsChecks.ShippedWordsAreUnconfusing | backend/core/dns_verify.py:144-162 | The advice in the service's own messages has what that needs |
| Authority.CacheAgreesInEveryRun | backend/models/domain_verification.py:1-16 | In every reachable state, with sweeps caught between snapshot and apply, the cached list is duplicate-free and equals the domains of VERIFIED claims |
| Authority.RunKeepsInv | backend/workers/scheduler.py:356-400 | Registration, claims, verification, token rotation, deletion and interleaved sweeps keep that agreement and the uniqueness of claims |
| Authority.OnlyProofGrants | backend/routes/domains.py:167-243 | A domain becomes authorised only by a check of a claim on it that finds that claim's own unexpired token in DNS, bare at the dedicated label or prefixed at the apex |
| Authority.RegisterThenProof | backend/routes/auth.py:162-198 | Registering authorises nothing; its pending claim does once proven within the token's time to live, after which the token is rotated instead |
| Revocations.ClaimsAreKeyedInEveryRun | backend/schemas/domain.py:14-30 | In every reachable state each claim is on a domain in the form in which scope compares it |
| Rechecks.RevokedIff | backend/workers/scheduler.py:380-404 | Exactly when re-checks revoke: some check found the token absent while the run of checks without it, unresolved ones included, had reached a positive threshold |
| Rechecks.SweepsRevokeIff | backend/workers/scheduler.py:373-404 | The same of a claim in the book over successive sweeps, on what they report of it |
| Rechecks.RecheckByDns | backend/workers/scheduler.py:373-404 | One re-check from DNS answers to the book: failures go to zero when the token stands published and up by one otherwise; the claim is revoked exactly when some place answered, none published the token, and the failures have reached a positive threshold |
| Rechecks.UnresolvedCounts | backend/workers/scheduler.py:385-392 | A failed lookup followed by one missing record revokes at a threshold of two, one missing record alone does not |
| Rechecks.FailuresAreStreak | backend/models/domain_verification.py:120-124 | The counter is the length of the current run of checks that did not find the token |
| Revocations.LeftBehindIff | backend/workers/scheduler.py:407-432 | A revocation leaves an enabled schedule that was in scope enabled and out of scope exactly when its stored text does not lie below the revoked domain and no other verified domain covers its host |
| Revocations.SweepLeavesBehindIff | backend/workers/scheduler.py:373-432 | The exact condition for a whole sweep, however many domains it withdraws |
| Revocations.SweepLeavesNoDependent | backend/workers/scheduler.py:373-432 | No sweep leaves a schedule enabled whose stored text lay below a verified domain and no longer does, which for a normal host is being in scope |
| Revocations.DisabledExactly | backend/workers/scheduler.py:423-432 | The schedules switched off are the organisation's enabled ones at or below the revoked domain by labels; all others are unchanged |
| Revocations.DisabledThoughCoveredIff | backend/workers/scheduler.py:423-432 | A schedule is switched off although still in scope exactly when its text lies below the revoked domain and another verified domain covers its host |
| Revocations.OnlySweepsSwitchOff | backend/workers/scheduler.py:423-432 | Of all steps on claims only a sweep touches schedules, and each row it touches is an enabled one switched off for a revoked domain |
| StoredTargets.PortHidesDomain | backend/routes/schedules.py:52-62 | A request for a host and port in double brackets stores the text with its port, in scope of the host's domain and not below it |
| Revocations.PortSurvivesRevocation | backend/workers/scheduler.py:431-432 | Revoking that domain leaves such a schedule enabled and out of scope |
| Authority.RotationThenProof | backend/routes/domains.py:189-243 | Rotating an expired token grants nothing, and the new token, checked within its time to live, does grant the domain |
| Authority.DeleteThenReclaim | backend/routes/domains.py:247-261 | Deletion withdraws the domain at once, and claiming it again starts a fresh pending claim without authority |
| Authority.DomainBook.constructor | backend/routes/auth.py:162-198 | No organisations, claims or schedules to begin with |
| Authority.DomainBook.Grant | backend/routes/domains.py:61-72 | Appends the domain to the list without blanks, or leaves the list when it is there |
| Authority.DomainBook.Withdraw | backend/routes/domains.py:75-77 | Removes the domain and blanks |
| Authority.DomainBook.AddDomain | backend/routes/domains.py:112-159 | An existing claim is kept with its token, a full organisation is refused, otherwise one pending claim is added |
| Authority.DomainBook.VerifyDomain | backend/routes/domains.py:167-243 | Short cut, token rotation, rate limit, failure and grant, each with exactly its effect on claim and list; DNS is judged against the claim's own token |
| Authority.DomainBook.DeleteDomain | backend/routes/domains.py:247-261 | Reports exactly whether the caller's organisation held the claim, and then both the claim and its domain are gone |
| Authority.DomainBook.DisableDependents | backend/workers/scheduler.py:423-432 | The loop over enabled schedules switches off exactly the dependent ones |
| Authority.DomainBook.Revoke | backend/workers/scheduler.py:407-432 | Claim, list and schedules change together |
| Authority.DomainBook.ApplyResults | backend/workers/scheduler.py:373-397 | The loop equals folding the re-checks in order, skips deleted claims, and counts exactly what it met |
| Authority.CountersAddUp | backend/workers/scheduler.py:353-397 | Revoked and unresolved never exceed failed, nor failed checked; nothing is revoked at a threshold of zero; if no claim was deleted every report is checked |
| Sweeps.DnsHasASayIff | backend/routes/domains.py:177-217 | DNS has a say exactly for the caller's own unverified claim with an unexpired token, in an attempt within the limit; otherwise no answer changes anything |
| Sweeps.EarlyAnswers | backend/routes/domains.py:177-212 | Exactly when an attempt is not found, idle, answered with a new token, or over the limit |
| Sweeps.AttemptWrites | backend/routes/domains.py:177-243 | What each outcome writes to the claim and the list: a refused or idle attempt nothing, and never anything of other claims and organisations |
| Sweeps.SweepTouchesItsSnapshot | backend/workers/scheduler.py:356-397 | In every run the apply step of a sweep changes only claims that were VERIFIED when the sweep took its snapshot |
| Sweeps.SweepAppliesOncePerSnapshot | backend/workers/scheduler.py:356-397 | One snapshot, one application: until it takes another snapshot an applied sweep changes nothing more |
| Sweeps.CountersCount | backend/workers/scheduler.py:353-404 | The sweep's counters are the numbers of reports of present claims, of those that did not find the token, of those without an answer from DNS, and of those that found nothing as the failures reached the threshold |
| Sweeps.ClaimsWithinLimit | backend/routes/domains.py:112-159 | In every run no organisation holds more claims than the limit, the one it registers with apart |
| RateLimit.WindowAdmitsExactly | backend/core/ratelimit.py:153-167 | For any attempts at any times each window admits exactly min(attempts, limit) |
| RateLimit.AnyWindowLengthAdmitsTwice | backend/core/ratelimit.py:25-28 | Any half-open interval one window long admits at most twice the limit, although windows start at arbitrary first hits |
| RateLimit.CounterIsRank | backend/core/ratelimit.py:107-122 | The stored counter is the number of attempts in the current window and expires when that window ends |
| RateLimit.StartsShape | backend/core/ratelimit.py:107-122 | Windows are disjoint and begin at least a window apart |
| RateLimit.LockoutAdmitsOneMore | backend/core/ratelimit.py:170-193 | Checked first and charged on failure, each window lets through exactly min(attempts, limit + 1) |
| RateLimit.AttemptCounter | backend/core/ratelimit.py:107-122 | With expiry writes that may be lost, the counter is still the rank of the attempt in its window and expires a window after the first kept expiry |
| RateLimit.KeptAttemptsAreHits | backend/core/ratelimit.py:107-122 | When none is lost these are the hits the window bounds speak of |
| RateLimit.AllowedWithinWindow | backend/core/ratelimit.py:153-167 | Among calls on any mix of keys, with outages and lost expiry writes, exactly when a call is allowed: the store is down, its own expiry write is lost in a window that has none, or its key's window is within the limit |
| RateLimit.CountersAreIndependent | backend/core/ratelimit.py:107-122 | Keys do not disturb one another, and calls the store missed leave no trace |
| RateLimit.LostExpiryIsRepaired | backend/core/ratelimit.py:115-118 | A counter left without expiry gets one from the next hit, and so ends |
| RateLimit.KeysNeverCollide | backend/core/ratelimit.py:103-104 | Two rules never share a key, whatever the identities |
| RateLimit.RateLimiter.constructor | backend/core/ratelimit.py:58-63 | No counters to begin with |
| RateLimit.RateLimiter.Incr | backend/core/ratelimit.py:107-122 | One increment with expiry on a fresh or unexpiring key; nothing when the store is down; a count without expiry when that write is lost |
| RateLimit.RateLimiter.Enforce | backend/core/ratelimit.py:153-167 | Fails open when disabled, down or unable to set a due expiry, otherwise one hit and a verdict on its count |
| RateLimit.RateLimiter.AssertUnder | backend/core/ratelimit.py:170-186 | Allowed exactly when disabled, down, or not above the limit, without consuming |
| RateLimit.RateLimiter.RecordFailure | backend/core/ratelimit.py:189-193 | One hit on the failure counter, without its expiry if that write is lost, and none when disabled or down |
| RateLimit.ClearStartsOver | backend/core/ratelimit.py:196-203 | After a success the counter is exactly what the failures since then make it, and nothing before counts |
| LogStream.SentInEveryRun | backend/main.py:187-241 | For every interleaving with publishers: what was sent, pings aside, is the snapshot, the events stored when the history was read, then every event since the subscription in order, up to the first end |
| LogStream.FinishedScanClosesTheStream | backend/main.py:207-212 | In every run, once the history is read, the stream is closed for that reason exactly if the scan was already over; the end frame is sent exactly then, last, and nothing is taken live |
| LogStream.ClosedIsSilent | backend/main.py:214-252 | A closed stream sends nothing more, pings only follow the replay, and the interruption notice is the last frame of a broken stream |
| LogStream.NoticesAreCounted | backend/main.py:214-250 | One ping is sent for each idle turn of the live loop, and one notice for each break the client is told of |
| LogStream.StreamCatchesUp | backend/main.py:196-241 | The handler is never stuck: left alone, an open stream closes or has forwarded everything within the steps it still has to take |
| LogStream.ReplayReach | backend/core/events.py:154-166 | The replay reaches back over exactly the least of the requested number, 2000 and what is stored |
| LogStream.NothingIsLostInAnyRun | backend/main.py:190-205 | Once caught up, every event from the earlier of the replay's start and the subscription on has been sent |
| LogStream.DuplicatesAreTheOverlap | backend/main.py:190-196 | In every run that has forwarded past its replay, what was sent is the snapshot, every event from the earlier start on once, and exactly those from the later start to the moment of the read once more |
| LogStream.ClosesOnLiveEndIff | backend/main.py:203-241 | In every run the stream closes on an end exactly when it took one live, whatever the replay contained |
| LogStream.PublishKeepsHistory | backend/core/events.py:113-130 | Append and trim keep the stored history equal to the last 2000 messages since the key last expired |
| LogStream.LiveFramesAreEvents | backend/main.py:207-235 | Pings aside, the live loop forwards the events it receives up to the first end and drops the rest |
| LogStream.ForwardLive | backend/main.py:207-235 | The loop itself produces those frames |
| LogStream.Channel.constructor | backend/core/events.py:23-36 | An empty channel |
| LogStream.Channel.Publish | backend/core/events.py:113-130 | Delivers to the subscription, appends and trims in one step |
| LogStream.Channel.ReadHistory | backend/core/events.py:154-166 | The decodable events among the last ones stored, all of them at limit zero, none when the store fails |
| Passwords.AdjacentPairs | backend/core/passwords.py:118-130 | The set holds exactly the neighbour steps of the rows in both directions |
| Passwords.CoveredCount | backend/core/passwords.py:151-163 | The one-pass counter equals the number of positions lying in runs of at least four adjacent steps |
| Passwords.KeyboardCoverage | backend/core/passwords.py:139-163 | The share is that number over the folded length, zero for short input |
| Passwords.CoverageWithin | backend/core/passwords.py:139-163 | Coverage never exceeds the input |
| Passwords.IsKeyboardRun | backend/core/passwords.py:166-168 | Flagged exactly when at least seven tenths are covered |
| Passwords.FoldedIsLettersAndDigits | backend/core/passwords.py:148 | The folded text is the letters and digits of the value, in order and in lower case, and nothing else |
| Passwords.SlicesAreFlagged | backend/core/passwords.py:139-168 | Any value that folds to row slices of length at least four, in either direction, is fully covered and flagged |
| Passwords.SliceIffSteps | backend/core/passwords.py:118-124 | A chunk is a row slice exactly when all its steps are steps of one row in one direction |
| Passwords.BackAndForthIsNoSlice | backend/core/passwords.py:118-124 | Two neighbours back and forth take only allowed steps and are no slice |
| Passwords.ShippedRowsHaveNoRepeats | backend/core/passwords.py:84-87 | The shipped rows have no repeated characters |
| Passwords.HasRepeatedUnit | backend/core/passwords.py:175-183 | True exactly when some p with floor(n/p) at least 3 makes the prefix of length p * floor(n/p) p-periodic |
| Passwords.UnitTest | backend/core/passwords.py:178-182 | Repeated-unit string equality is index-shift equality |
| Graph.GraphBuilder.constructor | backend/routes/assets.py:264-266 | An empty graph |
| Graph.GraphBuilder.AddLink | backend/routes/assets.py:268-275 | Appends a link only the first time |
| Graph.GraphBuilder.Build | backend/routes/assets.py:264-393 | The loops over domains, assets, addresses and ports and the final roll-up yield exactly the specified nodes, with their captions and counts, and links, in order |
| Graph.NodeIdsDistinct | backend/routes/assets.py:264-393 | No node identifier occurs twice |
| Graph.RenderedIdsDistinct | backend/routes/assets.py:264-393 | The identifier texts the browser receives are distinct, when no address reads like an asset id |
| Graph.RenderInjective | backend/routes/assets.py:281-362 | An identifier text determines its node, up to an address that reads like an asset id |
| Graph.NodesAreExact | backend/routes/assets.py:277-383 | A node for each domain, asset, address in use and open port per address or asset, and no others |
| Graph.LinksAreExact | backend/routes/assets.py:268-383 | Every link that belongs is there once, and no other |
| Graph.LinksJoinNodes | backend/routes/assets.py:268-383 | Every link joins two emitted nodes |
| Graph.ParentIsLongest | backend/routes/assets.py:285-304 | The parent is the longest covering verified domain, and there is none only if none covers |
| Graph.ParentIsUnique | backend/routes/assets.py:285-304 | A domain with those properties is the parent |
| Graph.ParentDomain | backend/routes/assets.py:285-304 | The search loop computes the parent |
| Graph.AssetHangsFromParent | backend/routes/assets.py:322-324 | An asset hangs from its parent domain and from nothing else |
| Graph.IpRiskIsMax | backend/routes/assets.py:329-345 | An address's risk is attained by an asset on it and exceeded by none |
| Graph.DomainRiskIsMax | backend/routes/assets.py:384-393 | A domain's risk is the maximum over the assets that hang from it, and zero at least |
| Graph.ServiceIsNamedIff | backend/routes/assets.py:356-369 | A port shows a service exactly when some report of it names one |
| Graph.ServiceIsFirstNamed | backend/routes/assets.py:356-369 | And then the first such service |
| Graph.GroupByIp | backend/routes/assets.py:326-327 | Addresses in the order first met, each with its assets in order |
| Graph.CollectPorts | backend/routes/assets.py:348-369 | Ports in the order first met, each with its service |
| Graph.RollUp | backend/routes/assets.py:387-390 | The map holds, per key, the maximum risk and never less than zero |
| GraphColumns.AssetColumns | backend/routes/assets.py:309-321 | An asset shows its host name and risk, its own findings, and one for each open entry of its port list |
| GraphColumns.AddressColumns | backend/routes/assets.py:329-345 | An address counts the assets that share it and the findings of all of them |
| GraphColumns.PortColumns | backend/routes/assets.py:371-382 | A port shows its number and the exposure of that number |
| GraphColumns.DomainColumns | backend/routes/assets.py:277-284 | A root shows its name and counts nothing itself |
| GraphColumns.AddressesCountOnce | backend/routes/assets.py:326-345 | Together the addresses count every asset that has one, and its findings, exactly once |
| GraphColumns.AddressNodeIff | backend/routes/assets.py:326-330 | An address has a node exactly when some asset has it; an empty address is none |
| GraphColumns.AddressPortNodeIff | backend/routes/assets.py:348-369 | There is one port node per address and open port, whichever assets report it, and only when ports are asked for |

## Left out

- Cryptography: tokens and ids are fresh opaque numbers, hashing is injective, and decoding succeeds exactly for minted tokens of the right kind that have not expired.
- Text: lower-casing and white space are ASCII; Unicode case folding is not modelled.
- Database, broker and store internals beyond rows, row locks, atomic pipelines, key expiry and a message set; each message is delivered once, and starting a pipeline's chain succeeds.
- ScanSlots.RunKeepsInv: the cap check and the insert are one step; that two processes can pass the check together is not modelled.
- Dispatch.Dispatcher.DispatchDueScans: works on tables of rows, not on row objects shared with other sessions; rows locked elsewhere are simply not in the batch, and the limit of one batch is part of the query.
- Progress, completion times, error texts and configuration of scans, and last-used and last-checked times.
- SessionRuns.ReplayKillsFamilyIff: a revocation that has to wait for a locked row is a separate later step.
- Browser.NeverReplays: one page without reload; a reload during a refresh, a second tab and a lost response are outside it.
- Authority.RunKeepsInv: the read-modify-write of the cached list is one step; two handlers writing it at once are not modelled.
- DnsChecks.ExplainTellsApart: domains with a capital C are excluded; accepted domains are lower-case.
- RateLimit.LockoutAdmitsOneMore: for attempts one after another; the Retry-After value and the choice of client address are not modelled.
- LogStream.SentInEveryRun: authentication and closing codes are not modelled, and a history read is one instant.
- Graph.RenderedIdsDistinct: an address that reads like an asset id would share a port identifier, so that is excluded.
- Graph.GraphBuilder.Build: a port entry whose port is null counts as one without a port; the counts shown for the whole inventory are not modelled.
- Passwords: the common-word list, the distinct-character ratio and the breach lookup are not modelled.
- Address classification is a parameter; the private-name lists are modelled.
- Report rendering, findings, Slack, discovery modules, retention, middleware and the pages of the front end.
