# Verified model of the agent platform's routers, readers and runners

Three groups of code are modelled here in Dafny, each because what it promises is about whole runs and not about one call.

**The model router** (`services/ai`). An agent's request, or a delegated child's, is checked against the revocation cache, its model alias is resolved, a delegation is looked up and intersected with the parent's policy, and then four checks over the usage log follow: requests per minute and tokens per UTC day, for the delegation and for the agent. The row that those checks count is written only after the provider has answered. `Router` is a state machine over the tables (policies, delegations, usage log, revoked tokens) and the in-memory cache in which *every awaited statement of enforcement is a step of its own, and a check that is skipped for want of a limit is no step*; delegation endpoints, policy changes, revocations, cleanups, restarts and the clock interleave freely. `Limits` holds the log queries, `Policies` the pure policy code. `Service` renders the code over mutable tables as a class; anything can happen at its awaits, and each method is proved to be, together with that, a run of the machine. `Verdict` says what enforcement and the delegation endpoint must answer as a question about the tables alone: which rows count, what follows, what a new row contains. On top stand `Gates`, `RateBound` and `BudgetBound` (how far the log can exceed a limit), `DelegationSafety` (revocation, what an admitted request must have found, how long a revoked token stays out), `Admission` (at which steps the checks are passed and a request is admitted, and when that is before the parent token's expiry) and `Erasure` (denials never extend a lockout).

**Incremental readers and printers.** The SSE tee that reads token usage out of a stream cut anywhere (`Sse`, `SseUsage`, and `SseCuts` for cuts between CR and LF), the Docker frame stripper (`DockerLog`), the CSV export with an RFC 4180 reader (`Csv`), the live event line splitter (`FollowStream`), the terminal log with resume (`TerminalLog`), the bounded stream collector (`BoundedRead`) and the Discord chunker (`Chunker`). Each loop or handler is proved against a specification of the whole input. `Text` has the shared text functions.

**Step protocols with faults.** The migration runner with any number of instances, a lock and a failure possible at every statement (`Migrations`), the tool-calling loop with the model, the tools, the clock and the callback endpoint as oracles (`ToolLoop`), and the accounting of lost usage writes (`UsageGaps`).

## How the code is represented

- Time is an integer of microseconds, one clock for application and database. A row's `created_at` is the time of the step that writes it. A JWT's `exp` and a delegation's `expires_at` are seconds.
- A limit of `None` is a NULL column: unlimited.
- Some fields exist only in the model: which request wrote a usage row and whether that request had passed every check, the parent token's `exp` in a delegation row, and the set of delegation ids ever generated (ids are fresh).
- `Gates` measures the requests in flight at a check as those between the passing check and the usage row. The bounds say "k in flight" in exactly this sense, take the limits in force as an upper bound rather than as constant, and let the log start with any rows of requests outside the run.
- `RevocationManager`'s methods and `log_usage` with its flush are single steps, as is a provider call together with the time it takes. A request may leave at any point without a row (`Abandon`), and a usage write may be lost (`written: false`).
- JSON parsing, byte decoding and base64 are abstract functions; base64 decoding is assumed to undo encoding. The Discord chunker works on UTF-16 code units, as JavaScript strings do; the other modules on code points.
- Pure code is represented by functions without contracts of their own, and what holds of them is stated by the lemmas below: `Policies.ResolveAgentPolicy`, `Policies.ResolveAlias`, `Policies.ComputeEffectivePolicy`, `Limits.RateAllowed`, `Limits.BudgetAllowed`, `Router.NextStage` and `Router.Apply`, `Sse.ParseSseEvents`, `SseUsage.EventUsage`, `ToolLoop.MarkIncomplete`, `Csv.EscapeCsv` and `Csv.Export`.

## Where the code and its promises part

- **Expiry is enforced at the lookup.** No lookup succeeds at or after the parent token's `exp`. The limit checks after it are awaited, so when the clock moves in between, a request can be admitted late. `Admission.AdmissionInTimeIff` says for which policies and rows this cannot happen in any run: those without any limit, those with a limit that admits nothing, and those under which no request is admitted at all. For all others `Admission.LateAdmission` gives the run.
- **A revocation can miss the cache.** If a delegation is revoked before its child's `jti` has been stored, the placeholder is what gets cached; `DelegationSafety.CacheStopsChildIffJtiStored` is the exact condition, `DelegationSafety.PlaceholderRevoked` an input. The lookup of the row still stops every request (`DelegationSafety.RevocationIsFinal`).
- **A revoked token can come back for its leeway.** A token is accepted until 30 s after its `exp`, but its row is dropped at the row's expiry. Callers send the token's own `exp` (services/api/src/services/model-router-revoke.ts:37, services/ai/app/main.py:1152), so after the next cleanup it is accepted for up to 30 s; `DelegationSafety.NeverAcceptedAgainIff` and `DelegationSafety.RevocationLastsIff` give the exact conditions.
- **The cache can miss a row.** When the insert of a revocation takes effect and its answer is lost, the row is in the table and the cache does not know it until the next reload; `DelegationSafety.CacheCoversIff`.
- **A second revocation does not extend the first.** `INSERT ... ON CONFLICT DO NOTHING` keeps the earlier expiry, so after a cleanup the token is accepted again before the expiry asked for last; `DelegationSafety.RevocationHonoured` and `DelegationSafety.RevocationCutShort` split all cases between them.
- **A chunk cut between CR and LF counts as two line endings** and can dispatch part of an event early; `SseCuts.CutsKeepThePayloadsIff`, `Sse.SeparatedCrLfEndsEventEarly`.
- **A line that is just `data`** is empty data by section 9.2.6 of the WHATWG HTML standard and is ignored by the code; `SseUsage.EventsAreStandardIff`.
- **An empty Docker payload stops the stripping**, and the rest of the buffer comes back as one entry, headers included; `DockerLog.StripExactIffNoEmptyPayload`, `DockerLog.SingleByteExactIff`.
- **A cursor beyond what has been written** makes the terminal stream repeat events; `TerminalLog.ResumeExactIff`.
- **The comment on the failed unlock** (services/api/src/db/migrate.ts:75-86) says that the lock goes with the released connection. Releasing a client hands its session back to the pool. A call that has returned still holds the lock exactly when its unlock threw on a session that survived and has not ended since (`Migrations.LockOutlivesCallIff`, reached from an empty database by `Migrations.LockCanOutliveCall`), and until then no other instance gets past it (`Migrations.FailedUnlockBlocksOthers`).
- **Calls made are not always rows plus misses.** A usage write that is cancelled is neither a row nor a miss, one whose answer is lost is both, and a gap whose insert takes effect while its answer is lost stays pending and is recorded again, with overlapping intervals. `UsageGaps.CallsAreConservedIff` and `UsageGaps.GapsAreOrderedIff` give the exact conditions, `UsageGaps.GapRecordedTwice` an input that breaks both promises.
- **A Discord message can end in half a character:** `Chunker.ChunkMessage` says exactly when a cut splits a surrogate pair: when the limit falls inside one and there is no newline in the upper half of the window to cut at instead. `Chunker.PairAtLimitIsSplit` is such a text.

## Model

| member | source | states |
|---|---|---|
| `Policies.EffectivePolicyIsGreatestLowerBound` | services/ai/app/delegation.py:223-259 | the effective policy lies within the parent's policy and within the delegation, and every grant within both lies within it (models as sets, None as unlimited) |
| `Policies.KeepAllowedMembers` | services/ai/app/delegation.py:228-231 | the effective models are exactly those in both lists |
| `Policies.KeepsAllIffSubset` | services/ai/app/delegation.py:228-231 | the delegation's model list survives unchanged exactly when the parent allows every model in it |
| `Policies.ValidateNarrowing` | services/ai/app/delegation.py:46-77 | the loop reports, in order, every model outside the parent's and then each limit that exceeds the parent's |
| `Policies.ViolationsAre` | services/ai/app/delegation.py:46-77 | each violation is reported exactly when there is one: a model outside the parent's list, a given limit above the parent's |
| `Policies.NoModelViolationIffSubset` | services/ai/app/delegation.py:56-61 | no model is reported exactly when all are allowed |
| `Policies.NarrowingHoldsIffDelegationSurvives` | services/ai/app/delegation.py:46-77 | under an unchanged parent, the narrowing check is silent exactly when models and given limits survive into the effective policy as written |
| `Router.RequestStep` | services/ai/app/main.py:283-523 | no step of anything else changes a request; its own steps follow enforcement, one for each awaited statement, and a denied request never moves again |
| `Gates.BeforeGate` | services/ai/app/main.py:341-449 | a request beyond a check that has a limit can only have come there from that check, passing it |
| `Gates.AdvanceThroughGate` | services/ai/app/main.py:341-449 | a request that gets past a limit did so on a check made in that very step against at most the gate's limit |
| `Gates.SnapshotsKept` | services/ai/app/main.py:283-340 | the policy and delegation a request carries were within the limits in force when it read them, in every interleaving |
| `Gates.StepEffect` | services/ai/app/main.py:341-451 | every step either lets one request through on a passing check with the log unchanged, or logs one admitted row whose request leaves flight, or does neither |
| `RateBound.WindowWithinCheck` | services/ai/app/limits.py:30-79 | the check's count covers the admitted rows of every window that starts no earlier than the check's |
| `RateBound.WindowRun` | services/ai/app/limits.py:30-79 | a window's rows plus the requests still in flight stay within the ceiling in every state of a run |
| `RateBound.EveryWindowWithinRate` | services/ai/app/limits.py:30-79 | in every interleaved run, every 60-second window holds at most max_rpm + k - 1 counted rows of admitted requests, per agent over all its delegations and per delegation with the effective limit |
| `BudgetBound.DayWithinCheck` | services/ai/app/limits.py:82-130 | the check's sum is at least the day's tokens of admitted requests |
| `BudgetBound.LogGrows` | services/ai/app/usage.py:11-56 | the usage log is append-only in every run |
| `BudgetBound.EveryDayWithinBudget` | services/ai/app/limits.py:82-130 | in every interleaved run, the tokens of a UTC day stay below the limit but for at most k last rows of that day, including requests checked before midnight and logged after it |
| `BudgetBound.DayOvershoot` | services/ai/app/limits.py:82-130 | if no request uses more than m tokens, a day stays below the limit plus k times m |
| `DelegationSafety.AdmittedRequestProvenance` | services/ai/app/main.py:293-451 | every admitted request read a policy that allows its model; a delegated one also found its row unrevoked, with the model in it, before its own and the parent token's expiry |
| `DelegationSafety.LookupStep` | services/ai/app/main.py:302-316 | the step of the run at which the delegation was found live |
| `DelegationSafety.PolicyReadStep` | services/ai/app/main.py:293-299 | the step of the run at which the policy in use was read |
| `DelegationSafety.RevocationIsFinal` | services/ai/app/main.py:302-316 | once revoked_at is set, no request that has yet to look the delegation up is ever admitted or logged as such, whatever follows: late jti updates, row deletion, cleanup, restarts, policy changes |
| `DelegationSafety.ShutRun` | services/ai/app/main.py:1103-1107 | a revoked or deleted delegation stays dead, and requests before their lookup stay shut out, in every continuation |
| `DelegationSafety.CacheRun` | services/ai/app/revocation.py:30-70 | a row that the cache contains stays in the table and in the cache until it expires, through anything |
| `DelegationSafety.CacheCoversIff` | services/ai/app/revocation.py:30-70 | in every run of preloads, revocations, cleanups and restarts, with anything in between, the cache contains a row that has not expired, unless and only if its insert raised after taking effect and neither a revocation of the same jti nor a reload has followed |
| `DelegationSafety.ArrivesIff` | services/ai/app/auth.py:45-86 | a request gets in exactly until 30 s after its token's expiry, unless the cache has the token's jti or, for a delegated one, the parent's |
| `DelegationSafety.RevokedTokenStaysRejected` | services/ai/app/auth.py:76-86 | a token whose own or parent jti has a row that the cache contains is rejected at every moment before that row expires |
| `DelegationSafety.CacheOnlyHoldsRevoked` | services/ai/app/revocation.py:30-70 | the cache never holds a jti that nobody revoked |
| `DelegationSafety.RevocationHonoured` | services/ai/app/revocation.py:39-51 | the expiry asked for is honoured when no earlier-expiring row for the jti exists |
| `DelegationSafety.RevocationCutShort` | services/ai/app/revocation.py:39-51 | otherwise it is not: a concrete continuation accepts the token before that expiry |
| `DelegationSafety.NeverAcceptedAgainIff` | services/ai/app/auth.py:58-86 | a token is accepted in no continuation exactly when it has expired with its 30 s leeway or a row that names it lasts at least that long |
| `DelegationSafety.RevocationLastsIff` | services/ai/app/revocation.py:39-51 | revoking a token still accepted ends it for good exactly when its jti had no row and the expiry asked for covers exp + 30 s |
| `Admission.CheckStep` | services/ai/app/main.py:341-449 | an admitted request was, at a located step of the run, at each check that has a limit, and passed it there |
| `Admission.AdmittedRequestPassedEveryCheck` | services/ai/app/main.py:341-451 | every admitted request passed all its checks at located steps, against the log and clock of those steps, with limits within the agent's and, at delegation level, the row's |
| `Admission.AdmittingStep` | services/ai/app/main.py:283-523 | the step of a run that admits a request, under the policy and delegation it ends with |
| `Admission.NothingPasses` | services/ai/app/limits.py:30-130 | no request is admitted under a limit of zero or less, in any run with non-negative token counts |
| `Admission.UnlimitedAdmissionIsTheLookup` | services/ai/app/main.py:315-451 | without limits the admitting step is the lookup itself, so it comes before the delegation's and the parent token's expiry |
| `Admission.LateAdmission` | services/ai/app/main.py:315-451 | for every usable policy and row with a limit, none of which admits nothing, a run from an initial state that admits a request after the parent token's expiry |
| `Admission.AdmissionInTimeIff` | services/ai/app/main.py:302-451 | for every policy and row, all runs with non-negative token counts admit before the parent token's expiry if and only if nothing is awaited after the lookup or nothing can be admitted |
| `DelegationSafety.CacheStopsChildIffJtiStored` | services/ai/app/main.py:1140-1153 | with anything between and after the revoke endpoint's two awaits, its cache entry stops the child's token up to the row's expiry in every continuation exactly when the child's jti had been stored; the delegation is dead in all of them |
| `DelegationSafety.PlaceholderRevoked` | services/ai/app/main.py:1103-1107 | a revocation that overtakes the jti update: the child's token stays accepted by the token check |
| `Erasure.CountedOnlySuffices` | services/ai/app/limits.py:41-68 | both checks depend only on rows with status success or error |
| `Erasure.NextStageAlike` | services/ai/app/main.py:341-449 | two states that differ in throttled requests and uncounted rows decide alike |
| `Erasure.DenialsLeaveNoTrace` | services/ai/app/limits.py:93-116 | erasing from any run any requests denied as rate_limited or budget_exceeded leaves every other request, its decision and the counted log unchanged |
| `Verdict.AllowedIff` | services/ai/app/main.py:283-523 | an undisturbed request is allowed exactly when its model, aliases followed, is in every list that applies, its delegation is live, and each limit that is set has room: fewer counted rows of the last 60 seconds than max_rpm, fewer tokens since UTC midnight than max_tokens, for the agent and, with the row's and the agent's limits, for the delegation |
| `Verdict.CountIsLastMinute` | services/ai/app/limits.py:30-79 | the count of the rate check is the number of rows of the agent, or of one delegation of it, with status success or error in the last 60 seconds |
| `Verdict.SumIsSinceMidnight` | services/ai/app/limits.py:82-130 | the sum of the budget check is that of the input and output tokens of such rows since UTC midnight, a row with an unknown count having none |
| `Verdict.ChecksAsk` | services/ai/app/main.py:341-449 | rate before budget, each made only when its limit is set, refuses exactly when there is no room |
| `Verdict.EffectiveVerdict` | services/ai/app/delegation.py:223-259 | under the effective limits the checks enforce the row's and the agent's limits, both over the rows of the delegation |
| `Verdict.SamePolicy` | services/ai/app/policy.py:28-108 | the policy in force is the agent's own, else the one named default, else one that allows nothing; an alias stands for its target and every other name for itself |
| `Verdict.NarrowsIffNoViolation` | services/ai/app/delegation.py:46-77 | the narrowing check is silent exactly when every model asked for, aliases followed, is the parent's and no limit asked for exceeds the parent's |
| `Service.StreamStatus` | services/ai/app/main.py:832-838 | a disconnect of the client comes first, then a failure; only a stream with neither is a success |
| `Service.OthersKeep` | services/ai/app/main.py:283-523 | whatever happens at an await leaves the request that awaits, with its local policy and delegation, as it was |
| `Service.ModelRouter.constructor` | services/ai/app/revocation.py:20-28 | a new process starts on the tables with an empty cache |
| `Service.ModelRouter.Preload` | services/ai/app/revocation.py:30-37 | the cache becomes exactly the unexpired rows |
| `Service.ModelRouter.Revoke` | services/ai/app/revocation.py:39-51 | inserts unless present, whether or not the answer arrives, and caches only after an answer; both new tables are stated outright |
| `Service.ModelRouter.CleanUpExpired` | services/ai/app/revocation.py:57-70 | the rows that stay are exactly those expiring later than now, with their expiry, and the cache is their jtis |
| `Service.ModelRouter.InsertDelegation` | services/ai/app/delegation.py:80-129 | the row made is the one asked for, field by field: the body's limits, each model or its alias target, the ids and jti given, the earlier of the expiry asked for and the token's, a placeholder for the child's jti; no other row changes |
| `Service.ModelRouter.CreateDelegationEndpoint` | services/ai/app/main.py:985-1120 | 400 exactly when the request widens the parent's policy, which is the one in force when it is read; with anything at its awaits, the insert followed by what the outcome says: nothing more (503, a failed cleanup, a failed jti update), the delete, or the child's jti; undisturbed, it says exactly when a row is left, that this row is the one asked for, field by field, and that no other row changes |
| `Service.ModelRouter.FinishCreation` | services/ai/app/main.py:1035-1108 | the cleanup after a failed signature, or the child's jti stored in the row if it is still there |
| `Service.ModelRouter.RevokeDelegationEndpoint` | services/ai/app/main.py:1131-1156 | 403, 404 or a failed update without a change of its own, but for an update whose answer is lost; otherwise the row is revoked and, after anything at the second await, the jti found in it at the revocation is revoked and cached, or what a failed insert leaves of that; undisturbed, 200 comes with the three new tables as stated |
| `Service.ModelRouter.LogRefusal` | services/ai/app/main.py:318-340 | a refused request, after anything at the await, ends refused; undisturbed it leaves exactly one row, with its status and delegation and no tokens, or none if the write is lost |
| `Service.ModelRouter.CheckLimit` | services/ai/app/main.py:341-369 | one limit check, made on the log and clock found after its await and skipped without a step when there is no limit; it passes the request on or ends it refused |
| `Service.ModelRouter.CheckLimits` | services/ai/app/main.py:341-523 | rate before budget; undisturbed, the refusal is the one that the rows of the last minute and of the day call for, and its row is the only trace |
| `Service.ModelRouter.EnforceLimits` | services/ai/app/main.py:341-449 | the delegation's limits before the agent's; undisturbed, the answer is that of the limits of both levels over the rows each speaks of |
| `Service.ModelRouter.EnforceDelegation` | services/ai/app/main.py:302-451 | the delegation path from its lookup on, with anything at its awaits, is the advances of its request, and its decision is the stage they lead to; undisturbed it is the answer that the tables call for |
| `Service.ModelRouter.EnforcePolicy` | services/ai/app/main.py:283-523 | with anything at its awaits it is, interleaved with that, a run of the machine in which its request only advances; undisturbed its decision is the answer that the tables call for, naming which refusal, and the log grows by that refusal's row or not at all |
| `Service.ModelRouter.LogStream` | services/ai/app/main.py:816-860 | the ending of a stream finishes the request and writes one row, with the agent, delegation and token counts given and the status of that ending |
| `Sse.NormaliseConcat` | services/ai/app/proxy.py:104-117 | normalising line endings distributes over every cut that separates no CR from its LF |
| `Sse.PartsAppend` | services/ai/app/proxy.py:104-117 | more text only changes the last, unfinished part of the split |
| `Sse.CompleteAppend` | services/ai/app/proxy.py:104-117 | parsing text in two goes, carrying the remainder over, gives the events and the remainder of parsing it at once |
| `Sse.TeeParsesNormalisedChunks` | services/ai/app/proxy.py:271-287 | for every chunking whatever, the tee yields the events and holds the tail of its chunks normalised one by one |
| `Sse.CutsKeepTheTextIff` | services/ai/app/proxy.py:271-287 | that text is the whole text normalised exactly when no cut separates a CR from its LF |
| `SseCuts.MarkedIsBoth` | services/ai/app/proxy.py:111-112 | one marked text gives what the tee sees and, without its marks, the whole text |
| `SseCuts.EarlyCounts` | services/ai/app/proxy.py:271-287 | the tee's payloads outnumber those of the whole text by exactly the pieces dispatched early at separated CR LFs |
| `SseCuts.CutsKeepThePayloadsIff` | services/ai/app/proxy.py:271-287 | for every chunking whatever, the tee's events carry the payloads of the whole text if and only if no separated CR LF dispatches part of an event early |
| `SseCuts.NoCutsNoneEarly` | services/ai/app/proxy.py:271-287 | without a cut between a CR and its LF nothing is dispatched early, so the two results below cover every such chunking |
| `Sse.TeeParsesWholeText` | services/ai/app/proxy.py:271-287 | for every such chunking the tee yields exactly the events of the whole text parsed at once |
| `Sse.SeparatedCrLfEndsEventEarly` | services/ai/app/proxy.py:104-117 | after any non-blank line a separated CR LF ends the event, which parsing at once would hold back |
| `SseUsage.ExtractUsage` | services/ai/app/proxy.py:120-151 | the loop joins what the data lines of an event carry, comments and other fields counting for nothing, and interprets it |
| `SseUsage.EventUsageIs` | services/ai/app/proxy.py:120-151 | an event has usage exactly when it has a payload, other than "[DONE]" between white space, that parses to an object with usage, and then those prompt and completion counts; it raises exactly when such a payload is no object |
| `SseUsage.AbsorbEvents` | services/ai/app/proxy.py:282-287 | absorbing further events continues the fold over all events and stops at the first payload that raises |
| `SseUsage.TeeStream` | services/ai/app/proxy.py:271-291 | in terms of what json makes of the payloads: it fails exactly when some payload raises, and the counts are the prompt and completion tokens of the last payload with usage before that, or zero |
| `SseUsage.PayloadsDecide` | services/ai/app/proxy.py:282-287 | the fold over any payloads is what reading them one by one up to the first that raises gives |
| `SseUsage.DoneIff` | services/ai/app/proxy.py:140-141 | the sentinel is recognised exactly as "[DONE]" with white space before and after it |
| `SseUsage.FailureSticks` | services/ai/app/proxy.py:288-291 | after a payload that raises, nothing later changes the counts |
| `SseUsage.LastFoundWins` | services/ai/app/proxy.py:283-286 | the counts are those of the last event that carries usage, zero before there is one |
| `SseUsage.DataFieldIsPayload` | services/ai/app/proxy.py:126-135 | what the code takes from a line is what section 9.2.6 of the WHATWG HTML standard takes, for every line but a bare "data" |
| `SseUsage.PartsDispatch` | services/ai/app/proxy.py:104-135 | splitting at double newlines finds the data that line-by-line dispatch finds, on every text |
| `SseUsage.EventsAreStandardIff` | services/ai/app/proxy.py:104-135 | the payloads extracted are those of the standard's interpretation exactly when no dispatched event has a line that is just "data" |
| `SseUsage.CaptureByPayload` | services/ai/app/proxy.py:271-287 | the captured counts depend only on the payloads of the events |
| `SseCuts.CapturedUsageIsStandard` | services/ai/app/proxy.py:271-287 | end to end, for every chunking in which no separated CR LF dispatches data early and every stream without a dispatched line that is just "data", the captured counts are those of interpreting the whole stream by the standard |
| `Migrations.SafeStep` | services/api/src/db/migrate.ts:32-88 | every statement, failure, lost session or crash of any instance keeps the invariant of lock, applied set and tracking table |
| `Migrations.MigrationsAreSafe` | services/api/src/db/migrate.ts:32-88 | for any number of instances and any failures, no file is committed twice, schema_migrations is exactly the committed files, and a normal return finds all its files applied |
| `Migrations.PositionIsLength` | services/api/src/db/migrate.ts:56-73 | a file about to be committed is the first of the list not yet committed |
| `Migrations.CommittedFilesArePrefix` | services/api/src/db/migrate.ts:52-73 | for one file list the committed files are at every moment a prefix of it, in order |
| `Migrations.LockOkRun` | services/api/src/db/migrate.ts:37-88 | in every run, whoever holds the lock has a live session and is between lock and unlock, or has returned |
| `Migrations.HeldStepIff` | services/api/src/db/migrate.ts:75-87 | one step leads to a returned call that holds the lock exactly when its unlock throws on a surviving session, and out of it exactly when the session ends |
| `Migrations.LockOutlivesCallIff` | services/api/src/db/migrate.ts:75-87 | in every run, a returned call still holds the lock if and only if its unlock threw on a session that survived and has not ended since |
| `Migrations.LockCanOutliveCall` | services/api/src/db/migrate.ts:32-88 | a run from an empty database that gets there, with a normal return |
| `Migrations.FailedUnlockBlocksOthers` | services/api/src/db/migrate.ts:75-87 | after an unlock that fails on a live session, until that session ends, no other instance gets past the lock and nothing is committed |
| `Migrations.Database.Query` | services/api/src/db/migrate.ts:40-73 | each statement has exactly the effect of the machine's step, and throws when told to, when the session is gone or when the primary key refuses the row |
| `Migrations.Database.Send` | services/api/src/db/migrate.ts:40-82 | after whatever others do, a statement throws exactly when its answer does, the session is gone or the primary key refuses the row; it waits exactly for a lock that is taken; tables, lock and session afterwards are stated case by case, and the call is in the phase after success or in that of the handler |
| `Migrations.Database.Fill` | services/api/src/db/migrate.ts:63-67 | the file's SQL and its row go through exactly when neither statement throws, and on a live session the row of a file listed once is never refused |
| `Migrations.Database.Transact` | services/api/src/db/migrate.ts:63-70 | the transaction's statements end past the file, committed, or at the rollback; undisturbed and without a failure the file and its row are what is added |
| `Migrations.Database.ApplyFile` | services/api/src/db/migrate.ts:62-73 | one file in its transaction: committed and past it after four statements that succeed, or rolled back and on the way to the unlock |
| `Migrations.Database.Prepare` | services/api/src/db/migrate.ts:41-53 | the table is made and the applied set read, with nothing else changed |
| `Migrations.Database.ApplyEach` | services/api/src/db/migrate.ts:55-74 | the loop goes through the missing files in list order, four statements each, and ends as success exactly when none throws |
| `Migrations.Database.ApplyFiles` | services/api/src/db/migrate.ts:39-74 | the try block still waits for the lock or ends at the unlock, as success exactly when nothing threw; undisturbed it waits exactly when the lock is taken |
| `Migrations.Database.Try` | services/api/src/db/migrate.ts:37-87 | the try block and the unlock, whose own failure is swallowed and only leaves the lock held |
| `Migrations.Database.RunMigrations` | services/api/src/db/migrate.ts:32-88 | with any actions of other instances before each of its statements, the procedure is part of a run of the machine, and for a list without repetition it throws only if a statement throws or the session ends; on a normal return all its files are applied, and it keeps the lock exactly when its unlock failed on a session that lives on; undisturbed on a free lock it returns if and only if no statement before the unlock throws, and then the missing files have been committed in list order, nothing else has, and the lock is free unless the unlock threw; on a taken lock it waits |
| `Migrations.TracksOnlyOwnFiles` | services/api/src/db/migrate.ts:56-73 | undisturbed, an instance removes nothing from schema_migrations and adds only files of its list |
| `Migrations.TrackingGrows` | services/api/src/db/migrate.ts:56-73 | in every run schema_migrations only grows |
| `ToolLoop.DeliverCallback` | services/agentbox/app/chat.py:1099-1188 | a thinking callback is posted once, a terminal one again once after an exception, and never after an answer |
| `ToolLoop.ExecuteTools` | services/agentbox/app/chat.py:987-1061 | one tool message for each call, in order, after the messages so far |
| `ToolLoop.RunToolLoop` | services/agentbox/app/chat.py:776-1096 | event by event: request j carries what was said before it and answered turns; after it the loop goes on exactly when the response asks for tools with that finish reason and neither time nor iterations are used up; the callbacks carry the content of the response, marked with the right note only when it was cut short, the names of the tools, the very failure, or after the last iteration the last content or the fixed text, with the model and the tokens so far, and are posted as often as their answers ask; the result and the final conversation match |
| `ToolLoop.FinalConcludes` | services/agentbox/app/chat.py:842-969 | what the specified trace ends with delivers the content or names the failure, for each kind of response |
| `ToolLoop.NamesAreListed` | services/agentbox/app/chat.py:1063-1066 | the progress text lists the tool names in order, separated by commas |
| `ToolLoop.OneTerminalCallback` | services/agentbox/app/chat.py:776-1096 | for every behaviour of model, tools and clock: at most max_iterations requests, exactly one terminal callback, and it comes last |
| `ToolLoop.CallbacksReportSums` | services/agentbox/app/chat.py:942-975 | every callback reports the token sums over the responses with choices received before it |
| `ToolLoop.ToolCallsAnswered` | services/agentbox/app/chat.py:987-1061 | in every request to the model, all earlier tool calls have been answered, each once and in order |
| `ToolLoop.MarkedIffCutShort` | services/agentbox/app/chat.py:758-773 | content is marked, after its own text, exactly when the finish reason says it was cut short |
| `DockerLog.StripDockerHeader` | services/api/src/routes/agents.ts:3214-3233 | the offset loop ends on every buffer and returns the entries of the specification |
| `DockerLog.HeaderRoundTrip` | services/api/src/routes/agents.ts:3223-3230 | the header of a frame is its stream byte, three zeros and the length with the highest byte first; reading it gives the length, and the slices the payload and the rest |
| `DockerLog.PayloadsAre` | services/api/src/routes/agents.ts:3229-3230 | each payload that holds more than white space gives one entry, its text without what trails it |
| `DockerLog.StripFrames` | services/api/src/routes/agents.ts:3214-3233 | frames with non-empty payloads come back as their trimmed payloads before whatever follows them |
| `DockerLog.StripRecoversPayloads` | services/api/src/routes/agents.ts:3214-3233 | for every list of such frames with the last one cut anywhere, all payloads before it come back and the cut one affects one last entry only |
| `DockerLog.StripExactIffNoEmptyPayload` | services/api/src/routes/agents.ts:3214-3233 | for every decoding under which a frame header in front makes the trimmed text longer, exactly the trimmed payloads come back if and only if no frame has an empty payload |
| `DockerLog.SingleByteExactIff` | services/api/src/routes/agents.ts:3214-3233 | the same in every single-byte encoding, for any stream bytes |
| `DockerLog.SingleByteLengthens` | services/api/src/routes/agents.ts:3214-3233 | single-byte encodings meet the hypothesis on decoding |
| `Csv.OneField` | services/api/src/routes/agents.ts:2864-2870 | an escaped field is read back exactly, whatever follows it |
| `Csv.OneRow` | services/api/src/routes/agents.ts:2871-2873 | a row of escaped fields is read back exactly |
| `Csv.CsvRoundTrip` | services/api/src/routes/agents.ts:2862-2875 | an RFC 4180 section 2 reader with LF record ends recovers every field of every table |
| `Csv.CsvInjective` | services/api/src/routes/agents.ts:2862-2875 | no two tables of strings are written alike |
| `Csv.HeadersArePlain` | services/api/src/routes/agents.ts:2863-2863 | the column names, joined without escaping, need none |
| `Csv.PlainIff` | services/api/src/routes/agents.ts:2864-2870 | a field is written as it is exactly when it has no comma, no quote and no line feed |
| `Csv.ExportReadsBack` | services/api/src/routes/agents.ts:2862-2875 | the whole export reads back as its header line and its rows, also when there are none |
| `FollowStream.Follower.constructor` | services/api/src/routes/agents.ts:2613-2632 | a stream starts with nothing held, counted or sent |
| `FollowStream.FrameOfIff` | services/api/src/routes/agents.ts:2656-2662 | what goes out for a line is the line without its outer white space, exactly when that is not empty and is JSON |
| `FollowStream.Utf8LengthIs` | services/api/src/routes/agents.ts:2634-2641 | the length counted for a held line is that of its UTF-8 form by section 3 of RFC 3629 |
| `FollowStream.Follower.Emit` | services/api/src/routes/agents.ts:2656-2662 | one frame for each non-blank JSON line, in order |
| `FollowStream.Follower.OnData` | services/api/src/routes/agents.ts:2633-2663 | the handler has exactly the effect of one data step, including the abort before anything of the chunk is sent, and none once the response is closed |
| `FollowStream.Follower.OnEnd` | services/api/src/routes/agents.ts:2665-2672 | the unterminated last line goes out if it is JSON and the stream was not aborted |
| `FollowStream.DataStep` | services/api/src/routes/agents.ts:2633-2663 | one chunk keeps: held text is the partial line, it is counted as its length and the drift, finished lines have been sent; or aborts with the counted length over the limit |
| `FollowStream.WholeCharactersDoNotDrift` | services/api/src/routes/agents.ts:2634-2641 | while no cut falls inside a character, what is counted is the held line's length |
| `FollowStream.FollowEmitsEveryLine` | services/api/src/routes/agents.ts:2613-2673 | for every chunking and whatever the decoder makes of cut characters: the stream aborts exactly at the first chunk that leaves the held line, as counted, over the limit, and otherwise each non-blank JSON line goes out once and in order; pendingBytes is the held line's length for whole characters, and exceeds it by the drift otherwise |
| `TerminalLog.TerminalLogger.NextSeq` | services/agentbox/app/terminal_log.py:45-47 | numbers follow each other |
| `TerminalLog.TerminalLogger.Reset` | services/agentbox/app/terminal_log.py:52-57 | an empty log, counting from the start |
| `TerminalLog.TerminalLogger.WriteOutput` | services/agentbox/app/terminal_log.py:125-140 | flushing adds one event that decodes to the buffer |
| `TerminalLog.TerminalLogger.OnChunk` | services/agentbox/app/terminal_log.py:113-140 | an event is written exactly on a newline, at 8192 bytes or 200 ms after the last flush, and then holds all bytes so far; otherwise they all stay in the buffer and nothing else changes |
| `TerminalLog.TerminalLogger.ExecuteAndLog` | services/agentbox/app/terminal_log.py:59-171 | for any chunks and clock the log is start, outputs, exit, numbered 1 to n; the outputs decode to the pieces that end with a newline, at 8192 bytes or 200 ms after the piece before, and to what is left, so all PTY bytes in order; an exception of the generator gives exit code -1 |
| `TerminalLog.StreamEvents` | services/agentbox/app/server.py:81-112 | the backfill skips up to the cursor, the live tail skips nothing, and the stream ends with the exit event met while tailing |
| `TerminalLog.AfterDropsPrefix` | services/agentbox/app/server.py:81-95 | on a numbered log, skipping by cursor drops exactly that many first events |
| `TerminalLog.ResumeExactIff` | services/agentbox/app/server.py:66-112 | a reader receives exactly the events after its cursor if and only if the cursor had been written by then, or nothing was written after |
| `TerminalLog.ReconnectSeesEverythingOnce` | services/agentbox/app/server.py:66-112 | cut off after k events and resumed there, a client has the whole log once |
| `UsageGaps.UsageLog.constructor` | services/ai/app/usage_gaps.py:40-40 | a new process has nothing pending |
| `UsageGaps.UsageLog.RecordFailedWrite` | services/ai/app/usage_gaps.py:43-58 | opens a gap or extends the pending one, keeping its first time |
| `UsageGaps.UsageLog.FlushPendingGap` | services/ai/app/usage_gaps.py:71-98 | the pending gap is recorded and cleared; or stays pending after an exception, which is swallowed, or a cancellation, which is not, whether or not it reached the table |
| `UsageGaps.UsageLog.LogUsageRow` | services/ai/app/usage.py:49-56 | one call writes a row and flushes, or records the failure and raises, or is cancelled and only raises, wherever the statement had got to; rows, gaps and the pending gap afterwards are stated case by case |
| `UsageGaps.FailedCallsAreAccountedFor` | services/ai/app/usage_gaps.py:43-98 | for every fault pattern each gap describes a group of failed calls exactly; a gap recorded while it stays pending describes the beginning of the next group, and the other groups, in order, are all failed calls, each once |
| `UsageGaps.EveryCallLeavesItsMark` | services/ai/app/usage.py:49-56 | calls + those counted twice + misses recorded again = rows + recorded misses + pending misses + calls that vanished in a cancellation |
| `UsageGaps.CallsAreConservedIff` | services/ai/app/usage_gaps.py:43-98 | calls made = rows written + misses recorded + misses pending, exactly when as many calls vanished as were counted twice or recorded again; always when nothing is cancelled and a statement that raises has had no effect |
| `UsageGaps.GapsAreOrderedIff` | services/ai/app/usage_gaps.py:43-98 | under a clock that does not go back, gap intervals follow each other in time exactly when no gap with two failure times was recorded while it stayed pending |
| `UsageGaps.GapRecordedTwice` | services/ai/app/usage_gaps.py:80-98 | an input under which four calls account for six and the recorded intervals overlap |
| `BoundedRead.Collector.constructor` | services/api/src/helpers/bounded-read.ts:39-51 | a new collector holds nothing and has not settled |
| `BoundedRead.Collector.SettleWith` | services/api/src/helpers/bounded-read.ts:48-52 | only the first settlement takes effect |
| `BoundedRead.Collector.OnData` | services/api/src/helpers/bounded-read.ts:54-66 | holds the chunk, or hangs up, drops everything and settles as too large |
| `BoundedRead.Collector.OnError` | services/api/src/helpers/bounded-read.ts:68-70 | settles with the error unless settled |
| `BoundedRead.Collector.OnEnd` | services/api/src/helpers/bounded-read.ts:71-72 | settles with the data held unless settled |
| `BoundedRead.NeverHoldsTooMuch` | services/api/src/helpers/bounded-read.ts:39-73 | for every event sequence at most maxBytes are held: all data seen, or nothing once the total has passed the limit |
| `BoundedRead.SettlesByFirstEvent` | services/api/src/helpers/bounded-read.ts:39-73 | the promise settles at most once and to what the first settling event alone says: too large, the error, or exactly the data before it |
| `Chunker.LastIndexOf` | services/discord-bot/src/index.ts:76-76 | the last newline at or before a position, or -1 |
| `Chunker.Cut` | services/discord-bot/src/index.ts:75-79 | cuts at the last newline up to the limit if it is in the upper half, else at the limit, and drops only white space |
| `Chunker.OnlyTheLimitSplits` | services/discord-bot/src/index.ts:76-77 | a cut falls inside a surrogate pair exactly when the limit does and the upper half of the window has no newline |
| `Chunker.PairAtLimitIsSplit` | services/discord-bot/src/index.ts:67-83 | a text without lone surrogates that is cut inside a pair |
| `Chunker.ChunkMessage` | services/discord-bot/src/index.ts:67-83 | ends on every text of UTF-16 code units; chunks woven with white-space gaps are the text, none over 2000 units or empty, each in its place cut at the last newline within 2000 units or after 2000 when none comes after the first 1000, or the whole rest when that is short enough; their units other than white space are those of the text in order, and no chunk has half a pair exactly when no cut falls inside one |
| `Chunker.ChunksKeepTheInk` | services/discord-bot/src/index.ts:67-83 | any chunks that weave into a text with white-space gaps carry all its other characters in order |
| `Text.LinesAppend` | services/api/src/routes/agents.ts:2636-2637 | splitting more text into lines only changes the last, unfinished line |
| `Text.TrimIff` | services/api/src/routes/agents.ts:2657-2657 | trimming leaves the text without the white space around it, and nothing else |
| `Text.LinesJoin` | services/api/src/routes/agents.ts:2636-2637 | joining the lines gives the text back, and no line has a line break in it |

## Left out

- JWT signatures, key fetching, provider keys, encryption and every call to another service: network and cryptography; decoded claims and responses are inputs.
- `retry_after`, `resets_at`, latency and cost figures and message texts of refusals: values with no effect on later decisions.
- The malformed shapes of a provider's JSON beyond those in `SseUsage.Json` and `ToolLoop.Response`; an exception there leaves the modelled code.
- Byte order marks, and what a decoder makes of a character cut by a chunk boundary: text is what the decoder delivers.
- Interleavings inside `cleanup_expired` and inside `flush_pending_gap`, and the restart of a process with a pending usage gap, which is lost by design.
- Migrations whose SQL itself ends the transaction or takes advisory locks.
- Sockets, PTYs, tmux, heartbeats, the wait for the log file, file truncation while a reader holds the file, and lines read half-written.
- Polling of inference rows for the live stream, event emission, role checks and the remaining routes: string plumbing, or easy.
- Service.ModelRouter.LogStream: the row is written in the step that ends the stream; the time a stream takes is the clock's.
- DockerLog.StripExactIffNoEmptyPayload: is proved for UTF-8 under the hypothesis named there, as decoding is abstract; the other direction, in StripRecoversPayloads, holds for any decoding.
- TerminalLog.StreamEvents: covers a client that stays until the log it is given has been read; a later command's log is another call.
- Sse.TeeParsesWholeText: asks that no cut separates a CR from its LF; for the payloads, which are all that is read from an event, SseCuts.CutsKeepThePayloadsIff gives the exact condition, and for the raw text of events and tail there is only CutsKeepTheTextIff.
- SseCuts.CapturedUsageIsStandard: is one direction; two deviations in one stream can cancel out in the counts.
- Csv.CsvInjective: asks for rows with at least one field, as the export's have; a row of none is written like a row of one empty field.
