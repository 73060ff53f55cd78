# Verified model of the MasterFabric backend

The project models, in Dafny, the parts of the MasterFabric backend in which several requests share
state, and proves what holds in every interleaving of them.

* **Refresh tokens** (`Tokens`, `Rotation`, `Invariant`, `Origins`, `Lineage`, `SingleUse`, `Conservation`,
  `PasswordChange`, `PasswordChangeLimits`, `Resurrection`, `Accelerator`, `AcceleratorLimits`,
  `IamOutcomes`, `TokenStores`, `IamUseCases`).
  Login, refresh, logout and change-password are threads with a program counter over the
  `refresh_tokens` table, the accounts and the Redis blacklist; one statement that reaches a store or
  the clock is one atomic step. Every write may be acknowledged, applied although an error is reported
  (`Lost`), or refused (`Failed`), so the errors the code drops are covered. An action that is not
  possible in a state leaves it unchanged, and `Exec` runs over all finite action sequences. This is
  the rotation of section 10.4 of RFC 6749.
* **Rate limiter** (`RateLimit`). The atomic script over counters that expire on their own.
* **Inference events and scores** (`LlmStore`, `LlmInvariant`, `CounterShadow`, `RecordingLimits`,
  `LlmOutcomes`, `LlmTables`, `LlmUseCases`). Both recording requests as threads over the three tables and the Prometheus counters.
* **Monitoring** (`Aggregates`, `Reports`, `ReportLaws`, `WindowLaws`, `ReportColumns`, `MonitoringShadow`,
  `MonitoringRepository`, `MonitoringCache`, `CacheOutcomes`, `CachedMonitoring`). The three SQL queries as functions of
  the tables, with `PERCENTILE_CONT` as in section 10.9 of ISO/IEC 9075-2:2003, and the TTL cache in
  front of them under concurrent fills and hits.
* **Paging** (`Pagination`, `EventPages`, `ListEvents`) and **permissions** (`Rbac`).

The state machines (`Rotation`, `LlmStore`, `MonitoringCache`) are functions; the repositories, use
cases, limiter, resolver and cache are classes that update their fields. Each use case method is proved
to be a run of its state machine: before every statement the other requests may perform any actions
(`Yield`), and the resulting state is `Exec` of the recorded trace (`IsRun`). What is proved of all runs therefore
holds of the code with its loops, branches and early returns. Each use case is also proved against the list of its
cases (`RefreshOutcome`, `LoginOutcome`, `LogoutOutcome`, `ChangeOutcome`, `EventOutcome`, `ScoreOutcome`,
`ReportOutcome`): which answer it gives and which columns each of its statements writes, as a function of the tables
that statement met and of how it fared, under any interference and without naming a step of the state machine. From
these cases follow exactly when an undisturbed request succeeds and what it then leaves. Fields named `links`, `heirs`, `eventLog`,
`scoreLog` and `produced` are history: no statement of the program reads them, and they exist so that the
theorems can say which insert was a consequence of what.

`Collections` holds options, write outcomes and facts about finite sets.
`dafny verify dfyconfig.toml` checks the project.

## Results that differ from what the code or its comments suggest

* The blacklist does not always give the table's rejection reason. Its lifetime counts from the write,
  not from the clock reading it was computed with, so an entry can outlive its token; the reason differs
  exactly then (`Accelerator.SameReasonUnlessExpired`, with a run in
  `AcceleratorLimits.LateMarkGivesOtherReason`). A blacklist write leaves the reasons agreeing for good if and
  only if it is not applied later than its clock reading with lifetime left
  (`Accelerator.MarkKeepsReasonsExactly`).
* A logout drops the error of its table write. From then on the blacklist accepts what the table accepts,
  however the run continues, if and only if that write was not refused while the row was unrevoked and the
  token had time left (`Accelerator.LogoutKeepsBlacklistExactly`, with a run in
  `AcceleratorLimits.UnwrittenLogoutDisagrees`).
* change_password.go:47 speaks of forcing a new login on all devices. That holds if and only if the
  revoke-all catches no refresh of the user in flight and no login that compared an older password
  (`PasswordChange.PasswordChangeLogsOut`, with a run in `PasswordChangeLimits.LoginSurvivesChange`).
* The most that the rate limiter can allow in an interval is known exactly, for every limit, window and
  interval (`RateLimit.SlidingBound` and `RateLimit.SlidingBoundIsAttained`). In k windows' length of time it
  is at most (k + 1) * limit - 1, one fewer than (k + 1) * limit, and exactly that for k below the window in
  milliseconds (`RateLimit.KWindowsBound`, `RateLimit.KWindowsExactly`).
* The Prometheus counters agree with the tables at quiescent points if and only if no insert of value was
  applied but reported as failed (`CounterShadow.CountersAgree`), and once one was, they differ at every later
  quiescent point (`CounterShadow.NeverAgreeAgain`, with a run in `RecordingLimits.LostInsertIsNeverCounted`).
* Pages partition a listing, whatever order the database chooses for each of them, if and only if no two
  events created at the same instant lie on either side of a page break
  (`EventPages.PagesPartitionExactly`); distinct creation times are sufficient.
* The comments in rbac.go:19-23 and role.go:13-14 describe `*`, `org:*`, `*:read` and an exact match
  otherwise. The code grants less: `*:read` does not grant `user:read`. It also grants more: any trailing star
  is a prefix match, so `or*` grants `org:read`. Code and comments agree on every wanted permission if and only
  if the pattern is neither `*:` followed by something nor ends in a star after another character than a colon
  (`Rbac.DocumentedExactly`).
* monitoring_repository.go:25 says that empty filter values mean all time. An absent end is a clock reading
  taken before the queries, and the window excludes its end, so the report covers all events if and only if
  every one was created before that reading (`MonitoringShadow.AllTimeExactly`, over runs in
  `MonitoringShadow.AllTimeInRun`). Missed are an event of that very instant
  (`RecordingLimits.AllTimeReportIsEmpty`) and one created and inserted between the reading and the queries
  (`RecordingLimits.LaterEventIsMissed`).

## Model

| member | source | states |
|---|---|---|
| Tokens.RefreshToken.RemainingLifetime | internal/domain/iam/model/refresh_token.go:22-32 | Never negative, and reaches exactly to the expiry of a token that is not expired: the deadline that "no resurrection" needs |
| Tokens.UnusedRaw | internal/infrastructure/postgres/migrations/00003_refresh_tokens.sql:5-12 | However many hashes are in use, another raw token has an unused one, so the freshness assumed of the generator can always be met |
| Invariant.EffectOf | internal/application/iam/usecase/refresh.go:47-121 | A statement of any of the four requests leaves the stores alone, inserts one row, only sets `revoked_at`, writes one blacklist entry, or updates an account; nothing else |
| Invariant.NextKeeps | internal/application/iam/usecase/refresh.go:88-108 | Every atomic step of every request keeps the invariant, which counts requests stopped between the compare-and-set and the insert, and only grows the table (revocation is monotone) |
| Invariant.ExecKeeps | internal/infrastructure/postgres/iam/refresh_token_repository.go:28-78 | The same over every finite interleaving |
| Lineage.OneSuccessor | internal/application/iam/usecase/refresh.go:89-108 | No two rows name the same predecessor: a token is rotated at most once |
| Lineage.OneTokenPerChain | internal/infrastructure/postgres/iam/refresh_token_repository.go:54-67 | A chain has, together, at most one unrevoked row or one pending successor |
| Lineage.Descent | internal/application/iam/usecase/refresh.go:98-108 | Every row is reached from a root by rotations, each link of which is a row and its only heir |
| Lineage.LinearLineage | internal/application/iam/usecase/refresh.go:88-108 | In every reachable state: one successor per row, at most one live row or pending successor per chain, and every row lies in a chain of its own user rooted at a login |
| Origins.NewRow | internal/application/iam/usecase/login.go:79-95 | A row appears only through the insert of a login that checked the password, or of a refresh that holds the compare-and-set, and with that request's user |
| SingleUse.OneRefreshPerToken | internal/application/iam/usecase/refresh.go:88-120 | In every interleaving, of all refreshes that ever present the same token at most one is issued a new one |
| Conservation.ChainsAreAccountedFor | internal/application/iam/usecase/refresh.go:88-108 | In every state of the invariant, a user's login rows number the live tips plus the rotations in flight plus the chains ended for good |
| Conservation.ChainsConserved | internal/application/iam/usecase/login.go:85-95 | The conservation equation in every reachable state, refreshes that fail midway included |
| Conservation.NoActionLosesAChain | internal/infrastructure/postgres/iam/refresh_token_repository.go:54-78 | No step removes a chain or revives an ended one; only the insert of a login adds one, and it adds it live |
| Conservation.EndedForGood | internal/application/iam/usecase/refresh.go:89-108 | A chain with neither live row nor pending successor never has one again, over every continuation |
| PasswordChange.PasswordChangeCutsChains | internal/application/iam/usecase/change_password.go:43-50 | After the revoke-all, every unrevoked row of the user ever seen lies in a segment of later rows that starts with a login or with the successor of a rotation caught in flight |
| PasswordChange.StragglerInserts | internal/application/iam/usecase/refresh.go:89-108 | A request caught in flight can indeed still put a live row into the table |
| PasswordChange.PasswordChangeLogsOut | internal/application/iam/usecase/change_password.go:47-50 | Every later live row comes from a login that checked a password at least as new as the change, if and only if the revoke-all caught no refresh of the user in flight and no login that compared an older password |
| PasswordChangeLimits.LoginSurvivesChange | internal/application/iam/usecase/login.go:61-95 | A concrete run in which a login that compared the old password is caught in flight, so that the change does not log everyone out |
| Resurrection.NoResurrection | internal/application/iam/usecase/refresh.go:50-76 | Once a row is revoked or its hash blacklisted to its expiry, no refresh of that token that starts later rotates it or is issued a token, at any later time |
| Resurrection.LogoutEndsToken | internal/application/iam/usecase/logout.go:34-39 | Either write of a logout, alone and with its error dropped, puts the token into that state |
| Resurrection.RevokedTokenIsNeverRotated | internal/application/iam/usecase/logout.go:34-35 | After the table write of a logout no request at all, earlier ones included, inserts a successor of that row |
| Accelerator.RefreshReachesVerdict | internal/application/iam/usecase/refresh.go:48-76 | The statements of a refresh, run without interruption, reach exactly the verdict the fast path is defined by, with its rejection reason |
| Accelerator.BlacklistAcceptsAlike | internal/application/iam/usecase/refresh.go:50-58 | In every run in which no logout's table write is refused while there is something to end, a listed hash is that of a revoked row, refresh accepts exactly what the table alone accepts, and what the blacklist rejects stays rejected |
| Accelerator.LogoutKeepsBlacklistExactly | internal/application/iam/usecase/logout.go:34-39 | That condition is exact: the table write of a logout leaves the blacklist accepting alike for good if and only if it is not refused while the row is unrevoked and the token has time left |
| Accelerator.SameReasonUnlessExpired | internal/application/iam/usecase/refresh.go:68-76 | In such runs the reasons agree if and only if no visible entry names an expired token |
| Accelerator.BlacklistIsFaithful | internal/application/iam/usecase/refresh.go:92 | When no blacklist write is applied later than its clock reading with lifetime left, the answer is the table's, reason included |
| Accelerator.MarkKeepsReasonsExactly | internal/infrastructure/redis/token_blacklist.go:28-39 | That condition is exact: a blacklist write of a refresh or a logout leaves the reasons agreeing for good if and only if it is not late with lifetime left |
| AcceleratorLimits.UnwrittenLogoutDisagrees | internal/application/iam/usecase/logout.go:34-39 | A concrete run with a refused table write in which the blacklist rejects what the table accepts |
| AcceleratorLimits.LateMarkGivesOtherReason | internal/infrastructure/redis/token_blacklist.go:28-39 | A concrete run in which a late blacklist write outlives the token and the reasons differ |
| TokenStores.RefreshTokenRepository.Create | internal/infrastructure/postgres/iam/refresh_token_repository.go:28-37 | Adds exactly the row unless the write is refused; success is reported only for an acknowledged write |
| TokenStores.RefreshTokenRepository.FindByHash | internal/infrastructure/postgres/iam/refresh_token_repository.go:39-52 | Some row with the hash, not-found exactly if there is none, an internal error exactly if the query fails; the index is not unique |
| TokenStores.RefreshTokenRepository.Revoke | internal/infrastructure/postgres/iam/refresh_token_repository.go:54-67 | Compare-and-set: succeeds only on an unrevoked row, not-found exactly when no row is affected, and the row is revoked afterwards in either case |
| TokenStores.RefreshTokenRepository.RevokeAllForUser | internal/infrastructure/postgres/iam/refresh_token_repository.go:69-78 | No row of the user is unrevoked afterwards; rows of others and earlier revocations stay as they are, and a row that changes changes only `revoked_at`, to the instant of the statement |
| TokenStores.TokenBlacklist.Revoke | internal/infrastructure/redis/token_blacklist.go:28-39 | A positive lifetime makes the hash visible through its deadline and not after; otherwise nothing happens, and no other hash is touched |
| TokenStores.TokenBlacklist.IsRevoked | internal/infrastructure/redis/token_blacklist.go:43-52 | Fails closed: without an answer from Redis an error, otherwise whether the hash is present and not past its deadline |
| TokenStores.UserRepository.UpdatePassword | internal/infrastructure/postgres/iam/user_repository.go:91-102 | Installs the hash of a known user, not-found exactly for an unknown one |
| IamUseCases.Service.ExecuteRefresh | internal/application/iam/usecase/refresh.go:47-121 | With any interference, a run of the model with the answer and the writes of its cases; an issued token is the recorded heir of a revoked row with the presented hash, created between arrival and answer and expiring the configured time later; undisturbed, it is issued iff a live row that is not blacklisted is presented and every statement is served, and then that row is revoked and the new one in the table |
| IamUseCases.Service.RevokeOld | internal/application/iam/usecase/refresh.go:89-91 | The exact answer at the compare-and-set: an acknowledged write on an unrevoked row goes on, one on a revoked or missing row is not-found, any other is an internal error |
| IamOutcomes.RefreshAlone | internal/application/iam/usecase/refresh.go:88-120 | From the cases alone: an undisturbed refresh succeeds iff it presents a live row that is not blacklisted and every statement is served; then exactly that row is revoked and exactly the new row added, with every column stated |
| IamUseCases.Service.ExecuteLogin | internal/application/iam/usecase/login.go:47-111 | With any interference, a run of the model with the answer and the writes of its cases; a token is issued iff the account the first statement meets has this password and every statement is served, and its unrevoked row was created between arrival and answer and expires the configured time later |
| IamOutcomes.LoginExactly | internal/application/iam/usecase/login.go:50-95 | A login succeeds iff it knows the password met first and every statement is served, whatever the others do |
| IamOutcomes.LoginAlone | internal/application/iam/usecase/login.go:84-95 | An undisturbed successful login adds exactly one row, expiring the configured time after the clock reading, and touches nothing else |
| IamUseCases.Service.ExecuteLogout | internal/application/iam/usecase/logout.go:22-42 | With any interference, a run of the model with the answer and the writes of its cases: both writes are attempted whatever becomes of the other, and success is reported unless the lookup itself fails |
| IamOutcomes.LogoutAlone | internal/application/iam/usecase/logout.go:25-41 | An undisturbed logout of a known token leaves its row revoked and its hash blacklisted exactly to its expiry, each iff its write is applied and there was something to do |
| IamUseCases.Service.ExecuteChangePassword | internal/application/iam/usecase/change_password.go:24-53 | With any interference, a run of the model; the answer is exactly the one that the account met first and the fate of the statements decide, success iff all checks pass and both writes are acknowledged; the new hash is installed and at success no row of the user is unrevoked at that instant |
| RateLimit.RateLimiter.Script | internal/shared/middleware/rate_limit.go:21-40 | The counters and replies of the script; the reset time is the caller's clock plus the remaining lifetime in whole seconds, hence with equal clocks the deadline |
| RateLimit.RateLimiter.Allow | internal/shared/middleware/rate_limit.go:48-64 | Allowed iff the count is within the limit, with the script's remaining and reset time; without a connection or on a script error everything is allowed and nothing counted |
| RateLimit.EveryCounterHasDeadline | internal/shared/middleware/rate_limit.go:26-29 | Over every sequence of calls, whatever their limits and windows, every stored counter has a deadline |
| RateLimit.SlidingBound | internal/shared/middleware/rate_limit.go:21-40 | In any half-open interval the allowed requests of a key are at most MostAllowed, for every timed sequence of calls on all keys |
| RateLimit.KWindowsBound | internal/shared/middleware/rate_limit.go:21-40 | In k windows' length of time at most (k + 1) * limit requests, and (k + 1) * limit - 1 for a positive limit |
| RateLimit.SlidingBoundIsAttained | internal/shared/middleware/rate_limit.go:26-29 | For every limit, window and interval some timed sequence of calls is allowed exactly MostAllowed requests, so the bound cannot be improved |
| RateLimit.KWindowsExactly | internal/shared/middleware/rate_limit.go:26-29 | For a positive limit and k below the window in milliseconds that most is (k + 1) * limit - 1 |
| RateLimit.WindowCounts | internal/shared/middleware/rate_limit.go:26-29 | Inside a window the count is the number of calls of that key and the deadline does not move, whatever other keys do |
| RateLimit.NthCallOfWindow | internal/shared/middleware/rate_limit.go:31-34 | The n-th call of a window is allowed iff n <= limit, with max(0, limit - n) remaining |
| RateLimit.DeniedUntilDeadline | internal/shared/middleware/rate_limit.go:63 | After a denial every call of the key is denied until the deadline |
| LlmStore.Find | internal/infrastructure/postgres/llm/event_repository.go:36-42 | A row with the id, or none if there is none |
| LlmInvariant.AppendOnly | internal/application/llm/usecase/record_event.go:53-56 | Over every run sessions never change and events and scores are only appended, so the checks made before an insert stay valid |
| LlmInvariant.NextKeeps | internal/application/llm/usecase/record_score.go:36-75 | Every step keeps the tables consistent, and every row is counted, lost, or held by the request that inserted it |
| LlmInvariant.ExecKeeps | internal/application/llm/usecase/record_event.go:29-65 | The same over every interleaving |
| LlmInvariant.StoreWellFormed | internal/application/llm/usecase/record_score.go:37-59 | In every reachable state events belong to the owner of their session, every score refers to an event whose session its author owns, an event has at most one score, flagged scores have composite 0 and all marks lie in [0, 1] |
| CounterShadow.NextShadows | internal/application/llm/usecase/record_event.go:58-65 | Every step keeps every counter equal to the fold over the rows whose increment has been performed |
| CounterShadow.CountersNeverAhead | internal/application/llm/usecase/record_event.go:53-65 | In every reachable state, quiescent or not, no counter exceeds the fold over the tables |
| CounterShadow.CountersShadowTables | internal/application/llm/usecase/record_score.go:73-78 | At quiescent points each series plus what was lost is the fold over the stored rows |
| CounterShadow.CountersAgree | internal/application/llm/usecase/record_event.go:53-65 | All series agree with the tables if and only if no event, and no score worth anything, was inserted by a write reported as failed |
| CounterShadow.HonestRunsAgree | internal/application/llm/usecase/record_event.go:53-56 | They agree after every run in which no answer of the database went missing |
| CounterShadow.LostForGood | internal/application/llm/usecase/record_event.go:53-56 | No statement of any continuation makes up for a lost insert |
| CounterShadow.NeverAgreeAgain | internal/application/llm/usecase/record_event.go:53-65 | Once something of value is lost, some series differs from the tables at every quiescent point of every continuation |
| RecordingLimits.LostInsertIsNeverCounted | internal/infrastructure/postgres/llm/event_repository.go:27-34 | A concrete run with one lost answer in which a counter stays behind the table, at once and at every later quiescent point |
| LlmTables.SessionRepository.FindByID | internal/infrastructure/postgres/llm/session_repository.go:36-49 | The session, not-found exactly if there is none, otherwise an internal error |
| LlmTables.EventRepository.Create | internal/infrastructure/postgres/llm/event_repository.go:27-34 | Appends exactly the event unless the write is refused |
| LlmTables.EventRepository.FindByID | internal/infrastructure/postgres/llm/event_repository.go:36-42 | An event of the table with that id; not-found exactly if no event has it, unavailable exactly if the query fails |
| LlmTables.EventRepository.ListBySession | internal/infrastructure/postgres/llm/event_repository.go:44-72 | The requested page of the order the database chose, and the number of all events of the session if the page is not empty, else 0 |
| LlmTables.ScoreRepository.Create | internal/infrastructure/postgres/llm/score_repository.go:28-41 | Appends the score, or reports a conflict exactly when the event has one already |
| LlmTables.ScoreRepository.FindByEventID | internal/infrastructure/postgres/llm/score_repository.go:44-57 | A score of the event; not-found exactly if it has none, an internal error exactly if the query fails |
| LlmTables.Telemetry.Increase | internal/shared/telemetry/prometheus.go:21-32 | One series grows by the amount and no other moves |
| LlmUseCases.Service.OpenSession | internal/application/llm/usecase/record_score.go:37-44 | An unreadable, a missing and a foreign session are told apart, each exactly; forbidden means a foreign owner |
| LlmUseCases.Service.FindEvent | internal/application/llm/usecase/record_score.go:46-53 | Passes exactly the events of the session; every failure reads as not found |
| LlmUseCases.Service.SaveScore | internal/application/llm/usecase/record_score.go:55-75 | The stored score holds the request's marks column by column with the server's composite; conflict exactly for an acknowledged write on a scored event |
| LlmUseCases.Service.ExecuteRecordEvent | internal/application/llm/usecase/record_event.go:29-87 | With any interference, a run of the model with the answer and the writes of its cases: the row column by column as requested, then one event of its status, the tokens in and the tokens out added to their series; a recorded event is in the table as requested and has been counted to the end |
| LlmOutcomes.EventAlone | internal/application/llm/usecase/record_event.go:39-65 | An undisturbed request is recorded iff it is the owner's and its insert is acknowledged; then the table has exactly that row more, the "in" series has grown by the tokens in, the "out" series by the tokens out, the event series of the status by one, and no other series has moved |
| LlmUseCases.Service.ExecuteRecordScore | internal/application/llm/usecase/record_score.go:36-90 | With any interference, a run of the model with the answer and the writes of its cases: the row column by column with the server's composite, then that composite added to the score series |
| LlmOutcomes.ScoreAlone | internal/application/llm/usecase/record_score.go:36-78 | An undisturbed request is recorded iff it is the owner's, the event is in the session and unscored and the insert is acknowledged; then the table has exactly that row more and the score series has grown by its composite |
| Aggregates.PercentileBetween | internal/infrastructure/postgres/llm/monitoring_repository.go:49-50 | An interpolated percentile lies between the two ordered rows around its rank |
| Aggregates.PercentileInterpolates | internal/infrastructure/postgres/llm/monitoring_repository.go:49-50 | The definition of the standard: with the values in order, whichever way they were put in order, and p * (N - 1) = k + t, the percentile is row k weighted by 1 - t plus row k + 1 weighted by t |
| Aggregates.PercentileRises | internal/infrastructure/postgres/llm/monitoring_repository.go:49-50 | A larger fraction gives a larger percentile |
| Aggregates.PercentileIgnoresOrder | internal/infrastructure/postgres/llm/monitoring_repository.go:49-50 | Percentiles depend on the multiset of latencies only |
| Aggregates.PercentileWithin | internal/infrastructure/postgres/llm/monitoring_repository.go:49-50 | A percentile lies between any bounds of the values, in particular the least and the greatest |
| Aggregates.PercentileOrder | internal/infrastructure/postgres/llm/monitoring_repository.go:49-51 | 0 <= p-th <= q-th percentile <= maximum for non-negative latencies and p <= q; all 0 without rows |
| Aggregates.PercentileSplitsRows | internal/infrastructure/postgres/llm/monitoring_repository.go:49-50 | At least floor(rank) + 1 rows are at most the percentile and at least N - ceil(rank) are at least it |
| Aggregates.GroupsCover | internal/infrastructure/postgres/llm/monitoring_repository.go:112 | Groups of distinct keys covering all rows add up to the number of rows |
| ReportLaws.JoinsAgree | internal/infrastructure/postgres/llm/monitoring_repository.go:54-59 | For any tables, the scored rows of the event-driven left join are, as a multiset, the rows of the score-driven join (lines 83-88) |
| ReportLaws.OneRowPerEvent | internal/infrastructure/postgres/migrations/00007_decision_scores.sql:4 | With one score per event the left join yields each event exactly once, in order |
| ReportLaws.JoinNeverMultiplies | internal/infrastructure/postgres/llm/monitoring_repository.go:43-60 | The event total is the number of events in the window, and the scored events number the rows of the score averages |
| ReportLaws.SafetyDiscount | internal/infrastructure/postgres/llm/monitoring_repository.go:77-89 | Average composite plus safety-flag rate is at most 1, with every average in [0, 1], for every window and filter, empty ones included |
| ReportLaws.RatesAreShares | internal/infrastructure/postgres/llm/monitoring_repository.go:81-82 | The safety-flag and accept rates are the shares of flagged and of accepted rows among the scored ones |
| ReportLaws.FilterIsGroup | internal/infrastructure/postgres/llm/monitoring_repository.go:57-59 | The rows of a report filtered to a model are that model's group |
| ReportLaws.FilteredAgreesWithGroup | internal/infrastructure/postgres/llm/monitoring_repository.go:77-89 | Filtered event count, median and average composite equal the group's, though the average comes from the other join |
| ReportLaws.FilteredAgreesWithBreakdown | internal/infrastructure/postgres/llm/monitoring_repository.go:101-114 | For every legal order of the groups: the filtered report is the model's row, or zeros if it has none |
| ReportLaws.BreakdownAddsUp | internal/infrastructure/postgres/llm/monitoring_repository.go:101-114 | The group counts add up to the unfiltered event total |
| ReportLaws.BreakdownExists | internal/infrastructure/postgres/llm/monitoring_repository.go:112-113 | For any tables some answer satisfies the grouping and the order |
| WindowLaws.WindowsCompose | internal/infrastructure/postgres/llm/monitoring_repository.go:24-60 | Over adjacent windows events, scored events, errors and tokens add up, the maximum is the larger one, and distinct sessions lie between the larger part and the sum |
| WindowLaws.AveragesCompose | internal/infrastructure/postgres/llm/monitoring_repository.go:77-88 | Over adjacent windows each score average is the mean of the two weighted by their scored events |
| WindowLaws.LatenciesAreOrdered | internal/infrastructure/postgres/llm/monitoring_repository.go:49-51 | In every report over well-formed tables 0 <= p50 <= p95 <= max |
| ReportColumns.LatenciesInterpolate | internal/infrastructure/postgres/llm/monitoring_repository.go:49-50 | p50 and p95 of a report are the interpolated values at ranks (N - 1) / 2 and 0.95 * (N - 1) of its latencies in order |
| ReportColumns.SelectedEvents | internal/infrastructure/postgres/llm/monitoring_repository.go:54-59 | Over well-formed tables the rows of the first query are the events in scope, in order and once each |
| ReportColumns.SelectedScores | internal/infrastructure/postgres/llm/monitoring_repository.go:83-88 | Over well-formed tables the rows of the second query are the scores of events in scope, in order and once each |
| ReportColumns.ReportCountsEvents | internal/infrastructure/postgres/llm/monitoring_repository.go:43-60 | Without any join: sessions, events, errors, percentiles, maximum and token sums of every report are the aggregates of the columns of the events in scope, and the scored events number the scores in scope |
| ReportColumns.ReportAveragesScores | internal/infrastructure/postgres/llm/monitoring_repository.go:77-89 | Without any join: both averages and both rates of every report are those of the columns of the scores in scope |
| MonitoringShadow.EveryReport | internal/application/llm/usecase/record_score.go:55-75 | In every reachable state of the recording requests every report obeys the safety discount, the latency order and the event count |
| MonitoringShadow.AllTimeCounts | internal/infrastructure/postgres/llm/monitoring_repository.go:37-60 | An unfiltered report without an end counts the events created before its clock reading, whatever the tables hold when the queries run |
| MonitoringShadow.AllTimeExactly | internal/infrastructure/postgres/llm/monitoring_repository.go:24-60 | For any clock reading, such a report covers all events of the tables if and only if every one was created before it |
| MonitoringShadow.AllTimeInRun | internal/infrastructure/postgres/llm/monitoring_repository.go:37-61 | The same with the clock read in any reachable state and the queries run after any continuation |
| MonitoringShadow.AllTimeAtOnce | internal/infrastructure/postgres/llm/monitoring_repository.go:37-61 | With the queries at the instant of the reading exactly the events of that instant are missed |
| RecordingLimits.AllTimeReportIsEmpty | internal/infrastructure/postgres/llm/monitoring_repository.go:58 | A concrete run in which the only event is recorded and reported at the same clock reading and the report counts none |
| RecordingLimits.LaterEventIsMissed | internal/infrastructure/postgres/llm/monitoring_repository.go:38-61 | A concrete run in which the only event is recorded between the clock reading and the queries and the report counts none |
| MonitoringShadow.ErrorTotalCounts | internal/infrastructure/postgres/llm/monitoring_repository.go:48 | The unfiltered error total is the number of failed events in the window |
| MonitoringShadow.ErrorTotalMatchesCounters | internal/application/llm/usecase/record_event.go:58-63 | At quiescent points the error total over all events is the sum of the error series, plus what was lost |
| MonitoringShadow.TokenTotalsCount | internal/infrastructure/postgres/llm/monitoring_repository.go:52-53 | The token totals over all events are the tokens of all events, input and output each, whatever the join |
| MonitoringShadow.TokenTotalsMatchCounters | internal/application/llm/usecase/record_event.go:64-65 | At quiescent points they are the sums of the token series per direction, plus what was lost |
| MonitoringRepository.Repository.GetReport | internal/infrastructure/postgres/llm/monitoring_repository.go:26-135 | The report of the three queries over the window whose end defaults to the clock; any failing query gives no report |
| MonitoringCache.CacheNextKeeps | internal/infrastructure/postgres/llm/monitoring_cache.go:35-65 | Every step keeps entries dated no later than their lifetime after a production for the same filter |
| MonitoringCache.BoundedStaleness | internal/infrastructure/postgres/llm/monitoring_cache.go:37-48 | In every interleaving a hit at reading t returns a report the inner repository produced for that filter with both its clock reading and its queries later than t - ttl |
| MonitoringCache.HitsMissOnlyRecentRows | internal/infrastructure/postgres/llm/monitoring_cache.go:50-64 | The tables that report saw contain every event and score recorded up to t - ttl, and none that is not recorded |
| CachedMonitoring.CachedMonitoringRepository.LookUp | internal/infrastructure/postgres/llm/monitoring_cache.go:39-48 | A hit is an entry whose expiry lies after the reading |
| CachedMonitoring.CachedMonitoringRepository.StoreEntry | internal/infrastructure/postgres/llm/monitoring_cache.go:55-64 | The entry is overwritten and dated by the reading taken before the queries |
| CachedMonitoring.CachedMonitoringRepository.GetReport | internal/infrastructure/postgres/llm/monitoring_cache.go:35-65 | With any interference, a run of the cache model with the answer and the writes of its cases: an entry expiring after the first reading is served, otherwise the tables are asked and the entry written expires the lifetime after that reading |
| CacheOutcomes.AskAlone | internal/infrastructure/postgres/llm/monitoring_cache.go:35-65 | An undisturbed request is answered from an unexpired entry, otherwise with the report of the tables as they are, or with none iff they cannot be asked |
| CacheOutcomes.ServedForItsLifetime | internal/infrastructure/postgres/llm/monitoring_cache.go:39-64 | A report is served again, whatever was recorded since, to a request less than the lifetime after the first; a later request gets the report of the tables then |
| EventPages.PageCount | internal/application/llm/usecase/list_events.go:34 | The least number of pages that holds all events |
| EventPages.ListingIsUnique | internal/infrastructure/postgres/llm/event_repository.go:49-50 | With distinct creation times only one order satisfies the query |
| EventPages.PagesPartition | internal/infrastructure/postgres/llm/event_repository.go:44-52 | Without a tie across a page break, pages 1 to ceil(total / limit), each in whatever order the database used, put together are all events of the session, newest first |
| EventPages.PagesPartitionExactly | internal/infrastructure/postgres/llm/event_repository.go:44-52 | For pairwise different events, every choice of orders partitions if and only if no two events of one instant lie on either side of a page break |
| EventPages.TieBreaksPages | internal/infrastructure/postgres/llm/event_repository.go:50-51 | For every listing with a tie across a page break, orders that the query may choose under which the pages are no listing |
| EventPages.PagesOfDistinctTimes | internal/application/llm/usecase/list_events.go:34-58 | With distinct creation times the pages are exactly the one listing there is |
| EventPages.NonEmptyPages | internal/application/llm/usecase/list_events.go:34-35 | Exactly those pages are not empty, and all but the last are full |
| EventPages.EqualTimesMayRepeat | internal/infrastructure/postgres/llm/event_repository.go:50-51 | The smallest case: two events of one instant, one to a page, may show one twice and the other never |
| ListEvents.ListEventsUseCase.Execute | internal/application/llm/usecase/list_events.go:24-59 | The page for the owner only, each row of the session shown field by field and newest first, with the true total on a page that is not empty and 0 on an empty one |
| ListEvents.PageOfSession | internal/infrastructure/postgres/llm/event_repository.go:44-52 | Whatever order the database chose, a page holds events of the session only, newest first |
| Pagination.PrefixIsSmaller | internal/shared/pagination/pagination.go:40-43 | Stopping at the bound is sound: a numeral is at least each of its prefixes |
| Pagination.AtoiSafe | internal/shared/pagination/pagination.go:34-46 | The decimal value of all-digit strings up to 10^8, else 0, for strings of any length; no intermediate value exceeds 10^9 + 9 |
| Pagination.Parse | internal/shared/pagination/pagination.go:12-32 | Page in 1..10^6; with a default in 1..100, limit in 1..100 and offset below 10^8 |
| Pagination.InRangeRoundTrips | internal/shared/pagination/pagination.go:16-25 | Every page and limit in range, written as a numeral, is read back |
| Rbac.HasPermissionMeans | internal/domain/iam/model/role.go:15-28 | A role grants iff one of its permissions does |
| Rbac.PermissionsMatchMeans | internal/domain/iam/model/role.go:31-38 | Roles grant iff a permission of one of them does |
| Rbac.MatchPermissionMeans | internal/shared/middleware/rbac.go:51-61 | The middleware's search grants iff some listed permission does |
| Rbac.FirstOccurrencesMeans | internal/infrastructure/postgres/iam/permission_resolver.go:56-65 | Deduplication keeps exactly the members, once each, in the order of first occurrence |
| Rbac.LoadedIsTable | internal/infrastructure/postgres/iam/permission_resolver.go:29-41 | With unique role names the loaded cache is the table, no more and no less |
| Rbac.PermissionResolver.Refresh | internal/infrastructure/postgres/iam/permission_resolver.go:23-49 | Swaps in the whole table or, on any failure, leaves the cache as it was |
| Rbac.PermissionResolver.PermissionsForRoles | internal/infrastructure/postgres/iam/permission_resolver.go:53-67 | The nested loops compute the deduplicated union, unknown roles contributing nothing |
| Rbac.FastPathIsDefinition | internal/shared/middleware/rbac.go:32-45 | For every cache, role list and permission, the middleware's match over the union equals the domain's role-by-role match |
| Rbac.RequirePermission | internal/shared/middleware/rbac.go:24-48 | Lets a request through exactly if it carries roles and the domain's definition grants |
| Rbac.WildcardLanguage | internal/shared/middleware/rbac.go:64-74 | A trailing star grants exactly what begins with the rest, except after nothing or a lone colon |
| Rbac.SuffixWildcardIsNotImplemented | internal/shared/middleware/rbac.go:22 | `*:read` does not grant `user:read`, against the comment |
| Rbac.BareWildcardIsGranted | internal/shared/middleware/rbac.go:64-73 | `or*` grants `org:read`, against the comment's exact match |
| Rbac.DocumentedExactly | internal/domain/iam/model/role.go:13-14 | With the comments' language defined by itself, code and comments agree on every wanted permission iff the pattern is neither `*:` followed by something nor ends in a star after another character than a colon |

## Left out

* HTTP handlers, routing, middleware plumbing, configuration and logging: I/O or one-branch logic.
* JWT signing, bcrypt, SHA-256, `crypto/rand` and uuid: foreign code. Password comparison is an arbitrary
  predicate, hashing is injective, ids and raw tokens are fresh; signing and generating may fail.
* The loops that collect role names for the access token, `last_seen_at`, listing of sessions and tokens,
  e-mail normalisation and lookup, and the remaining read-only endpoints: easy members only.
* Clock skew: all requests, the database and Redis read one clock that does not run backwards; the rate
  limiter's `resetAt` alone is modelled with two clocks. Saturation of `time.Duration` is not modelled.
* Redis losing keys before their deadline. This includes the cut of lifetimes to whole milliseconds, by which
  an entry may vanish up to a millisecond before its token expires: `Resurrection.NoResurrection` by the
  blacklist entry alone assumes that it does not. Also deletion of users, sessions or tokens by hand.
* The limiter's fail-open paths are outside the bound: without Redis, or when the script fails, `Allow` lets
  every request through, as its contract says.
* Event bus publications: nothing subscribes to them.
* A restart of the process, which sets the Prometheus counters back to zero, and several processes.
* The three queries of one report read one snapshot; percentiles are reals, not the integers they are
  scanned into, and averages and counters are reals, not floats.
* Encoding of cached reports is faithful and cache keys are injective, so a hit never fails to decode.
* Foreign key violations at the inserts of events and scores: no row they refer to is ever deleted.
* Role JSON is decoded or reported as unreadable; its syntax is not modelled.
