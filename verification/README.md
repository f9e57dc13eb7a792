# Verified model of signal-engine's stateful core

This project models the parts of signal-engine whose guarantees are otherwise stated only in
comments and SQL, and proves those guarantees for every input, every run or every interleaving:

- **Job queue** (`JobTable`, `JobRetries`, `JobLease`, `JobTimedLease`, `JobBudget`). The jobs
  table is a map of rows. `JobTable` has the table and the worker as classes; `RunOnce` is proved
  against a sort. `JobLease` is the protocol of many workers, as steps over rows and executions in
  flight, with arbitrary clocks, delays and crashes; `JobTimedLease` adds one nondecreasing clock,
  and `JobBudget` says which deployments keep the retry budget.
- **Security tokens** (`AuthTokens`, `AuthInvariant`, `AuthCommit`, `AuthSafety`, `AuthProgress`, `AuthService`,
  `AuthSerial`).
  Transactions run one statement at a time under READ COMMITTED: a statement sees the committed
  rows and its own writes, written rows stay locked until the transaction ends, and a transaction
  may abort at any point. `AuthService` has the repository statements and the services as methods
  of a class, and `AuthSerial` shows that they are runs of the protocol.
- **Passwords and sessions** (`AuthSessions`). The same kind of state machine for logins, whose
  statements run on their own, against resets and the end of all sessions: the compare-and-set of
  the rehash, and which sessions a revocation ends.
- **Observations and events** (`EventStore`, `EventAgreement`, `EventRepository`, `Stockholm`,
  `StockholmIngest`, `RefreshQueue`, `StockholmHistory`). The content-deduplicated observation
  table, the conditional event upsert, the Stockholm ingester and its queue of open cases.
- **One event per case** (`Arbetsmiljoverket`, `DiarySearch`, `OneEventPerCase`, `DiaryCounts`,
  `DiaryIngest`, `DiaryHistory`). Two page loops over the web diary, the minimum over a bounded and
  fail-closed scan of a case, what any sequence of runs leaves in the tables, and what its
  statistics say of them.
- **Listing and cursors** (`Listing`, `Cursor`), **rate limiter** (`Limiter`), **password hash**
  (`PasswordHash`, `Base64`), **organisation number** (`OrganisationNumber`).
- Shared: `Wrappers`, `Keys` (sort keys), `Totals` (sums and sizes), `Text` (string functions),
  `PublicEvent`.

Code that changes state step by step (SQL statements, ingesters, the limiter, the auth services)
is a class whose methods are proved against functions on the tables; the properties are lemmas
about those functions. Counters that are moved together are a multiset of what was counted. Ids
and times are integers, a content hash is taken as injective (a payload stands for its hash), key
derivation and the diary source are function parameters, and random values are arguments.

What holds only under a condition is stated with the exact condition:

- Mutual exclusion of executions, the retry budget, the harmlessness of a lost lease and, without
  crashes, `attempts <= max_attempts` each hold in every timed run exactly when executions end
  within the lock timeout (`JobTimedLease.MutualExclusionIff`, `JobBudget.RetryBudgetIff`,
  `JobBudget.LostLeaseIff`, `JobBudget.CrashFreeBudgetIff`). The bound counts from the worker's
  reading of its clock, which may be well before the claim takes effect. `config.go:374` enforces
  `JobTimeout <= LockTimeout`, but the outcome statement gets up to ten seconds more after the
  handler (`worker.go:200`), so the bound is a parameter of the model.
- Beyond that timeout the finish guard does not help between the loops of one worker: it compares
  worker ids, which they share (`worker.go:49`, `worker.go:93`).
  `JobLease.SiblingLoopsBreakTheBudget` is a run that shows what happens.
- A printed hash is read back exactly if its parameters are not degenerate
  (`PasswordHash.DecodeOfFormat`).
- A cursor is read back exactly if its year has four digits (`Cursor.CursorRoundTrip`).
- A run over a diary window reads all of it exactly if it fits in the page limit; of a longer one
  it reads the first pages and reports success (`DiarySearch.WindowReadsTheListing`).
- Two documents of one case both become events exactly if they tie in date and running number
  (`OneEventPerCase.OnePerCase`).
- The refresh queue follows the last seen states, at every cut-off, exactly if the row that the
  query keeps of each case is the last seen state, or both are closed, or both are open with one
  time (`RefreshQueue.QueueFollowsLastSeenIff`). Strictly increasing transaction times are enough
  (`RefreshQueue.TimelyVisitsPass`); a clock that stands still or steps back between two runs is
  not (`RefreshQueue.ClockStepsBack`).
- Token safety needs the user row lock to cover both retiring and inserting
  (`AuthSafety.WithoutTheUserLock`).
- Throughout a run every live session belongs to the current password of its user exactly if every
  login opens its session before the password it read is replaced, and no session of the user that
  was opened since the revoke statement of a reset is live when the reset commits
  (`AuthSessions.SessionsCurrentIff`).
  `AuthSessions.LateLogin` is a run that fails. A hash is taken to accept the one password it was
  made of.
- `2R - 1` allowed requests in one window are attained exactly if the window is at least two units
  of time or `R` is 1 (`Limiter.SlidingWindowBoundIsMetIff`).

Where comments and code differ, the model follows the code:

- `ratelimit.go:63` says memory is bounded by the keys seen in the last window. It is bounded by
  those of the last two (`Limiter.StoredKeysAreRecent`); a trace reaches that age with a key not
  seen in the last window (`Limiter.BucketsOutliveTheirWindow`), and the comment's bound holds in
  every trace exactly if the window is one unit of time (`Limiter.MemoryBoundIff`).
- `organisation.go:18` says that white space is ignored. Exactly the blank, the dash and the plus
  are (`OrganisationNumber.IgnoredIff`); a tab is not (`OrganisationNumber.TabIsRefused`).
- `stockholm/ingest.go:102` and `arbetsmiljoverket/ingest.go:102` say that the statistics are valid
  when some records could not be persisted. What was counted inside a transaction stays counted
  when it is rolled back. For the Stockholm run the statistics describe the tables exactly if
  every case was persisted (`StockholmIngest.StatisticsAreValidIff`); for the diary the counters of
  events always do, and the one of observations exactly if no document was recorded and then
  refused (`DiaryHistory.StatisticsAddUp`, `DiaryCounts.LostIff`).
- `attempts` may exceed `max_attempts`, since the reclaim does not look at it. It stays within
  `max_attempts` plus the reclaims (`JobLease.RetryBudget`), every such number is attained
  (`JobBudget.BudgetIsAttained`), and without crashes it stays within `max_attempts` under the
  condition above.

`dafny verify dfyconfig.toml` checks the whole project.

## Model

| member | source | states |
|---|---|---|
| JobTable.BackoffClosedForm | internal/platform/jobs/worker.go:67-79 | For every integer attempt the delay is min(2^max(attempt, 1), 600) seconds; the clamp at 20 never shows and the shifted value fits 64 bits |
| JobTable.SettledNotRunnable | internal/platform/jobs/worker.go:170-182 | A job claimed and finished at one instant is not runnable again at that instant, whatever its handler did |
| JobTable.Table.Enqueue | internal/platform/jobs/jobs.go:90-118 | Which arguments are refused, and the whole pending row, with defaults and without lock, error or completion, that is inserted otherwise |
| JobTable.Table.Claim | internal/platform/jobs/worker.go:170-182 | Claims the first row by (run_at, id) that is pending and due or running under a lock older than the timeout; nothing is claimed exactly if there is none; the claimed row is running, locked by the worker since now, one attempt on, and otherwise as it was |
| JobTable.Table.Exec | internal/platform/jobs/worker.go:253-269 | An outcome statement changes one row if the worker holds its lock and none otherwise |
| JobTable.Worker.Finish | internal/platform/jobs/worker.go:276-320 | A lost lease changes no row and no counter; otherwise exactly one counter moves and the row is succeeded exactly after a success, failed, with the error, exactly after a permanent error or one at the last attempt the worker claimed, and otherwise pending with the error after the delay; a row that ended has no payload |
| JobTable.Worker.ProcessOne | internal/platform/jobs/worker.go:186-212 | Claims the first runnable job, runs it and records its outcome; false exactly if none was runnable |
| JobTable.Worker.RunOnce | internal/platform/jobs/worker.go:156-168 | Against a frozen clock it terminates, returns the number of initially due jobs, runs each once in (run_at, id) order and leaves all other rows alone; a job of a type that nobody handles is failed at whatever attempt, any other has its handler's outcome |
| Keys.SortedIsAscending | internal/platform/jobs/worker.go:178-179 | What an ORDER BY of two columns returns: exactly the elements, ascending |
| Keys.AscendingIsSorted | internal/platform/jobs/worker.go:178-179 | The ordered result is unique |
| JobRetries.AlwaysFailing | internal/platform/jobs/worker.go:276-307 | An always failing job that keeps its lease runs exactly max_attempts times and its scheduled delays total 2^m - 2 seconds for m <= 10 and 1022 + 600 (m - 10) above |
| JobLease.QueueConservation | internal/platform/jobs/worker.go:170-182 | For any concurrency, clocks and crashes: attempts equal recorded outcomes plus reclaims plus one if running, lock fields are set iff running, payload cleared and completed_at set iff terminal, and the workers' counters with the unacknowledged outcomes add up to the recorded ones |
| JobLease.TerminalForever | internal/platform/jobs/worker.go:253-269 | A terminal row never changes again in any run |
| JobLease.EndedForGood | internal/platform/jobs/worker.go:276-307 | A recorded success, permanent error or error of the last attempt ends the job, at whatever attempt, and it stays as recorded in every continuation of the run |
| JobLease.ClaimsTheNext | internal/platform/jobs/worker.go:170-182 | In any state any worker with any clock may claim: it gets the first due row by (run_at, id) that no other claim has locked, or none if none is left, and no other row or execution changes |
| JobLease.FinishesAnyTime | internal/platform/jobs/worker.go:186-212 | Any execution may finish after any delay with any result, or vanish; its outcome is recorded in its row exactly if the row is still locked by its worker, and no other row changes |
| JobLease.LostLeaseIsHarmless | internal/platform/jobs/worker.go:271-320 | Finishing an execution whose job was reclaimed changes no row and no counter, in every run in which no two loops of one worker hold one job |
| JobLease.RetryBudget | internal/platform/jobs/worker.go:289-307 | A pending row has attempts < max_attempts, retries never exceed max_attempts - 1, attempts <= max_attempts + reclaims |
| JobLease.SiblingLoopsBreakTheBudget | internal/platform/jobs/worker.go:93-98 | A run in which two loops of one worker hold one job leaves an exhausted job pending: the one-lease hypothesis is needed |
| JobTimedLease.TimedRunsAreExclusive | internal/platform/jobs/worker.go:170-232 | If executions end within a bound after their clock reading that fits the lock timeout, however late the claim takes effect, every job has at most one execution and it holds the row's lock and exact attempts |
| JobTimedLease.OverlapHappens | internal/platform/config/config.go:374 | If the bound exceeds the lock timeout, some run has two executions of a job |
| JobTimedLease.MutualExclusionIff | internal/platform/config/config.go:374 | Mutual exclusion in every timed run holds exactly if the bound fits the lock timeout |
| JobBudget.RetryBudgetIff | internal/platform/jobs/worker.go:276-307 | The retry budget is kept in every timed run, however many loops share a worker id, exactly if the bound fits the lock timeout |
| JobBudget.LostLeaseIff | internal/platform/jobs/worker.go:271-320 | Finishing any execution records its outcome or, after a reclaim, changes nothing, in every timed run exactly if the bound fits the lock timeout |
| JobBudget.CrashFreeBudgetIff | internal/platform/jobs/worker.go:170-182 | Without crashes attempts stay within max_attempts in every timed run exactly if the bound fits the lock timeout |
| JobBudget.BudgetIsAttained | internal/platform/jobs/worker.go:170-182 | For every max_attempts and every number of reclaims some one-lease run attempts the job max_attempts + reclaims times |
| AuthCommit.KeepsLastIsLive | internal/auth/auth.repository.go:326-359 | Committing an issue leaves the new token as the only live one of its slot |
| AuthCommit.KeepsOutboxExact | internal/auth/signup.service.go:61-70 | Committing keeps one mail per token and one welcome per verified user |
| AuthCommit.KeepsSpaced | internal/auth/verify_email.service.go:45-63 | Committing keeps the verification tokens of a user a cool-down apart |
| AuthCommit.CommitKeepsDb | internal/auth/auth.repository.go:326-378 | A finished transaction commits to well-kept rows |
| AuthCommit.CommitKeepsIssuing | internal/auth/auth.repository.go:326-341 | What an issuing transaction relies on under the user lock survives every other commit |
| AuthCommit.CommitKeepsConsuming | internal/auth/auth.repository.go:361-378 | What a consuming transaction relies on under the token lock survives every other commit |
| AuthSafety.RunKeeps | internal/auth/auth.repository.go:326-378 | The invariant holds in every interleaving of issuing, consuming and aborting transactions |
| AuthSafety.OneLiveToken | internal/auth/auth.repository.go:326-359 | Each user has at most one committed unconsumed token per kind and it is the last one issued in commit order |
| AuthSafety.SingleUse | internal/auth/auth.repository.go:361-378 | A token is spent or retired by at most one committed transaction, never both, and was so exactly if it is consumed |
| AuthSafety.SpentBeforeExpiry | internal/auth/auth.repository.go:361-378 | No token is ever spent at or after its expiry |
| AuthSafety.UsedStaysUsed | internal/auth/auth.repository.go:361-378 | A spent or retired token never changes again |
| AuthSafety.OutboxIsExact | internal/auth/verify_email.service.go:12-39 | The committed mails are one per committed token, of its kind, and one welcome per verified user |
| AuthSafety.VerifiedMeansSpent | internal/auth/verify_email.service.go:12-39 | A user is verified exactly if one of their verification tokens was spent |
| AuthSafety.WithoutTheUserLock | internal/auth/auth.repository.go:326-330 | Counterexample to dropping the lock: two reset requests, each fine alone, that run side by side without it leave two live tokens |
| AuthSafety.SpanBound | internal/auth/verify_email.service.go:45-63 | Times a cool-down apart put at most L / cooldown + 1 of them in a closed span of length L |
| AuthSafety.ResendsAreThrottled | internal/auth/verify_email.service.go:45-63 | Under concurrent resends any two verification tokens of a user are a cool-down apart, and the span bound holds |
| AuthProgress.IssuingProceeds | internal/auth/auth.repository.go:326-359 | In every reachable state a transaction that issues a token can take its next step, except that it waits for the row of its user and for the rows it retires, and ends for an unknown or verified user or within the cool-down |
| AuthProgress.ConsumingStarts | internal/auth/auth.repository.go:361-378 | A transaction can consume a token exactly if it exists, is of the kind, unconsumed and not expired, and no other open transaction has written its row |
| AuthProgress.ConsumingProceeds | internal/auth/verify_email.service.go:16-39 | After that it can take every step, waiting for nothing but the row of the user it changes |
| AuthService.IssuedKeeps | internal/auth/auth.repository.go:326-359 | What resend and reset requests do to the rows is a finished transaction of the protocol and keeps the rows in order |
| AuthService.SignupKeeps | internal/auth/signup.service.go:25-59 | The same for signup, with the user row |
| AuthService.VerifyingKeeps | internal/auth/verify_email.service.go:16-39 | The same for verification |
| AuthService.ResettingKeeps | internal/auth/reset_password.service.go:33-55 | The same for a password reset |
| AuthService.ConsumableAfterIssue | internal/auth/auth.repository.go:326-378 | A token just issued is accepted for its purpose at every time before its expiry and at none from it on, the outstanding ones of its slot no longer are, and nothing changes for any other token |
| AuthService.ConsumableAfterSpending | internal/auth/auth.repository.go:361-378 | A spent token is not accepted again, and nothing changes for any other token |
| AuthService.ConsumableIff | internal/auth/auth.repository.go:361-378 | The service accepts exactly the tokens that the protocol lets a transaction consume |
| AuthSerial.LeadsRuns | internal/platform/database/tx.go:19-48 | What a service's statements lead to from a reachable state is reachable |
| AuthSerial.SignupIsARun | internal/auth/signup.service.go:25-70 | With no other transaction open, the statements of a signup are possible and lead to exactly the rows the service leaves |
| AuthSerial.ForgotIsARun | internal/auth/reset_password.service.go:13-29 | The same for a reset request, retiring an outstanding token if there is one |
| AuthSerial.ResendIsARun | internal/auth/verify_email.service.go:45-63 | The same for a resend, with time passing between the check and the token |
| AuthSerial.VerifyIsARun | internal/auth/verify_email.service.go:16-39 | The same for a verification, the first one and later ones |
| AuthSerial.ResetIsARun | internal/auth/reset_password.service.go:33-55 | The same for a password reset |
| AuthSessions.StoredHashIsCurrent | internal/auth/auth.repository.go:117-138 | In every interleaving of logins, resets, logouts and revocations each stored hash is of the password last given to its user: a login never brings back a replaced one |
| AuthSessions.LoginsProceed | internal/auth/login.service.go:19-56 | In every reachable state a login succeeds exactly with the password of the stored hash, may open a live session at any later time, and replaces the hash exactly if it is still the one it verified, waiting for nothing but a reset that holds the row |
| AuthSessions.RevocationsProceed | internal/auth/auth.repository.go:222-253 | A logout ends its session unless another transaction has written the row; a reset and the end of all sessions wait for nothing but rows that others hold |
| AuthSessions.WithoutTheComparison | internal/auth/login.service.go:40-49 | Counterexample to dropping the comparison: a run after which the plain update of a late login stores a hash of the replaced password, while the conditional one leaves the new hash |
| AuthSessions.RevokedForever | internal/auth/auth.repository.go:222-236 | A revoked session is never changed again in any run |
| AuthSessions.RevocationIsComplete | internal/auth/auth.repository.go:238-253 | Whatever runs in between, every session its user had when the revoke statement began is revoked from the commit on |
| AuthSessions.SessionsCurrentIff | internal/auth/login.service.go:19-56 | Throughout a run all live sessions belong to current passwords if and only if each login opens its session before the password it read is replaced and each reset commits with every live session of its user seen by its revoke statement |
| AuthSessions.LateLogin | internal/auth/login.service.go:51-54 | A run in which a session opened after a reset, by a login that read the user before it, is live although its password is not current |
| AuthService.Service.CreateToken | internal/auth/auth.repository.go:326-359 | Retires the live tokens of the slot, inserts the new one and enqueues its mail; nothing for an unknown user |
| AuthService.Service.ConsumeToken | internal/auth/auth.repository.go:361-378 | Succeeds exactly for a token of the kind that is unconsumed and expires after now, returns its user and sets only its consumption time |
| AuthService.Service.MarkEmailVerified | internal/auth/auth.repository.go:98-113 | Sets the time of the first verification only and reports whether it did |
| AuthService.Service.UpdatePasswordHash | internal/auth/auth.repository.go:141-150 | Replaces the hash of an existing user and reports whether there was one |
| AuthService.Service.RehashPassword | internal/auth/auth.repository.go:124-138 | Replaces the hash exactly if the user still has the one that was verified, keeps everything else and reports whether it did |
| AuthService.Service.RevokeUserSessions | internal/auth/auth.repository.go:238-253 | The user's live sessions now carry the time, every other session is as it was, no live one of the user is left, and the count is how many there were |
| AuthService.Service.RevokeSession | internal/auth/auth.repository.go:222-236 | One live session now carries the time; an unknown or ended one changes nothing |
| AuthService.Service.LatestVerificationTokenAt | internal/auth/auth.repository.go:301-311 | The latest creation time among the verification tokens of the user, none if there are none; it alone decides whether every one of them is a cool-down old |
| AuthService.Service.Signup | internal/auth/signup.service.go:25-59 | User, account, owner membership, first token with its mail, and session together, or nothing and the error |
| AuthService.Service.Login | internal/auth/login.service.go:19-56 | An unknown user and a wrong password get the same error, a malformed hash its own, and none changes anything; otherwise exactly one new session, and the hash is replaced exactly if it is weak and hashing succeeds |
| AuthService.Service.ResendVerification | internal/auth/verify_email.service.go:45-63 | Which requests are refused and why, within the cool-down exactly if some verification token of the user is younger than it; otherwise a fresh token replaces the outstanding one |
| AuthService.Service.ForgotPassword | internal/auth/reset_password.service.go:13-29 | A fresh reset token for a known user; an unknown one changes nothing |
| AuthService.Service.VerifyEmail | internal/auth/verify_email.service.go:16-39 | Token, verification and first-time welcome together, or nothing |
| AuthService.Service.ResetPassword | internal/auth/reset_password.service.go:33-55 | Token, new password and the end of all live sessions together, or nothing |
| EventStore.CertificatesExact | internal/source/stockholm/ingest.go:178-227 | A mappable case says, for each fingerprint of a failed certificate, exactly the mapping of the first document with it |
| Stockholm.FailedIff | internal/source/stockholm/ingest.go:229-243 | The failed certificates are exactly the incoming documents whose description, in any case and spacing, begins with one of the five kinds of inspection followed by a comma and "ej godkänd" or "ej godkänt" |
| Stockholm.ApprovedIsNotFailed | internal/source/stockholm/ingest.go:229-243 | A document whose description does not say "ej godkän", such as an approved or partly approved one, never is |
| Stockholm.SameEventIff | internal/source/stockholm/ingest.go:245-254 | Two documents have one identifier exactly if they are of one case and agree in timestamp, category and description up to white space |
| Stockholm.EventColumns | internal/source/stockholm/ingest.go:256-280 | Which certificates cannot be mapped, and every column of the event of one that can |
| Text.CollapseIsSentence | internal/source/stockholm/parse.go:236-238 | Collapsing keeps exactly the words of a text, in order, with one blank between them |
| Text.TimestampOf | internal/source/stockholm/parse.go:44 | A timestamp has the date of its first ten characters exactly if its hour, of one or two digits, minute and second are those of a day, with or without a fraction |
| EventAgreement.SaysOnce | internal/source/stockholm/ingest.go:251-280 | A record says one event per identifier, and only identifiers of its own |
| EventAgreement.EventsAgree | internal/publicevent/publicevent.repository.go:162-229 | In every reachable state each event row is what the observation it points to says |
| EventAgreement.ConditionalUpsertRefinesRecomputation | internal/publicevent/publicevent.repository.go:162-229 | From any two states of the tables that agree and differ in write times only, skipping the write when the observation is unchanged gives the same table as always overwriting, up to write times |
| EventAgreement.RerunOnlySeesAgain | internal/publicevent/publicevent.repository.go:46-76 | Re-running on an unchanged single-state source changes only last_observed_at |
| EventRepository.Repository.RecordObservation | internal/publicevent/publicevent.repository.go:46-76 | Refused exactly without a record id; a known state keeps its id and first time and is last seen now, a new one becomes a new row with the fresh id, and no other row changes |
| EventRepository.Repository.UpsertEvent | internal/publicevent/publicevent.repository.go:162-229 | Refused exactly without an identifier, type or date or with half a property; otherwise a new row, the row as it is if its observation is unchanged, or the row overwritten except for its creation time, and the outcome says which |
| StockholmIngest.Ingester.PersistReadings | internal/source/stockholm/ingest.go:190-225 | The loop over the documents performs exactly the derived upserts, counts each document by its kind and each event by its outcome up to where it stops, and stops exactly at a certificate that cannot be mapped or is refused |
| StockholmIngest.Ingester.Persist | internal/source/stockholm/ingest.go:175-227 | The observation of a case and all its events, or nothing; every failed certificate then has its event, a new event is what the first document with its identifier maps to, and no other event is touched; a case that mentions no failure leaves the events as they are; what was counted is reported in both cases |
| StockholmIngest.CaseCountsExact | internal/source/stockholm/ingest.go:190-225 | For a case that can be mapped each failed certificate is counted as such and each other document as excluded, there is one upsert for each identifier, and the certificates beyond those are the duplicates |
| StockholmIngest.NothingFailed | internal/source/stockholm/ingest.go:175-227 | A case without failed certificates can always be mapped, leaves no event, and has every document counted as excluded |
| StockholmIngest.Ingester.FetchAndPersist | internal/source/stockholm/ingest.go:158-173 | A page that is fetched leaves the observation and all events of its case, as a visit at the transaction's time, exactly if the case can be mapped; otherwise both tables are as they were; the counters of pages, cases, failures and documents move by exactly that |
| StockholmIngest.Ingester.ReadAll | internal/source/stockholm/ingest.go:112-156 | Reads every listed case not read before in this run, each once, and stops exactly if a page cannot be fetched; both tables are those of the visits, which are the pages of the cases that can be persisted, and the counters are those of the visits and of what was rolled back |
| StockholmIngest.Ingester.Run | internal/source/stockholm/ingest.go:106-156 | Discovery reads the listed cases in list order, the refresh the head of the queue as of the end of discovery, in queue order, except what discovery read, up to the first page that cannot be fetched; both tables are those of the visits, whose times and ids strictly increase; each error in exactly its case; every counter is that of the two rounds and of what was rolled back |
| StockholmIngest.RunEnds | internal/source/stockholm/ingest.go:106-156 | A bad window comes before a failed search, that before a page that cannot be fetched, and that before a case that cannot be persisted; each exactly when it is the first of these that occurs |
| StockholmIngest.TallyAddsUp | internal/source/stockholm/ingest.go:175-227 | Over any visits every document is counted once, every failed certificate as a duplicate or by the outcome of its upsert, and both tables grow by exactly what is counted as new |
| StockholmIngest.RunClassifies | internal/source/stockholm/ingest.go:175-227 | However a run ends, the failed certificates counted are the duplicates, the stored ones and one for each case that failed |
| StockholmIngest.StatisticsAreValidIff | internal/source/stockholm/ingest.go:102-104 | The counters of a run describe what it left in the tables if and only if every case it read was persisted |
| StockholmHistory.RunExtendsHistory | internal/source/stockholm/ingest.go:112-156 | What a complete run promises is what the fairness result assumes of every run |
| StockholmHistory.QueryFollowsLastSeen | internal/source/stockholm/ingest.go:288-335 | In any sequence of such runs on one clock, from empty tables, the query of each run sees exactly the cases last seen open before its cut-off |
| StockholmHistory.RunsAreFair | internal/source/stockholm/ingest.go:106-156 | In any sequence of runs on one clock that report no error, a case due in one of them with n due cases in front is read by one of the next n / limit runs at the latest |
| StockholmHistory.LogIsRun | internal/source/stockholm/ingest.go:178-227 | What the visits of a run leave in both tables is a run of the event store |
| StockholmHistory.LogAgrees | internal/source/stockholm/ingest.go:175-227 | Every run keeps each event what the observation it points to says |
| StockholmHistory.RerunOnlySeesAgain | internal/source/stockholm/ingest.go:106-111 | A second run over unchanged pages that reads no other case than the first leaves the events as they are and refreshes last_observed_at only |
| RefreshQueue.QueueFollowsLastSeen | internal/source/stockholm/ingest.go:288-335 | If each case was last seen at its strictly latest time, the queue holds exactly the cases last seen open before the cut-off, also after open, closed, open |
| RefreshQueue.QueueIsOrdered | internal/source/stockholm/ingest.go:288-309 | The queue is read from the case seen longest ago on, ties by record number, and no further than the limit |
| RefreshQueue.QueueFollowsLastSeenIff | internal/source/stockholm/ingest.go:288-335 | Without assumptions on times, the queue holds exactly the cases last seen open before every cut-off if and only if each row kept by DISTINCT ON is the last seen state, closed as that is, or open with its time |
| RefreshQueue.AnyVisitsIff | internal/source/stockholm/ingest.go:288-309 | The same after any visits from empty tables, whatever their times |
| RefreshQueue.TimelyVisitsPass | internal/source/stockholm/ingest.go:288-296 | Strictly increasing times are enough |
| RefreshQueue.QueueAdvances | internal/source/stockholm/ingest.go:137-150 | A due case that a run leaves unread keeps its place and has at least a full batch fewer in front |
| RefreshQueue.RefreshIsFair | internal/source/stockholm/ingest.go:137-150 | A due open case with r due cases in front is read again no later than r / limit runs on |
| RefreshQueue.ClockStepsBack | internal/source/stockholm/ingest.go:296-309 | If the clock stands still or steps back between two reads, a case last seen closed can be queued |
| Arbetsmiljoverket.SuffixOfDocumentNumber | internal/source/arbetsmiljoverket/ingest.go:277-285 | The suffix is the number after the last dash, and 0 without a dash or if what follows it is no number |
| Arbetsmiljoverket.NotesReportDrops | internal/source/arbetsmiljoverket/ingest.go:331-380 | A warning is counted exactly if the row has the value, does not say that it is missing, and the event has none |
| Arbetsmiljoverket.EventColumns | internal/source/arbetsmiljoverket/ingest.go:342-380 | Every column of the event of a document, with the canonical organisation number, an eight-digit workplace number and no workplace that is called missing |
| Arbetsmiljoverket.AcceptedIff | internal/source/arbetsmiljoverket/feed.go:127-141 | The recurring-inspection feed accepts exactly documents whose origin is "Inkommande" and whose case title begins with "Återkommande besiktning", in any case and with any white space around |
| DiarySearch.ChronologyIsComplete | internal/source/arbetsmiljoverket/ingest.go:221-264 | The case loop succeeds exactly if every row parses and its pages suffice to show that the listing is complete, and then it has seen every document |
| DiarySearch.WindowReadsTheListing | internal/source/arbetsmiljoverket/ingest.go:132-189 | The window loop reads every row of a listing that fits the page limit and the first pages of a longer one, without an error |
| DiarySearch.WindowPages | internal/source/arbetsmiljoverket/ingest.go:132-189 | It fetches exactly the pages with rows and, without a reported total, one empty page, or as many as it may |
| OneEventPerCase.EarliestIsMinimal | internal/source/arbetsmiljoverket/ingest.go:221-285 | The result is of the earliest date among the document and the rows of its case and, on that date, of the lowest running number; it is the document itself unless a row comes before it |
| OneEventPerCase.SourceOfIsFixed | internal/source/arbetsmiljoverket/document.go:76-86 | Every diary with distinct document numbers, served ten rows to a page with totals, is a fixed source with complete listings |
| OneEventPerCase.EmitsTheEarliest | internal/source/arbetsmiljoverket/ingest.go:132-189 | Against a fixed source a document is persisted exactly if it is accepted and has the earliest date and, on that date, the lowest running number of its whole case, whatever the window |
| OneEventPerCase.FailsClosed | internal/source/arbetsmiljoverket/ingest.go:199-264 | A document's chronology fails exactly if a row does not parse or there are more than 100 rows, or more than 90 without a reported total |
| OneEventPerCase.OnePerCase | internal/source/arbetsmiljoverket/ingest.go:268-285 | Next to one wanted document of a case another accepted one is wanted exactly if the two tie |
| OneEventPerCase.RunsEmitTheEarliest | internal/source/arbetsmiljoverket/ingest.go:111-195 | Any sequence of complete runs leaves exactly the events of the accepted documents in the windows' union of the earliest date and lowest running number in their case |
| OneEventPerCase.RunsAreConfluent | internal/source/arbetsmiljoverket/ingest.go:111-195 | Two sequences of complete runs over the same dates leave the same events, whatever the windows, order and overlaps |
| OneEventPerCase.SelectCounts | internal/source/arbetsmiljoverket/ingest.go:151-180 | A run that is not aborted gives every row one verdict and counts each verdict exactly |
| DiaryIngest.Ingester.EarliestInCase | internal/source/arbetsmiljoverket/ingest.go:199-264 | The page loop returns, from the complete listing of the case from 2015 to the document's date, the document of the earliest date and, on that date, of the lowest running number, or none |
| DiaryIngest.Ingester.Judge | internal/source/arbetsmiljoverket/ingest.go:151-178 | Another type comes before a row that is not accepted, that before a chronology that fails, and that before a document later in its case; exactly the counter of the verdict moves |
| DiaryIngest.Ingester.Persist | internal/source/arbetsmiljoverket/ingest.go:287-329 | The observation and the event of one document, or nothing, for any feed; what is counted is the dropped values, the new state and the outcome |
| DiaryIngest.Ingester.RunFeed | internal/source/arbetsmiljoverket/ingest.go:110-195 | For any feed: persists, in listing order, exactly what the rule selects up to the first failed chronology; each error in exactly its case; every counter is the number of rows with its verdict, and of what persisting the chosen ones counted |
| DiaryIngest.Ingester.Run | internal/source/arbetsmiljoverket/ingest.go:106-109 | The same for the default feed, with the events that feed makes |
| DiaryCounts.FeedCountsAddUp | internal/source/arbetsmiljoverket/ingest.go:287-329 | From any tables the events grow by those counted as inserted, every document persisted has one outcome, and the observations grow by the new states counted if and only if no document is recorded and then refused |
| DiaryCounts.NotesCounted | internal/source/arbetsmiljoverket/ingest.go:287-303 | Each of the two warnings is counted once for each document that it is about, persisted or not |
| DiaryCounts.LostIff | internal/source/arbetsmiljoverket/ingest.go:287-329 | A configured feed records and then refuses exactly a numbered document of the zero date that was not observed before |
| DiaryHistory.ResultsLeaveEventsOf | internal/source/arbetsmiljoverket/ingest.go:106-195 | Whatever a sequence of calls of RunFeed or Run returned, from empty tables, what they promise makes the event table the one that the order-independence results are about |
| DiaryHistory.RunEnds | internal/source/arbetsmiljoverket/ingest.go:118-195 | A feed that is not configured comes before a bad window, that before a chronology that fails, that before a page that cannot be fetched, and that before documents that cannot be persisted |
| DiaryHistory.StatisticsAddUp | internal/source/arbetsmiljoverket/ingest.go:102-104 | However a run ends, the accepted documents are the failures and the outcomes, and the counters of inserted events and new states describe the tables, the latter exactly if no chosen document is lost |
| DiaryHistory.RunsLeaveEventsOf | internal/source/arbetsmiljoverket/ingest.go:111-195 | Runs one after another leave the event table that the order-independence results are about |
| DiaryHistory.StoredIsRun | internal/source/arbetsmiljoverket/ingest.go:287-329 | What runs of a known feed leave in both tables is a run of the event store |
| DiaryHistory.RunsOfKnownFeedsAgree | internal/source/arbetsmiljoverket/feed.go:70-102 | After any runs of either feed, complete or not, each event is what the observed row it points to says |
| Listing.List | internal/publicevent/publicevent.repository.go:283-325 | One row more than the page is fetched, and the page is the first rows past the cursor, 50 by default and at most 100 |
| Listing.FixedTableRows | internal/publicevent/publicevent.repository.go:252-325 | On a fixed table following cursors returns exactly the matching rows, newest first, each once |
| Listing.ListedIff | internal/publicevent/publicevent.repository.go:252-281 | A row is listed exactly if no constraint excludes it: an empty one excludes nothing and both dates are inclusive |
| Listing.NewestFirst | internal/publicevent/publicevent.repository.go:252-281 | Of two listed rows the first has the later date, or the same date and the larger id |
| Listing.FixedTablePages | internal/publicevent/publicevent.repository.go:283-325 | It takes the least number of pages that can hold them, and at least one |
| Listing.SteadyRowListedOnce | internal/publicevent/publicevent.repository.go:266-325 | With writes between pages, a row that stays, keeps matching and keeps its date is returned exactly once |
| Cursor.UuidRoundTrip | internal/publicevent/publicevent.repository.go:329-355 | A printed id is read back |
| Cursor.UuidForms | internal/publicevent/publicevent.repository.go:343-355 | An id is also read after a URN prefix, in braces and as its 32 digits in either case |
| Cursor.DateRoundTrip | internal/publicevent/publicevent.repository.go:329-355 | A printed date is read back exactly if its year has four digits |
| Cursor.DateLayout | internal/publicevent/publicevent.repository.go:329-333 | A date is printed as four digits of the year, two of the month and two of the day, with dashes |
| Cursor.CursorRoundTrip | internal/publicevent/publicevent.repository.go:329-355 | A cursor decodes to the row it was made of exactly if the year has four digits, and is refused otherwise |
| Limiter.CollectorIsInvisible | internal/platform/ratelimit/ratelimit.go:43-75 | The limiter that collects answers every nondecreasing trace like one that never does |
| Limiter.BucketsAreRecent | internal/platform/ratelimit/ratelimit.go:63-75 | After a call at t every stored bucket started at t - 2 windows + 2 or later |
| Limiter.StoredKeysAreRecent | internal/platform/ratelimit/ratelimit.go:63-75 | Every stored key was called in the last two windows |
| Limiter.BucketsOutliveTheirWindow | internal/platform/ratelimit/ratelimit.go:63-75 | Some trace reaches that age, with a key not called in the last window |
| Limiter.MemoryBoundIff | internal/platform/ratelimit/ratelimit.go:63-65 | There are at most as many buckets as keys called in the last window, in every trace, exactly if the window is one unit of time |
| Limiter.SlidingWindowBound | internal/platform/ratelimit/ratelimit.go:43-61 | Every half-open interval of one window holds at most 2R - 1 allowed requests of a key |
| Limiter.SlidingWindowBoundIsSharp | internal/platform/ratelimit/ratelimit.go:43-61 | If the window is at least two units of time some trace reaches 2R - 1 |
| Limiter.SlidingWindowBoundIsMetIff | internal/platform/ratelimit/ratelimit.go:43-61 | Some trace reaches 2R - 1 if and only if the window is at least two units or R is 1 |
| Limiter.RetryAfterIsExact | internal/platform/ratelimit/ratelimit.go:43-61 | After a refusal, calls of the key before the promised instant are refused and the first one from then on is allowed |
| Limiter.RateLimiter.Allow | internal/platform/ratelimit/ratelimit.go:43-61 | The mutable buckets behave as the windows of the specification, collector included |
| Limiter.RateLimiter.Collect | internal/platform/ratelimit/ratelimit.go:63-75 | Drops exactly the expired buckets, at most once per window |
| Base64.RoundTrip | internal/platform/password/password.go:62-66 | Encoded bytes are decoded, and the encoding is free of the format's separator |
| Base64.GroupsAreBits | internal/platform/password/password.go:62-66 | The groups of six are the bits of the bytes from the left, with zeros after the last byte |
| Base64.DecodeIgnoresLineBreaks | internal/platform/password/password.go:111-117 | Line breaks anywhere do not change what is decoded |
| PasswordHash.SplitOfJoined | internal/platform/password/password.go:94-98 | Parts without the separator are the parts of what joins them |
| PasswordHash.ScanOfPrint | internal/platform/password/password.go:99-106 | A printed number is scanned back up to the next character that is no digit |
| PasswordHash.Decode | internal/platform/password/password.go:94-120 | Whatever is decoded fits its widths and is not degenerate |
| PasswordHash.DecodeOfFormat | internal/platform/password/password.go:53-120 | What is printed is read back exactly if it is not degenerate |
| PasswordHash.FormatIsText | internal/platform/password/password.go:53-68 | A hash is printed with its memory after m, its time after t and its threads after p, between name and version and the salt and key |
| PasswordHash.DecodeOfText | internal/platform/password/password.go:94-120 | Any text of that layout is read as the three numbers in those places, exactly if its name is argon2id and its version 19, the numbers fit, nothing is degenerate and salt and key are base64 |
| PasswordHash.DefaultCosts | internal/platform/password/password.go:53-68 | The default parameters are printed as m=19456,t=2,p=1 |
| PasswordHash.HashRoundTrip | internal/platform/password/password.go:53-92 | When hashing refuses, panics or returns a hash, and its text; a hash accepts exactly the passwords with the same derived key if it has 1024 KiB and a salt and is refused otherwise; it needs a rehash exactly if a cost or the key length is below the default or the salt is empty |
| PasswordHash.OwnPasswordIsAccepted | internal/platform/password/password.go:53-79 | A hash that is returned accepts its own password exactly if memory >= 1024 and the salt length is at least 1 |
| OrganisationNumber.CheckLuhn | internal/publicevent/organisation.go:50-63 | The loop accepts exactly the strings whose weighted sum is divisible by ten |
| OrganisationNumber.LuhnOfTen | internal/publicevent/organisation.go:46-63 | Of ten digits the first, third, fifth, seventh and ninth count with the digit sum of their double, the others as they are |
| OrganisationNumber.SubstitutionRejected | internal/publicevent/organisation.go:50-63 | Every single wrong digit is caught, at every length |
| OrganisationNumber.TranspositionRejectedIff | internal/publicevent/organisation.go:50-63 | Every transposition of different neighbours is caught except a 0 with a 9, which never is |
| OrganisationNumber.Normalize | internal/publicevent/organisation.go:19-44 | The rune loop computes the canonical form or the error |
| OrganisationNumber.CanonicalOfDigits | internal/publicevent/organisation.go:19-44 | Ten digits with a valid check digit are their own canonical form, twelve have that of their last ten if they begin with 16, 19 or 20, and no other number of digits is valid |
| OrganisationNumber.CanonicalIsIdempotent | internal/publicevent/organisation.go:19-44 | A result is ten valid digits and its own canonical form |
| OrganisationNumber.SeparatorsDoNotMatter | internal/publicevent/organisation.go:19-44 | A dash, blank or plus anywhere changes nothing, errors included |
| OrganisationNumber.IgnoredIff | internal/publicevent/organisation.go:18-44 | Of all characters that can be added anywhere to a valid number, exactly the dash, the blank and the plus leave it valid and unchanged |
| OrganisationNumber.TabIsRefused | internal/publicevent/organisation.go:18-32 | A valid number followed by a tab is invalid |

## Left out

- JobTable.Worker.RunOnce: handlers do not enqueue, the clock is frozen and no other worker acts, the case in which the loop's result is a function of the table.
- JobTable.Worker.ProcessOne: one worker acts alone, so the outcome is never lost; lost leases are the subject of `JobLease`.
- AuthService.Service.Signup: the user id stands for the email address, a password that is too short or too long is a missing hash, and new ids are arguments that are not yet in use.
- AuthService.Service.ResetPassword: one transaction at a time; concurrency is the subject of `AuthSafety`, for tokens, and of `AuthSessions`, for passwords and sessions.
- AuthService.Service.Login: a failing rehash or session statement; whether a hash accepts the password, and is weak, are function parameters.
- AuthSessions.SessionsCurrentIff: a session's expiry and its last use play no part, and tokens are those of `AuthTokens`, modelled apart from sessions.
- AuthTokens: the mail handlers are not modelled; deadlocks appear only as aborts.
- StockholmIngest.Ingester.Run: how the search lists cases and how pages are fetched, which are inputs, and errors of the database.
- DiaryIngest.Ingester.RunFeed: transport and parsing; pages are inputs. When a chronology aborts the run, how many pages were read by then is not stated.
- EventRepository.Repository.UpsertEvent: the row's own id, its first observation time and database errors are not modelled; the source name is implied by the identifier, and an observation id always exists, so neither can be missing.
- EventRepository.Repository.RecordObservation: a case's record number is a number and never empty; encoding errors are not modelled.
- OneEventPerCase.RunsEmitTheEarliest: the runs use one feed, start from empty tables and their source does not change.
- RefreshQueue.RefreshIsFair: runs with persist failures or unreachable pages.
- StockholmHistory.RunsAreFair: the same; runs that report an error are not part of such a sequence.
- Cursor.CursorRoundTrip: an id is its 32 hexadecimal digits; in `Listing` it is the number they stand for.
- PasswordHash.HashRoundTrip: texts are sequences of characters, without the replacement of invalid UTF-8.
- Text: case folding and lower case cover the characters that fold to letters of the fixed phrases.
- HTTP clients and handlers, HTML and JSON parsing, mail delivery, configuration, logging, metrics output, migrations, encryption, CORS: plumbing without a protocol of its own.
- `internal/account` and `internal/example`: lookups and a listing like the one modelled, which would only add easy members.
- Liveness of the worker's polling loop and shutdown: timers and cancellation appear as crashes and delays.
