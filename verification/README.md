# Account lifecycle: a Dafny model

This project models the account service under `BACKEND/src`: registration, activation, one-time passcodes, login with
lockout, sessions, password recovery, account deletion, the Redis window counter, and the two outbox workers, all over
one set of tables. It proves facts that no single file enforces and that follow only from what every writer does
together: a deleted account stays shut out whatever was in flight, deletions and notices match one to one, passcodes are
accepted at most once, a code, token or password handed out is good exactly as long and for whom it should be, wrong
passwords and passcode requests are bounded in any time interval, and how far each of these holds when calls overlap.

## How the model is built

- `Schema` holds the tables as maps from primary key to row and every SQL write as a `Statement`. Primary keys, unique
  indexes (including the partial one on active passcodes and the one on email), and foreign keys are guards: a refused
  statement has no result. `Database` is the one mutable object; its `WithTransaction` loop undoes everything when a
  statement is refused or when the environment makes the statement at an arbitrary index `fault` fail.
- Every service method is written as the source writes it, as a method over `Database`, and is proved equal to a
  function from the old tables to the new tables and the reply. A method that waits for bcrypt, Redis or the mail provider
  is split exactly there, and the snapshot it keeps across the wait is a value (`Attempt`, `Gate`, a work list). SQLite
  calls are synchronous and a transaction cannot span a wait (BACKEND/src/db/with-transaction.ts:7-8). It is an assumption
  of the model that two continuations do not alternate at an `await` of a repository call, which only yields to the
  microtask queue. Several methods have a few such calls in a row: passcode issue and verification, failed and successful
  login, session validation, deletion. For passcode issue the finer steps are modelled too; what the assumption carries
  in verification is shown by `StaleAcceptanceRevives`.
- `System` puts these functions together: a state is a clock, the tables, the calls in flight, and a history of what the
  tables forget; an `Action` is one segment of one call, a suspension by an administrator, or the passage of time. A run
  is any sequence of actions from empty tables, so all interleavings are covered. Passcode issue asks the limiter in
  steps of its own (INCR, EXPIRE) against a counter per user that is part of the state; what follows is modelled twice: as
  one segment, and as three separate steps (clear, number, insert) that may be interrupted.
- `Invariants` and `Steps` prove, action by action, that every fact is kept and no row is ever undone; `Frames` says what
  each action leaves alone. `Rows` and `Replies` tell the same service a second time, row by row and answer by answer,
  without its functions, and prove the two accounts equal. `RoundTrips`, `Lifecycle`, `Passcodes`, `Lockout` and `Notices`
  state the theorems about runs, `Overlaps` and `Bursts` what calls in flight do to them. `RateLimit`, `RateBounds`,
  `Outbox` and `Retries` do the same for the counter and the workers' loops; `Limits` and `Issuance` carry the counter's
  bounds over to the service. `Codes`, `Timestamps` and `EmailFormat` are the pure parts.

HMAC, SHA-256, bcrypt comparison, the password policy, trimming and lower-casing are arbitrary functions in `Config`;
only the name theorems ask anything of them: that trimming and lower-casing leave plain text alone. Identifiers, tokens,
codes, provider answers and the clock are parameters. Identifiers are lower-case hexadecimal digits and hyphens, as `uuid`
prints them. Each segment reads the clock once.

Where the code does less than its comments or a reader may expect, the model follows the code, and the difference is a
theorem:

- The counter is described as a rolling window (BACKEND/src/services/rate-limit.guard.ts:4-7). It is a fixed window: an
  interval of one window length can hold 2 * quota - 1 grants and no more (`RateBound`, `RateBoundIsReached`), and it
  behaves as a rolling window exactly when the quota is at most 1 or the window one tick long (`RollsExactly`).
- A recovery token is refused once consumed (BACKEND/src/services/password-recovery.service.ts:98), but resets that were
  past the check when the first one committed commit as well, and exactly those (`SecondResetCommitsExactly`).
- A login that was comparing passwords when a reset committed still issues a token, which validates
  (`LoginAcrossReset`); every other session started after the reset knew its password or a later one
  (`SessionsAfterReset`). Across a deletion such a login leaves a live row, but its token is refused
  (`LateLoginTokenIsDead`, `LateSessionsExactly`).
- A lock after `threshold` failures is computed from a snapshot. With m logins in flight the bound for k lock durations
  is k * (threshold + 2 * (m - 1)), and it is reached for every k (`LockoutBound`, `LockoutBoundIsReached`).
- An issue that the rate limiter let through while its account was deleted still stores a passcode and sends it to the
  old address (`LateIssueStillStores`); nothing accepts that passcode (`DeletedAccountAcceptsNothing`).
- Nothing keeps ticks of a worker apart. With m of them under way a notice is dispatched up to limit + 2 * m - 1 times (m
  times for a limit of 0), which is reached (`NoticeDispatchBound`, `NoticeBoundIsReached`), and a delivery that was
  recorded can be undone (`OverlappingTicksUnsettle`), exactly by a tick that still lists it (`SettledIsFinalExactly`).

## Model

| member | source | states |
|---|---|---|
| Schema.ExecKeepsConsistent | BACKEND/db/migrations/004_create_otp_requests.sql:21-23 | no write can make two rows answer one lookup or leave a row without its owner, given the one rule the schema leaves to the service |
| Database.Database.WithTransaction | BACKEND/src/db/with-transaction.ts:13-15 | all statements are present or the tables are those before it, for any refused statement and any failure index; it commits exactly when nothing was refused and no failure struck |
| Database.RefusalSticks | BACKEND/src/db/with-transaction.ts:13-15 | once one statement is refused, no continuation of the callback has a result |
| Database.Database.NextSequence | BACKEND/src/repositories/otp-request.repository.ts:149-157 | the loop finds one more than the largest sequence of the user's rows, 1 when there is none |
| Database.Database.FindActiveOtp | BACKEND/src/repositories/otp-request.repository.ts:102-108 | returns the user's active row if and only if there is one, and LIMIT 1 loses nothing because there is never a second |
| Database.Database.FindSession | BACKEND/src/repositories/session.repository.ts:96-102 | returns the session with this hash exactly when one exists |
| Database.Database.FindWaitingRequest | BACKEND/src/repositories/deletion-request.repository.ts:101-109 | returns the user's pending request exactly when one exists, though no index guards it |
| Database.Database.FindRecovery | BACKEND/src/repositories/password-recovery-request.repository.ts:97-103 | returns the recovery row of this token exactly when one exists |
| Database.Database.FindUserByEmail | BACKEND/src/repositories/user.repository.ts:167-173 | returns the holder of this email exactly when there is one |
| Sessions.SessionService.CreateSession | BACKEND/src/services/session.service.ts:62-71 | stores only the hash, with the expiry it reports; a refused insert changes nothing and reports none |
| Sessions.SessionService.ValidateSession | BACKEND/src/services/session.service.ts:88-111 | the reply and the tables for every case, in the order not found, expired, invalidated, account not active; only the last writes, and it ends all sessions of the owner that were live |
| Sessions.SessionService.InvalidateSession | BACKEND/src/services/session.service.ts:119-133 | ends exactly an open session and reports whether there was nothing left to end |
| Auth.LoginGuard.RegisterFailure | BACKEND/src/services/login-guard.ts:57-66 | three row updates amount to: one more failure, or a lock and a zero counter once the snapshot's next count reaches the threshold |
| Auth.AuthService.LoginUpToComparison | BACKEND/src/services/auth.service.ts:56-72 | which of unknown, locked, not active or comparing a login reaches, and the snapshot it keeps, with no write |
| Auth.AuthService.LoginAfterComparison | BACKEND/src/services/auth.service.ts:72-90 | the tables and reply after the comparison, whatever happened to the row in between; bookkeeping stays even when the session insert fails |
| Otps.OtpService.IssueAfterRateLimit | BACKEND/src/services/otp.service.ts:173-191 | clears the user's active rows, numbers and stores the new one; in this one segment the partial index never refuses |
| Otps.OtpService.FinishDispatch | BACKEND/src/services/otp.service.ts:193-201 | only the delivery status of that row changes, however late |
| Otps.OtpService.VerifyOtp | BACKEND/src/services/otp.service.ts:107-144 | reply and tables for every case and every failure index; acceptance activates the account and uses up the row together or not at all |
| Deletion.AccountDeletionService.RequestDeletion | BACKEND/src/services/account-deletion.service.ts:113-139 | only an active account without a pending request gets one |
| Deletion.AccountDeletionService.ConfirmDeletion | BACKEND/src/services/account-deletion.service.ts:161-238 | reply and tables for every case and every failure index: four tables change together or none does |
| Deletion.AccountDeletionService.CancelDeletion | BACKEND/src/services/account-deletion.service.ts:243-250 | stamps exactly the pending request, or reports that there is none |
| Deletion.ConfirmStatementsFinalise | BACKEND/src/services/account-deletion.service.ts:197-235 | the four statements succeed exactly when neither anonymised name nor notice id collides, and then give the erased user, the confirmed request, no live session and one queued notice to the email held before |
| PasswordRecovery.PasswordRecoveryService.RequestRecovery | BACKEND/src/services/password-recovery.service.ts:73-85 | an unknown email writes nothing; a known one gets a fresh unconsumed token |
| PasswordRecovery.PasswordRecoveryService.ResetUpToHash | BACKEND/src/services/password-recovery.service.ts:101-118 | which of not found, expired or consumed, policy violation or hashing a reset reaches, with no write |
| PasswordRecovery.PasswordRecoveryService.ResetAfterHash | BACKEND/src/services/password-recovery.service.ts:120-135 | hash, token and sessions change together or not at all, whatever happened since the check |
| PasswordRecovery.ResetStatementsReplace | BACKEND/src/services/password-recovery.service.ts:123-135 | the three statements always run and yield the new hash, the consumed token and no live session |
| Accounts.RegistrationService.Register | BACKEND/src/services/registration.service.ts:53-99 | the insert after bcrypt succeeds exactly when id, normalised name and email are free, and otherwise changes nothing; the answer is a username conflict exactly when the name is taken and the database names that index |
| Accounts.ActivationService.Activate | BACKEND/src/services/activation.service.ts:59-97 | reply and tables for every case and failure index; only a pending account is activated, and its token is spent with it |
| Accounts.ActivationStatementsSpend | BACKEND/src/services/activation.service.ts:85-93 | the two statements always run and yield the active account and the spent token |
| Steps.StepGood | BACKEND/src/db/with-transaction.ts:13-15 | every action of every service, with any snapshot, interleaving and failure index, keeps all invariants and undoes no row of users, sessions, passcodes, deletion requests, recovery tokens, activation tokens or deletion notices |
| Steps.Reachable | BACKEND/src/services/account-deletion.service.ts:113-238 | all invariants hold in every state any run can reach |
| Rows.UserExactly | BACKEND/src/services/registration.service.ts:57-74 | from every good state and for every action: exactly which actions create an account and with what row, and exactly what each makes of every other row (deletion, activation by code or token, failed and successful login, lock, reset, suspension), said of rows, codes and clocks without the services' functions |
| Rows.SessionExactly | BACKEND/src/services/session.service.ts:62-133 | the same for sessions: opened only by a login that compared the right password, with this user, token hash and lifetime; ended exactly by its logout, a deletion or reset of its owner, or a validation that finds the owner not active, which ends all the owner's sessions; with which stamp |
| Rows.OtpExactly | BACKEND/src/services/otp.service.ts:107-201 | the same for passcodes: the row stored carries the hash of this code, this expiry and the next number; it is used up exactly by a right code in time or by the next issue, and reported delivered or failed as the dispatch said |
| Rows.RequestExactly | BACKEND/src/services/account-deletion.service.ts:113-250 | the same for deletion requests: made only for an active account without a pending one, with the hash of this code and this expiry; cancelled exactly by the user's cancellation, confirmed exactly by a deletion that goes through |
| Rows.NoticeExactly | BACKEND/src/workers/account-deletion-notification.worker.ts:69-113 | the same for deletion notices: queued exactly by a deletion, to the email held before; sent, retried or failed exactly by the answer to a dispatch and the retries its tick had read |
| Rows.RecoveryExactly | BACKEND/src/services/password-recovery.service.ts:73-135 | the same for recovery tokens: made only for the holder of the email, with this expiry; used up exactly by a reset that commits |
| Rows.TokenExactly | BACKEND/src/services/activation.service.ts:85-93 | an activation token is spent exactly when it is presented unspent, in time, for a pending account, and the transaction does not fail |
| Rows.CallExactly | BACKEND/src/services/auth.service.ts:56-72 | exactly which actions put a registration, passcode request, drawn passcode, dispatch, login or reset in flight, and the snapshot it holds |
| Replies.VerifyReplies | BACKEND/src/services/otp.service.ts:107-141 | each of the five outcomes of a submission exactly when the user's rows say so, in the source's order |
| Replies.RequestReplies | BACKEND/src/services/account-deletion.service.ts:113-139 | each outcome of a deletion request exactly when the rows say so; the expiry reported is the one stored |
| Replies.ConfirmReplies | BACKEND/src/services/account-deletion.service.ts:161-238 | no request, expired, wrong code, aborted or finished, each exactly when the rows say so, in the source's order |
| Replies.CancelReplies | BACKEND/src/services/account-deletion.service.ts:243-250 | a cancellation is reported exactly when there was a pending request |
| Replies.ValidateReplies | BACKEND/src/services/session.service.ts:88-111 | each of the five outcomes of a validation exactly when the token's row and its owner say so, in the source's order |
| Replies.LogoutReplies | BACKEND/src/services/session.service.ts:119-133 | already terminated exactly when the token has no live session, so the first logout of an open session says it was not |
| Replies.LoginReplies | BACKEND/src/services/auth.service.ts:56-72 | unknown, locked, not active or comparing, each exactly when the account's row says so, in the source's order, with the snapshot taken |
| Replies.LoginEndReplies | BACKEND/src/services/auth.service.ts:72-90 | wrong password, session not stored, or a token with its expiry, each exactly when |
| Replies.ResetReplies | BACKEND/src/services/password-recovery.service.ts:101-118 | not found, expired or consumed, rejected password or hashing, each exactly when the token's row says so |
| Replies.ActivateReplies | BACKEND/src/services/activation.service.ts:59-93 | each of the six outcomes of an activation exactly when the token's row and its account say so, in the source's order |
| RoundTrips.HashInRuns | BACKEND/src/services/registration.service.ts:57-74 | in every run from empty tables the stored hash of an account is that of its registration, or of the last reset that committed since; and there is an account exactly where one was registered |
| RoundTrips.LoginComparesTheHash | BACKEND/src/services/auth.service.ts:56-72 | from every reached state a login gets to the comparison if and only if the account is active and not locked, and it will count as right if and only if the password matches the hash registered or last reset |
| RoundTrips.SessionOrigin | BACKEND/src/services/session.service.ts:62-71 | every session row goes back to one login that compared the right password, with its user, the hash of its token, and a lifetime of exactly the set length from then |
| RoundTrips.SessionRoundTrip | BACKEND/src/services/session.service.ts:62-111 | a token handed out at time T, whose expiry is reported as T + lifetime, validates in any later state if and only if it is presented before that, its session has not been ended and its owner is active; and as that owner only |
| RoundTrips.PasscodeRoundTrip | BACKEND/src/services/otp.service.ts:107-191 | once a passcode has been stored at time T, in any later state in which it is active and its owner may submit, a submission is accepted if and only if it hashes like the code drawn, comes no later than T + lifetime, and the transaction does not fail; then it activates the account and uses up the row, otherwise nothing changes |
| RoundTrips.PausedPasscodeRoundTrip | BACKEND/src/services/otp.service.ts:173-191 | the same for an issue that paused after each statement, with T the time its row was drawn |
| RoundTrips.SentCodeWorks | BACKEND/src/services/otp.service.ts:173-193 | in every reached state a code on its way to an address is the one whose hash its row carries, to the address in that row; submitting it is accepted if and only if the row has not expired and the transaction does not fail |
| RoundTrips.DeletedExactly | BACKEND/src/services/account-deletion.service.ts:161-235 | from every reached state an account becomes deleted by an action if and only if that confirms a pending request of its user, in time, with a code that hashes like the stored one, no name or id collides and no failure strikes |
| RoundTrips.RequestOrigin | BACKEND/src/services/account-deletion.service.ts:121-134 | every deletion request goes back to one made by its user while active, and carries the hash of the code drawn then and the set expiry |
| RoundTrips.DeletionNeedsItsCode | BACKEND/src/services/account-deletion.service.ts:161-184 | no account is deleted in any run but with a code that hashes like one drawn for a request of its user, within its lifetime |
| RoundTrips.DeletionRoundTrip | BACKEND/src/services/account-deletion.service.ts:113-235 | while a request made at time T is pending, confirming deletes the account if and only if the code hashes like the one drawn, it comes no later than T + lifetime, and nothing collides or fails |
| RoundTrips.RecoveryOrigin | BACKEND/src/services/password-recovery.service.ts:73-85 | every recovery token goes back to a request for the email its account held then, and expires the set time after it |
| RoundTrips.ResettingExactly | BACKEND/src/services/password-recovery.service.ts:101-120 | from every reached state a call gets past the check of a recovery token if and only if it presents that token, unconsumed, in time, with an acceptable password |
| RoundTrips.NoLateReset | BACKEND/src/services/password-recovery.service.ts:110-136 | in every run, a reset that commits was checked no later than the set lifetime after its token was asked for |
| RoundTrips.RecoveryRoundTrip | BACKEND/src/services/password-recovery.service.ts:73-120 | a token asked for at time T gets a call past the check in any later state if and only if it has not been used up, it comes no later than T + lifetime, and the new password is acceptable |
| Lifecycle.DeletionIsFinal | BACKEND/src/services/account-deletion.service.ts:197-235 | once deleted, an account is deleted in all later states of any run, its stamp and anonymised email never change, no token validates as it, no login that finds the row gets to the comparison, and no new passcode request or submission passes the status check |
| Lifecycle.DeletionsMatchNotices | BACKEND/src/services/account-deletion.service.ts:113-238 | in every reachable state: at most one pending request per user and none for a deleted one; a deleted user has exactly one confirmed request and one notice, sent to the email registered with; any other user has neither |
| Lifecycle.StatusOnlyMovesForward | BACKEND/src/services/otp.service.ts:107-141 | no run ever lowers an account in the order pending, active, suspended, deleted |
| Lifecycle.StampsAreWrittenOnce | BACKEND/src/repositories/session.repository.ts:107-123 | invalidation of a session, invalidation of a passcode, confirmation or cancellation of a request, and deletion of a user keep their first time in every later state |
| Lifecycle.SecondLogoutChangesNothing | BACKEND/src/services/session.service.ts:119-133 | after a logout with a token, every later logout with it reports already terminated and leaves the tables alone, whatever ran in between |
| Lifecycle.ResetCutsOffThePast | BACKEND/src/services/password-recovery.service.ts:123-135 | every session row that existed when a reset committed never validates again |
| Lifecycle.ResetTokenIsSpent | BACKEND/src/services/password-recovery.service.ts:101-112 | a token check after the commit fails in every later state |
| Lifecycle.ResetsCanOverlap | BACKEND/src/services/password-recovery.service.ts:101-120 | from any reached state in which a token passes the check, two resets of it can be hashing at once |
| Lifecycle.SecondResetCommitsExactly | BACKEND/src/services/password-recovery.service.ts:101-136 | after a first commit, whatever happens in between, another reset of the token commits if and only if it was past the check at that commit, is still waiting, and meets no fault; it then replaces the same user's password |
| Lifecycle.UsernamesStayUnique | BACKEND/src/services/registration.service.ts:57-74 | in every reachable state, concurrent registrations included, stored names are the normalised usernames and pairwise distinct, and so are emails |
| Lifecycle.DeletionFreesTheName | BACKEND/src/services/account-deletion.service.ts:193-210 | unless the name already had the anonymised form, a deletion leaves it without holder and it can be registered again at once |
| Lifecycle.ProfileCountAgrees | BACKEND/src/repositories/session.repository.ts:129-137 | for an active user the profile's count is the number of issued tokens that would validate now, for any hash function |
| Lifecycle.IssuedTokenFindsItsSession | BACKEND/src/repositories/session.repository.ts:96-102 | looking up the hash of an issued token finds the very row issued with it |
| Passcodes.AcceptanceExactly | BACKEND/src/services/otp.service.ts:107-144 | in every reachable state: a row is accepted if and only if it is the eligible user's active row, unexpired and hash-matching, and the transaction does not fail; and it is then the user's newest |
| Passcodes.SupersededNeverAccepted | BACKEND/src/services/otp.service.ts:173-191 | a row that was used, invalidated, or is older than another of its user is never accepted later, however sends, resends and late delivery marks interleave |
| Passcodes.AcceptedAtMostOnce | BACKEND/src/services/otp.service.ts:133-141 | no row is accepted twice in a run |
| Passcodes.OneActiveOtp | BACKEND/db/migrations/004_create_otp_requests.sql:21-23 | at most one active row per user in every reachable state, even if an issue pauses after each statement |
| Passcodes.SequencesAreExact | BACKEND/src/repositories/otp-request.repository.ts:149-157 | in any run, the sequences of a user's n rows are exactly 1..n and an active row carries n, if and only if every issue that paused between numbering and storing found no row of that user stored in between |
| Passcodes.InsertKeepsNumberingExactly | BACKEND/src/services/otp.service.ts:180-191 | where the numbering is exact, storing a row numbered earlier keeps it exact if and only if no row of that user was stored since |
| Overlaps.InterruptedNumberingRepeats | BACKEND/src/services/otp.service.ts:173-191 | from every reached state in which the user may ask for passcodes and the limiter grants three more, sixteen steps of three overlapping issues store one number twice |
| Passcodes.RowsGrowExactly | BACKEND/src/services/otp.service.ts:153-191 | a user's passcode rows grow exactly by an issue of that user that the limiter let through and that stores at once, or by the insert of one numbered earlier that the schema accepts |
| Overlaps.LateIssueStillStores | BACKEND/src/services/otp.service.ts:168-193 | from every reached state in which the deletion goes through and the user may still ask for a passcode, an issue begun and let through before the deletion stores an active row after it, and hands its code over to be sent to the address of before |
| Overlaps.LateRowsExactly | BACKEND/src/services/otp.service.ts:153-191 | after a deletion, whatever happens, the account's rows grow exactly by issues that were in flight when it committed |
| Overlaps.NoIssueStartsLater | BACKEND/src/services/otp.service.ts:153-168 | after a deletion, every unfinished issue of the account was in flight when it committed |
| Overlaps.DeletedAccountAcceptsNothing | BACKEND/src/services/otp.service.ts:107-111 | no row of a deleted account, stored before or after the deletion, is accepted in any later state |
| Overlaps.LateLoginTokenIsDead | BACKEND/src/services/auth.service.ts:72-90 | from every reached state in which the deletion goes through and a login with the right password gets to the comparison, beginning the login, deleting, and ending the login leaves a live session row of the deleted account, whose token is refused |
| Overlaps.SessionsGrowExactly | BACKEND/src/services/auth.service.ts:72-90 | a user's session rows grow exactly when a login of that user that compared the right password ends and finds its session id and token hash free |
| Overlaps.LateSessionsExactly | BACKEND/src/services/auth.service.ts:56-90 | after a deletion, whatever happens, the account's session rows grow exactly by such logins that were in flight when it committed |
| Overlaps.LoginAcrossReset | BACKEND/src/services/password-recovery.service.ts:120-135 | from every reached state in which a reset is hashing and a login with the old password gets to the comparison, ending the reset and then the login leaves the new hash stored and a token that validates |
| Overlaps.HashIsTheLast | BACKEND/src/services/password-recovery.service.ts:123-126 | along any run the stored hash of a user is that of the last reset that committed, whatever else happened |
| Overlaps.SessionsAfterReset | BACKEND/src/services/password-recovery.service.ts:120-135 | after a reset, whatever happens, every new session of the user comes from a login that was in flight when it committed, or from one that compared a password matching the hash of that reset or of a later one |
| Overlaps.StaleAcceptanceRevives | BACKEND/src/services/otp.service.ts:132-141 | where a passcode would be accepted and a deletion goes through, the two statements of that acceptance, run on what the deletion has left, go through as well and set the deleted account active: that verification is one segment is what keeps it deleted |
| Issuance.RowsNeedGrants | BACKEND/src/services/otp.service.ts:168-191 | in any stretch of any run, however issues interleave and pause, rows stored and rows still to be stored grow by no more than the grants the limiter made meanwhile |
| Issuance.PasscodesPerInterval | BACKEND/src/services/rate-limit.guard.ts:42-53 | in any stretch of any run that is shorter than k window lengths, an account gains at most (k + 1) * quota - 1 passcodes, none for a quota of 0, and those granted before that still had to be stored |
| Limits.LimitsInRuns | BACKEND/src/services/rate-limit.guard.ts:42-53 | in every reached state each user's counter is sound: the count is the window's attempts, windows lie a window length apart, grants lie inside their windows and at most a quota to each |
| Limits.AdmittedWithRoom | BACKEND/src/services/rate-limit.guard.ts:42-53 | an issue for which the user's count leaves room is let through by its INCR, and its EXPIRE where it opened the window, and nothing but the counter and the call changes |
| Lockout.LockoutBound | BACKEND/src/services/login-guard.ts:46-66 | in every run, with m the most logins on the account ever in flight at once, any interval of k lock durations holds at most k * (threshold + 2 * (m - 1)) wrong-password comparisons since the last success (k * m for a threshold of 1), so k * threshold when logins do not overlap |
| Bursts.LockoutBoundIsReached | BACKEND/src/services/auth.service.ts:56-90 | the bound is sharp for every k: wherever a wrong password would be compared with a zero counter, no login is in flight and no more than m ever were, some continuation with still no more than m puts exactly that many wrong-password comparisons into k lock durations |
| Lockout.TallyInRuns | BACKEND/src/services/auth.service.ts:56-90 | along every run: the counter is the failures since the last lock, the lock time is that of the last lock, stretches of failures without a lock stay short, and the m-th failure after a lock and all later ones come a lock duration after it |
| Lockout.FailureKeepsSpacing | BACKEND/src/services/login-guard.ts:46-50 | one more failure, whatever it had read, comes a lock duration after every lock that m failures have followed |
| Lockout.FailureKeepsStaleFew | BACKEND/src/services/login-guard.ts:57-66 | once the counter has reached threshold - 1, only logins that had started before can fail without locking, and there are fewer than m |
| Lockout.CounterInRuns | BACKEND/src/services/login-guard.ts:57-66 | in every run the stored counter is the number of failures since the last lock or the last success, however logins overlap |
| Bursts.LoginsCanOverlap | BACKEND/src/services/auth.service.ts:56-72 | any number of logins on one open account can be comparing at once, all with the same snapshot |
| Bursts.OverlapBreaksTheBound | BACKEND/src/services/login-guard.ts:57-66 | with overlap the bound fails for every threshold and every k, wherever a wrong password would be compared at all |
| RateLimit.RedisRateLimitGuard.Allow | BACKEND/src/services/rate-limit.guard.ts:42-53 | allowed exactly while fewer than the quota were counted in the live window; only the first attempt of a window sets its end; other users' keys stay |
| RateBounds.RateBound | BACKEND/src/services/rate-limit.guard.ts:42-53 | with INCR and EXPIRE as separate commands in any order of interleaving, an interval of k window lengths holds at most (k + 1) * quota - 1 grants, and none for a quota of 0 |
| RateBounds.RateBoundIsReached | BACKEND/src/services/rate-limit.guard.ts:42-53 | for every quota, every k and every window of two ticks or more some command sequence reaches that bound |
| RateBounds.RollsExactly | BACKEND/src/services/rate-limit.guard.ts:36-53 | no window-long interval holds more than the quota, as a rolling window would ensure, if and only if the quota is at most 1 or the window at most one tick long |
| RateBounds.ExactlyTheFirst | BACKEND/src/services/rate-limit.guard.ts:42-53 | each window grants exactly its first quota attempts |
| RateBounds.GrantedAgainExactly | BACKEND/src/services/rate-limit.guard.ts:46-52 | after any commands, the next attempt is granted if and only if the quota is positive and there is no window, or it has room, or it is over; a refusal moves no deadline |
| RateBounds.ServedSoundly | BACKEND/src/services/rate-limit.guard.ts:42-53 | after any commands: the count is the window's attempts, windows lie a window length apart, grants lie inside their windows, at most a quota to each, and the first at its opening |
| Outbox.FindQueued | BACKEND/src/repositories/deletion-notification-record.repository.ts:106-116 | every queued record exactly once, in non-decreasing dispatch time |
| Outbox.AccountDeletionNotificationWorker.HandleFailure | BACKEND/src/workers/account-deletion-notification.worker.ts:96-113 | one more retry below the limit, otherwise failed; no other row changes |
| Outbox.AccountDeletionNotificationWorker.ProcessQueuedRecords | BACKEND/src/workers/account-deletion-notification.worker.ts:69-91 | one tick, with other calls doing anything to the tables at every wait, handles every record queued at its start once, oldest first, with the retry count it had then; the tables are those of its passes in order |
| Outbox.NoticeTickDone | BACKEND/src/workers/account-deletion-notification.worker.ts:69-91 | where the other calls leave delivery status and retries to the tick, the passes give every record of the start the outcome of its reply and leave settled ones alone |
| Outbox.OutboxWorker.HandleFailure | BACKEND/src/workers/outbox.worker.ts:111-128 | as above for activation emails |
| Outbox.OutboxWorker.ProcessQueuedRecords | BACKEND/src/workers/outbox.worker.ts:67-106 | as above, and a record is dispatched if and only if its token and user can be found when it is reached |
| Outbox.EmailTickDone | BACKEND/src/workers/outbox.worker.ts:67-106 | as for notices; the reply of a record that could not be resolved when it was reached is final failure |
| Outbox.EmailPassesKeep | BACKEND/src/workers/outbox.worker.ts:67-106 | what could be resolved when the tick started can be resolved at every pass, as long as no call removes users or tokens |
| Outbox.StatementsAreHarmless | BACKEND/src/services/account-deletion.service.ts:197-235 | any sequence of statements other than the workers' own leaves the workers' records alone and removes no user or token |
| Retries.TickExactly | BACKEND/src/workers/outbox.worker.ts:67-128 | exactly what a tick makes of a record: sent if it was delivered, failed if it could not be resolved or its retries were used up, otherwise one more retry; nothing else in the row changes |
| Retries.StillQueuedMeansRetried | BACKEND/src/workers/outbox.worker.ts:111-128 | a record still queued after k more ticks has k more retries and never more than the limit |
| Retries.SettledForGood | BACKEND/src/workers/outbox.worker.ts:67-106 | sent and failed records never change again |
| Retries.LeavesTheQueue | BACKEND/src/workers/account-deletion-notification.worker.ts:96-113 | whatever the provider answers, a record is settled within limit + 1 - retries ticks |
| Retries.DispatchBound | BACKEND/src/workers/account-deletion-notification.worker.ts:69-113 | in any sequence of ticks each record, there from the start or arriving later, is on at most limit + 1 dispatch lists |
| Retries.AttemptBound | BACKEND/src/workers/account-deletion-notification.worker.ts:96-113 | each record is queued at the start of at most limit + 1 ticks, less the retries it began with, and all but the last of them are counted in its retries |
| Retries.PollEmails | BACKEND/src/workers/outbox.worker.ts:44-51 | ticks of the worker one after another, with other calls writing at every wait and between ticks, form such a sequence; no record is dispatched more than limit + 1 times |
| Retries.PollNotices | BACKEND/src/workers/account-deletion-notification.worker.ts:46-53 | the same for the deletion-notice worker |
| Notices.CountedInRuns | BACKEND/src/workers/account-deletion-notification.worker.ts:69-113 | along every run: a notice on the list of a tick under way was read with a retry count it has had; a queued one was dispatched as often as it was retried; few ticks with an old count remain once the limit is reached |
| Notices.NoticeDispatchBound | BACKEND/src/workers/account-deletion-notification.worker.ts:69-113 | in every run, with m the most ticks ever under way at once, a notice is dispatched at most limit + 2 * m - 1 times (m times for a limit of 0), so limit + 1 times where ticks do not overlap; its retries stay within limit + m - 1 (0), and once dispatched more often than that it is settled |
| Notices.NoticeBoundIsReached | BACKEND/src/workers/account-deletion-notification.worker.ts:69-113 | that bound is sharp: where an untried notice is the only one queued, no tick is under way and no more than m ever were, some continuation with still no more than m dispatches it exactly so often |
| Notices.SettledIsFinalExactly | BACKEND/src/workers/account-deletion-notification.worker.ts:81-89 | a notice that was sent or given up is the same in every continuation if and only if no tick under way still has it on its list |
| Notices.SettledNoticesAreFinal | BACKEND/src/workers/account-deletion-notification.worker.ts:81-89 | so where ticks have not overlapped so far, every settled notice is final, whatever overlaps later |
| Notices.OverlappingTicksUnsettle | BACKEND/src/workers/account-deletion-notification.worker.ts:46-91 | from every reached state with a queued notice, two overlapping ticks mark it sent and then change it again, to failed if its retries are used up |
| Retries.TickLowersWeight | BACKEND/src/workers/outbox.worker.ts:67-128 | the dispatches still to come over the records a tick found fall by at least the number of records then queued |
| Codes.CodeReadsBack | BACKEND/src/services/otp.service.ts:62-66 | for every length n and value below 10^n the padded form has exactly n digits and reads back to the value |
| Codes.EveryCodeIsProduced | BACKEND/src/services/account-deletion.service.ts:75-79 | every string of n digits is the code of a value in range |
| Codes.CodesDiffer | BACKEND/src/services/otp.service.ts:62-66 | no two values in range share a code |
| Timestamps.IsoRoundTrip | BACKEND/src/repositories/session.repository.ts:49-59 | for years 0 to 9999, printing a time and reading it back is the identity |
| Timestamps.TextOrderIsTimeOrder | BACKEND/src/repositories/session.repository.ts:129-137 | in those years the order of the strings is the order of the times, and equal strings mean equal times |
| Timestamps.SqlCountsLiveSessions | BACKEND/src/repositories/session.repository.ts:129-137 | the SQL comparison of strings counts exactly the unexpired live sessions |
| Timestamps.SqlOrdersByTime | BACKEND/src/repositories/deletion-notification-record.repository.ts:109-113 | a list is sorted by the stored string if and only if it is sorted by time |
| EmailFormat.Validate | BACKEND/src/validators/registration.validator.ts:51-113 | exactly which errors are reported, each once and in order: all missing fields, or, when none is missing, format and mismatch |
| EmailFormat.RawStageAfterTrimmedStage | BACKEND/src/validators/email.validator.ts:39-68 | when the trimming stage accepts the address, the raw stage accepts it exactly if it had no outer white space and otherwise throws INVALID_CHARACTER |

## Left out

- Retries.PollEmails: ticks follow one another, other calls leave delivery status and retries to them, and the records come from arbitrary tables, because the service that enqueues activation emails is not part of the transition system.
- Retries.PollNotices: the same; `Notices` has the overlapping ticks.
- Lifecycle.ResetTokenIsSpent: about checks made after a commit; resets past the check before it are the subject of `SecondResetCommitsExactly`.
- Overlaps.StaleAcceptanceRevives: about the two statements; the transition system has no verification that pauses between its reads and its transaction.
- Issuance.PasscodesPerInterval: INCR and EXPIRE always succeed and read the service's clock; a failing Redis is not modelled.
- RateBounds.RateBound: the quota is a natural number; a negative one grants nothing, as 0 does.
- RateBounds.ServedSoundly: follows one user's key; keys of different users do not touch each other, as `Incr` and `Expire` state.
- Timestamps.IsoRoundTrip: the reader accepts the four-digit-year form only, the one these years print.
- Two clock readings inside one segment are taken to be equal; SQL's choice among rows with equal dispatch times is arbitrary.
- `email-dispatch.service.ts`: enqueueing and resending activation emails, one-branch guards around an insert that the model offers only as a write during a tick.
- The delete cascades of the schema: no service deletes a row.
- The two `start`/`stop` pairs of the workers: timers; `PollEmails` and `PollNotices` stand for what they set off when ticks do not overlap.
- HTTP controllers, routes and middleware, error texts, configuration parsing, the mail, SMS and Redis clients.
- Strength of hashes and codes, bcrypt internals, timing-safe comparison, randomness; the rules of the password policy.
- `FRONTEND/` and `app/`: user interface and a second partial service.
