# Verification of the Viralefy identity service

This project models the sessions, second factor, password resets and rate limiting of the Viralefy identity
service (`viralefy_auth`) in Dafny 4.11 and proves what they guarantee: over every interleaving of calls, over every
run, and for every input. `dafny verify dfyconfig.toml` checks it.

Nothing here was executed against the service; every claim is about the model below, which follows the Go code branch
by branch.

## How it is laid out

| File | Content |
|---|---|
| `Domain.dfy`, `Sequences.dfy` | subjects, rows, errors, time, symbolic hashes; sequences without repetition |
| `AccessTokens.dfy` | access and partial tokens, acceptance, the set of revoked token ids |
| `Store.dfy` | the Postgres tables; every SQL statement as a function on rows and as a method of the class `DB` |
| `Strings.dfy`, `Flows.dfy` | what one uninterrupted call of each service operation does and returns |
| `Plain.dfy` | the terms in which the promises are stated: columns of rows, written-out tokens and constants, none of the service's own helper functions |
| `TokenPromises.dfy`, `LoginPromises.dfy`, `SecondFactorPromises.dfy`, `ResetPromises.dfy` | what each operation promises, case by case, in those terms |
| `Services.dfy` | the classes `TokenService` and `AuthService`, statement after statement, each method proved equal to its function in `Flows` |
| `Protocol.dfy` | the step machine: a program counter per in-flight call, one statement per step, free interleaving, failures before any statement |
| `ProtocolInvariants.dfy`, `ProtocolSteps.dfy` | what every step keeps |
| `ProtocolTheorems.dfy` | safety over every interleaving |
| `ProtocolRows.dfy` | which call made which row, when, and how long the access tokens made with it live |
| `ProtocolClaims.dfy` | what the access token of a finished call says, under every interleaving |
| `ProtocolAccounts.dfy` | what resets do to the account tables, under every interleaving |
| `ProtocolProgress.dfy` | the step machine is never stuck, and handed-out tokens can be presented |
| `ProtocolSequential.dfy`, `ProtocolSoloReset.dfy`, `ProtocolShortCalls.dfy` | replay, and a logout among other calls; an uninterrupted call of the step machine is the call of `Flows` |
| `AuthRuns.dfy` | runs in which every call is one step |
| `AuthProvenance.dfy`, `AuthSecondFactor.dfy`, `AuthBackupBudget.dfy`, `AuthLogout.dfy` | provenance of sessions, enrolment, backup codes, logout, over whole runs |
| `AccountFlows.dfy` | properties across consecutive calls: refresh and account, reset then login, registration then login |
| `BackupCodes.dfy` | base32 codes, from random bytes to a login |
| `LimiterSpec.dfy`, `LimiterTheorems.dfy`, `RateLimiter.dfy` | the sliding-window limiter: rule, theorems, and the class over arrays compacted in place |
| `Shuffle.dfy`, `Password.dfy` | the password generator and its shuffle |

## What the model assumes

- Hashes and signatures are symbolic: `Sha256` is injective, a bcrypt hash is matched only by the string that was
  hashed, and a token counts as signed with a key only when it was made with that key. `AuthRuns.Unforged` states what
  this means for a run: a presented partial token with an accepted signature was handed out earlier in the run.
- Random values (row ids, raw tokens, token ids, salts, draws) are parameters. The step machine takes raw tokens to be
  new (`Protocol.NewRaw`); a row id that is taken makes the insert fail. Draws stay in range (`Shuffle.ValidChoices`).
- Each SQL statement is one atomic step, on the order of rows in which they were inserted. Application and database
  read one clock, which never runs backwards from step to step; each call's readings are separate parameters.
- Callers of the step machine present raw tokens that were handed out, or values that belong to no row
  (`Protocol.MayPresent`).
- The step machine allows a failure before any statement, and a lost answer after the last (`Protocol.Failure` says how
  the call then ends), so its theorems hold whatever the store does. The
  theorems about whole calls (`AuthRuns` and after, `AccountFlows`) take every store operation to succeed; an `INSERT`
  fails only on an id that is taken.
- Ids, raw tokens and roles are only compared and tested for emptiness, so they are opaque (`Text`); a reset token as
  typed is what trimming leaves of it, with the white space around it (`Padded`). Emails, passwords and codes are
  strings of single-byte characters.
- The six-digit check of the TOTP library against the stored secret is an input (`Flows.TotpAnswer`).

## Where the code differs from its comments

- `internal/application/token_service.go:378` says the old row points at its successor, but the call passes `""`, so
  `replaced_by_id` stays NULL. The model follows the code; lineage is kept in the model's own record of each row.
- `internal/interface/http/handlers.go:168` says logout takes the claims of expired tokens too. `VerifyAccess` returns
  no claims for them, so their ids are not added.
- `internal/application/auth_service.go:160` announces a claim `enroll_needed`. No such claim is minted.
- `VerifyAccess` reads the clock when it parses and again in the query of the revoked ids. A revoked token whose expiry
  falls between the two readings is accepted. `AccessTokens.ExpiryBetweenReadings` gives the exact condition,
  `AccessTokens.RevokedTokenAcceptedAtExpiry` a concrete call.
- Refresh tests for soft deletion and `CompleteLogin2FA` does not; the model keeps both as they are.

## Model

| member | source | states |
|---|---|---|
| ProtocolSteps.RunKeeps | internal/application/token_service.go:295-410 | The protocol's invariant holds after any number of events, in any interleaving of logins, refreshes, logouts, forced logouts and resets, with failures anywhere: unique ids and hashes, one owner per row, one live counted row per login, disclosed rows only from logins and won rotations, one marking and one write per reset. |
| ProtocolTheorems.OneLiveTokenPerLogin | internal/application/token_service.go:374-382 | In every reachable state, of the rows descending from one login at most one is both disclosed and unrevoked. |
| ProtocolTheorems.LoserLeavesUnrevokedRow | internal/application/token_service.go:374-382 | Why disclosure is in that statement: when two refreshes of one row have both inserted, one wins, the other fails, and two unrevoked rows of one login remain, the loser's undisclosed. |
| ProtocolTheorems.StrayRowStaysSecret | internal/application/token_service.go:369-382 | The row that a failed call recorded is never disclosed: a refresh that lost, a refresh that failed before or after its revocation went through, a login whose answer was lost. |
| ProtocolRows.FailureNamesItsRow | internal/application/token_service.go:369-382 | Every failed call has recorded the row it made, if it made one, so no row of a failed call is ever disclosed. |
| ProtocolTheorems.RotationSucceedsOnce | internal/infrastructure/persistence/postgres/refresh_token_repo.go:45-62 | Of any number of interleaved refreshes presenting the same row, at most one gets through to a session. |
| ProtocolTheorems.NoRotationAfterRevocation | internal/infrastructure/persistence/postgres/refresh_token_repo.go:45-77 | Once something other than a rotation has revoked a row, no refresh presenting it ever returns a session, including one already in flight. |
| ProtocolTheorems.LogoutIsNoRotation | internal/application/token_service.go:399-410 | A logout that finds its row unrevoked revokes it without counting as its rotation. |
| ProtocolTheorems.ForceLogoutIsNoRotation | internal/infrastructure/persistence/postgres/refresh_token_repo.go:66-77 | A revocation by subject revokes every unrevoked row of the subject without counting as a rotation. |
| ProtocolTheorems.RevokedForever | internal/infrastructure/persistence/postgres/refresh_token_repo.go:45-77 | A revoked row is never active again and keeps its revocation time. |
| ProtocolTheorems.ForceLogoutIsComplete | internal/application/token_service.go:301-312 | After a step that revokes a subject (forced logout, replay, last statement of a reset), in every later state a disclosed unrevoked token of the subject descends from a login row inserted after that step. |
| ProtocolTheorems.InFlightRefreshIsCutOff | internal/application/token_service.go:295-383 | A refresh of an earlier token of the subject, in flight at that step or started later, fails or ends with a row that is revoked too. |
| ProtocolRows.ReachableTimed | internal/application/token_service.go:174-236 | In every reachable state no row is made later than the clock, and the access token of every session expires one lifetime after its row was made. |
| ProtocolTheorems.OwnersSurvive | internal/application/token_service.go:325-374 | Along a chain of refreshes of any length every row has exactly one owner id, that of the login at its head. |
| ProtocolClaims.RefreshSpeaksForAccount | internal/application/token_service.go:325-374 | Under every interleaving, the access token of a finished refresh verifies until its expiry to exactly the id, kind, role and email that its own account lookup read, those of a live account, and that account is the owner of the login at the head of the chain. |
| ProtocolClaims.LoginSpeaksAsStarted | internal/application/token_service.go:126-236 | The access token of a finished login verifies to exactly the claims the login was started with, for the owner of the row it made. |
| ProtocolRows.AccessTokensRunOut | internal/application/token_service.go:174-312 | After a step that revokes a subject at time T, every access token handed out along an earlier login, even by a refresh in flight, expires at most one lifetime after T and is refused from then on. |
| ProtocolTheorems.ResetWritesOnce | internal/application/auth_service.go:437-476 | A reset record has at most one successful password UPDATE over every interleaving, issued by the call whose own MarkUsed flipped the record, for the subject named when the reset was requested. What those UPDATEs do to the account tables is the next two rows. |
| ProtocolAccounts.PasswordsChangeByReset | internal/application/auth_service.go:437-476 | In any reachable state and for any step of any call, the account tables stay as they are, or the step is the write of a call that flipped its own record, no write went through that record before, and exactly the rows of the account named at request time get the new hash: no other user, no other admin and no other column changes. |
| ProtocolAccounts.AccountsFollowWrites | internal/infrastructure/persistence/postgres/user_repo.go:43-54 | Over any run in which the rest of the system leaves the accounts alone, every user and admin row at the end is the row at the start with the hash of the last write for exactly that account, if there was one; soft-deleted users never change. |
| ProtocolTheorems.FinishedResetLoggedOut | internal/application/auth_service.go:437-476 | A confirmation that returned without error has written its subject's password, and the refresh rows of the subject that it counted at its last step are revoked. |
| ProtocolAccounts.FinishedResetEndsSessions | internal/application/auth_service.go:437-476 | For a confirmation that returned without error there is the step at which its last statement ran, and every refresh row that the subject had in the state before that step is revoked at every later time. |
| ProtocolSequential.ReplayKillsFamily | internal/application/token_service.go:301-312 | Presenting a token whose row is revoked, or whose expiry is not after the reading of the clock, while no other call is under way returns ErrTokenRevoked, and from then on, under any later interleaving and until a new login, no refresh row of the subject is unrevoked. |
| ProtocolSequential.SoloRefreshIsRefresh | internal/application/token_service.go:295-383 | A refresh whose steps run without interference leaves the tables and returns the result of the uninterrupted operation, in every branch, a taken row id included, at the clock readings of its steps; the replay branch is the one of a revoked row or a past expiry. |
| ProtocolSoloReset.SoloResetIsConfirm | internal/application/auth_service.go:437-476 | The same for the confirmation of a password reset, blank tokens and passwords included. |
| ProtocolShortCalls.SoloLoginIsMint | internal/application/token_service.go:174-236 | The same for a login past its checks. |
| ProtocolShortCalls.SoloLogoutIsLogout | internal/application/token_service.go:399-410 | The same for the refresh-token half of a logout. |
| ProtocolShortCalls.RequestIsRequest | internal/application/auth_service.go:398-432 | The same for the request of a password reset. |
| ProtocolShortCalls.LogoutReachesItsRow | internal/application/token_service.go:399-410 | A logout that is not cut short revokes the row it read, whatever other calls do between its two statements, and the row keeps the time of that step, or of an earlier revocation; if there was no earlier one, no refresh that presents the row, in flight or later, ever returns a session. |
| ProtocolShortCalls.FailuresAreQuiet | internal/application/token_service.go:295-410 | A failed lookup ends its call as an unknown token or account does, a replay is refused whether or not its revocation went through, a logout always ends the same way, and every other failing statement is internal. |
| ProtocolProgress.SessionsCanBePresented | internal/application/token_service.go:295-300 | In every reachable state the refresh token of every session handed out can be presented, to refresh or to log out: it was disclosed. |
| ProtocolProgress.CallsCanGoOn | internal/application/token_service.go:174-236 | In every state there is a raw token new to it with which any call can take its next step; no call is ever stuck. |
| TokenPromises.UnknownTokenIsRefused | internal/application/token_service.go:295-300 | A token without a row is unauthorized, and nothing changes. |
| TokenPromises.StaleTokenRevokesItsOwner | internal/application/token_service.go:301-312 | A token whose row carries a revocation time, or an expiry not after the reading, is refused with ErrTokenRevoked; exactly the unrevoked rows with the same user column, or for admins the same admin column, are revoked, and nothing else changes. |
| TokenPromises.DeadAccountIsRefused | internal/application/token_service.go:325-366 | A live token of no owner, of a missing or soft-deleted user, or of a missing admin is unauthorized, and nothing changes. |
| TokenPromises.LiveTokenIsRotated | internal/application/token_service.go:313-383 | A live token of a live account yields a session whose access token, written out claim by claim, names that account with its present role and email; its new row has the old owner and the full refresh lifetime, and of the old rows exactly the presented one is revoked, without a successor. |
| TokenPromises.TakenIdIsRefused | internal/application/token_service.go:174-236 | A row id that is taken is an internal error, and nothing changes. |
| TokenPromises.NewTokenLivesItsLifetime | internal/application/token_service.go:174-236 | The refresh token that a refresh hands out is itself accepted at every time before its lifetime has passed, and refused at every time from then on. |
| TokenPromises.LogoutReachesItsRow | internal/application/token_service.go:399-410 | A logout revokes the unrevoked row of its raw token and adds the id of the access token with the given expiry, unless it has a row; no other row, id or table changes. |
| TokenPromises.LogoutWithoutRow | internal/application/token_service.go:399-410 | Without a raw token, or without a row for it, a logout changes the set of revoked ids only. |
| TokenPromises.LogoutNamesTheToken | internal/interface/http/handlers.go:159-180 | The logout handler passes on a live access token's own id, with exactly its own expiry, and nothing once the token has expired. |
| TokenPromises.LogoutIgnoresBadTokens | internal/interface/http/handlers.go:159-180 | A token that does not parse for the service's API leaves no id. |
| TokenPromises.RevokingAddsTheRow | internal/application/token_service.go:387-396 | An empty id is invalid; any other gets a row with the given expiry and reason, unless it has one. |
| TokenPromises.ParserAnswers | internal/application/token_service.go:454-502 | The whole answer of the parser for a named audience: only RS256 with the service's key, or HS256 with the legacy secret while there is one; expiry is reported first, then a missing expiry, issuer or audience, then a token that is not valid yet. |
| TokenPromises.VerificationAnswers | internal/application/token_service.go:246-291 | Verification returns the parser's complaint, for the service's API when no audience is named; otherwise the token's own claims, with ErrTokenRevoked while a row of its id runs. |
| TokenPromises.AccessTokensNameTheirConsumers | internal/application/token_service.go:37-55 | An access token of the service is accepted before its expiry by exactly the four named consumers and by a caller that names none. |
| TokenPromises.PartialTokensLiveFiveMinutes | internal/application/token_service.go:152-172 | A partial token parses for five minutes, back to the user or admin it was made for, and is reported expired afterwards. |
| TokenPromises.OnlyPartialTokensParse | internal/application/token_service.go:418-433 | A partial token is taken exactly when it parses for the service itself, names a subject and is of a partial kind. |
| LoginPromises.UnifiedLoginLetsIn | internal/application/auth_service.go:106-156 | The unified login, with the email lower-cased and trimmed: the first live user of the email when the password is theirs, else the first admin of it likewise, else nobody. Whoever matched is asked for a code exactly when enrolled (users) or configured (admins), and otherwise gets a session with their own id, role and email and one new row. |
| LoginPromises.AdminLoginLetsIn | internal/application/auth_service.go:161-194 | The same for the admin login, which looks at admins only. |
| LoginPromises.RegistrationMakesTheAccount | internal/application/auth_service.go:234-274 | A registration with all its fields and a free email adds exactly the account asked for, phone, telegram and default name included, and hands out a session for it. |
| LoginPromises.RegistrationIsRefused | internal/application/auth_service.go:234-274 | Blank fields, then a taken email, then a password longer than 72 bytes are refused in this order, and nothing changes. |
| LoginPromises.RegistrationThatCollides | internal/application/auth_service.go:234-274 | A taken user id adds nothing; a taken row id leaves the account without a session. |
| LoginPromises.CompletedLoginSpeaksForAccount | internal/application/auth_service.go:198-230 | After a right code the session is for the account of the partial token, with the email and, for an admin, the role of its row; without the account the login is refused, with the code spent. |
| LoginPromises.UnverifiedLoginIsRefused | internal/application/auth_service.go:198-216 | A partial token that does not parse, or a wrong code, is refused with its own complaint, and nothing changes. |
| SecondFactorPromises.VerificationAnswersTheCode | internal/application/auth_service.go:339-381 | A code is accepted if and only if the subject has a record and the trimmed upper-case code is six digits that the TOTP library confirms, or any other text from which one of the stored hashes was made; and which complaint each other code gets. |
| SecondFactorPromises.VerificationChangesTheRecord | internal/application/auth_service.go:339-381 | A right code confirms the enrolment unless it was confirmed, and a backup code loses exactly the hash that matched first; the secret, the other hashes, every other record and every other table stay. Any other code changes nothing. |
| SecondFactorPromises.EnrolmentStartsAfresh | internal/application/auth_service.go:284-337 | An enrolment gives an existing account a record with the new secret, unconfirmed, with one hash for each code handed out; no other record changes, and nothing for an unknown account. |
| SecondFactorPromises.DisablingRemovesTheRecord | internal/application/auth_service.go:383-385 | Disabling removes the subject's record and changes nothing else. |
| ResetPromises.RequestNamesTheAccount | internal/application/auth_service.go:398-432 | A request makes one record of one hour for the live user of the email, or else for the admin of it, and hands out its token with that account; for any other email it succeeds with nothing. |
| ResetPromises.BadConfirmationsChangeNothing | internal/application/auth_service.go:437-457 | Blank input, an unknown token, a used record, a record past its expiry and a password of more than 72 bytes are refused, each with its own error, and nothing changes. |
| ResetPromises.GoodConfirmationReachesTheAccount | internal/application/auth_service.go:437-476 | A good confirmation stamps its record, gives the new hash to exactly the account of the record, whatever other accounts there are, and revokes exactly that account's unrevoked rows; if the account is gone the record is spent and nothing else changes. |
| ResetPromises.WritingReachesTheAccount | internal/infrastructure/persistence/postgres/user_repo.go:43-54 | The password UPDATE changes the hash of the live user, or the admin, with that id, leaves every other row and both lengths as they were, and fails when there is none. |
| Strings.TrimSpaceIsExact | internal/application/auth_service.go:107-107 | Trimming takes the white space at both ends and nothing else. |
| Services.TokenService.Mint | internal/application/token_service.go:174-236 | The row is inserted before the session exists; a failed insert leaves no trace and no session. |
| Services.TokenService.Refresh | internal/application/token_service.go:295-383 | The whole new state and the result of a refresh: unknown token, replay, orphan row, missing account, failed insert, lost row, success; and outright that a revoked or expired row ends in ErrTokenRevoked with its owner's rows revoked. |
| Services.TokenService.RevokeAccessJTI | internal/application/token_service.go:387-396 | An empty id is refused; otherwise the first row of an id is kept, and nothing else changes. |
| Services.TokenService.Logout | internal/application/token_service.go:399-410 | The whole new state of a logout, which ignores what it does not find. |
| Services.TokenService.LogoutHandler | internal/interface/http/handlers.go:159-180 | The handler revokes the refresh token and, for an access token that verifies or is already revoked, adds its own id until its own expiry; nothing else changes. |
| Services.AuthService.LoginUser | internal/application/auth_service.go:106-156 | The whole result of the unified login: user table first, then admin table, second factor by enrolment for users and by configuration for admins. |
| Services.AuthService.LoginAdmin | internal/application/auth_service.go:161-194 | The whole result of the admin login. |
| Services.AuthService.CompleteLogin2FA | internal/application/auth_service.go:198-230 | Parse, verify, look up, mint, each at its own clock reading: the new state and the result, including the code consumed when the account has vanished; and outright that a session is handed out only for a right code, with the id, email and role of the account's own row. |
| Services.AuthService.RegisterUser | internal/application/auth_service.go:234-274 | The new state and result of a registration in every branch. |
| Services.AuthService.Enroll2FA | internal/application/auth_service.go:284-337 | The record becomes the new secret, the hashes of exactly the returned codes, and not enrolled. |
| Services.AuthService.FindBackupCode | internal/application/auth_service.go:363-374 | The loop over the stored hashes finds the first match, or there is none. |
| Services.AuthService.Verify2FA | internal/application/auth_service.go:339-381 | The new state and result of a verification, through TOTP or a backup code; and outright that it succeeds if and only if the code is right, and changes nothing otherwise. |
| Services.AuthService.Disable2FA | internal/application/auth_service.go:383-385 | Exactly the record of the subject goes. |
| Services.AuthService.RequestPasswordReset | internal/application/auth_service.go:398-432 | A record for the user, before the admin, of that email, handed out with the account it is for; success without a token for an unknown email. |
| Services.AuthService.ConfirmPasswordReset | internal/application/auth_service.go:437-476 | The new state and result in every branch: trim before look-up, mark before write, write before revoke; and outright that a success gives the new hash to the record's account alone, and a failure changes no account. |
| Store.RevocationIsOnce | internal/infrastructure/persistence/postgres/refresh_token_repo.go:45-62 | The conditional update stamps exactly the unrevoked rows of the id, reports a change exactly when the table changes, and a second one finds nothing and keeps the first time and successor. |
| Store.MarkingIsOnce | internal/infrastructure/persistence/postgres/password_reset_repo.go:43-54 | The conditional update stamps exactly the unused record of the id, reports a change exactly when the table changes, and a second one finds nothing and keeps the first time. |
| Store.ConsumedHashIsGone | internal/infrastructure/persistence/postgres/twofa_repo.go:90-103 | The consumed hash is no longer in the record, every other hash is there as often as before, and no other record changes. |
| Store.StampedRecord | internal/infrastructure/persistence/postgres/twofa_repo.go:58-75 | Stamping enrols the subject's record when there is one, changes nothing else of it, and no other record. |
| AccessTokens.FirstRowDecides | internal/infrastructure/persistence/postgres/revoked_jti_repo.go:15-45 | After any sequence of additions an id counts as revoked exactly while the first row added for it runs, and never without one. |
| AuthProvenance.EverySessionIsRooted | internal/application/auth_service.go:106-274 | In every run each session traces, through refreshes, to a registration, to a password match for the subject its access token names with no second factor asked for, or to a completed login whose partial token, less than five minutes old, was handed out after a password match for that subject, and whose code was a six-digit code that the TOTP library confirmed or a stored backup code. |
| AuthProvenance.PartialTracesBack | internal/application/auth_service.go:198-216 | A partial token that parses was handed out by a login after a password match of the parsed subject that asked for a second factor, and has not expired. |
| AuthProvenance.RowsAreMade | internal/application/token_service.go:174-236 | Every refresh row was made for a session that an earlier call returned, with that raw token and that subject. |
| AuthSecondFactor.RecordStep | internal/application/auth_service.go:284-385 | The record of one subject after any call: replaced by an enrolment, gone after disabling, confirmed and one code shorter after a verification, and untouched by every call on another record, equal ids of users and admins included. |
| AuthSecondFactor.EnrolmentIsExact | internal/application/auth_service.go:284-385 | After any run a record is enrolled if and only if a right code of its subject (confirmed by the TOTP library, or a stored backup code) was presented with no enrolment and no disabling since, or it was enrolled at the start and never cleared. |
| AuthBackupBudget.CodesAreConserved | internal/application/auth_service.go:363-376 | Since an enrolment the stored hashes are, in order, the issued ones minus those spent. |
| AuthBackupBudget.BackupBudget | internal/application/auth_service.go:363-376 | Successful backup verifications and hashes left are together at most the codes issued, and exactly as many when the hashes are distinct. |
| AuthBackupBudget.EachCodeWorksOnce | internal/application/auth_service.go:363-376 | With distinct codes issued, no code is accepted twice between two enrolments. |
| AuthBackupBudget.SpentWasIssued | internal/application/auth_service.go:363-376 | A backup verification spends the hash of an issued code that reads as typed and was not spent before. |
| AccountFlows.RefreshCarriesAccount | internal/application/token_service.go:325-374 | A refresh mints exactly when its row has no revocation time, its expiry is after the reading, the owner is a live account and the new id is free; the access token then verifies as that account with its present role and email; otherwise no row is added. |
| AuthLogout.LogoutEndsSession | internal/interface/http/handlers.go:159-180 | At every later point of a run the refresh token of a logout is refused, and its access token is accepted only by a call that parses it before its expiry and queries after the first row of its id ran out. |
| AuthLogout.ForceLogoutEndsSessions | internal/infrastructure/persistence/postgres/refresh_token_repo.go:66-77 | At every later point of a run after a forced logout, no refresh token that the subject had then is accepted. |
| AuthLogout.RunStaysRefused | internal/infrastructure/persistence/postgres/refresh_token_repo.go:28-77 | A raw token whose row is revoked finds that row, still revoked, after any further calls. |
| AuthLogout.RunKeepsRevoked | internal/infrastructure/persistence/postgres/revoked_jti_repo.go:15-36 | No call of a run takes a revoked id out of the set or replaces its row. |
| AccountFlows.ResetLeadsToLogin | internal/application/auth_service.go:398-476 | Request, confirmation within the hour with the token typed with or without white space around it, login: the new password logs in to the account the email named or asks for its second factor, every earlier session of the account is revoked, and the token is refused a second time. |
| AccountFlows.RegistrationLeadsToLogin | internal/application/auth_service.go:234-274 | A registered email, however written, and its password log in to the new account, with a session exactly when it is not enrolled; a second registration of the email under any id changes nothing and is a conflict, or invalid for its own fields. |
| AccessTokens.VerifyUndoesMint | internal/application/token_service.go:174-291 | For every access audience or the empty one, VerifyAccess of a minted token returns the minted claims before expiry, ErrTokenExpired after it, and ErrTokenRevoked while its id is revoked. |
| AccessTokens.PartialIsNotAccess | internal/application/token_service.go:152-291 | A partial token passes VerifyAccess only while live and only for the service's own audience, never for an access audience. |
| AccessTokens.ParseUndoesMintPartial | internal/application/token_service.go:152-433 | The subject of a partial token comes back exactly until it expires. |
| AccessTokens.AccessIsNotPartial | internal/application/token_service.go:418-433 | No access token parses as a partial token. |
| AccessTokens.AcceptanceIsAStretch | internal/application/token_service.go:454-502 | A token accepted at two times is accepted at every time between, with the same claims, and for another audience exactly when it names that one too. |
| AccessTokens.ExpiryIsFinal | internal/application/token_service.go:454-502 | Once a token is reported expired, every later call reports the same, for every audience. |
| AccessTokens.RevokedTokenVerdict | internal/application/token_service.go:246-291 | Once an id is in the set, and after any further additions, a call refuses its token exactly when it had expired at the parse or the first row had not run out at the query. |
| AccessTokens.RevocationHasNoGap | internal/infrastructure/persistence/postgres/revoked_jti_repo.go:15-45 | For calls with one clock reading: the token is refused at every time if and only if the first row lives at least as long as the token. |
| AccessTokens.FirstAddStays | internal/infrastructure/persistence/postgres/revoked_jti_repo.go:15-36 | No sequence of additions replaces the first row of an id. |
| AccessTokens.LogoutRevokes | internal/interface/http/handlers.go:167-178 | A logout with a live token leaves its id in the set until the token's own expiry, unless a row was there first. |
| AccessTokens.ExpiryBetweenReadings | internal/application/token_service.go:246-291 | With two clock readings a revoked token is accepted if and only if its expiry falls after the parse and not after the query. |
| AccessTokens.RevokedTokenAcceptedAtExpiry | internal/application/token_service.go:246-291 | A concrete token, logout and call for which this happens. |
| RateLimiter.IpRateLimiter.Allow | internal/interface/http/public_handlers.go:46-84 | Over real arrays compacted in place, with sweeps and deletions, each call answers as the specification over the history of all calls does, and the lists and last sweep are those of the history. |
| RateLimiter.AllowIp | internal/interface/http/public_handlers.go:46-50 | Callers without an address share the one key "unknown". |
| RateLimiter.HitTable.Hit | internal/interface/http/public_handlers.go:71-83 | One key's list is compacted in place and extended or refused; other keys keep their lists and their own backing arrays. |
| RateLimiter.HitTable.Sweep | internal/interface/http/public_handlers.go:55-70 | Every key's list is compacted in the backing array the key had, and the keys left empty are deleted. |
| LimiterSpec.ListsTrackHistory | internal/interface/http/public_handlers.go:55-83 | With an ordered clock a key's list is, above the cutoff, its admissions over the whole history. |
| LimiterSpec.ListsStayShort | internal/interface/http/public_handlers.go:79-83 | No list is ever longer than the limit. |
| LimiterTheorems.RefinesPlainHistory | internal/interface/http/public_handlers.go:55-83 | Sweeps, deletions and other keys change no answer: a key's admissions are those of the rule over its own whole past. |
| LimiterTheorems.AnswerIsPlain | internal/interface/http/public_handlers.go:55-83 | A call is let through if and only if fewer than `limit` admissions of its key in the whole history are later than now minus the window. |
| LimiterTheorems.WindowBound | internal/interface/http/public_handlers.go:46-84 | With readings at most d below any earlier one, an interval shorter than window - d holds at most `limit` admissions of a key. |
| LimiterTheorems.ManyWindowsBound | internal/interface/http/public_handlers.go:46-84 | m consecutive such windows hold at most m times the limit. |
| LimiterTheorems.AllowIsOptimal | internal/interface/http/public_handlers.go:71-83 | With an ordered clock no policy that keeps every window within the limit ever lets through more calls of a key, unless the limit is zero over a window of no length. |
| LimiterTheorems.NoWindowIsNoBound | internal/interface/http/public_handlers.go:35-43 | In that one case the bound is lost. |
| LimiterTheorems.AnswersAreFeasible | internal/interface/http/public_handlers.go:71-83 | The limiter's own answers keep every window within the limit. |
| LimiterTheorems.IdleKeysAreForgotten | internal/interface/http/public_handlers.go:54-70 | With an ordered clock, after any call no list of any key keeps an entry older than one window and one sweep interval. |
| LimiterTheorems.TenInAQuarterHour | internal/interface/http/public_handlers.go:86-88 | The public limiter lets a caller through at most ten times in any quarter of an hour, and always while it has been let through fewer than ten times in the last one. |
| Shuffle.ShuffleInPlace | internal/application/password.go:58-62 | The descending loop of swaps turns the array into the shuffle of its old content by the draws. |
| Shuffle.ShuffleIsUnbiased | internal/application/password.go:58-62 | For every length and distinct elements, every arrangement comes from exactly one sequence of draws. |
| Shuffle.ShufflePermutes | internal/application/password.go:58-62 | The shuffle is a permutation, for every sequence of draws. |
| Password.GeneratePassword | internal/application/password.go:41-64 | The password has exactly 16 characters, each a letter other than i, l and o in either case, a digit from 2 to 9 or one of eight symbols, with at least one of each class, for all draws. |
| Password.EveryPasswordComesOut | internal/application/password.go:41-64 | The converse: every such string comes out for some picks and draws, so nothing is ruled out. |
| Password.AlphabetsAreDistinct | internal/application/password.go:42-46 | No alphabet lists a character twice. |
| Password.EveryOrderExactlyOnce | internal/application/password.go:50-63 | Every order of the 16 prepared positions comes from exactly one sequence of 16 draws. |
| BackupCodes.GenerateBackupCodes | internal/infrastructure/external/totp/totp.go:126-139 | As many codes as asked for, eight for zero or less, one per buffer of six random bytes, or an error when the random source runs dry first. |
| BackupCodes.CodeSpellsTheBytes | internal/infrastructure/external/totp/totp.go:132-136 | For input of any length the code, over A to Z and 2 to 7, read as a number in base 32, is the number that the bytes make followed by the fewest zero bits that fill its last character (section 6 of RFC 4648, without padding). |
| BackupCodes.Base32IsInjective | internal/infrastructure/external/totp/totp.go:132-136 | Inputs of one length with the same code are the same bytes (section 6 of RFC 4648, without padding). |
| BackupCodes.CodesAreNormal | internal/application/auth_service.go:495-505 | Trimming and upper-casing leave a code alone, and it never has the shape of a TOTP code. |
| BackupCodes.IssuedCodeWorks | internal/application/auth_service.go:339-381 | Right after an enrolment each returned code passes through the backup branch, confirms the enrolment and loses exactly its own hash. |

## Left out

- HTTP decoding, routing, middleware, `clientIP`, `writeError`, metrics, JSON views of accounts, JWKS, key loading: one-branch plumbing.
- The inside of RSA, HMAC, SHA-256, bcrypt, AES-GCM, TOTP and the token library; the bcrypt run that only equalises timing.
- `UserAgent` and IP columns, `last_used_at`, and notification of other services when an id is revoked.
- `ListActive` of the revoked ids: one filtering loop for an operator's view.
- Branches for missing wiring of the account repositories in `Refresh`, and library failures inside `Enroll2FA` and `MintPartial2FA`: each returns an error before any change.
- Unicode white space and case in `strings.TrimSpace`, `ToLower` and `ToUpper`: characters are single bytes.
- Saturation of Go's `Duration` and `Time` arithmetic: times are unbounded integers.
- `requires_2fa` of an admin is a plain boolean: a NULL in that column, which the store reads as true, is not a separate value.
- Password checks of a login, `Enroll2FA` and `Verify2FA` as separate steps of the interleaving: a login enters the step machine after its checks, and the other two are whole calls only, because the code does not order their reads and writes against concurrent calls.
- Logins already past their password check when a subject is revoked: the code does not bound them, so their rows count as later logins.
- Uniqueness of emails under concurrent registration: it rests on an index that belongs to another repository.
- ProtocolTheorems.ForceLogoutIsComplete: says nothing of a RevokeBySubject that fails; `Refresh` ignores that failure and the force-logout then does not take place.
- ProtocolSequential.ReplayKillsFamily: the one replayed call runs while no other call is in flight; `ForceLogoutIsComplete` covers the rest.
- AuthProvenance.EverySessionIsRooted: for runs of whole calls with a store that does not fail; `LoginUser` treats a failed read of the second factor as no second factor.
- ProtocolClaims.LoginSpeaksAsStarted: the claims a login is started with come from its checks, which are not steps of the machine; `EverySessionIsRooted` covers them for whole calls.
- AccessTokens.RevocationHasNoGap: for calls whose two clock readings agree; `ExpiryBetweenReadings` states the rest.
- AuthBackupBudget.EachCodeWorksOnce: for runs of whole calls; two concurrent verifications may both accept one code.
- AccountFlows.ResetLeadsToLogin: for passwords of at most 72 bytes, the bound of bcrypt; longer ones are refused before the record is marked.
