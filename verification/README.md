# Schlass, modelled in Dafny

Schlass is an OIDC / OAuth identity provider. This project models the state its
handlers keep in PostgreSQL and Valkey, and proves what that state guarantees over
whole runs: refresh-token families, authorization codes, signing keys, `revoke_before`
cutoffs, sessions, limiters, lockout, MFA, the last-admin protocol, client secrets,
settings with their audit log, and the user search.

`dafny verify dfyconfig.toml` checks everything.

## How it is built

- **Stores and handlers** are classes whose methods follow the Go code step by step
  (`ValkeyRefreshStore`, `AuthCodeTable`, `KeyTable`, `CutoffStore`, `ClientRow`,
  `AuthServer`, `ValkeyStore`, `RateLimiter`, `TokenRateLimit`, `UserRow`, `TotpUser`,
  `UsersHandler`, `SettingsHandler`). Each method is proved to compute a function of the
  old state.
- **Machines** (`World` and one per smaller component) apply those functions as steps.
  A theorem takes any run of steps and talks about the state reached.
- `Provenance` names, for every code and token of a run, the step that made it.
- `World` is the authorization server: clock, code table, refresh store with per-key
  deadlines and family index sets, key table, cutoffs, settings, and a log of all that
  was ever issued, which no step reads. `Families` holds the invariant of codes and
  refresh tokens; `FamilyTheorems`, `RotationTheorems`, `KeyTheorems`, `CutoffTheorems`
  and `LineageTheorems` draw the consequences, and `LateRuns` holds the runs in which a
  law fails in the last fractions of a second. `TokenHandler.AuthServer` runs the token
  endpoint and the bearer check over the real stores and is proved to take exactly
  these steps.

Conventions:

- Time is in millisecond ticks (microseconds in the sliding-window limiter, seconds for
  TOTP). A Valkey key is live while `now < deadline`. Token payloads carry whole
  seconds. Valkey's `TTL` answer is rounded to the nearest second, as the server does.
- A token stands for its hash; hashes, secrets and code challenges are injective. Random
  tokens, codes and uuids are new when drawn. Which active key `GetActive` answers
  (`LIMIT 1`) is left open.
- A handler or store method is one step, except in `SlidingWindow`, `LateStamps`,
  `Lockout`, `MfaChallenge`, `LastAdmin`, `StaleLocks`, `KeyRotation` and
  `KeyAvailability`, where the commands or statements of concurrent requests interleave.
- Commits and transport do not fail. A rate-limited request is no step.
- The settings snapshot reads an unset string as `""` and an unset integer as 0, as
  `instanceconfig` does; on first boot that is so for `smtp_port`. The
  verdict of `net/mail` on `smtp_from` and the one-time password of a TOTP step are
  parameters.

## What came out differently

- **Last half second of a family.** `MarkUsed` re-sets the key with the answer of `TTL`,
  rounded to whole seconds, and does nothing when that is 0. So a rotation less than half
  a second before the expiry leaves the presented token unused
  (`LateRotationLeavesTwoUnused`), and a timely one can end the presented token's key up
  to half a second before the family: from then on it answers unknown, its successor is
  still fresh, and nothing is revoked (`LateReuseGoesUnnoticed`). `RotationRetiresIff`
  gives the exact condition for one rotation, `FreshIff` and `AnswerIff` the exact answer
  for every token, run and instant. The family laws hold without exception up to half a
  second before the absolute expiry, and to the very end for clocks that move in whole
  seconds (`WholeSecondReuse`, `WholeSecondRevoked`, `WholeSecondReplay`).
- **Index set and key deadlines** are set from sub-second clocks but whole-second TTLs,
  so past the absolute expiry an index set can lapse before a key it lists
  (`LateRevocationMissesAKey`); `DeadForeverIff` says exactly when a revocation leaves
  nothing readable for good. A leftover can never be rotated (`RevokedForever`).
- **Sweeping and replay.** A code row stays until seven days after its expiry, and no
  longer once a sweep runs (`SweepKeepsRowIff`). With the longest refresh TTL, a key
  re-issued late in a second is still live, past the absolute expiry, when the row of its
  code is swept (`LateSweepLosesTheRow`); a replay then revokes nothing.
  `ReplayEmptiesIff` says exactly when a replay leaves nothing readable.
- **Scope order.** Narrowed scopes are a subsequence of the parent's scopes, and each
  is allowed to the client, but their order follows the grant and not the client's list
  (`OrderFollowsGrant`); `OrderFollowsClientIff` says exactly when the two agree.
- **The last active super_admin.** `lockSuperAdminsForUpdate` runs at READ COMMITTED: a
  statement that waits keeps the rows of its old snapshot, so accounts promoted meanwhile
  are locked by nobody, and two transactions can each count the other's target
  (`StaleLocksLeaveNoAdmin`). `AcquireTakesAllIff` gives the exact condition for a
  complete lock, and every run that meets it keeps an active super_admin.
- **Concurrent key rotations** are serialised by nothing: each one whose `MarkRetiring`
  matches no row adds an active key (`ActiveKeysCounted`). Published keys suffer nothing:
  `rotated_at` is the start of the transaction, and the retire window leaves over 23 hours
  for it to commit and for a request to sign (`SlackIsExact`).
- **Late stamps.** The limiter draws its stamp before the pipeline runs; with stamps up
  to a skew late the bound holds for intervals shorter by the skew, and not for the full
  window: `IntervalLawIff` shows that length to be exact.
- `docs/security.md` line 66 says a refresh deletes the presented token; the code flags
  it used and keeps it, which is what makes reuse detectable. The model follows the code.
- `docs/security.md` lines 32 and 70 say the client cutoff rejects refresh tokens; the
  refresh grant never reads it. Refresh fails because the client is gone
  (`DeletedClientIsGone`).
- `docs/security.md` line 40 says the challenge key is deleted after five failures; a
  failed recovery code deletes nothing, the sixth request does. The bound of five holds
  either way.
- The comment at `internal/signingkeys/lifecycle.go` lines 63-65 relates the retire
  window to the refresh TTL; the constant is 15 min + 24 h + 30 s and covers the longest
  access TTL (3600 s) plus skew, which is what key availability needs.
- The fixed-window limiter admits up to 2 * limit - 1 requests in a minute, and that is
  attained (`MinuteBound`, `MinuteBoundIsTight`).

## Model

| member | source | states |
|---|---|---|
| Scopes.NarrowExact | internal/authserver/token.go:29-44 | the narrowed scopes are the largest subsequence of the grant inside the client's allowed scopes; the error means no granted scope is allowed |
| Scopes.OrderFollowsClientIff | internal/authserver/token.go:29-44 | the narrowed scopes are also a subsequence of the client's list iff every two granted scopes that the client allows stand in the client's order |
| Scopes.OrderFollowsGrant | internal/authserver/token.go:29-44 | a grant in the other order keeps its own |
| Scopes.ValidateScopes | internal/clients/validate.go:36-51 | a client's list is accepted iff its entries are known, non-empty and without duplicates |
| Scopes.IntersectScopesAgainstClient | internal/authserver/token.go:29-44 | the two loops (fill the set, filter the grant) compute that narrowing |
| RefreshStore.ValkeyRefreshStore.Create | internal/oidc/refresh_store.go:56-85 | refuses at the absolute expiry; otherwise token key and index set get one common deadline, other keys untouched |
| RefreshStore.ValkeyRefreshStore.Consume | internal/oidc/refresh_store.go:87-104 | unknown, reused or fresh, read-only |
| RefreshStore.ValkeyRefreshStore.MarkUsed | internal/oidc/refresh_store.go:107-143 | flags a live unused key, keeping its remaining time as TTL rounds it; nothing when that is 0 |
| RefreshStore.ValkeyRefreshStore.RevokeFamily | internal/oidc/refresh_store.go:145-160 | deletes every token in the live index set and the set, nothing else |
| RefreshStore.RotationRetiresIff | internal/oidc/refresh_store.go:107-143 | a rotation makes the presented token answer as reuse if and only if at least 500 ms are left on it; the successor is fresh |
| RotationTheorems.FreshIff | internal/authserver/token.go:738-759 | over every run a live token is accepted as fresh iff each of its rotations, if any, left under 500 ms on its key |
| RotationTheorems.AnswerIff | internal/oidc/refresh_store.go:87-143 | over every run, at every instant, for every token ever issued: reuse iff stored, rotated with at least 500 ms left, and the key marked then not lapsed; fresh iff stored, not so rotated, and before its first deadline; an unrevoked family stores all its tokens |
| LateRuns.LateRotationLeavesTwoUnused | internal/authserver/token.go:738-759 | for every valid refresh TTL a run of the server (authorize, exchange, wait, refresh 300 ms before expiry) ends with two unused live tokens of one family |
| LateRuns.LateRevocationMissesAKey | internal/authserver/token.go:586-606 | for every valid refresh TTL a run of the server ends with a reported reuse, half a second past the expiry, that leaves a readable key of the revoked family |
| AuthCodes.AuthCodeTable.Insert | internal/authserver/authcode_store.go:39-49 | adds the row |
| AuthCodes.AuthCodeTable.ConsumeOnce | internal/authserver/authcode_store.go:53-71 | returns the row iff it is present, unused and unexpired, marks it used, and no second call at that instant can succeed |
| AuthCodes.AuthCodeTable.LookupFamilyByCodeHash | internal/authserver/authcode_store.go:74-78 | the family of any row present, spent or not |
| AuthCodes.AuthCodeTable.Sweep | internal/server/sweeper.go:58-59 | keeps exactly the rows whose expiry is at most seven days past |
| SigningKeys.KeyTable.GetActive | internal/signingkeys/store.go:75-93 | some active key, or none exists |
| SigningKeys.KeyTable.MarkRetiring | internal/signingkeys/store.go:96-105 | demotes an active key and stamps it, nothing otherwise |
| SigningKeys.KeyTable.MarkRetired | internal/signingkeys/store.go:108-117 | retires a retiring key, nothing otherwise |
| SigningKeys.KeyTable.ListRetirable | internal/signingkeys/store.go:120-140 | the retiring keys demoted more than the retire window ago |
| SigningKeys.KeyTable.RetireSweep | internal/signingkeys/lifecycle.go:66-101 | retires exactly the retirable keys |
| SigningKeys.KeyTable.Rotate | internal/signingkeys/handler.go:40-108 | demotes the active key, inserts the new one, sweeps; nothing without an active key |
| SigningKeys.KeyTable.EmergencyRetire | internal/signingkeys/handler.go:130-208 | retires a retiring key at once; refuses unknown, active and retired ones |
| SigningKeys.KeyTable.Bootstrap | internal/signingkeys/lifecycle.go:18-61 | inserts an active key iff there is none |
| SigningKeys.KeyTable.LookupPublishable | internal/authserver/bearer_middleware.go:49-60 | the loop over published keys finds a kid iff its key is not retired |
| SigningKeys.SweptRowExact | internal/signingkeys/handler.go:102 | a demoted key is kept for exactly 24 h 15 min 30 s |
| SigningKeys.EmergencyExact | internal/signingkeys/handler.go:154-184 | each answer of the emergency retirement iff its own condition, and its effect |
| SigningKeys.BootstrapExact | internal/signingkeys/lifecycle.go:18-61 | a table without an active key gets exactly one, another stays |
| SigningKeys.RotationExact | internal/signingkeys/handler.go:68-105 | every row after a rotation |
| RevokeBefore.CutoffStore.RevokeBeforeSetNow | internal/session/revokebefore.go:51-54 | the cutoff is the next whole second, for 30 days |
| RevokeBefore.CutoffStore.RevokeBeforeGet | internal/session/revokebefore.go:59-72 | the cutoff while its key is live |
| RevokeBefore.CutoffAnswers | internal/session/revokebefore.go:26 | a cutoff answers for exactly 30 days, with the second after it was set |
| ClientSecrets.ClientRow.RotateSecret | internal/clients/store.go:257-281 | the current hash becomes the previous one for 24 h |
| ClientSecrets.ClientRow.Disable | internal/clients/store.go:284-301 | succeeds iff the client was active |
| ClientSecrets.ClientRow.Enable | internal/clients/store.go:304-321 | succeeds iff the client was disabled |
| ClientSecrets.ClientRow.VerifySecret | internal/clients/store.go:119-143 | current hash, or previous hash inside the overlap, on an active client |
| ClientSecrets.RowMatchesHistory | internal/clients/store.go:257-321 | after any run the row is determined by the history of secrets, the time since the last rotation and the last status change |
| ClientSecrets.AcceptedSecrets | internal/clients/store.go:119-143 | after any run an active client accepts exactly the newest secret, and the one before while under 24 h have passed since the last rotation; a disabled one accepts none |
| World.ExchangeCases | internal/authserver/token.go:122-459 | an exchange redeems its code and grants exactly when every check passes, with exactly these tokens; otherwise nothing is signed and, exactly: a request not admitted changes nothing, a code that cannot be consumed is replayed, one that does not match is spent, a server error is rolled back |
| World.ExchangeErrors | internal/authserver/token.go:128-355 | each error of the code grant iff its own condition |
| World.RefreshCases | internal/authserver/token.go:541-802 | a refresh rotates exactly when every check passes; otherwise nothing is signed, and the family is revoked iff the token is reported as reuse or fits and its user is disabled or cut |
| World.RefreshErrors | internal/authserver/token.go:562-634 | each error of the refresh grant iff its own condition |
| TokenHandler.ContainsString | internal/authserver/authorize.go:328-335 | the search loop finds exactly the members |
| TokenHandler.AllContained | internal/authserver/authorize.go:114-119 | the loop over requested scopes accepts iff every one is allowed |
| TokenHandler.ParseUint | internal/authserver/authorize.go:344-356 | the accumulating loop yields the decimal value modulo 2^64, and refuses exactly the empty string and non-digits |
| TokenHandler.AuthServer.CheckRequest | internal/authserver/authorize.go:57-119 | passes iff the client is active, the redirect registered, response_type code, state and S256 challenge present, openid requested and every scope allowed |
| TokenHandler.AuthServer.CheckLogin | internal/authserver/authorize.go:121-158 | passes iff prompt and max_age are well-formed and the session is there, not to be renewed, and no older than max_age |
| TokenHandler.AuthServer.HandleAuthorize | internal/authserver/authorize.go:57-218 | the whole handler mints a code iff all of these pass, with the request's client, user, redirect and challenge, the scopes asked for, and 60 s; it is one authorize step of the server |
| TokenHandler.AuthServer.AuthenticateClient | internal/authserver/token.go:145-162 | a client is returned iff it is known, active and the secret verifies |
| TokenHandler.AuthServer.HandleCodeReplay | internal/authserver/token.go:463-494 | the family of the code's row, if any, is revoked |
| TokenHandler.AuthServer.VetCode | internal/authserver/token.go:185-355 | the checks after consumption, in order, with their error |
| TokenHandler.AuthServer.IssueTokens | internal/authserver/token.go:357-420 | signs with an active key; without one the consumed code is rolled back |
| TokenHandler.AuthServer.IssueOffline | internal/authserver/token.go:403-420 | creates the first refresh token with offline_access; a refusal rolls the consumed code back |
| TokenHandler.AuthServer.HandleAuthorizationCode | internal/authserver/token.go:122-459 | the whole handler is one exchange step of the server |
| TokenHandler.AuthServer.HandleRefreshToken | internal/authserver/token.go:541-802 | the whole handler is one refresh step of the server |
| TokenHandler.AuthServer.BearerAuth | internal/authserver/bearer_middleware.go:37-141 | the chain of tests decides the acceptance predicate |
| Families.StepKeeps | internal/authserver/token.go:738-759 | every step of the server keeps the invariant of codes, families, token keys and index sets |
| Families.ReachableInv | internal/oidc/refresh_store.go:56-160 | so the invariant holds at every point of every run |
| FamilyTheorems.OneUnusedToken | internal/oidc/refresh_store.go:56-143 | over every run: while one token of a family is accepted as fresh, any other ever issued in it is reported as reuse, always up to half a second before the family's expiry, and from then on exactly while its marked key lasts |
| FamilyTheorems.ReuseKillsFamily | internal/authserver/token.go:586-606 | at every instant a token that reports reuse is refused and its family revoked: before the expiry every key goes, at any time nothing is readable iff the index set was live or nothing was; up to half a second before the expiry every token but the fresh one reports reuse |
| LateRuns.LateReuseGoesUnnoticed | internal/oidc/refresh_store.go:107-143 | for every valid refresh TTL a run of the server in which, before the absolute expiry, a superseded token answers unknown and changes nothing while its successor is fresh |
| FamilyTheorems.RevokeEmpties | internal/oidc/refresh_store.go:145-160 | RevokeFamily before the absolute expiry removes every key of the family |
| FamilyTheorems.RevokeEmptiesIff | internal/oidc/refresh_store.go:145-160 | at any time, RevokeFamily leaves no readable token iff the index set is live or nothing was readable |
| FamilyTheorems.RevokedForever | internal/authserver/token.go:647-673 | after RevokeFamily(f) no continuation issues a token of f, no refresh or exchange for f succeeds, and, if it came before the expiry, no key of f is ever stored again |
| FamilyTheorems.DeadForeverIff | internal/oidc/refresh_store.go:145-160 | whenever the call comes: no continuation has a readable token of f iff the index set was live at the call or nothing was readable |
| FamilyTheorems.SweepKeepsRowIff | internal/server/sweeper.go:58-59 | over every run a code row whose client exists is present until seven days after its expiry, and a sweep keeps it iff that has not passed |
| FamilyTheorems.CodeRowOutlivesFamily | internal/settings/validate.go:83-88 | so, with refresh TTLs of at most seven days, the spent row of a family is in the table while its absolute expiry lies ahead |
| LateRuns.LateSweepLosesTheRow | internal/server/sweeper.go:58-59 | a run of the server after which a token is readable, past the absolute expiry, and the row of its code is gone |
| FamilyTheorems.ReplayEmptiesFamily | internal/authserver/token.go:463-494 | before the absolute expiry, replaying the code removes every key of the family |
| FamilyTheorems.ReplayEmptiesIff | internal/authserver/token.go:463-494 | at any time, a replay by an authenticated client leaves no token of an unrevoked family readable iff the row is there and the index set live, or nothing was readable |
| FamilyTheorems.RetentionIsTight | internal/settings/validate.go:83-88 | with three milliseconds less retention a row would go while its refresh token can still be rotated |
| FamilyTheorems.WholeSecondReuse | internal/oidc/refresh_store.go:56-143 | on a whole-second clock reuse detection holds while any token is live |
| FamilyTheorems.WholeSecondRevoked | internal/oidc/refresh_store.go:145-160 | on a whole-second clock no token of a revoked family is ever live |
| FamilyTheorems.WholeSecondReplay | internal/authserver/authcode_store.go:53-78 | on a whole-second clock the code row is present while any token of its family is live |
| KeyTheorems.OneActiveKeyAlways | internal/signingkeys/handler.go:62-105 | every run of whole rotations keeps exactly one active key, and statuses only move active, retiring, retired |
| KeyRotation.ActiveKeysCounted | internal/signingkeys/handler.go:68-105 | over every interleaving of the statements of concurrent rotations: one active key plus one per committed rotation whose MarkRetiring matched no row, so exactly one iff every one matched |
| KeyRotation.ConcurrentRotationsLeaveTwo | internal/signingkeys/store.go:96-105 | two rotations that read the same key leave two active ones |
| KeyTheorems.KidIsPublished | internal/signingkeys/lifecycle.go:63-101 | an access token inside exp + 30 s has its kid published iff that key was not emergency-retired |
| KeyAvailability.KidIsPublished | internal/signingkeys/handler.go:68-105 | the same over every interleaving of rotation statements, sweeps, key reads and signatures whose delays fit into the slack of the retire window |
| KeyAvailability.SlackIsExact | internal/signingkeys/handler.go:102 | no token ever loses its key iff commit and signing delays together fit into that slack |
| CutoffTheorems.BlocksExactly | internal/session/revokebefore.go:51-72 | a stamp is blocked exactly by the cutoffs of the last 30 days set in its second or later |
| CutoffTheorems.LapseIsHarmless | internal/session/revokebefore.go:26 | for tokens inside their lifetime the 30-day lapse changes nothing |
| CutoffTheorems.BearerExact | internal/authserver/bearer_middleware.go:68-134 | over every run BearerAuth accepts an issued token iff it is at most 30 s past its expiry, its user is active, its key was not emergency-retired, and neither user nor client was ever cut in or after its second |
| CutoffTheorems.CutoffIsPermanent | internal/authserver/token.go:669-691 | a cutoff at t rejects, in every continuation, every access and refresh token of the user stamped in second floor(t) or before |
| CutoffTheorems.DisablingIsPermanent | internal/users/handler.go:539-599 | disabling a user makes the user inactive and ends, in every continuation, enabling included, every token stamped until then |
| CutoffTheorems.CuttingIsPermanent | internal/session/revokebefore.go:51-54 | so does every other step that sets a user's cutoff |
| CutoffTheorems.EnablingActivates | internal/users/handler.go:606-665 | enabling activates the user and changes nothing else |
| CutoffTheorems.RefusalRevokesIff | internal/authserver/token.go:586-691 | over every run a refused refresh revokes the family iff the token is reported as reuse, or is fresh and fits while its user is disabled or was cut in or after its second; otherwise nothing changes; before the expiry no key is left |
| CutoffTheorems.EmergencyIsFinal | internal/signingkeys/handler.go:154-184 | no continuation accepts a token whose key was retired by hand |
| CutoffTheorems.RotationStep | internal/signingkeys/handler.go:68-84 | a rotation activates the new key and demotes the one it read |
| CutoffTheorems.SweepStepExact | internal/signingkeys/lifecycle.go:66-101 | a sweep touches exactly the rows it should |
| CutoffTheorems.RefreshExact | internal/authserver/token.go:541-802 | over every run a refresh is granted iff the client authenticates, the token is fresh and unexpired, client, grant type and some scope fit, the user is active and was never cut in or after the token's second |
| CutoffTheorems.ExchangeExact | internal/authserver/token.go:122-459 | over every run an exchange is granted iff the client authenticates, the code is consumable, client, redirect, PKCE, grant type and some scope fit, and the user is active |
| CutoffTheorems.DeletedClientIsGone | internal/clients/handler.go:669-727 | after a client is deleted no continuation accepts an access token of it, or grants an exchange or refresh to it or of anything issued to it |
| LineageTheorems.ChainNarrows | internal/authserver/token.go:738-745 | along any rotation chain scopes only shrink, in order, down from one root |
| LineageTheorems.Lineage | internal/authserver/token.go:738-745 | every refresh token has one root, issued by the exchange of one code; it has the code's user and client, the root's expiry, and scopes narrowed from parent, root and code, all allowed to the client at issue |
| LineageTheorems.AccessLineage | internal/authserver/token.go:378-420 | every access token goes back to an exchanged code, with its user and client and a subsequence of its scopes |
| LineageTheorems.BurntCodesYieldNothing | internal/authserver/token.go:185-355 | a code spent on a mismatch never yields a token and never can; no code founds two families |
| Provenance.MismatchSpendsCode | internal/authserver/token.go:185-355 | a live code presented with another client, redirect or verifier, for an idle user, or by a client without the grant type or any scope, is refused and spent: the row stays, used, and no continuation grants it or holds a token of it |
| Provenance.MintedCodeAnswers | internal/authserver/authorize.go:182-218 | a minted row says exactly what was asked for, for 60 s, and no other row changes |
| Provenance.AccessTokenMade | internal/oidc/claims.go:24-38 | every access token of a run was signed by one of its steps, with an active key, for the access TTL set at that moment, with the presented scopes narrowed to the client's |
| Provenance.RefreshTokenMade | internal/authserver/token.go:404-420 | every refresh token of a run was issued by one of its steps, for that moment's refresh TTL or until its parent's expiry |
| Provenance.AccessScopesWereAsked | internal/authserver/authorize.go:101-119 | no access token carries a scope its authorize request did not ask for |
| Provenance.RefreshScopesWereAsked | internal/authserver/authorize.go:101-119 | nor does a refresh token |
| Sessions.ValkeyStore.CreateWithPendingReturnTo | internal/session/store.go:81-110 | stores the session and indexes it under its user, one deadline |
| Sessions.ValkeyStore.Get | internal/session/store.go:115-144 | the session iff live; touches it and slides both deadlines |
| Sessions.ValkeyStore.Delete | internal/session/store.go:146-154 | removes the key, and the entry under the given user; an emptied set goes |
| Sessions.ValkeyStore.ListByUser | internal/session/store.go:156-192 | each live session among the index members once, none else |
| Sessions.ValkeyStore.ClearPendingReturnTo | internal/session/store.go:196-221 | clears the field, keeping the deadline |
| Sessions.ValkeyStore.DeleteAllForUser | internal/session/store.go:223-238 | removes every indexed session and the set |
| Sessions.StepRefines | internal/session/store.go:81-238 | each method does to the live sessions what an index-free store would do |
| Sessions.IndexAgrees | internal/session/store.go:156-192 | after every run the live sessions are those of the index-free reference, and ListByUser(u) is exactly those of u |
| Sessions.GoneStaysGone | internal/session/store.go:115-144 | a token that no longer answers never answers again |
| Sessions.PurgeIsFinal | internal/session/store.go:223-238 | after DeleteAllForUser(u) no session issued to u before is ever returned; other users' sessions are untouched |
| Sessions.DeleteIsClean | internal/session/store.go:146-154 | deleting removes the session and its entry under the given user, and no other entry |
| Sessions.MismatchedDeleteLeavesStaleEntry | internal/session/store.go:146-154 | stale entries exist in the set only, never in a listing |
| SlidingWindow.RateLimiter.Allow | internal/middleware/ratelimit.go:67-90 | trim, add, count, expire; a rejected request takes itself out |
| SlidingWindow.NeverMoreThanLimit | internal/middleware/ratelimit.go:67-90 | with removals delayed arbitrarily and stamps up to a skew late, in any order, no half-open interval of window - skew holds more than limit accepted requests; in order, no window does |
| LateStamps.LateStampFillsInterval | internal/middleware/ratelimit.go:67-90 | for every limit, window and skew a run with limit + 1 accepted requests in an interval one longer |
| LateStamps.IntervalLawIff | internal/middleware/ratelimit.go:67-90 | every run keeps every interval of a given length within the limit iff that length is at most window - skew |
| SlidingWindow.ExpiryDropsNothing | internal/middleware/ratelimit.go:77 | the key's expiry never drops an in-window entry |
| SlidingWindow.SerialIsExact | internal/middleware/ratelimit.go:67-90 | run serially it accepts exactly when fewer than limit were accepted in (now - window, now] |
| FixedWindow.TokenRateLimit.RateLimitCheck | internal/authserver/token.go:497-507 | INCR, EXPIRE on 1, compare |
| FixedWindow.MinuteBound | internal/authserver/token.go:497-507 | no half-open minute admits more than 2 * limit - 1 requests |
| FixedWindow.MinuteBoundIsTight | internal/authserver/token.go:497-507 | and for every positive limit some run admits that many |
| Lockout.UserRow.IncrementFailedLogins | internal/users/store.go:118-150 | counts iff the row is not locked; the lock is reported exactly from the threshold on |
| Lockout.UserRow.ResetFailedLogins | internal/users/store.go:156-171 | clears iff the row is not locked |
| Lockout.UserRow.ClearLockoutForPasswordChange | internal/users/store.go:176-188 | clears always |
| Lockout.BruteForceBound | internal/auth/handler.go:167-209 | over every interleaving the n-th counted failure, n > T, starts more than (n - T) * D after the T-th; the lock event is reported on exactly the T-th and later ones |
| Lockout.LockPersists | internal/auth/handler.go:278-315 | over every interleaving, until locked_until is past only a password change touches counter or lock, and no login succeeds |
| Lockout.LoginExact | internal/auth/handler.go:167-315 | over every interleaving an admitted login succeeds, or its failure is counted, iff fewer failures than the threshold were counted or the last lock is past; a login that looks at a running lock is turned away |
| Lockout.StampsAndClears | internal/users/store.go:176-188 | logins carry the stamp of their beginning; a password change clears counter and lock |
| MfaChallenge.StepKeeps | internal/auth/mfa.go:502-514 | every single Valkey command keeps the answers of HINCRBY distinct and descending |
| MfaChallenge.AtMostFiveVerified | internal/auth/mfa.go:541-573 | over every interleaving, with deletion, expiry and re-creation, at most five requests per challenge reach verification, no two with the same remaining count |
| MfaChallenge.SuccessEndsChallenge | internal/auth/mfa.go:622 | after a successful verification and its DEL no further request of the challenge reaches verification |
| MfaChallenge.VerdictExact | internal/auth/mfa.go:561-622 | a verified request deletes the hash iff it succeeded or failed with a code on the last attempt |
| MfaChallenge.ChallengeLapses | internal/auth/handler.go:428 | a challenge lasts exactly 120 s |
| MfaChallenge.SerialGuesses | internal/auth/handler.go:415-428 | of n consecutive wrong codes exactly the first five are verified |
| Totp.ValidateTotp | internal/crypto/totp.go:26-50 | matches iff some step within one of the current, above the last counter, has that code; prefers 0, then -1, then 1 |
| Totp.TotpUser.PostChallenge | internal/auth/mfa.go:541-585 | an accepted code advances the counter to its step, a refused one changes nothing |
| Totp.TotpUser.AdvanceTotpCounter | internal/users/store.go:339-347 | sets the counter |
| Totp.TotpUser.ClearTotp | internal/users/store.go:327-335 | clears secret and counter |
| Totp.StepsNeverRepeat | internal/auth/mfa.go:561-585 | over every serial run the steps accepted between two ClearTOTP calls strictly increase, each within one of the then current step |
| LastAdmin.RemainingPositive | internal/users/handler.go:131-139 | the count is positive iff an active super_admin exists |
| LastAdmin.UsersHandler.Remove | internal/users/handler.go:525-554 | alone, Disable and Delete refuse exactly an unknown target or the last active super_admin |
| LastAdmin.UsersHandler.Update | internal/users/handler.go:435-459 | alone, a role change is refused exactly for an unknown target or when it demotes the last active super_admin |
| LastAdmin.MutationExact | internal/users/store.go:276-301 | a disabled account keeps row and role and is inactive, a deleted one has no row, no other changes |
| LastAdmin.TableSteps | internal/users/handler.go:606-665 | what each handler does to the committed table |
| LastAdmin.AcquireTakesAllIff | internal/users/handler.go:126-129 | over every interleaving the row locks end up on all super_admin rows iff every current super_admin was one when the SELECT was issued and when its row was reached |
| LastAdmin.StepKeeps | internal/users/handler.go:126-155 | every step in which a completed lock is current keeps: one transaction past its lock, holding an active super_admin |
| LastAdmin.AlwaysAnActiveAdmin | internal/users/handler.go:816-845 | over every interleaving whose locks are current when acquired, each committed state has an active super_admin |
| LastAdmin.QuietPromotionsAreSafe | internal/users/handler.go:126-155 | in particular when nobody becomes super_admin while a lock is awaited |
| StaleLocks.StaleLocksLeaveNoAdmin | internal/users/handler.go:126-129 | an interleaving with promotions during the wait that commits a state without an active super_admin |
| Settings.SettingsHandler.PatchGeneral | internal/settings/handler.go:68-113 | valid: name and audit row written iff the name changes; invalid: nothing |
| Settings.SettingsHandler.PatchSecurity | internal/settings/handler.go:147-230 | each changed key written with its row, in order |
| Settings.SettingsHandler.PatchTokens | internal/settings/handler.go:264-323 | each changed key written with its row, in order |
| Settings.SettingsHandler.PatchEmail | internal/settings/handler.go:362-463 | the same, with trimming, and a masked row for a non-empty password |
| Settings.SettingsHandler.Save | internal/settings/handler.go:204-224 | the loop writes all changes and logs all rows |
| SettingsTheorems.PatchIsOverlay | internal/settings/handler.go:147-230 | a valid patch gives the same configuration as writing every requested value |
| SettingsTheorems.PatchGeneralSets | internal/settings/handler.go:68-113 | after a valid patch the name is the trimmed one given, and no other setting moves |
| SettingsTheorems.PatchSecuritySets | internal/settings/handler.go:154-196 | each security setting has the value of its own field, or its old one when left out, and no other moves |
| SettingsTheorems.PatchTokensSets | internal/settings/handler.go:271-283 | the same for the token settings |
| SettingsTheorems.PatchEmailSets | internal/settings/handler.go:369-432 | the same for the mail settings, host and sender trimmed, an empty password left out |
| SettingsTheorems.ValidIff | internal/settings/validate.go:40-128 | a patch is valid iff each value it gives fits its key and a given sender parses |
| SettingsTheorems.TrimSpaceExact | internal/settings/validate.go:41 | trimming leaves no space at either end and removes only spaces |
| SettingsTheorems.RowPerChange | internal/settings/handler.go:160-196 | a key gets a row iff its value changes (the password: iff given) |
| SettingsTheorems.NoOpIff | internal/settings/handler.go:198-201 | no row is added iff no requested value differs |
| SettingsTheorems.LogReplays | internal/settings/handler.go:68-463 | over every run from any snapshot the rows replay it to the current one but for smtp_password, and each setting on its own is unchanged or passes validation, so one in range stays in range |
| SettingsTheorems.RowNamesReplacedValue | internal/settings/handler.go:204-224 | every row's old value is the one it replaced and differs from the new one |
| SettingsTheorems.TokenSettingsMatchServer | internal/settings/validate.go:76-90 | the server's TTLs follow the settings |
| SearchPattern.PatternMeansContains | internal/users/store.go:223-237 | for all s and e the pattern %escape(s)% matches e under LIKE ... ESCAPE '\' iff e contains s |
| SearchPattern.SearchIsCaseBlindContains | internal/users/store.go:223-237 | and under ILIKE iff the folded e contains the folded s |
| SearchPattern.PatternWellFormed | internal/users/store.go:225-228 | no pattern ends in a dangling escape |
| SearchPattern.UnescapedFails | internal/users/store.go:223-228 | without escaping the law is false |

## Left out

- Cryptography (JWT signing, Argon2id, AES-GCM, PKCE hashing, HMAC): abstract injective functions.
- HTTP decoding, cookies, headers, redirect-URI parsing, SMTP, HIBP, migrations, health check and the web interface.
- ID tokens, nonce, userinfo claims and the audit rows of the token handlers; only the settings audit rows are modelled.
- The rest of the authorize handler: splitting the scope string, deleting the session when a new login is forced, and the error redirects.
- Transport errors, fail-open paths and failed commits: best effort in the source.
- Interleaving of single Valkey commands inside the refresh and session stores: separate reads and writes in the source, so one method or handler is one step.
- Cutoffs against codes still pending exchange: the source does not check them.
- KeyTheorems.OneActiveKeyAlways: a rotation is one step there; interleaved rotations, for which it fails, are the subject of KeyRotation.ActiveKeysCounted.
- SlidingWindow.NeverMoreThanLimit: the four pipelined commands of one request are one step.
- LastAdmin.AlwaysAnActiveAdmin: Update is one atomic transaction, and so are Create and Enable; deadlocks are not detected, a transaction may roll back at any point instead.
- Totp.StepsNeverRepeat: serial challenges only, since two concurrent ones may read the same counter.
- MFA enrolment, recovery-code storage, password reset tokens, client CRUD beyond secrets, status and deletion.
- Pagination and ordering of the user list: settled by reading the query.
