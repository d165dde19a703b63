# ku-work core, modelled in Dafny

ku-work is a job board for students, companies and administrators. A Go
backend (gin, GORM, Redis) stores jobs, applications, users and refresh
tokens; a Nuxt frontend talks to it through an authenticated HTTP client.
This project models the rules at the centre of both halves and proves what
they promise.

Backend:

- Validators: grace-period parsing, limit clamping, the header sanitiser,
  the argon2 hash format and its constant-time comparison, the cookie name
  and its cache, file ids, extensions, sizes and detected content types.
- Sessions and roles: refresh-token verification, the session cap and the
  refresh handler, role and username resolution, and the token clean-up.
- Fixed-window rate limiting for the whole API and for failed sign-ins.
- The mail service: sanitisers, temporary-error classification, logging of
  each send, and the retry pass over the mail log.
- Job creation, partial editing and approval.
- The job listing filters and the application repository.
- Account deactivation, reactivation inside the grace period, and the
  batch anonymiser.

Frontend:

- The loading tracker.
- The HTTP plugin with its single-flight token refresh and its queue of
  waiting requests.
- The auth store and the route guards.
- The terms configuration, the label formatter and the relative-time text.

Database tables and Redis keys are in-memory maps and sequences held by
classes, and SQL queries are filter predicates over them. Asynchronous steps
are events the caller raises: a response arriving, a refresh finishing, a
timer firing. The clock, random ids, hashing and signing are inputs or
uninterpreted functions.

Behaviour of the code worth noting, which the model keeps as written:

- The HTTP plugin refreshes on 403 as well as on 401.
- A failed refresh removes only the token, the username and the role from
  local storage.
- Requests that waited in the queue are sent again without being marked as
  retried.
- After a successful refresh, the retried request's first tracker entry is
  never ended, so the loading tracker does not return to empty until the
  stale-request sweep (Finding A below, and
  `AxiosClient.Client.OnRefreshSucceeded`).
- The session cap can revoke expired tokens in place of active ones
  (Finding B below, and `JwtService.JwtTokenService.GenerateTokens`).
- The label formatter returns an inherited object property for keys such as
  "constructor" (Finding E below, and `Formatter.FormatJobType`).
- A refresh does not revoke the refresh token it used
  (`JwtService.JwtTokenService.RefreshTokenHandler`).
- Any student row, pending or rejected as well as accepted, makes a user a
  student when the role is resolved (Finding F below, and `Common.GetRole`).
- A deactivation check on an empty user id reads the user with the lowest id
  (`Account.IsDeactivated`).
- A company renaming itself to its own current name is told that the name is
  taken (`IdentityService.OwnNameCountsAsTaken`).
- The job listing and the list of soft-deleted users have no defined order.
- The count in the student's application list omits the join on student
  users, so the page may hold fewer rows than the total promises.
- In the viewer guard, the branch for administrators cannot be reached,
  because administrators are refused earlier
  (`RouteGuards.ViewerGuard` never sends anyone to the admin dashboard).

## Model

| member | source | states |
|---|---|---|
| Account.GetGracePeriodDays | backend/helper/account.go:13-25 | the grace period is at least one day; a setting that parses to a positive number is used as is, and an empty, unparsable, zero or negative one gives 30 |
| Account.GracePeriodHonoursSetting | backend/helper/account.go:19-24 | every positive 64-bit number written in decimal is taken as the grace period |
| Account.GracePeriodRejectsNonPositive | backend/helper/account.go:20-22 | every zero or negative setting falls back to 30 days |
| Account.LowestId | backend/helper/account.go:31 | the row read by a lookup without a key: none for an empty table, otherwise a user of the table whose id comes first in the order of ids |
| Account.IsDeactivated | backend/helper/account.go:27-36 | for a non-empty id, true exactly when the user exists, soft-deleted rows included, and carries a deletion time, and a missing user is not deactivated; for an empty id, true exactly when the lowest-id user of the table carries a deletion time |
| Sanitize.SanitizeEmailField | backend/helper/sanitize.go:6-10 | no carriage return or line feed remains, and the result is no longer than the input |
| Sanitize.SanitizeKeepsOthers | backend/helper/sanitize.go:6-10 | the result is the input with exactly the CR and LF characters removed, every other character kept in order |
| Sanitize.SanitizeIdempotent | backend/helper/sanitize.go:6-10 | sanitising a sanitised field changes nothing |
| AdminService.ClampLimit | backend/services/admin_service.go:36-41 | the limit ends between 1 and 64: 0 becomes 32, above 64 becomes 64, anything else is kept |
| AdminService.FetchAuditLog | backend/services/admin_service.go:35-43 | the offset is passed through unchanged and the limit clamped |
| AdminService.FetchMailLog | backend/services/admin_service.go:45-53 | the mail log is paged with the same clamp as the audit log |
| AdminService.ClampIdempotent | backend/services/admin_service.go:36-41 | clamping a clamped limit changes nothing |
| Common.GetRole | backend/helper/common.go:23-40 | as written: an empty id has no role; a resolved role is one the user holds; the user is a student exactly when there is no admin or company row and there is a student row of any approval status |
| Common.GetRoleIsHighest | backend/helper/common.go:27-39 | as written: the resolved role outranks every role the user holds (admin, then company, then any student row, then OAuth viewer), and a user holding any role is never Unknown |
| Common.GetRoleAccepted | backend/helper/common.go:33-35 | the intended lookup: a student exactly when there is no admin or company row and the student row is accepted |
| Common.GetRoleAcceptedIsHighest | backend/helper/common.go:27-39 | the intended lookup returns the highest role held, counting accepted students only |
| Common.PendingStudentIsStudentAsWritten | backend/helper/common.go:33-35 | a user with only a pending student row is a student as written and unknown to the intended lookup |
| Common.GetRolesAgreeOffUnapproved | backend/helper/common.go:33-35 | the two lookups agree for every user whose student row, if any, is accepted |
| Common.GetUsername | backend/helper/common.go:44-61 | company and admin users get their account name, viewers and students "first last" from the OAuth row, and an empty id, an Unknown role or a missing row gives "unknown" |
| Common.CleanupExpiredTokens | backend/helper/common.go:66-76 | a token survives exactly when it is neither expired-and-unrevoked nor revoked more than seven days ago |
| Common.CleanupKeepsActive | backend/helper/common.go:70-75 | cleanup never changes how many active sessions any user has |
| Common.CleanupKeepsRecentlyRevoked | backend/helper/common.go:64-72 | a token revoked within the last seven days is kept for reuse detection |
| Cookie.ParseBool | backend/helper/cookie.go:31 | the six spellings `strconv.ParseBool` reads as true and the six it reads as false, and nothing else |
| Cookie.ParseFormatBool | backend/helper/cookie.go:31 | every boolean written out by `FormatBool` parses back to itself |
| Cookie.SecureUnlessExplicitlyFalse | backend/helper/cookie.go:22-39 | cookies lose the Secure flag exactly when `COOKIE_SECURE` is an explicit false spelling; unset, empty or unparsable means secure |
| Cookie.CanonicalNameInverse | backend/helper/cookie.go:64-68 | a secure name is `__Secure-` followed by the base name, which can be recovered from it; an insecure name is the base name |
| Cookie.CookieNames.constructor | backend/helper/cookie.go:13-19 | the switch is unread and the cache empty |
| Cookie.CookieNames.GetCookieSecure | backend/helper/cookie.go:43-46 | the answer is always the value of the setting, read once; the cache is untouched |
| Cookie.CookieNames.GetCookieName | backend/helper/cookie.go:49-75 | an empty base name is an error that leaves the cache alone; any other gives the canonical name and caches it, and every cached name stays canonical |
| Cookie.CookieNames.GetRefreshCookieName | backend/helper/cookie.go:77-84 | the refresh cookie is named `refresh_token`, prefixed when cookies are secure |
| Password.HashPassword | backend/helper/password.go:21-46 | a failed salt read is the only error, and every stored hash begins with `$argon2id$` |
| Password.ParseHash | backend/helper/password.go:52-57 | a stored form parses exactly when splitting at `$` gives four parts, the first empty and the second `argon2id` |
| Password.ParseEncodeHash | backend/helper/password.go:39-57 | a hash built by `HashPassword` parses back into the encoded salt and key it was built from |
| Password.ConstantTimeEqual | backend/helper/password.go:81-92 | the comparison visits every byte with no early exit and answers true exactly when the keys are equal |
| Password.VerifyPassword | backend/helper/password.go:50-93 | the answer is the format, salt or hash error in that order, else whether the key derived from the candidate equals the stored one |
| Password.HashThenVerify | backend/helper/password.go:21-93 | a password verifies against its own hash, and any candidate verifies exactly when its derived key under the same salt is equal |
| Password.ParsedHashHasPrefix | backend/helper/password.go:55 | only stored forms beginning with `$argon2id$` are accepted |
| RefreshTokens.OldestActiveIds | backend/repository/gorm/refresh_token_repository.go:63-75 | exactly `min(limit, n)` ids for the user's `n` active tokens, and they are the ids of the first active tokens in table (creation) order: the oldest ones the active count counts |
| RefreshTokens.OldestUnrevokedIds | backend/repository/gorm/refresh_token_repository.go:63-75 | exactly `min(limit, n)` ids for the user's `n` unrevoked tokens, expired ones included, and they are the ids of the first unrevoked tokens in table (creation) order, as the query is written |
| RefreshTokens.ActiveTokens | backend/repository/gorm/refresh_token_repository.go:36-43 | the user's tokens that are not revoked and not yet expired, as many as the active count says |
| RefreshTokens.UnrevokedTokens | backend/repository/gorm/refresh_token_repository.go:63-75 | the user's tokens that are not revoked, expired or not, and no others |
| RefreshTokens.FindBySelector | backend/repository/gorm/refresh_token_repository.go:47-59 | a found row carries the selector; no row at all means no row has it |
| RefreshTokens.RevokeOldestActiveCount | backend/repository/gorm/refresh_token_repository.go:78-86 | revoking the `n` oldest active tokens lowers the user's active count by exactly `n`, or to zero when fewer are active |
| RefreshTokens.RevokeIdsKeepsOthers | backend/repository/gorm/refresh_token_repository.go:82-85 | a row whose id is not listed is left as it was |
| RefreshTokens.RevokeAllLeavesNoneActive | backend/repository/gorm/refresh_token_repository.go:97-102 | after revoking all of a user's tokens the user has no active token |
| RefreshTokens.RevokeIdsPreserves | backend/repository/gorm/refresh_token_repository.go:82-85 | a revocation changes no row's id or selector and keeps the row count |
| RefreshTokens.RefreshTokenRepository.constructor | backend/repository/gorm/refresh_token_repository.go:22-24 | an empty table |
| RefreshTokens.RefreshTokenRepository.Create | backend/repository/gorm/refresh_token_repository.go:27-32 | the insert succeeds exactly when the selector is new, appending one unrevoked row with a fresh id; ids and selectors stay unique |
| RefreshTokens.RefreshTokenRepository.RevokeByIDs | backend/repository/gorm/refresh_token_repository.go:78-86 | exactly the listed rows get the revocation time; ids and selectors stay unique |
| RefreshTokens.RefreshTokenRepository.RevokeAllForUser | backend/repository/gorm/refresh_token_repository.go:97-102 | every unrevoked row of the user gets the revocation time and nothing else changes |
| RefreshTokens.RefreshTokenRepository.UpdateRevokedAt | backend/repository/gorm/refresh_token_repository.go:105-110 | the one row with the id gets the revocation time |
| JwtService.VerifyToken | backend/services/jwt_service.go:87-105 | the stored hash is refused as malformed exactly when it does not contain exactly one `$` |
| JwtService.HashTokenSplits | backend/services/jwt_service.go:71-88 | a stored validator hash splits at `$` back into its encoded salt and key |
| JwtService.VerifyTokenRoundTrip | backend/services/jwt_service.go:71-105 | a hashed validator verifies against itself, and any candidate verifies exactly when its derived key under the same salt is equal |
| JwtService.MaxSessions | backend/services/jwt_service.go:146-152 | the cap is at least one: a positive `MAX_SESSIONS_PER_USER` is used, anything else gives 10 |
| JwtService.MaxSessionsHonoursSetting | backend/services/jwt_service.go:148-151 | every positive 64-bit setting written in decimal is used as the cap |
| JwtService.SessionCapLeavesRoom | backend/services/jwt_service.go:154-174 | after the cap step the user has at most `max - 1` active sessions, so the new one keeps the count within the cap |
| JwtService.SessionCapExceededAsWritten | backend/services/jwt_service.go:154-174 | with the selection the repository makes, an expired unrevoked token is revoked in place of an active one and a cap of two ends with three active sessions |
| JwtService.RevokeForCap | backend/services/jwt_service.go:154-174 | the corrected cap step: below the cap nothing changes; it only sets revocation times, keeping every row, id and selector |
| JwtService.RevokeForCapAsWritten | backend/services/jwt_service.go:154-174 | the cap step as written, with the same frame: below the cap nothing changes, and no row, id or selector changes |
| JwtService.VerifyRefreshToken | backend/services/jwt_service.go:200-224 | no `:` is a format error, an unknown selector is not-found, and a verified token is a stored row whose selector, a colon and a validator that verifies against the row's hash make up the input |
| JwtService.IssuedTokenVerifies | backend/services/jwt_service.go:176-224 | a token stored under a fresh url-encoded selector verifies from the combined form `selector:validator` handed to the client |
| JwtService.VerifyRefreshTokenRoundTrip | backend/services/jwt_service.go:186-224 | the combined token `selector:validator` of a stored row verifies to that row |
| JwtService.RefreshRole | backend/services/jwt_service.go:300-309 | admin when an admin row is counted, else company when a company row is, else unknown; never student or viewer |
| JwtService.RefreshUsername | backend/services/jwt_service.go:311-317 | the stored name for company and admin users, "unknown" for every other role or a failed lookup |
| JwtService.JwtTokenService.constructor | backend/services/jwt_service.go:43-67 | the service holds the given repository, primitives and setting |
| JwtService.JwtTokenService.GenerateTokens | backend/services/jwt_service.go:108-191 | as written: a signing failure changes nothing; otherwise the as-written cap revocations stay even if the insert fails, and a successful insert appends one row with the hashed validator and a 30-day lifetime; the returned token verifies to the new row. The cap is not promised (Finding B) |
| JwtService.JwtTokenService.StoreToken | backend/services/jwt_service.go:176-191 | a free selector gets one new row and the combined `selector:validator` token, which verifies to that row; a taken selector fails and changes nothing |
| JwtService.JwtTokenService.GenerateTokensWithinCap | backend/services/jwt_service.go:154-191 | the corrected generation: the same outcomes with the oldest active tokens revoked, and after success the user is within the cap |
| JwtService.JwtTokenService.RefreshTokenHandler | backend/services/jwt_service.go:250-331 | a missing cookie is 401 without clearing it; a bad token is 401 and clears it; reuse of a revoked token revokes every session of the user; an expired token is revoked; a live token is refreshed exactly when signing succeeds and the new selector is free, with the new row appended after the as-written cap step and the role and name rules above, and is a 500 otherwise |
| EmailService.EscapeHeaderValue | backend/services/infraService/email.go:74-76 | no carriage return or line feed remains in a header value |
| EmailService.EscapeHeaderAgreesWithSanitizeField | backend/services/infraService/email.go:74-76 | the header escaper agrees with the helper `SanitizeEmailField` on every input, though it removes the two characters in the other order |
| EmailService.SanitizeEmailContent | backend/services/infraService/email.go:80-87 | no carriage return remains in a body |
| EmailService.SanitizeContentRemovesOnlyCr | backend/services/infraService/email.go:80-87 | rewriting CR LF to LF and then removing every CR is the same as removing every CR |
| EmailService.SanitizeContentKeepsLineFeeds | backend/services/infraService/email.go:80-87 | the body keeps every line feed |
| EmailService.ContainsAnyIff | backend/services/infraService/email.go:153-159 | the pattern scan answers true exactly when some pattern is contained in the text |
| EmailService.IsTemporaryErrorIff | backend/services/infraService/email.go:135-160 | an error is temporary exactly when one of the twelve patterns occurs at some position of the lower-cased message |
| EmailService.TemporaryExample | backend/services/infraService/email.go:146-152 | an SMTP 421 reply counts as temporary |
| EmailService.StatusFor | backend/services/infraService/email.go:113-126 | no error means delivered; an error is a temporary failure exactly when the classifier says so, else permanent |
| EmailService.PositiveSetting | backend/services/infraService/email.go:35-62 | a setting is used when it parses to a positive number; absent, unparsable or non-positive keeps the default |
| EmailService.NewEmailService | backend/services/infraService/email.go:26-72 | a missing provider, then a missing audit repository, is an error; every setting of a built service is at least one |
| EmailService.NewEmailServiceSettings | backend/services/infraService/email.go:35-62 | unset variables give 3 attempts, 30 minutes, 24 hours and 30 seconds; a positive attempts setting is used and an unparsable timeout ignored |
| EmailService.RetryOne | backend/services/infraService/email.go:184-232 | one retry keeps the mail's identity and content; an exhausted mail becomes permanent with its count unchanged, any other gains one attempt and the status of the new answer |
| EmailService.ExhaustedMailStaysTemporaryAsWritten | backend/repository/gorm/audit_repository.go:64-74 | as written the retry query skips a temporary mail whose attempts are used up, so it keeps `temporary_error` for ever |
| EmailService.AsWrittenNeverExhausts | backend/services/infraService/email.go:188-198 | as written no mail the query selects can reach the exhausted branch |
| EmailService.RetryPassMarksExhausted | backend/services/infraService/email.go:188-198 | with the corrected query an exhausted temporary mail inside the retry window is marked permanent |
| EmailService.RetryPassBoundsAttempts | backend/services/infraService/email.go:188-201 | no retry pass raises a mail's count past the maximum |
| EmailService.RetryPass | backend/services/infraService/email.go:186-233 | the corrected pass keeps every row and id, leaves unselected mails untouched, and marks every selected exhausted mail permanent |
| EmailService.RetryPassAsWritten | backend/services/infraService/email.go:163-233 | the pass as written keeps every row and id, leaves unselected mails untouched, and every selected mail gets one more attempt and the status of its send, never the exhausted branch |
| EmailService.Tally | backend/services/infraService/email.go:184-232 | each retried mail adds one to exactly one tally: success exactly when it had attempts left and was delivered, temporary exactly when its new status is temporary |
| EmailService.Mailer.constructor | backend/services/infraService/email.go:64-72 | the service holds its settings and an empty mail log |
| EmailService.Mailer.SendTo | backend/services/infraService/email.go:89-132 | the log row holds the sanitised address, subject and body and the status for the provider's answer; only a failure to save it is returned |
| EmailService.Mailer.RetryFailedEmails | backend/services/infraService/email.go:163-239 | the log becomes the corrected retry pass over the old log, and the tallies add up to the number of mails selected |
| RateLimiter.BucketKeyInjective | backend/services/rate_limiter_service.go:60-61 | two requests share a counter only when they come from the same address, in the same window and the same bucket, whatever characters the address holds |
| RateLimiter.MinuteAndHourKeysDiffer | backend/services/rate_limiter_service.go:60-61 | the minute and hour counters of one request are different counters |
| RateLimiter.SameMinuteSameKey | backend/services/rate_limiter_service.go:60 | two requests within the same clock minute share the minute counter |
| RateLimiter.Bump | backend/services/rate_limiter_service.go:68 | an increment raises exactly one counter by one, a missing counter reading as zero |
| RateLimiter.CounterStore.constructor | backend/services/rate_limiter_service.go:25 | no counters |
| RateLimiter.CounterStore.Incr | backend/services/rate_limiter_service.go:68 | the key's count goes up by one and the new count is returned |
| RateLimiter.Decide | backend/services/rate_limiter_service.go:46-91 | non-positive limits are a configuration error; with two counters the request is allowed exactly when neither exceeds its limit, the minute message taking precedence; a missing repository, a repository error or a wrong number of counters allow exactly when failing open; an allowed request carries no message and no error |
| RateLimiter.AllowStepCounts | backend/services/rate_limiter_service.go:59-68 | a checked request raises exactly its own minute and hour counters by one |
| RateLimiter.AllowRun | backend/services/rate_limiter_service.go:46-91 | one decision per request of a run |
| RateLimiter.AllowRunDecisions | backend/services/rate_limiter_service.go:68-90 | request i of a run is allowed exactly when both counters raised by i + 1 stay within their limits |
| RateLimiter.MinuteBurst | backend/services/rate_limiter_service.go:83-85 | with fresh counters and a minute limit L under the hour limit, the first L requests pass and request L + 1 is refused |
| RateLimiter.RateLimiterService.constructor | backend/services/rate_limiter_service.go:33-38 | the service holds the given repository and policy |
| RateLimiter.RateLimiterService.Allow | backend/services/rate_limiter_service.go:46-91 | the counters and the decision are those of one step above; without a repository nothing is counted |
| RateLimiter.CheckAuthLimit | backend/middlewares/auth_rate_limiter.go:15-44 | no client or a Redis error allows; otherwise a request passes exactly when both failure counts are still below their limits, and only a blocked request carries a message |
| RateLimiter.AuthBlocksAtLimit | backend/middlewares/auth_rate_limiter.go:34-41 | with limit L and fresh counters, L - 1 failures still pass and after L the address is blocked: the check uses "reached", not "exceeded" |
| RateLimiter.AuthFailuresCounts | backend/middlewares/auth_rate_limiter.go:47-63 | n failures raise both counters of the address by n |
| RateLimiter.AuthRateLimiter.constructor | backend/middlewares/auth_rate_limiter.go:67 | the middleware holds its client and limits |
| RateLimiter.AuthRateLimiter.IncrementAuthFailedAttempt | backend/middlewares/auth_rate_limiter.go:47-63 | both counters of the address go up by one; without a client nothing happens |
| RateLimiter.AuthRateLimiter.Handle | backend/middlewares/auth_rate_limiter.go:67-89 | a blocked request gets 429 before the handler runs and changes no counter; an allowed one is counted as a failure exactly when the handler's status is in [400, 600) |
| FileValidation.IsValidFile | backend/helper/file_handling.go:81-129 | an unknown category is rejected; an image is valid exactly when it is at most 5 MiB, sniffed as JPEG, PNG or WebP and at most 4096 by 4096 pixels; a document exactly when it is at most 10 MiB and sniffed as PDF, Word or one of the image types; the generic binary type and every text type are always rejected |
| FileValidation.SupportedTypesAreNotText | backend/helper/file_handling.go:27-41 | none of the supported types is the generic binary type or a text type, and every image type is a document type |
| FileValidation.ValidImageIsValidDocument | backend/helper/file_handling.go:84-126 | whatever passes as an image also passes as a document |
| FileValidation.SizeLimitsInclusive | backend/helper/file_handling.go:85-91 | a file of exactly the limit passes the size check and one byte more fails it with that limit |
| FileHandlers.Ext | backend/handlers/file.go:113 | the extension is empty exactly when the last path element has no dot; otherwise it starts with the last dot of that element, holds no other dot and no slash, and ends the path |
| FileHandlers.ExtOf | backend/handlers/file.go:113 | a name ending in a dot and a dot-free, slash-free suffix has exactly that suffix as its extension |
| FileHandlers.ExtractFileType | backend/handlers/file.go:112-138 | no extension is its own error; a recognised type is the one whose name is the lower-cased extension without its dot |
| FileHandlers.ExtractFromExtension | backend/handlers/file.go:113-134 | a file whose lower-cased extension names a supported type is recognised as that type |
| FileHandlers.ExtensionInAnyCase | backend/handlers/file.go:113 | an extension written in capitals lower-cases to the same extension |
| FileHandlers.ExtractFileTypeRoundTrip | backend/handlers/file.go:112-138 | every one of the seven types is recognised from a name ending in its extension, in lower or upper case |
| FileHandlers.CheckUpload | backend/handlers/file.go:46-82 | an unknown category is rejected first; an upload is accepted exactly when the category is known, the extension is recognised, a document is at most 10 MiB, and an image is at most 5 MiB and within 4096 by 4096 pixels; an extension error is passed on, and an unreadable image header gives its own error |
| FileHandlers.FileStore.constructor | backend/handlers/file.go:38 | no files |
| FileHandlers.FileStore.SaveFile | backend/handlers/file.go:46-109 | a failed check stores nothing; a row is created and deleted again when the disk write fails; otherwise the one new row, with a fresh id, the user, the type and the category, is appended and returned |
| FileHandlers.ServeFileStatus | backend/handlers/file.go:211-278 | 400 exactly for an id holding a slash, a backslash or ".."; 200 exactly for a safe id of a found file with an active owner that opens and reads; a missing record or a missing file gives 404, a failed lookup, open or read gives 500, and a deactivated owner gets 403 |
| FileHandlers.ServeFileRejectsTraversal | backend/handlers/file.go:215-216 | ".." and an id with a backslash are refused with 400 whatever else holds |
| IdentityService.ScopedUser | backend/repository/gorm/identity_repository.go:44-54 | a lookup without soft-deleted rows finds a user exactly when the user exists and is not deactivated |
| IdentityService.IsUserDeactivatedAsWritten | backend/repository/gorm/identity_repository.go:120-132 | the scoped lookup never sees a soft-deleted user, so it never reports one as deactivated |
| IdentityService.DeactivateCheckAsWritten | backend/services/identity_service.go:75-87 | as written, "not found" exactly for an unknown or soft-deleted user, and no error exactly for an active one |
| IdentityService.AlreadyDeactivatedUnreachableAsWritten | backend/services/identity_service.go:75-87 | with both lookups scoped, "already deactivated" is never reported, and every deactivated account is reported as not found |
| IdentityService.DeactivatedReportedMissingAsWritten | backend/services/identity_service.go:75-87 | a concrete deactivated account for which the scoped checks report "user not found" |
| IdentityService.DeactivateCheck | backend/services/identity_service.go:75-87 | not found exactly for an unknown id, already deactivated exactly for a soft-deleted user, and no error exactly for an active user |
| IdentityService.DeactivateChecksAgreeOnActive | backend/services/identity_service.go:75-87 | the scoped and unscoped checks give the same answer on every account that is not deactivated |
| IdentityService.SoftDelete | backend/repository/gorm/identity_repository.go:106-110 | the user keeps its place and carries the deletion instant |
| IdentityService.DisableJobPosts | backend/repository/gorm/identity_repository.go:177-183 | every job of the company is closed and every other job is unchanged |
| IdentityService.ReactivateCheck | backend/services/identity_service.go:115-133 | not found exactly for an unknown id, not deactivated exactly for an active user, and grace expired exactly when now is after deletion plus the grace days, reporting that deadline |
| IdentityService.DeactivateThenReactivate | backend/services/identity_service.go:69-162 | deactivating an active account and reactivating it no later than the deadline gives back exactly the original user row, while the intended check reports it as already deactivated |
| IdentityService.NoReactivationAfterDeadline | backend/services/identity_service.go:126-133 | after the deadline, reactivation reports the deletion instant and the deadline |
| IdentityService.HexEncode | backend/services/identity_service.go:171 | two lower-case hex digits per byte |
| IdentityService.GenerateAnonymousId | backend/services/identity_service.go:169-172 | "ANON-" followed by twelve lower-case hex digits, which the anonymised test recognises |
| IdentityService.CheckIfAnonymized | backend/services/identity_service.go:175-184 | an error exactly for an unknown id; otherwise true exactly when the username is longer than five characters and starts with "ANON-" |
| IdentityService.AnonymizeUser | backend/services/identity_service.go:251-254 | the user row keeps its id and deletion instant and gets the anonymous name and an empty password hash |
| IdentityService.AnonymizeStudent | backend/services/identity_service.go:334-345 | a student row gets "Anonymized" as major and the anonymous id as student id, keeping its user and deletion flag |
| IdentityService.AnonymizeCompany | backend/services/identity_service.go:378-389 | a company row gets the anonymous address at anonymized.local and "Anonymized" as city and country, keeping its user and deletion flag |
| IdentityService.AnonymizeOAuth | backend/services/identity_service.go:422-431 | an OAuth row gets the anonymous id as external id and the anonymous address |
| IdentityService.AnonymizeApplication | backend/services/identity_service.go:319-324 | an application loses its phone and gets the anonymous address, keeping job, applicant and status |
| IdentityService.AnonymizationForgetsPersonalData | backend/services/identity_service.go:251-431 | two rows that differ only in personal data are equal once anonymised with the same anonymous id |
| IdentityService.AnonymizeAll | backend/services/identity_service.go:235-291 | anonymisation keeps every table's keys, the number of applications and the jobs |
| IdentityService.AnonymizeUsers | backend/services/identity_service.go:251-254 | the user table keeps its keys |
| IdentityService.AnonymizeApplications | backend/services/identity_service.go:294-331 | the application list keeps its length |
| IdentityService.AnonymizeStep | backend/services/identity_service.go:208-222 | anonymising accounts one by one equals anonymising the set of them at once |
| IdentityService.Listed | backend/repository/gorm/identity_repository.go:309-320 | the ids listed are exactly the users deactivated strictly before the cutoff |
| IdentityService.Pending | backend/services/identity_service.go:211-216 | the accounts the batch works on are the listed ones not yet anonymised |
| IdentityService.SecondPassTouchesOnlyFailures | backend/services/identity_service.go:211-222 | after a pass, the only pending accounts left are those whose anonymisation failed; every other listed account is anonymised and is skipped by the next pass |
| IdentityService.Untouched | backend/services/identity_service.go:235-291 | an account outside the set keeps its user row |
| IdentityService.AnonymizeNoneIsIdentity | backend/services/identity_service.go:211-222 | anonymising no account changes no table |
| IdentityService.ApplyEdit | backend/services/identity_service.go:497-518 | each of phone, email, website, address, city, country and about-us takes the given value when one is given and keeps the stored one otherwise; id, photo, banner and deletion are kept; an edit with no field set leaves the company row as it was |
| IdentityService.SchemeScan | backend/services/identity_service.go:512 | a non-empty scheme is the lower-cased text before a colon at a position after the first |
| IdentityService.SchemeScanOfPrefix | backend/services/identity_service.go:512-513 | an address made of a scheme, a colon and anything has exactly that scheme, lower-cased |
| IdentityService.BeforeFragment | backend/services/identity_service.go:512 | the text `url.Parse` parses is the prefix of the address up to its first '#', and holds no '#' |
| IdentityService.FragmentIsNotChecked | backend/services/identity_service.go:512-513 | whatever follows the first '#' has no effect on the website check |
| IdentityService.ControlByteInFragmentAccepted | backend/services/identity_service.go:512-513 | an http address whose fragment holds control characters, a tab for instance, is accepted |
| IdentityService.WebsiteSchemeRule | backend/services/identity_service.go:511-518 | an address with a well-formed scheme and no control character before its fragment is accepted exactly when the scheme, in any letter case, is http or https |
| IdentityService.BareHostRefused | backend/services/identity_service.go:512-513 | an address with no ':', such as a bare host name, has no scheme and is refused |
| IdentityService.CompanyEditCheck | backend/services/identity_service.go:466-518 | "username exists" exactly when a new name is taken by an active account; the edit passes exactly when the name is free, the company is active, a given email parses and a given website is accepted (no control character before the fragment, scheme http or https) |
| IdentityService.RenameKeepsOtherNamesFree | backend/services/identity_service.go:468-480 | after a rename to a free name, the account has it and no other active account does |
| IdentityService.OwnNameCountsAsTaken | backend/services/identity_service.go:469-475 | an active account asking for the name it already has is refused |
| IdentityService.IdentityStore.constructor | backend/services/identity_service.go:56 | the store holds the given tables |
| IdentityService.IdentityStore.DeactivateAccount | backend/services/identity_service.go:69-105 | the corrected deactivation of Finding C: it uses `DeactivateCheck`, so a deactivated account gets "already deactivated" where the code answers "not found"; on a failed check nothing changes; otherwise the user is soft-deleted, an active company's jobs are closed, and now plus the grace period is returned |
| IdentityService.IdentityStore.ReactivateAccount | backend/services/identity_service.go:109-162 | the check of ReactivateCheck; on success the user is restored and the soft-deleted student, company and OAuth rows come back, nothing else changing |
| IdentityService.IdentityStore.AnonymizeAccount | backend/services/identity_service.go:235-291 | fails, changing nothing, exactly for an unknown id or a failing first write; otherwise every row of the account is anonymised with its anonymous id |
| IdentityService.IdentityStore.VisitExpired | backend/services/identity_service.go:211-222 | an account already anonymised is skipped; otherwise it is anonymised or counted as failed |
| IdentityService.IdentityStore.AnonymizeExpiredAccounts | backend/services/identity_service.go:187-231 | every pending account whose update succeeds is anonymised and no other; the counters are the numbers of successes and failures |
| IdentityService.IdentityStore.AnonymizeListed | backend/services/identity_service.go:208-224 | the loop over the listed accounts anonymises exactly the pending ones whose update succeeds, and counts each pending account once as a success or a failure |
| IdentityService.TallyStep | backend/services/identity_service.go:211-224 | visiting one more account adds it to at most one of the two tallies, which grows by one |
| IdentityService.IdentityStore.UpdateCompanyProfile | backend/services/identity_service.go:466-566 | reports CompanyEditCheck; a taken name changes nothing; a later failure keeps the rename; success applies the edit to the company row |
| JobRepository.FindJob | backend/repository/gorm/job_repository.go:54-56 | a position found holds a job with the id, and None means no job has it |
| JobRepository.ApprovalFor | backend/repository/gorm/job_repository.go:58-62 | the status is accepted exactly for an approval and rejected exactly for a rejection |
| JobRepository.ParseApproval | backend/repository/gorm/job_repository.go:69 | a parsed status is one whose stored name is the string |
| JobRepository.AuditRecordsDecision | backend/repository/gorm/job_repository.go:68-74 | the audit row's action and object id give back the new status and the job id |
| JobRepository.JobStore.constructor | backend/repository/gorm/job_repository.go:51 | no jobs and no audit rows |
| JobRepository.JobStore.ApproveOrRejectJob | backend/repository/gorm/job_repository.go:51-81 | an unknown id is RecordNotFound and changes nothing; otherwise only that job's status changes and one audit row naming the new status, the actor, the reason and the job is appended |
| JobRepository.Joined | backend/repository/gorm/job_repository.go:192-194 | every joined row belongs to a job whose company has a user row and a company row, and carries that user's name; every such job appears with that name |
| JobRepository.Filter | backend/repository/gorm/job_repository.go:121-188 | a row is listed exactly when it meets every condition of the filter, in table order |
| JobRepository.Matches | backend/repository/gorm/job_repository.go:121-188 | a matching row belongs to a company caller, is open and accepted for anyone but a company or admin, and lies within the salary bounds |
| JobRepository.Page | backend/repository/gorm/job_repository.go:206 | at most limit rows, all from the list: the slice of limit rows from offset when it fits, the rest of the list from offset on the last page, and none past the end |
| JobRepository.NoApplicationsNoStats | backend/repository/gorm/job_repository.go:273-286 | a job with no applications gets zero for each status |
| JobRepository.StatRows | backend/repository/gorm/job_repository.go:265-271 | each grouped row carries its job's counts, and every job with applications has a row |
| JobRepository.Ids | backend/repository/gorm/job_repository.go:206-208 | the ids of the page, in order |
| JobRepository.ItemsFor | backend/repository/gorm/job_repository.go:246-289 | one item per row of the page |
| JobRepository.FetchJobs | backend/repository/gorm/job_repository.go:190-293 | the jobs are joined with their companies' user and company rows; the total counts every matching row before paging; the items are the requested page, a company's items carrying the three application counts of each job, zero when it has none |
| JobRepository.CompanySeesOwnJobs | backend/repository/gorm/job_repository.go:146-147 | a company lists only its own jobs |
| JobRepository.PublicSeesOpenAccepted | backend/repository/gorm/job_repository.go:155-185 | viewers, students and anonymous callers list only open, accepted jobs |
| JobRepository.ListedMatchesQuery | backend/repository/gorm/job_repository.go:128-143 | every listed job lies in the salary window and matches each keyword in one of its five columns |
| JobRepository.CompanyFilterIgnoresCompanyId | backend/repository/gorm/job_repository.go:146-152 | for a company, the companyId parameter changes nothing |
| JobHandlers.NewJob | backend/handlers/job.go:148-167 | the new posting is pending, belongs to the company, takes the open flag as given and notifies unless notification was switched off |
| JobHandlers.CreateStatus | backend/handlers/job.go:123-174 | success exactly for a request meeting the binding rules, with a minimum salary not above the maximum and an existing company; a request failing the binding rules or with a reversed salary range is 400, and a missing company is 500 |
| JobHandlers.SwitchesDoNotNeedReapproval | backend/handlers/job.go:358 | an edit touching only the open flag and the notification switch keeps the approval |
| JobHandlers.Merge | backend/handlers/job.go:391-420 | each of name, position, duration, description, location, job type, experience, both salaries and open takes the given value when present and keeps the old one when absent; id, creation time, owner, approval and notification are untouched |
| JobHandlers.Edited | backend/handlers/job.go:391-432 | a content edit sends the job back to pending; any other edit keeps its approval status |
| JobHandlers.EmptyEditIsIdentity | backend/handlers/job.go:391-432 | an edit with no field saves the job unchanged |
| JobHandlers.OpenOnlyEdit | backend/handlers/job.go:391-432 | an edit of the open flag alone changes that flag and nothing else |
| JobHandlers.ParseJobId | backend/handlers/job.go:367-372 | the path id is accepted exactly when it is a decimal number between 1 and the largest 32-bit value, and it is that number |
| JobHandlers.ParseJobIdRoundTrip | backend/handlers/job.go:367-372 | every valid id is accepted in its decimal form |
| JobHandlers.EditStatus | backend/handlers/job.go:347-425 | success exactly for a valid edit with a valid id of an existing job owned by the caller whose merged salary range is in order; an invalid edit or a malformed id is 400, an unknown job 404, another company's job 403 (for every accepted form of the id), and the owner's edit whose merged minimum salary exceeds the merged maximum 400 |
| JobHandlers.NonOwnerForbidden | backend/handlers/job.go:385-388 | a company editing another company's job gets 403, whatever the edit |
| JobHandlers.ApprovalStatusCode | backend/handlers/job.go:454-500 | success exactly when the reason is at most 16384 characters and the id names an existing job |
| JobHandlers.JobHandlers.constructor | backend/handlers/job.go:123 | the handlers work on the given store |
| JobHandlers.JobHandlers.CreateJob | backend/handlers/job.go:123-177 | on success the posting is appended with the next id, which is returned; otherwise nothing changes |
| JobHandlers.JobHandlers.EditJob | backend/handlers/job.go:347-439 | on success only the edited job changes, to the merged job with its approval reset when needed; otherwise nothing changes |
| JobHandlers.JobHandlers.ApproveJob | backend/handlers/job.go:454-500 | on success the job's status is set by the decision and one audit row records it under the admin; otherwise nothing changes |
| ApplicationRepository.Remaining | backend/repository/gorm/application_repository.go:101-116 | an application is kept exactly when it belongs to another job or its status is not one of those flagged, table order kept |
| ApplicationRepository.ClearKeepsOtherJobs | backend/repository/gorm/application_repository.go:102 | clearing one job leaves every other job's applications exactly as they were, in order |
| ApplicationRepository.ClearNothing | backend/repository/gorm/application_repository.go:104-112 | with no status flagged nothing is deleted |
| ApplicationRepository.ClearEverything | backend/repository/gorm/application_repository.go:101-116 | with every status flagged the job has no applications left |
| ApplicationRepository.NoneOfJob | backend/repository/gorm/application_repository.go:102 | a table with no application to the job lists none for it |
| ApplicationRepository.RemainingKeysDistinct | backend/repository/gorm/application_repository.go:101-116 | deleting rows keeps the (job, user) key unique |
| ApplicationRepository.Updated | backend/repository/gorm/application_repository.go:276-280 | an update never changes a row's job or applicant |
| ApplicationRepository.UpdateSetsStatus | backend/repository/gorm/application_repository.go:275-280 | the addressed application gets the new status and every other row stays as it was |
| ApplicationRepository.UpdateMissingIsNoop | backend/repository/gorm/application_repository.go:285-287 | an update that matches no row changes nothing |
| ApplicationRepository.UpdateIdempotent | backend/repository/gorm/application_repository.go:275-280 | setting the same status twice equals setting it once |
| ApplicationRepository.ApplicationStore.constructor | backend/repository/gorm/application_repository.go:41 | no applications |
| ApplicationRepository.ApplicationStore.ClearJobApplications | backend/repository/gorm/application_repository.go:101-116 | the table becomes the kept applications and the count returned is the number of rows deleted |
| ApplicationRepository.ApplicationStore.UpdateApplicationStatus | backend/repository/gorm/application_repository.go:275-289 | the table gets the status update, and not-found is reported exactly when no row has the job and applicant |
| ApplicationRepository.BeforeTotal | backend/repository/gorm/application_repository.go:65-76 | any two rows can be ordered either way round, in each of the four orders |
| ApplicationRepository.JobApplicationsOrder | backend/repository/gorm/application_repository.go:65-76 | "oldest", "name_az" and "name_za" pick their orders, and every other value is newest first |
| ApplicationRepository.UserApplicationsOrder | backend/repository/gorm/application_repository.go:205-212 | "name" sorts by company name, "date-asc" is oldest first, and every other value is newest first |
| ApplicationRepository.Insert | backend/repository/gorm/application_repository.go:65-76 | inserting into a sorted list gives a sorted list holding the same rows plus the new one |
| ApplicationRepository.SortRows | backend/repository/gorm/application_repository.go:65-76 | the ordered result is a permutation of the rows and is sorted by the key |
| ApplicationRepository.Window | backend/repository/gorm/application_repository.go:78-83 | the slice of the list starting at the offset: empty past the end, everything after the offset with no limit or a short tail, and exactly `limit` items otherwise |
| ApplicationRepository.SortedSlice | backend/repository/gorm/application_repository.go:78-83 | a slice of a sorted list is sorted |
| ApplicationRepository.WindowSorted | backend/repository/gorm/application_repository.go:65-83 | paging keeps the order |
| ApplicationRepository.ApplicantName | backend/repository/gorm/application_repository.go:53-55 | a deactivated applicant is shown as "Deactivated User", anyone else by first and last name |
| ApplicationRepository.Applicants | backend/repository/gorm/application_repository.go:46-63 | a row is listed exactly for an application to the job with a matching status whose user, OAuth and student rows exist |
| ApplicationRepository.ApplicationsForJob | backend/repository/gorm/application_repository.go:41-99 | the page is the offset and limit window of the job's matching applicants sorted by the requested order; it holds only the job's matching applications, bounded by a positive limit, and shows deactivated applicants as "Deactivated User" |
| ApplicationRepository.EveryApplicantListed | backend/repository/gorm/application_repository.go:41-99 | without paging every matching applicant with the three rows is listed |
| ApplicationRepository.ApplicantByEmail | backend/repository/gorm/application_repository.go:118-144 | a result is an application to the job by an active, not anonymised applicant with that OAuth email; not found means no application qualifies |
| ApplicationRepository.AnonymizedApplicantHidden | backend/repository/gorm/application_repository.go:139-140 | once an account is anonymised, no lookup by email returns its application |
| ApplicationRepository.UserRows | backend/repository/gorm/application_repository.go:171-229 | the rows are exactly the caller's applications, or those to the company's jobs, with a matching status and an applicant user row, each with its job and company |
| ApplicationRepository.TotalCoversRows | backend/repository/gorm/application_repository.go:171-229 | the count query's total is never below the number of listed rows, and equals it when every counted applicant has a user row |
| ApplicationRepository.CountQuery | backend/repository/gorm/application_repository.go:214-229 | the total is 0 exactly when no application is counted, and the number of applications exactly when all are |
| ApplicationRepository.AllApplicationsForUser | backend/repository/gorm/application_repository.go:155-252 | a caller with neither an active company nor an active student row gets nothing and 0; otherwise the total is the count query's and the page is the offset and limit window of all of the caller's listed rows in the requested order, so without paging every one of them appears; a company sees only its jobs' applications and a student only its own |
| ApiLoading.Started | frontend/app/composables/useApiLoading.ts:27-36 | the new id maps to the request with its method upper-cased and the current time; every other entry is unchanged, and a fresh id grows the map by one |
| ApiLoading.Ended | frontend/app/composables/useApiLoading.ts:47-48 | the id is gone and every other entry is unchanged; ending an unknown id changes nothing |
| ApiLoading.EndUndoesStart | frontend/app/composables/useApiLoading.ts:27-48 | ending a request just started restores the map |
| ApiLoading.EndTwice | frontend/app/composables/useApiLoading.ts:47-48 | ending the same id twice is ending it once |
| ApiLoading.Swept | frontend/app/composables/useApiLoading.ts:103-115 | exactly the entries not older than the maximum age remain, unchanged |
| ApiLoading.SweepIdempotent | frontend/app/composables/useApiLoading.ts:103-115 | sweeping twice at the same instant is sweeping once |
| ApiLoading.NextProgress | frontend/app/composables/useApiLoading.ts:62-69 | with requests in flight and the bar under 90 a tick raises it, never past 90; otherwise it stays |
| ApiLoading.AnimationBounded | frontend/app/composables/useApiLoading.ts:62-69 | however many ticks run, the bar stays between where it started and 90 |
| ApiLoading.LoadingTracker.constructor | frontend/app/composables/useApiLoading.ts:11-14 | nothing in flight, the bar hidden at 0 and no timer |
| ApiLoading.LoadingTracker.IsLoading | frontend/app/composables/useApiLoading.ts:23 | loading exactly when some request is in flight |
| ApiLoading.LoadingTracker.StartRequest | frontend/app/composables/useApiLoading.ts:27-44 | the request is tracked under the given id; a hidden bar is shown from 0 with its timer armed, a visible one is left as it is |
| ApiLoading.LoadingTracker.StartProgress | frontend/app/composables/useApiLoading.ts:57-72 | the bar is shown at 0 and the timer armed |
| ApiLoading.LoadingTracker.Animate | frontend/app/composables/useApiLoading.ts:62-69 | the bar takes one tick and the timer is re-armed exactly when the tick moved it |
| ApiLoading.LoadingTracker.CompleteProgress | frontend/app/composables/useApiLoading.ts:75-82 | the timer is cancelled and the bar filled |
| ApiLoading.LoadingTracker.HideProgress | frontend/app/composables/useApiLoading.ts:85-88 | the bar is hidden and reset to 0 |
| ApiLoading.LoadingTracker.EndRequest | frontend/app/composables/useApiLoading.ts:47-54 | the id is untracked; the last request out fills the bar and cancels the timer, otherwise the bar is left as it is |
| ApiLoading.LoadingTracker.ForceComplete | frontend/app/composables/useApiLoading.ts:92-95 | nothing is in flight and the bar is filled |
| ApiLoading.LoadingTracker.ClearStaleRequests | frontend/app/composables/useApiLoading.ts:103-120 | exactly the stale entries are dropped; a visible bar with nothing left is filled |
| AxiosClient.AuthHeader | frontend/app/plugins/axios.client.ts:67-70 | the header becomes the bearer of the stored token exactly when a non-empty token is stored, and is otherwise left alone |
| AxiosClient.Settle | frontend/app/plugins/axios.client.ts:52-62 | every waiter, in queue order, is resolved with the token, or every one is rejected when the refresh failed |
| AxiosClient.RetryLeaksAsWritten | frontend/app/plugins/axios.client.ts:155-160 | after a successful refresh and the retry's answer, the entry the success branch started is still tracked, so loading stays on until the stale-request sweep removes it |
| AxiosClient.RetryCycleAsWritten | frontend/app/plugins/axios.client.ts:65-167 | as written, the cycle ends the interceptor's entry and the refresh, but the entry the success branch started for the retry stays |
| AxiosClient.RetryCycle | frontend/app/plugins/axios.client.ts:65-167 | with the retry tracked once, the cycle removes the refresh and the retry entries and adds nothing |
| AxiosClient.RetryCycleRestores | frontend/app/plugins/axios.client.ts:96-167 | with the retry tracked only by the request interceptor, the cycle leaves the tracker as it was, minus the refresh entry |
| AxiosClient.RetryCycleIdle | frontend/app/plugins/axios.client.ts:96-167 | a lone failing request leaves nothing in flight once its retry is answered |
| AxiosClient.Client.constructor | frontend/app/plugins/axios.client.ts:45-50 | no refresh running, an empty queue and nothing settled |
| AxiosClient.Client.OnRequest | frontend/app/plugins/axios.client.ts:65-77 | the token header is attached and the request is tracked under a new id that it carries |
| AxiosClient.Client.OnSettled | frontend/app/plugins/axios.client.ts:78-95 | a tracked request is untracked; nothing else changes |
| AxiosClient.Client.OnResponseError | frontend/app/plugins/axios.client.ts:96-194 | untracks the request; a 401 or 403 to a request not yet retried queues it behind a running refresh or starts one, tracking the refresh call; any other error passes on with nothing else changed |
| AxiosClient.Client.ProcessQueue | frontend/app/plugins/axios.client.ts:52-62 | every waiter is settled in order and the queue is emptied |
| AxiosClient.Client.OnRefreshSucceeded | frontend/app/plugins/axios.client.ts:143-167 | the refresh entry ends and a retry entry starts under the given id, the new token is stored, the waiters are resolved with it, and the original request is handed back, marked as retried, with the new header and the retry id (which sending it overwrites) |
| AxiosClient.Client.OnRefreshFailed | frontend/app/plugins/axios.client.ts:168-190 | every waiter is rejected, every tracked request is dropped with the bar filled, and the token, username and role are removed from storage |
| Terms.Filter | frontend/app/config/terms.ts:152-164 | a document is kept exactly when it is listed and passes the test, list order kept |
| Terms.GetDocumentByKey | frontend/app/config/terms.ts:142-144 | a result is a listed document with the key; nothing is found exactly when no document has it |
| Terms.GetRequiredDocumentsForRole | frontend/app/config/terms.ts:162-165 | exactly the listed documents whose keys the role must accept, in list order |
| Terms.GetDocumentsForRole | frontend/app/config/terms.ts:150-157 | the role's required documents come first, followed exactly by the optional documents not on the role's list, in list order |
| Terms.NoOptionalWhenAllRequired | frontend/app/config/terms.ts:150-157 | when every document is required, the documents shown to a role are exactly its required ones |
| Terms.ShippedDocumentsAllRequired | frontend/app/config/terms.ts:70-157 | every shipped document is required, so each role sees only its required documents |
| Terms.BuildDocumentSrc | frontend/app/config/terms.ts:172-176 | a non-empty src wins; otherwise the path is exactly /terms/, the base name, a dot and the preferred extension, txt by default |
| Terms.IsPdfIffPreferred | frontend/app/config/terms.ts:181-184 | without an explicit src a document is a PDF exactly when PDF is its preferred extension |
| Terms.KeyedMapFinds | frontend/app/config/terms.ts:292-297 | with distinct keys, the folded map sends each document's key to that document and keeps the other entries |
| Terms.ShippedKeysDistinct | frontend/app/config/terms.ts:70-121 | the shipped documents have distinct keys |
| Terms.TermsMapAgreesWithLookup | frontend/app/config/terms.ts:292-297 | for every shipped document the keyed map and the lookup by key both give that document |
| Formatter.ConstructorNotEchoedAsWritten | frontend/app/utils/formatter.ts:13-24 | "constructor", in any case, is not a known value, yet the lookup as written does not show it as given: it returns an inherited property |
| Formatter.FormatLabel | frontend/app/utils/formatter.ts:13-24 | a known value, in any letter case, gets its label; any other value is shown as given |
| Formatter.FormatAgreesOffInherited | frontend/app/utils/formatter.ts:13-24 | the lookup as written and the own-property lookup agree on every value except the inherited property names |
| Formatter.KeysAreLowerCase | frontend/app/utils/formatter.ts:6-23 | every key of both tables is its own lower-case form |
| Formatter.LookupAsWritten | frontend/app/utils/formatter.ts:13-13 | an own key gives its label, an inherited property name gives that property, and anything else is undefined |
| Formatter.FormatAsWritten | frontend/app/utils/formatter.ts:13-24 | `map[x] || x` always yields a value; it is an inherited property exactly for an inherited name that is not a label key, and a shown string differs from the input only when it is the label of the lower-cased input |
| Formatter.FormatJobType | frontend/app/utils/formatter.ts:5-14 | as written: a job type in any letter case gets its label, an inherited property name gets that property, and anything else is shown as given |
| Formatter.FormatExperience | frontend/app/utils/formatter.ts:16-25 | as written: an experience level in any letter case gets its label, an inherited property name gets that property, and anything else is shown as given |
| Formatter.FormatIgnoresCase | frontend/app/utils/formatter.ts:13 | a job type written in capitals gets the same label |
| Formatter.LabelsCoverAcceptedValues | frontend/app/utils/formatter.ts:6-23 | the labelled job types and experience levels are exactly those the backend's binding rules accept |
| TimeAgo.Bucket | frontend/app/composables/useTimeAgo.ts:6-17 | the unit shown is the largest whose floored count is positive, with that count (under 30 days, 24 hours, 60 minutes for the smaller units); "just now" exactly for differences under a minute |
| TimeAgo.NegativeIsJustNow | frontend/app/composables/useTimeAgo.ts:7-17 | a creation time in the future shows "just now" |
| TimeAgo.TimeAgo | frontend/app/composables/useTimeAgo.ts:1-19 | an unparsable creation time shows "just now"; otherwise the rendering of the difference's unit |
| TimeAgo.PluralIffMoreThanOne | frontend/app/composables/useTimeAgo.ts:13-16 | a unit word takes an "s" exactly when its count is above one |
| TimeAgo.LargestUnitWins | frontend/app/composables/useTimeAgo.ts:13-16 | 70 minutes shows "1 hour ago" and 2 days 5 hours shows "2 days ago" |
| ClientAuth.RoleFlags | frontend/app/stores/auth.ts:13-16 | at most one role predicate holds, and one does exactly for the four known roles |
| ClientAuth.AuthStore.constructor | frontend/app/stores/auth.ts:5-9 | every field is null, the flag is false, and nobody is signed in |
| ClientAuth.AuthStore.RolesHeld | frontend/app/stores/auth.ts:13-16 | at most one of admin, company, student and viewer holds for the stored role |
| ClientAuth.AuthStore.SetAuthData | frontend/app/stores/auth.ts:19-35 | token, name and role are replaced; a falsy user id keeps the old one; an absent registration flag keeps the old flag; signed in exactly for a non-empty token |
| ClientAuth.AuthStore.UpdateToken | frontend/app/stores/auth.ts:38-40 | the token changes and nothing else |
| ClientAuth.AuthStore.SetIsRegistered | frontend/app/stores/auth.ts:43-45 | the flag changes and nothing else |
| ClientAuth.AuthStore.Logout | frontend/app/stores/auth.ts:48-54 | every field is null and the flag false; nobody is signed in and no role holds |
| ClientAuth.AuthStore.ClearAuthData | frontend/app/stores/auth.ts:57-59 | the same state as after a logout |
| RouteGuards.StudentGuard | frontend/app/middleware/student.ts:3-21 | on the server the guard passes; without a token it sends to "/"; it passes exactly a signed-in student, and it never refuses with 403 |
| RouteGuards.StudentGuardRedirectsHome | frontend/app/middleware/student.ts:12-21 | a signed-in non-student goes to the start page of the role, which is "/" exactly for a role that is none of the four |
| RouteGuards.ViewerGuard | frontend/app/middleware/viewer.ts:3-27 | without a token it sends to "/"; a signed-in user whose role is not viewer, student or company gets 403; it passes exactly a signed-in viewer; the administrator redirect is never reached |
| RouteGuards.StudentAndViewerPagesDisjoint | frontend/app/middleware/student.ts:12-21 | no role passes both guards; a signed-in admin is sent to the admin dashboard by the student guard and refused by the viewer guard |
| RouteGuards.StudentRegisterGuard | frontend/app/middleware/student-register.ts:3-25 | without a token it sends to "/"; a non-viewer goes to /dashboard; 403 exactly for a registered viewer, and it passes exactly an unregistered signed-in viewer |
| RouteGuards.GuardAfterLogout | frontend/app/middleware/student-register.ts:5-12 | after a logout the registration guard sends the user to "/" |
| RouteGuards.GuardAfterViewerSignIn | frontend/app/middleware/student-register.ts:5-25 | after a sign-in as an unregistered viewer with a non-empty token the registration guard lets the user through |

## Left out

- Redis and GORM as such: counters, revocation lists and tables are maps and sequences. Key expiry, TTLs, pipelines, transactions and SQL text are not modelled.
- HTTP plumbing: gin contexts, JSON binding, cookies as transport, CORS, Turnstile (including the Turnstile check in `EditJobHandler`) and the OAuth exchange.
- Cryptography and randomness: JWT signing, argon2, base64, sha256 in the anonymous id, uuid and `Math.random`. These are inputs or uninterpreted functions, so no property depends on their internals.
- The clock: every operation that reads the time takes it as a parameter.
- Image decoding, `CleanImageMetadata` and `http.DetectContentType`: the detected type and the image dimensions are inputs.
- Word uploads: `http.DetectContentType` never reports the Word MIME types (a `.docx` sniffs as a zip archive and a `.doc` as `application/octet-stream`), so in the code `.doc` and `.docx` uploads are refused. `FileValidation.IsValidFile` accepts them whenever the detected type given to it names a Word type.
- File storage providers, the `BeforeDelete` file hooks and the file-system checks in `ServeFileHandler`. The absolute-path and prefix checks there always pass once the id check has passed.
- `SaveFile`: a failure of `file.Open` is folded into the dimension-reading error.
- The application repository's `loadApplicationFiles`, `GetApplication` and `CreateApplication`: they are file loading and plain inserts, and `GetApplication` has no caller.
- Photo and banner uploads in `UpdateCompanyProfile`.
- Website and address parsing: `url.Parse` is modelled only by cutting off the fragment at the first '#', its scheme scan and its control-byte check of the text before the fragment. Its other failures are not modelled: a malformed percent-escape, including one in the fragment, and a malformed host or port. `mail.ParseAddress` is an input predicate.
- Anonymisation's file clean-up: the deletion of stored files and of their file records for the student's photo and status file, the company's photo and banner, and the files of each application. Those deletions are best-effort and change none of the tables modelled.
- Anonymisation: a failure of any write after the first one is not modelled separately, so each user counts as one success or one failure. In the code the first write has already renamed the user to "ANON-…" by then. Later passes take that name as done and never revisit the account, so its student, application, company or OAuth rows keep the personal data not yet replaced. The model instead shows such an account as not anonymised at all.
- Keyword wildcards: keywords are put into `ILIKE '%w%'` patterns without escaping `%` and `_`, so in the code a `%` or `_` in a keyword matches any text or any one character; `ContainsFolded` reads a keyword as literal text.
- Location wildcards: the location filter is `location ILIKE ?` with the parameter unescaped, so in the code a `%` or `_` in it is a wildcard; `JobRepository.Matches` compares the lower-cased location for equality.
- ApprovalStatusCode: the path id is parsed as a decimal number (`ParseNat`), while the code passes the raw text to `id = ?` and the database's integer cast also accepts forms such as "+7" or " 7". For those the code finds job 7 where the model answers 404.
- Text matching: `ILIKE` and lower-casing fold ASCII letters only, and names compare code point by code point rather than by database collation.
- NULL versus the empty string: a NULL column is the empty string, including the "Unknown" shown for a student without a major.
- Asynchronous and background work: mail sends in goroutines, the job-approval notification, AI auto-approval, the EventBus and the scheduler. The sequential state they would change is modelled where the core changes it.
- Timers: the `setTimeout` and `setInterval` timers of the loading tracker are the events `Animate` and `HideProgress`. The periodic stale-request sweep is `ClearStaleRequests`, called by the caller.
- The loading tracker's `getActiveRequests` and `requestCount`: they are read-only views of the map.
- Server-side rendering: the guards take `onServer` as a parameter.
- Concurrency: mutexes, `sync.Once`, and the interleaving of promises. The HTTP plugin is a sequential state machine.
- The second rate limiter in `backend/middlewares/rate_limiter.go` and `backend/services/permission_service.go`: they duplicate the one modelled.
- `formatSalary`: it uses floating point and `Intl` number formatting.
- Mail and AI providers, templates, logging, and dependency wiring.
- GenerateTokens: does not promise that the user ends within the session cap, because the selection as written can revoke expired tokens in place of active ones (Finding B); `GenerateTokensWithinCap` promises it.
- ClearJobApplications: the `BeforeDelete` hook of backend/model/job.go:76-95 is left out. The delete runs it on an empty application, so its lookup reads the first application of the whole table. In the code, an empty table makes the hook fail with "record not found" and the delete returns `(0, err)` where the model returns 0. Otherwise the hook deletes the stored files of an unrelated application, which the model does not show.

## Findings

| source | as written | input that shows it | evidently intended | confidence | as-written member | corrected member |
|---|---|---|---|---|---|---|
| frontend/app/plugins/axios.client.ts:155-160 | after a successful refresh the plugin starts a tracker entry for the retry, and the request interceptor starts a second one under a new id; only the second is ended | one request answered 401, then a successful refresh and a successful retry: the first retry id stays in the map | the retry is tracked once and ended when its response arrives | not executed | AxiosClient.RetryLeaksAsWritten | AxiosClient.RetryCycleIdle |
| backend/repository/gorm/refresh_token_repository.go:63-75 | the tokens picked for revocation are the oldest unrevoked ones, expired or not, while the count compared with the cap counts only unexpired ones | cap 2, one expired unrevoked token older than two active ones: the expired token is picked, and three active sessions remain once the new one is created | revoke the oldest active tokens, so at most the cap remains | not executed | JwtService.SessionCapExceededAsWritten | JwtService.JwtTokenService.GenerateTokensWithinCap |
| backend/services/identity_service.go:75-87 | both lookups skip soft-deleted users, so a deactivated account is reported as not found and `ErrAlreadyDeactivated` is never returned | a user whose `deleted_at` is set | a deactivated account is found and reported as already deactivated | not executed | IdentityService.AlreadyDeactivatedUnreachableAsWritten | IdentityService.DeactivateCheck |
| backend/repository/gorm/audit_repository.go:64-74 | the retry query selects only mails with attempts left, so the branch in backend/services/infraService/email.go:188-198 that makes an exhausted mail permanent never runs | a temporary mail with `RetryCount` equal to the maximum, inside the retry window: it stays temporary | an exhausted mail is selected once more and marked permanent | not executed | EmailService.ExhaustedMailStaysTemporaryAsWritten | EmailService.RetryPassMarksExhausted |
| frontend/app/utils/formatter.ts:13-24 | the lookup tables are plain objects, so a key that names an inherited property returns that property instead of falling back to the input | `formatJobType("constructor")` returns the Object constructor rather than "constructor" | an unknown value is shown as given | not executed | Formatter.ConstructorNotEchoedAsWritten | Formatter.FormatAgreesOffInherited |
| backend/helper/common.go:33 | the student lookup puts the approval status in the struct, but GORM keys such a lookup on the primary key `UserID` only, so any student row makes the user a student | a user with only a pending or a rejected student row and no admin or company row: resolved as a student | only an accepted student row makes a student | not executed | Common.PendingStudentIsStudentAsWritten | Common.GetRoleAccepted |
