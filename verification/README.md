# eirsystem authentication core, in Dafny

This project models the authentication path of eirsystem, a Go (Gin) backend with a Nuxt frontend.

On the backend, it covers:
- the JWT session manager. It issues an access/refresh token pair per login, keeps one Redis record per session, validates access tokens, rotates refresh tokens, and revokes one or all sessions.
- the three `/auth` handlers.
- the JWT and Casbin middlewares.
- the response envelope and status-code table.
- the validator wrapper and the sign-in DTO.
- the configuration address builders.
- the GORM logging adapter.
- how the environment setting reaches gin's release mode and the GORM logger's level.

On the frontend, it covers:
- both authentication stores;
- the global route guard;
- the sign-in page composable;
- the member and notification stores.

Everything is pure functions over immutable values:
- **Redis** is one map from key to entry. An entry is a session record, or `Opaque` for bytes that do not decode as one.
- **The environment is passed in as parameters.** UUIDs, clock readings, signed tokens and Redis faults come from the caller, bundled per call as `Jwt.Issue` and `Jwt.Rotation` plus booleans. The token codec is a pair of functions: verification with the secret key, and unverified decoding.
- **Handler replies** are `Http.Reply` values: success with data, or a code plus the Go error that `response.Error` would receive. `Response.Error` turns a code into the HTTP status, envelope, log entry and alert.
- **Frontend stores** are state records, and each action is a function from state to state. Network replies are `Result` parameters: the body, or the error the request threw.

Files, by module:
- `base.dfy`: `Option` and `Result`.
- `strings.dfy`: the Go/JavaScript string primitives (`strings.Split`, `Join`, `TrimPrefix`, `%d`, the UTF-8 bytes Go's `len` and slicing count, UTF-16 length).
- `codes.dfy`, `response.dfy`, `validator.dfy`, `dto.dfy`, `config.dfy`, `gorm_adapter.dfy`: the backend support packages.
- `wiring.dfy`: how the environment setting reaches gin's mode and the database logger's level.
- `session.dfy` (module `Jwt`): the session manager.
- `http.dfy`: the user record, the bearer-header rule and the reply/gate shapes.
- `auth_handler.dfy`, `middleware.dfy`: the delivery layer.
- `js_array.dfy`, `auth_store.dfy`, `legacy_auth_store.dfy`, `route_guard.dfy`, `auth_page.dfy`, `member_store.dfy`, `notification_store.dfy`: the frontend.

Where the prose description of the system and the code disagree, the model follows the code:
- **`LogoutAll`.** The prose says no session of the user is left afterwards. In the code, a key whose `DEL` fails stays in Redis and the function still reports success; `Jwt.LogoutAll` states exactly that.
- **The JWT middleware.** The prose says it validates the access token. The code only decodes it; see Findings.

## Model

| member | source | states |
|---|---|---|
| Codes.Number | backend/pkg/codes/codes.go:5-23 | the declared codes fall in their documented ranges: 200 only for Ok, 1000-1999 exactly the user codes, 2000-2999 exactly the auth codes |
| Codes.HttpStatus | backend/pkg/codes/codes.go:25-40 | every code maps to 200, 400, 401, 404 or 500, and each status class is exactly the listed group of codes (both directions); undeclared codes get 500 |
| Codes.Message | backend/pkg/codes/codes.go:42-73 | the message is "Unknown error" exactly for the codes the package does not declare |
| Codes.MessagesDistinct | backend/pkg/codes/codes.go:42-73 | two different declared codes never share a message |
| Codes.NumbersDistinct | backend/pkg/codes/codes.go:7-23 | two different declared codes never share a number |
| Codes.UndeclaredCollapse | backend/pkg/codes/codes.go:37-38 | all undeclared codes are indistinguishable to a client: status 500 and the same message |
| Response.Success | backend/pkg/response/response.go:22-32 | a success is HTTP 200 with the code's message, the data and the request id, and is neither logged nor alerted |
| Response.SuccessAndErrorDiffer | backend/pkg/response/response.go:22-73 | for one request and code, success and error replies share code, message and request id and differ in `success`; their statuses differ exactly when the code's status is not 200; a success is never logged or alerted, while an error with a cause at a 5xx status is both |
| Response.Error | backend/pkg/response/response.go:34-73 | status is the code's status; the error text is in the body unless in release mode; it is logged exactly when there is an error; an alert is sent exactly when there is an error and the status is at least 500, and the alert carries request id, status, verb, path and error |
| Response.AlertClassification | backend/pkg/response/response.go:48-59 | an alert is sent exactly for an error whose code is neither Ok nor a 4xx code, which includes every undeclared code; every alert reports status 500 |
| Response.ReleaseOnlyRedacts | backend/pkg/response/response.go:62-64 | release mode changes nothing but the error field: status, logging and alerting are the same |
| Response.ErrorWithOkCode | backend/pkg/response/response.go:34-73 | calling the error path with the Ok code sends HTTP 200 with success false |
| Validator.TagName | backend/pkg/validator/validator.go:29-35 | the registered tag-name function returns the json tag up to its first comma (the whole tag without one), and the empty string for a "-" tag or one starting "-,"; its result never contains a comma |
| Validator.BeforeFirst | backend/pkg/validator/validator.go:30 | the result is the prefix before the first separator (the whole text when there is none) and contains no separator |
| Validator.BeforeFirstIsFirstPiece | backend/pkg/validator/validator.go:30 | the prefix equals the first piece of `strings.Split`, i.e. `SplitN(.., 2)[0]` |
| Validator.FormatMessage | backend/pkg/validator/validator.go:68-81 | each known tag gets its fixed text, min and max carry the parameter, and any other tag is named in "invalid value (...)" |
| Validator.MessageRecoversTag | backend/pkg/validator/validator.go:68-81 | the message determines the tag and parameter: different failures are reported differently |
| Validator.Lines | backend/pkg/validator/validator.go:56-60 | one message per field error, in order, each `field: message` |
| Validator.Struct | backend/pkg/validator/validator.go:49-66 | no error exactly when validation passes; field errors become the message list, one per error, in order, each the field, ": " and its formatMessage text; any other error is passed through unchanged |
| Validator.ErrorText | backend/pkg/validator/validator.go:44-46 | no messages give the empty text, one message is itself, and the text starts with the first message |
| Validator.ErrorTextSnoc | backend/pkg/validator/validator.go:44-46 | each further message is appended after " \| " |
| Validator.ErrorTextLength | backend/pkg/validator/validator.go:44-46 | the text is as long as the messages together plus three characters per separator |
| Validator.StructTextSnoc | backend/pkg/validator/validator.go:44-66 | one more failing field adds exactly " \| ", the field, ": " and its message to the error text |
| Validator.LineSeparatesFields | backend/pkg/validator/validator.go:58 | for field names without a colon, the message line determines the field |
| Dto.Check | backend/internal/dto/dto_auth.go:4-7 | the request passes exactly when it is `Valid`; otherwise each failing field is reported once, the username first, exactly when it misses its bounds, with its first failing tag: `required` for an empty value, else `min` with 3 or 6, else `max` with 255 for the username |
| Dto.ValidIsLengthRanges | backend/internal/dto/dto_auth.go:4-7 | the tags amount to 3 to 255 runes of username and at least 6 runes of password |
| Dto.FieldNamesFromTags | backend/internal/dto/dto_auth.go:5-6 | the names the validator reports are the json tag names |
| Dto.ShortUsernameEmptyPassword | backend/internal/dto/dto_auth.go:4-7 | a too-short username with an empty password reports both fields in declaration order: the username's min failure and the password's required failure |
| Config.HostPort | backend/config/config.go:36-38 | `host:%d` can be split back at the last colon into the host and the port |
| Config.AppDsn | backend/config/config.go:36-38 | the app address splits back into host and port |
| Wiring.DbLogger | backend/pkg/postgres/gorm.go:14-22 | the database logger has the 200 ms slow threshold, and runs at Info level exactly in development and at Error level otherwise |
| Wiring.DevLogsEveryStatement | backend/pkg/postgres/gorm.go:17-22 | in development every SQL statement produces a log entry |
| Wiring.ProductionLogsOnlyFailuresAndSlow | backend/pkg/postgres/gorm.go:17-22 | outside development no plain query is logged, and a statement is logged exactly when it failed (other than not-found) or took over 200 ms |
| Wiring.ErrorTextOnlyInDevelopment | backend/internal/delivery/http/handler.go:40-43 | gin is switched to release mode unless in development, so error replies never carry the error text outside development, and carry it in development when gin was not started in release mode |
| Wiring.MisspelledEnvIsProduction | backend/config/config.go:40-42 | the env comparison is exact: "Development" is not development, so error text is hidden and plain queries are not logged |
| Config.RedisAddr | backend/config/config.go:106-108 | the Redis address splits back into host and port |
| Config.MinioAddr | backend/config/config.go:124-126 | the MinIO address splits back into host and API port |
| Config.MinioIgnoresConsolePort | backend/config/config.go:124-126 | the console port plays no part in the MinIO address |
| Config.HostPortInjective | backend/config/config.go:36-38 | different ports give different addresses |
| Config.PostgresDsn | backend/config/config.go:77-88 | the DSN starts with the host setting, and when no setting contains a space, splitting it on spaces gives back exactly the seven key=value settings in order |
| GormAdapter.NewAdapter | backend/pkg/logger/gormAdapter.go:18-24 | a new adapter logs at Info level with the given slow threshold |
| GormAdapter.LogMode | backend/pkg/logger/gormAdapter.go:26-30 | a copy with only the level changed |
| GormAdapter.LogModeLastWins | backend/pkg/logger/gormAdapter.go:26-30 | setting the level twice keeps the last level |
| GormAdapter.EmitsMonotone | backend/pkg/logger/gormAdapter.go:32-48 | raising the level never silences a message that was emitted |
| GormAdapter.Trace | backend/pkg/logger/gormAdapter.go:50-78 | nothing is evaluated when silent; otherwise a database error (other than not-found) is logged at Error severity, else a slow query at Warn, else, at Info level only, a plain query entry at Info; each "exactly when" |
| GormAdapter.NotFoundIsNotAnError | backend/pkg/logger/gormAdapter.go:64 | "record not found" is traced exactly like success |
| GormAdapter.ZeroThresholdNeverSlow | backend/pkg/logger/gormAdapter.go:70 | a zero threshold disables slow-query reports |
| GormAdapter.TraceBypassesGating | backend/pkg/logger/gormAdapter.go:38-42 | at Error level, `Warn` is gated off, yet `Trace` still logs slow queries as warnings |
| Jwt.BlockKeyIsNotASessionKey | backend/pkg/jwt/jwt.go:221-227 | a user's block flag and that user's session keys are different keys |
| Jwt.SessionKeyMatches | backend/pkg/jwt/jwt.go:164 | every session key of a user matches the user's SCAN pattern |
| Jwt.SessionKey | backend/pkg/jwt/jwt.go:221-223 | a session key matches its user's SCAN pattern and the session id is recovered after the prefix |
| Jwt.BlockKey | backend/pkg/jwt/jwt.go:225-227 | a user's block key differs from every session key of that user |
| Jwt.Generate | backend/pkg/jwt/jwt.go:47-76 | success exactly when signing and the SET succeed; a failure leaves Redis unchanged; a success adds only the new session key, holding the refresh token, user agent and client IP, and returns that refresh token |
| Jwt.GenerateAddsOneKey | backend/pkg/jwt/jwt.go:69-70 | with a fresh session id, a login grows the keyspace by exactly one key |
| Jwt.ValidateAccessToken | backend/pkg/jwt/jwt.go:78-111 | expired gives AuthTokenExpired; bad or non-HMAC gives AuthTokenInvalid; a block-check error is a Redis fault; a block flag gives UserBlocked; a failed or empty session check gives SessionRevoked; success exactly when all checks pass, returning the verified claims |
| Jwt.RejectedTokensIgnoreStore | backend/pkg/jwt/jwt.go:85-95 | a token that fails verification is rejected without looking at Redis |
| Jwt.Refresh | backend/pkg/jwt/jwt.go:113-157 | get errors, absent keys and undecodable records fail without change; a wrong refresh token is SessionMismatch and deletes the session unless the DEL fails; a wrong user agent is SessionRevoked and keeps it; success exactly when all checks pass, and then only the session's refresh token changes |
| Jwt.Logout | backend/pkg/jwt/jwt.go:159-161 | the DEL removes exactly the session key, or fails and changes nothing |
| Jwt.LogoutIdempotent | backend/pkg/jwt/jwt.go:159-161 | logging out twice equals logging out once, both successful |
| Jwt.DeleteEach | backend/pkg/jwt/jwt.go:167-171 | the loop removes exactly the visited keys whose DEL succeeds |
| Jwt.LogoutAll | backend/pkg/jwt/jwt.go:163-176 | only a SCAN error is reported; every yielded key whose DEL succeeds is gone, failing keys and unvisited keys stay, and surviving values are unchanged |
| Jwt.LogoutAllSweeps | backend/pkg/jwt/jwt.go:163-176 | when SCAN yields only and all of the user's session keys, the only keys of the user left are those whose DEL failed, and keys outside the pattern are untouched |
| Jwt.ListedKeys | backend/pkg/jwt/jwt.go:183-199 | the listing keeps exactly the yielded keys whose GET succeeds and whose value decodes, and only those |
| Jwt.ListedKeysSingleton | backend/pkg/jwt/jwt.go:184-188 | one yielded key is listed exactly when its record is read |
| Jwt.ListedKeysAppend | backend/pkg/jwt/jwt.go:183-199 | the listing keeps SCAN order: listing two batches gives their listings one after the other |
| Jwt.Collect | backend/pkg/jwt/jwt.go:183-201 | it panics exactly when a listed key has fewer than 36 UTF-8 bytes; otherwise one entry per listed key, in order, with the key's last 36 bytes as the session id and `is_current` false |
| Jwt.GetUserSessions | backend/pkg/jwt/jwt.go:178-202 | it fails only by panicking on a listed key of fewer than 36 bytes, never on a Redis error; otherwise one entry per readable key, in SCAN order, each carrying the key's last 36 bytes and the record's user agent, client IP and creation time, none marked current |
| Jwt.ListingRecoversSessionID | backend/pkg/jwt/jwt.go:189 | for a session id of 36 bytes (a UUID's text), the listing's id is exactly that id's bytes |
| Jwt.ListingCountsBytes | backend/pkg/jwt/jwt.go:189 | an 18-character id of two-byte characters is 36 bytes long, so it lists without a panic and is reported as its bytes |
| Jwt.LoginThenValidate | backend/pkg/jwt/jwt.go:47-111 | a freshly issued access token of an unblocked user validates to its claims |
| Jwt.BlockedBeatsLiveSession | backend/pkg/jwt/jwt.go:97-103 | a block flag rejects a verified token even while its session lives |
| Jwt.ReplayRevokesSession | backend/pkg/jwt/jwt.go:129-132 | replaying a rotated refresh token destroys the session, after which the session's access tokens are revoked |
| Jwt.LogoutRevokesAccess | backend/pkg/jwt/jwt.go:105-108 | after logout the session's access tokens validate to SessionRevoked |
| Jwt.AgentMismatchKeepsSession | backend/pkg/jwt/jwt.go:134-136 | a user-agent mismatch is refused without harm: the original agent can still rotate |
| Http.BearerTokenExact | backend/internal/delivery/http/v1/handler_auth.go:106-111 | a header is accepted exactly when it is "Bearer", one space and a token without spaces, and the token is returned |
| Http.BearerToken | backend/internal/delivery/http/v1/handler_auth.go:106-111 | a returned token is exactly what follows "Bearer " and contains no space; a header without a space yields none |
| Http.EmptyHeaderHasNoToken | backend/internal/delivery/http/middleware/jwt.go:24-28 | the empty header has no bearer token |
| AuthHandler.SignIn | backend/internal/delivery/http/v1/handler_auth.go:35-75 | bind and validation failures are InvalidRequest; an unknown user or wrong password is AuthInvalidCredentials with one fixed text and no change; sessions are created only after both checks pass; success exactly when a session is issued, answering the tokens and the user's public view |
| AuthHandler.CredentialFailuresIndistinguishable | backend/internal/delivery/http/v1/handler_auth.go:47-56 | an unknown username and a wrong password give identical replies and stores |
| AuthHandler.Refresh | backend/internal/delivery/http/v1/handler_auth.go:88-129 | in order: bind, validation, missing header, malformed header, undecodable token; then every session-manager error becomes AuthTokenInvalid while keeping the manager's store effect (a mismatch still deletes the session) |
| AuthHandler.RefreshIgnoresSignature | backend/internal/delivery/http/v1/handler_auth.go:113 | the refresh endpoint never verifies the access token's signature or expiry |
| AuthHandler.ReplayThroughEndpoint | backend/internal/delivery/http/v1/handler_auth.go:119-123 | a replayed refresh token through the endpoint answers AuthTokenInvalid and deletes the session |
| AuthHandler.Logout | backend/internal/delivery/http/v1/handler_auth.go:138-159 | it fails exactly when a decodable token's DEL fails; a missing header or undecodable token is a successful no-op; otherwise exactly the token's session is removed |
| AuthHandler.LogoutAcceptsBareToken | backend/internal/delivery/http/v1/handler_auth.go:145 | a non-empty token is accepted with or without the "Bearer " prefix, with the same effect |
| Middleware.Authenticate | backend/internal/delivery/http/middleware/jwt.go:15-50 | it admits exactly when the header has a bearer token that decodes and whose user exists, and then sets user id, role and tenant from the user record |
| Middleware.UnverifiedTokenAdmitted | backend/internal/delivery/http/middleware/jwt.go:31-48 | a token that `ValidateAccessToken` rejects is still admitted as the user it names |
| Middleware.ForgedTokenExample | backend/internal/delivery/http/middleware/jwt.go:31-48 | a concrete token with a bad signature gets user 42 in |
| Middleware.AuthenticateVerified | backend/pkg/jwt/jwt.go:78-111 | the corrected middleware admits exactly when `ValidateAccessToken` succeeds and the user exists, and then only for a live, unblocked session |
| Middleware.VerifiedGateHonoursLogout | backend/pkg/jwt/jwt.go:159-161 | with the corrected middleware, a logged-out session's access token no longer gets in |
| Middleware.Authorize | backend/internal/delivery/http/middleware/casbin.go:14-45 | it passes exactly when user id and tenant are in the context and the policy allows (user, tenant, path, verb), leaving the context unchanged; each refusal has its own text and the same code |
| Middleware.AdmittedDecision | backend/internal/delivery/http/middleware/casbin.go:16-43 | behind the JWT middleware, the decision is exactly the policy's answer for the admitted user's id and tenant |
| Middleware.NoIdentityNoAccess | backend/internal/delivery/http/middleware/casbin.go:16-20 | without a user id the policy is not consulted and the request is refused |
| Middleware.RefusalRendersAsServerError | backend/internal/delivery/http/middleware/casbin.go:16-41 | each refusal is rendered as HTTP 500 "Unknown error", logged and alerted |
| JsArray.FindIndex | frontend/app/stores/useMemberStore.ts:128 | the first index satisfying the predicate, or -1 exactly when there is none |
| JsArray.RemoveAt | frontend/app/stores/useMemberStore.ts:130 | the list without the element at the index, others in order |
| AuthStore.SetTokens | frontend/app/stores/useAuthStore.ts:17-20 | both tokens are replaced, the user is kept, and the store counts as logged in exactly when the access token is non-empty |
| AuthStore.IsLoggedIn | frontend/app/stores/useAuthStore.ts:15 | logged in needs an access token, and an empty access token does not count (`!!""` is false) |
| AuthStore.SetUser | frontend/app/stores/useAuthStore.ts:22-24 | only the user changes; logged-in status is unaffected |
| AuthStore.Logout | frontend/app/stores/useAuthStore.ts:26-31 | user, access token and refresh token all become null, the store is logged out, and it navigates to "/login" |
| AuthStore.Login | frontend/app/stores/useAuthStore.ts:33-52 | a reply stores both tokens and the user and is returned; a failure is rethrown with the store unchanged |
| AuthStore.Refresh | frontend/app/stores/useAuthStore.ts:55-76 | without a refresh token it does nothing; a reply rotates both tokens and keeps the user; a failure logs out, navigates and rethrows |
| AuthStore.LoginLogoutRoundTrip | frontend/app/stores/useAuthStore.ts:26-52 | login followed by logout returns the initial store |
| AuthStore.LogoutIdempotent | frontend/app/stores/useAuthStore.ts:26-31 | logging out twice equals once |
| AuthStore.RefreshWithoutTokenIgnoresReply | frontend/app/stores/useAuthStore.ts:57-60 | without a refresh token no request is made |
| AuthStore.LoginThenRefresh | frontend/app/stores/useAuthStore.ts:33-76 | after login, a successful refresh leaves the user and exactly the rotated pair |
| LegacyAuthStore.SetToken | frontend/app/stores/auth.ts:15-17 | only the token changes |
| LegacyAuthStore.SetUser | frontend/app/stores/auth.ts:19-21 | only the user changes |
| LegacyAuthStore.ClearAuth | frontend/app/stores/auth.ts:23-26 | user and token are both cleared |
| LegacyAuthStore.Logout | frontend/app/stores/auth.ts:28-32 | logout clears user and token and navigates nowhere |
| LegacyAuthStore.ClearUndoesSetters | frontend/app/stores/auth.ts:15-26 | clearing undoes any setters, and the two setters commute |
| RouteGuard.Guard | frontend/app/middleware/auth.global.ts:1-19 | it proceeds exactly when logged-in status differs from the route being public; a signed-in user is redirected home, anyone else to "/auth/login" |
| RouteGuard.NoRedirectLoop | frontend/app/middleware/auth.global.ts:8-18 | the target of a redirect is always let through |
| RouteGuard.LogoutTargetIsRedirected | frontend/app/stores/useAuthStore.ts:30 | logout's "/login" is not the public route, so the guard redirects it again to "/auth/login" |
| RouteGuard.LoginLeavesLoginPage | frontend/app/middleware/auth.global.ts:10-11 | after a login with a token, the login page redirects home |
| AuthPage.SchemaIssues | frontend/app/composables/useAuthPage.ts:8-16 | no issue exactly when both fields are present, the username is 3 to 50 UTF-16 units and the password at least 6; at most one issue per field, and a field has an issue exactly when it misses its bounds |
| AuthPage.InitialFormRefused | frontend/app/composables/useAuthPage.ts:20-23 | the initial form is refused with the two "missing" messages |
| AuthPage.CodePointSchemaIssues | frontend/app/composables/useAuthPage.ts:8-16 | the corrected schema: the same bounds, counted in code points |
| AuthPage.CodePointSchemaImpliesBackendValid | backend/internal/dto/dto_auth.go:4-7 | whatever the corrected schema accepts passes the backend's validate tags |
| AuthPage.Utf16SchemaAdmitsBackendRejects | frontend/app/composables/useAuthPage.ts:9-12 | the written schema accepts a two-emoji username that the backend rejects |
| AuthPage.EmojiUsernameRefusedBySignIn | backend/internal/delivery/http/v1/handler_auth.go:42-45 | that form gets InvalidRequest from sign-in and no session |
| AuthPage.Utf16SchemaOnlyMissesMinimums | frontend/app/composables/useAuthPage.ts:8-16 | the written schema still guarantees presence and the backend maximum; only the minimums can disagree |
| AuthPage.OnSubmit | frontend/app/composables/useAuthPage.ts:25-32 | the store ends as login leaves it; the success toast exactly on a reply and the error toast exactly on a failure; nothing is thrown |
| MemberStore.FetchMembers | frontend/app/stores/useMemberStore.ts:103-121 | after fetching, `members` is the mock array itself (the component's own array is kept), not loading, no error |
| MemberStore.BeginFetch | frontend/app/stores/useMemberStore.ts:104-105 | loading starts and the error is cleared; both arrays and which one is shown are kept |
| MemberStore.FinishFetch | frontend/app/stores/useMemberStore.ts:113-120 | `members` becomes the mock array itself, which is kept, the own array is kept, and loading ends with the error untouched |
| MemberStore.AddMember | frontend/app/stores/useMemberStore.ts:123-125 | appends exactly the member to the array `members` currently is; the other array, loading and error are kept |
| MemberStore.RemoveMember | frontend/app/stores/useMemberStore.ts:127-132 | no change when no member has the username; otherwise exactly the first such member is removed from the array `members` currently is, the other array, loading and error kept |
| MemberStore.AddRemoveRoundTrip | frontend/app/stores/useMemberStore.ts:123-132 | removing a just-added member with a fresh username gives the list back |
| MemberStore.RemoveDropsOne | frontend/app/stores/useMemberStore.ts:127-132 | removal drops exactly one occurrence of the matched member, as a multiset |
| MemberStore.RefetchKeepsLocalEdits | frontend/app/stores/useMemberStore.ts:113 | because the mock array is shared, members added after a fetch survive a refetch |
| NotificationStore.Toggle | frontend/app/stores/useNotificationStore.ts:412 | the new flag is present and true exactly when the old one was not true |
| NotificationStore.BeginFetch | frontend/app/stores/useNotificationStore.ts:390-391 | loading starts and the error is cleared; the mock array and whether it is shown are kept |
| NotificationStore.FinishFetch | frontend/app/stores/useNotificationStore.ts:399-406 | the list becomes the mock array itself and loading ends |
| NotificationStore.FetchNotifications | frontend/app/stores/useNotificationStore.ts:389-407 | after fetching, the list is the mock array itself, which is kept, not loading, no error |
| NotificationStore.ClearAll | frontend/app/stores/useNotificationStore.ts:416-418 | the list is emptied while the mock array, loading and error are kept |
| NotificationStore.MarkAsRead | frontend/app/stores/useNotificationStore.ts:409-414 | the length, loading and error are kept; an unknown id changes nothing; only `unread` flags of entries with that id can change, the first such entry flips its displayed state, and every later entry is unchanged |
| NotificationStore.MarkTwiceRestoresDisplay | frontend/app/stores/useNotificationStore.ts:409-414 | marking twice restores every entry's displayed state |
| NotificationStore.MarkAsReadOnReadEntryMarksUnread | frontend/app/stores/useNotificationStore.ts:412 | `markAsRead` on a read entry marks it unread: it toggles |
| NotificationStore.RefetchKeepsMarks | frontend/app/stores/useNotificationStore.ts:399-418 | a flag flipped before `clearAll` is still flipped after the next fetch |
| NotificationStore.MockShape | frontend/app/stores/useNotificationStore.ts:12-386 | the mock has 27 entries with ids 1 to 27 in order, newest first |
| NotificationStore.MockUnread | frontend/app/stores/useNotificationStore.ts:12-386 | exactly ids 1, 3, 7 and 9 are unread |
| Strings.Split | backend/internal/delivery/http/v1/handler_auth.go:106 | at least one piece, no piece contains the separator, and joining the pieces gives the input back |
| Strings.SplitJoin | backend/internal/delivery/http/v1/handler_auth.go:106 | splitting the join of separator-free pieces gives the pieces back |
| Strings.TrimPrefix | backend/internal/delivery/http/v1/handler_auth.go:145 | with the prefix, the prefix plus the result is the input; without it, the input is unchanged |
| Strings.IntRoundTrip | backend/config/config.go:37 | `%d` output is a decimal numeral that parses back to the number and has no colon or space |
| Strings.Utf16Length | frontend/app/composables/useAuthPage.ts:11-15 | JavaScript's length is between the code-point count and twice it |
| Strings.Utf8 | backend/pkg/jwt/jwt.go:189 | a string has between one and four bytes per character, which is what Go's `len` and slicing count |
| Strings.Utf8Append | backend/pkg/jwt/jwt.go:189 | the bytes of a concatenation are the bytes of its parts |
| Strings.ByteLengthIsCharLengthOnlyForAscii | backend/pkg/jwt/jwt.go:189 | bytes and characters agree in number exactly for ASCII text, such as keys built from UUIDs and numeric ids |

## Left out

- **Cryptography is left out.** HMAC signing, bcrypt comparison and UUID generation become parameters: `Signed`, `passwordMatches`, and the ids in `Issue`/`Rotation`.
- **JSON is not modelled.** An undecodable Redis value is the `Opaque` entry, a body that fails to bind is `None`, and an undecodable token is the codec's `None`.
- **Time is not modelled.** That covers key TTLs, the `expires_at` field (kept but not refreshed by `Refresh`, as in the source), the simulated store delays, and the notification dates, which are minutes of age.
- **Concurrency is not modelled.** That covers Redis SCAN consistency, the singleton validator and the telegram goroutine.
- **SCAN semantics are a parameter.** SCAN's yield is passed in as a sequence. `Jwt.ScanContract` states what a complete scan would yield, matching by key prefix; glob metacharacters in a user id are not modelled.
- **`Config.Load` is left out.** It reads files and the environment; the other config structs hold only settings.
- **Logger output text is not modelled.** Only which entry is written and at which severity.
- **The response envelope's data is typed.** `any` becomes a type parameter.
- **The repository's code list does not define six codes.** InvalidRequest, AuthInvalidCredentials, AuthAccessTokenRequired, SessionRevoked, SessionMismatch and UserBlocked are used by the code but not declared in its `codes` package. They are modelled as codes that fall to the default branches: HTTP 500 and "Unknown error".
- **The `RefreshTokenRequest` DTO is not part of this model.** Its validation result is a parameter.
- **Frontend user fields are kept, not cross-checked.** The backend's `full_name` and the frontend's `name` for the user are both kept, but the JSON mapping between them is not modelled.
- **Frontend persistence is left out.** That covers `persist: true` in auth.ts and the `/auth/login` request URL used by the frontend store, which is network configuration.
- **Display-only fields are left out.** Notification e-mail, avatar, status and location, and member avatars beyond the URL.
- **Which store the guard reads.** The guard and the sign-in page read the store in useAuthStore.ts. auth.ts declares the same store id but has neither `isLoggedIn` nor `login`.
- **Opening the database is left out.** Of `postgres.New`, only the logger it builds is modelled; the connection, its gorm options and the pool settings are I/O.
- **The validator's name fallback is not modelled.** When the registered tag-name function returns the empty string, go-playground reports the struct field's Go name instead. No field of the sign-in request has such a tag, so the model does not follow this fallback.
- **Redis keys are character strings.** A key that is not valid UTF-8 cannot be written down in the model. A session id that `key[len(key)-36:]` cuts inside a character is kept as its bytes; how JSON would render those bytes is not modelled.
- Wiring.ReleaseMode: gin's start-up mode, which gin takes from its `GIN_MODE` environment variable, is a parameter; reading the environment is left out.
- **Middleware.Authorize:** the subject is the user id as stored in the context. `fmt.Sprintf("%v", ..)` of a string is the string itself.

## Findings

| source | as written | input that shows it | evidently intended | confidence | as-written member | corrected member |
|---|---|---|---|---|---|---|
| backend/internal/delivery/http/middleware/jwt.go:31-48 | the middleware decodes the bearer token without verifying it and does not consult Redis | any token whose signature does not check but whose claims name an existing user, e.g. user "42" with a forged signature | the token passes `ValidateAccessToken` (signature, expiry, block flag, live session) before the user is looked up | high, not executed | Middleware.UnverifiedTokenAdmitted | Middleware.AuthenticateVerified |
| frontend/app/composables/useAuthPage.ts:9-15 | the form's minimum lengths count UTF-16 code units, while the backend's `min` tags count runes | username "😀😀" with password "secret": length 4 in the form, 2 runes at the backend | the form refuses what the backend will refuse, so lengths are counted in code points | medium, not executed | AuthPage.Utf16SchemaAdmitsBackendRejects | AuthPage.CodePointSchemaIssues |

**First finding, the JWT middleware.**
- `Middleware.ForgedTokenExample` gives a concrete input.
- `Middleware.VerifiedGateHonoursLogout` shows that the corrected middleware rejects tokens once their session is logged out.
- `Middleware.AdmittedDecision` holds for both middlewares.

**Second finding, the form lengths.**
- `AuthPage.EmojiUsernameRefusedBySignIn` follows the as-written input through the sign-in handler.
- `AuthPage.CodePointSchemaImpliesBackendValid` is the corrected property.
