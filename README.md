# easy-gen-auth in Dafny

This project models the authentication core of easy-gen-auth, a NestJS server with a
React client. It covers the following parts.

- **The server-side session store.** Each session record is one signed-in device. The
  store's operations are creation (with its `<digits><d|h|m|s>` lifetime parser),
  listing a user's live sessions, revoking one, revoking all but one, refreshing a
  session's last use, the expiry sweep and the lookup by token. They run on a
  `SessionStore` class whose `sessions` field is the collection. Each operation is
  proved against a function on the table (`SessionTable`).
- **The layers around the store:**
  - sign-up and login, which sign a token and record a session for it;
  - the request gate of the JWT strategy;
  - the `/sessions` controller, whose "revoke all" keeps the caller's current session.
- **The records and their validation:**
  - the `Session` and both `User` schemas: defaults, `required` fields, the email
    setters (trim, lowercase), the unique email index, and the `toJSON` transforms
    that rename `_id` and drop `__v` and `password`;
  - the two sign-up request bodies and their class-validator decorators;
  - the configuration namespaces and the environment schema's defaults.
- **The browser side:**
  - the auth client's two-key local-storage state and its JSON round trip;
  - the three forms' `validateForm`, `handleChange` and submit guard;
  - the sign-up page's password-strength meter;
  - the sessions page's "time ago" buckets, browser icon, current-session detection
    and list.

Time is integer milliseconds, and `now` is always a parameter. ObjectIds are numbers
handed out by a counter. Anything the code calls but whose code is not in the
repository becomes a parameter: the password hash check, the user service, JWT
signing and verification, and the HTTP answers the browser receives.

Each file holds one module and follows one source file:

- `duration.dfy`, `session_schema.dfy`, `session_table.dfy`, `sessions_service.dfy`:
  the session store and its record.
- `sessions_controller.dfy`, `jwt_strategy.dfy`, `auth_service.dfy`: the layers that
  call the store.
- `user_schema.dfy`, `users_user_schema.dfy`, `unique_index.dfy`: the two user
  records and the email index.
- `class_validator.dfy`, `create_user_dto.dfy`, `users_create_user_dto.dfy`,
  `patterns.dfy`: the request bodies and the regular expressions they use.
- `configuration.dfy`: the configuration.
- `json.dfy`, `client_auth.dfy`: the browser's auth client.
- `forms.dfy`, `signup_page.dfy`, `signup_component.dfy`, `login_component.dfy`: the
  forms.
- `sessions_page.dfy`: the sessions page.
- `common.dfy`, `text.dfy`, `documents.dfy`: shared helpers.

## Model

| member | source | states |
|---|---|---|
| Duration.Multiplier | backend/src/auth/services/sessions.service.ts:28-35 | the table has an entry exactly for d, h, m and s, and every entry is positive |
| Duration.MatchDuration | backend/src/auth/services/sessions.service.ts:25-27 | a match exactly when the text is one or more ASCII digits followed by one unit letter and nothing else |
| Duration.ExpiresIn | backend/src/auth/services/sessions.service.ts:21 | a missing or empty setting reads as one day; any other setting is used as given |
| Duration.DurationMs | backend/src/auth/services/sessions.service.ts:22-45 | every lifetime is a whole number of seconds, and a setting that is not `<digits><unit>` gives one day |
| Duration.InnerFallbackUnreachable | backend/src/auth/services/sessions.service.ts:35-41 | every unit the pattern admits has a multiplier, so the inner one-day fallback is dead code |
| Duration.DurationOfNumeral | backend/src/auth/services/sessions.service.ts:25-37 | `<amount><unit>` gives exactly amount times the unit's milliseconds |
| Duration.DurationFallback | backend/src/auth/services/sessions.service.ts:42-45 | any text that is not `<digits><unit>` gives exactly one day |
| Duration.DurationZeroIff | backend/src/auth/services/sessions.service.ts:22-45 | the lifetime is zero exactly for a zero amount, so a new session's expiry is never before its creation |
| Duration.MissingSettingIsOneDay | backend/src/auth/services/sessions.service.ts:21 | an unset or empty setting gives 86400000 ms |
| Duration.DurationExamples | backend/src/auth/services/sessions.service.ts:28-37 | "1d", "2h", "30m", "45s" and "15d" give their products in milliseconds |
| Duration.MalformedExamples | backend/src/auth/services/sessions.service.ts:42-45 | "garbage", "1w", "d" and "1.5h" each fall back to one day |
| SessionSchema.FailedPaths | backend/src/auth/schemas/session.schema.ts:26-76 | each of userId, token, userAgent and ipAddress fails exactly when it is absent (or, for a string, empty); expiresAt fails when absent or outside the range of a `Date`, lastActivity when given outside that range; no other path fails |
| SessionSchema.NewSession | backend/src/auth/schemas/session.schema.ts:9-85 | a save fails exactly when a path fails validation; otherwise the given fields are kept, lastActivity defaults to now, isActive defaults to true, and both timestamps are now |
| SessionSchema.RequiredFieldsEnforced | backend/src/auth/schemas/session.schema.ts:26-58 | a stored session never has an empty token, user agent or address, and an input missing the owner, token or expiry is rejected |
| SessionSchema.SessionJson | backend/src/auth/schemas/session.schema.ts:13-18 | `id` becomes the string of `_id`; `_id` and `__v` are gone; every other field is kept unchanged and no field is added |
| SessionSchema.TransformSession | backend/src/auth/schemas/session.schema.ts:13-18 | the in-place edits of the transform leave exactly the object `SessionJson` describes |
| SessionSchema.SessionJsonShowsToken | backend/src/auth/schemas/session.schema.ts:10-18 | a serialised session has exactly the string id, the stored fields and the timestamps, and it includes the bearer token |
| SessionSchema.ToObject | backend/src/auth/schemas/session.schema.ts:8-18 | the object the transform receives carries `_id`, and it is an ObjectId |
| Documents.IdString | backend/src/auth/schemas/session.schema.ts:13 | an id's text is a canonical decimal numeral |
| Documents.IdStringInjective | backend/src/auth/schemas/session.schema.ts:13 | distinct ids have distinct texts |
| Documents.ParseId | backend/src/auth/services/sessions.service.ts:72 | a text names an id exactly when it is a canonical numeral; any other text makes the constructor throw |
| Documents.ParseIdString | backend/src/auth/services/sessions.service.ts:139 | an id's text parses back to the id |
| Documents.IdStringOfParse | backend/src/auth/services/sessions.service.ts:72 | a text that parses is the text of the id it names |
| SessionTable.UpdatesEvolve | backend/src/auth/services/sessions.service.ts:69-128 | revoke-one, revoke-all, touch and sweep never make a session active again and never rewrite id, owner, token, device, expiry or creation time |
| SessionTable.Sweep | backend/src/auth/services/sessions.service.ts:115-125 | the table keeps its length, and afterwards no record is active with `expiresAt <= now` |
| SessionTable.RevokeAll | backend/src/auth/services/sessions.service.ts:84-94 | the table keeps its length, and afterwards no record matches the filter: none of the owner's records other than the excepted one is active |
| SessionTable.RevokeOne | backend/src/auth/services/sessions.service.ts:69-77 | the table keeps its length, and afterwards the record with that id and owner, if any, is inactive |
| SessionTable.Touch | backend/src/auth/services/sessions.service.ts:97-103 | the table keeps its length, and afterwards the record with that id, if any, was last active at `now` |
| SessionTable.FirstValid | backend/src/auth/services/sessions.service.ts:131-135 | the first record holding the token that is active with `expiresAt > now`, and none exactly when no such record exists |
| SessionTable.ActiveOf | backend/src/auth/services/sessions.service.ts:59-64 | exactly the owner's records that are active and unexpired, each as often as it is stored |
| SessionTable.SortByActivity | backend/src/auth/services/sessions.service.ts:65 | a permutation of its input ordered by lastActivity, most recent first |
| SessionTable.ExpiredCountZero | backend/src/auth/services/sessions.service.ts:116-120 | the sweep's count is zero exactly when no record is active with `expiresAt <= now` |
| SessionTable.SweepCountIsModified | backend/src/auth/services/sessions.service.ts:115-128 | the count the sweep answers equals the number of records it turned inactive |
| SessionTable.SweepExactly | backend/src/auth/services/sessions.service.ts:116-125 | after the sweep a record is active exactly when it was active and unexpired; no record's validity at now changes; records it does not match are untouched |
| SessionTable.SweepIdempotent | backend/src/auth/services/sessions.service.ts:115-128 | a second sweep at the same time changes nothing and counts zero |
| SessionTable.RevokeAllLeavesOne | backend/src/auth/services/sessions.service.ts:84-95 | revoking all but one of the user's valid sessions leaves exactly that one valid among the user's sessions |
| SessionTable.RevokeAllLeavesNone | backend/src/auth/services/sessions.service.ts:84-94 | revoking without an exception leaves the user no valid session |
| SessionTable.RevokeAllScope | backend/src/auth/services/sessions.service.ts:84-95 | other users' records and the excepted record are unchanged, whether expired or not; a record ends inactive exactly when it was already inactive or belongs to the user and is not excepted |
| SessionTable.RevokeOneOnly | backend/src/auth/services/sessions.service.ts:69-77 | with unique ids, exactly the record with that id and owner is deactivated, active or not, and every other record is unchanged |
| SessionTable.RevokeOneMissing | backend/src/auth/services/sessions.service.ts:69-81 | with no record of that id and owner (another user's session, an unknown id) nothing changes |
| SessionTable.TouchOnly | backend/src/auth/services/sessions.service.ts:97-103 | with unique ids, only the record with that id gets a new lastActivity |
| SessionTable.UnknownTokenFindsNothing | backend/src/auth/services/sessions.service.ts:130-142 | since stored tokens are non-empty, neither the empty token nor a token no record holds finds a session |
| SessionsService.Excepted | backend/src/auth/services/sessions.service.ts:90-92 | an absent or empty id excepts nothing; a well-formed id excepts the session it names; any other text fails as the ObjectId constructor does |
| SessionsService.OverlongLifetimeOutOfRange | backend/src/auth/services/sessions.service.ts:37 | a lifetime of 100000000 days or more puts the expiry past the Date range for any positive clock |
| SessionsService.ExceptedOwnId | backend/src/auth/services/sessions.service.ts:90-92 | a session's own string id always excepts that session |
| SessionsService.SessionStore.constructor | backend/src/auth/services/sessions.service.ts:10-13 | an empty collection, with the configured expiration setting |
| SessionsService.SessionStore.CreateSession | backend/src/auth/services/sessions.service.ts:15-56 | on success, appends one record with the owner, token, device and address verbatim, `expiresAt = now + lifetime`, active, last used now and a fresh id; fails and stores nothing exactly when a required string is empty or the expiry lies outside the range of a `Date` |
| SessionsService.SessionStore.GetUserSessions | backend/src/auth/services/sessions.service.ts:58-67 | exactly the owner's active, unexpired sessions, most recently used first |
| SessionsService.SessionStore.RevokeSession | backend/src/auth/services/sessions.service.ts:69-82 | a malformed id fails untouched; otherwise the owned record is deactivated, and the answer is NotFound("Session not found") exactly when the caller owns no record of that id |
| SessionsService.SessionStore.RevokeAllUserSessions | backend/src/auth/services/sessions.service.ts:84-95 | every active record of the user is deactivated, expired or not, except the named one; a malformed id fails before any change |
| SessionsService.SessionStore.UpdateSessionActivity | backend/src/auth/services/sessions.service.ts:97-103 | only the record with that id gets lastActivity = now |
| SessionsService.SessionStore.CleanupExpiredSessions | backend/src/auth/services/sessions.service.ts:115-128 | the sweep is applied, and the answer equals both the number of records deactivated and the number of active records with `expiresAt <= now` |
| SessionsService.SessionStore.HandleExpiredSessions | backend/src/auth/services/sessions.service.ts:105-113 | the hourly job always completes, having applied the sweep |
| SessionsService.SessionStore.ValidateSession | backend/src/auth/services/sessions.service.ts:130-143 | a record is answered exactly when one holds the token and is active and unexpired (so not at the expiry instant); the answer is the first such record as read, and only its lastActivity changes |
| SessionsController.SecondWord | backend/src/auth/controllers/sessions.controller.ts:53 | the second piece of the header split at single spaces, which contains no space; nothing without a header |
| SessionsController.CurrentIndex | backend/src/auth/controllers/sessions.controller.ts:52-54 | the position of a valid session whose token is that second piece, if there is one |
| SessionsController.Controller.GetUserSessions | backend/src/auth/controllers/sessions.controller.ts:21-23 | only the caller's valid sessions, each exactly as often as stored, most recent first |
| SessionsController.Controller.RevokeSession | backend/src/auth/controllers/sessions.controller.ts:25-41 | 204 exactly when the id is well formed and the caller owns that session; a failure changes nothing; another user's session is never touched |
| SessionsController.Controller.RevokeAllSessions | backend/src/auth/controllers/sessions.controller.ts:43-60 | always 204; when the header's token has a valid session, that session is refreshed and every other active session of the caller is deactivated, otherwise all of them are |
| SessionsController.RevokeAllKeepsCurrent | backend/src/auth/controllers/sessions.controller.ts:52-59 | the current session, refreshed, is then the caller's only valid session |
| SessionsController.RevokeAllWithoutCurrent | backend/src/auth/controllers/sessions.controller.ts:56-59 | without a current session none of the caller's sessions stays valid |
| SessionsController.SecondWordOfBearer | backend/src/auth/controllers/sessions.controller.ts:53 | for `Bearer <token>` with one space, the controller and the gate read the same token |
| SessionsController.DoubleSpaceRevokesCurrent | backend/src/auth/controllers/sessions.controller.ts:52-59 | with two spaces after "Bearer" the gate still finds the token, but the controller reads "", so no current session is found and the caller's current session is revoked too |
| JwtStrategy.FromAuthHeaderAsBearerToken | backend/src/strategies/jwt.strategy.ts:22 | a token, when found, is non-empty and holds no white space |
| JwtStrategy.BearerHeaderYieldsToken | backend/src/strategies/jwt.strategy.ts:36 | a scheme spelled "bearer" in any case, white space and a token yield exactly that token |
| JwtStrategy.SecretCheck | backend/src/strategies/jwt.strategy.ts:16-19 | passes exactly when a non-empty secret is configured; otherwise fails with "JWT_SECRET is not defined" |
| JwtStrategy.NewStrategy | backend/src/strategies/jwt.strategy.ts:16-25 | the strategy is built exactly when the secret check passes, with that secret |
| JwtStrategy.Strategy.Validate | backend/src/strategies/jwt.strategy.ts:28-48 | checks the user by the payload's email, then the token, then the session, in that order; each failure answers its own 401 and leaves the store alone; on success answers the user and refreshes the session |
| JwtStrategy.Strategy.Authenticate | backend/src/strategies/jwt.strategy.ts:20-48 | succeeds exactly when a token is found, verifies, names a known user and has a live session; "No token provided" is never the answer |
| AuthService.DeviceOf | backend/src/services/auth.service.ts:31 | the user-agent header when present and non-empty, else "Unknown" |
| AuthService.AddressOf | backend/src/services/auth.service.ts:32 | `req.ip`, else the socket address, else "Unknown", never empty |
| AuthService.TokenSubjectNamesUser | backend/src/services/auth.service.ts:79-82 | the payload's subject parses back to the user's id and its email is the user's |
| AuthService.PublicUser | backend/src/services/auth.service.ts:35-36 | the answered user object has no password but keeps the email and `_id` |
| AuthService.Service.Issue | backend/src/services/auth.service.ts:25-41 | records exactly one new session for the signed token, leaving earlier sessions as they were, and answers that token with the password-free user; an empty token or an expiry beyond the range of a `Date` fails the save and records nothing |
| AuthService.Service.Signup | backend/src/services/auth.service.ts:18-42 | a failed user creation is passed on before anything is signed or stored; an empty token or an expiry beyond the range of a `Date` fails the session save as Invalid after the user was created, recording nothing; otherwise one session for the returned token is appended, and the user never carries a password |
| AuthService.Service.Login | backend/src/services/auth.service.ts:44-77 | a wrong password answers Unauthorized("Invalid credentials") before any token or session; a correct one appends exactly one session for the returned token when the token is non-empty and its expiry lies within the range of a `Date`, and otherwise fails as Invalid without touching the stored sessions, so a login only ever inserts |
| AuthService.Service.ValidateToken | backend/src/services/auth.service.ts:84-92 | true exactly when the signature verifies and a live session holds the token; false leaves the store unchanged |
| AuthService.IssuedTokenValidates | backend/src/services/auth.service.ts:60-68 | a session recorded at login validates its token until it expires, whatever sessions came before, and the earlier sessions are kept as they were |
| UniqueIndex.Insert | backend/src/schemas/user.schema.ts:113 | an insert is refused with a duplicate-key error exactly when the key is already present; otherwise the record is appended |
| UniqueIndex.InsertKeepsUnique | backend/src/schemas/user.schema.ts:113 | inserting through the index keeps the keys pairwise distinct |
| UserSchema.NormalisedEmailShape | backend/src/schemas/user.schema.ts:27-32 | a stored email has no white space at either end and no capital the modelled `toLowerCase` maps (ASCII, Latin-1, Cyrillic) |
| UserSchema.NormaliseEmailIdempotent | backend/src/schemas/user.schema.ts:27-32 | normalising a normalised email changes nothing |
| UserSchema.NormaliseEmailIgnoresCaseAndSpace | backend/src/schemas/user.schema.ts:27-32 | emails that differ only in the case of modelled capitals or in surrounding spaces are stored alike |
| UserSchema.AccentedCapitalsFolded | backend/src/schemas/user.schema.ts:27-32 | an email starting with "\u00C9" is stored as the one starting with "\u00E9", so the unique index treats them as one |
| UserSchema.Cast | backend/src/schemas/user.schema.ts:27-83 | email trimmed then lowercased (ASCII, Latin-1 and Cyrillic capitals), name trimmed, password and company size as given |
| UserSchema.UserErrors | backend/src/schemas/user.schema.ts:27-93 | each required string fails exactly when it is absent or empty after its setter, and the name also fails when it is shorter than 3 once trimmed; agreeToEula never fails |
| UserSchema.NewUser | backend/src/schemas/user.schema.ts:22-108 | a save fails exactly when a path fails; otherwise the fields are normalised, the three flags default to false and the timestamps are now |
| UserSchema.ShortNameRejected | backend/src/schemas/user.schema.ts:39-44 | a name that is under 3 characters once trimmed is refused on "name" |
| UserSchema.StoredEmailIsNormal | backend/src/schemas/user.schema.ts:27-32 | a stored email is its own normal form |
| UserSchema.InsertUser | backend/src/schemas/user.schema.ts:113 | a second user with an equal email is refused with a duplicate-key error on "email" |
| UserSchema.InsertUserKeepsEmailsUnique | backend/src/schemas/user.schema.ts:113 | stored emails stay pairwise distinct |
| UserSchema.UserJson | backend/src/schemas/user.schema.ts:13-19 | `id` is the string of `_id`; `_id`, `__v` and `password` are gone; every other field is unchanged and no field is added |
| UserSchema.TransformUser | backend/src/schemas/user.schema.ts:13-19 | the in-place edits of the transform leave exactly the object `UserJson` describes |
| UserSchema.UserJsonHidesPassword | backend/src/schemas/user.schema.ts:9-19 | a serialised user has every field of the document except `_id`, `__v` and the password, and carries the string id |
| UserSchema.ToObject | backend/src/services/auth.service.ts:35 | `_id`, when present, is an ObjectId, so the transform can write `id` |
| UsersUserSchema.UserErrors | backend/src/users/schemas/user.schema.ts:27-55 | email, name (at least 3 characters once trimmed) and password fail exactly when missing or empty after their setters |
| UsersUserSchema.NewUser | backend/src/users/schemas/user.schema.ts:22-60 | a save fails exactly when a path fails; otherwise the email is trimmed and lowercased (ASCII, Latin-1 and Cyrillic capitals), the name trimmed, and isEmailVerified defaults to false |
| UsersUserSchema.PasswordRequiredAndUnverifiedByDefault | backend/src/users/schemas/user.schema.ts:52-60 | a missing password is refused, and an unset flag is stored as false |
| UsersUserSchema.SecondEqualEmailRefused | backend/src/users/schemas/user.schema.ts:27-33 | once a user is stored, a second whose email is equal after the trim and lowercase setters is refused with a duplicate-key error on "email" |
| UsersUserSchema.UserJsonHidesPassword | backend/src/users/schemas/user.schema.ts:9-19 | a serialised user has exactly id, email, name, isEmailVerified and the timestamps, never the password |
| UsersUserSchema.ToObject | backend/src/users/schemas/user.schema.ts:9-19 | `_id`, when present, is an ObjectId, so the transform can write `id` |
| Patterns.PasswordPatternIff | backend/src/auth/dto/create-user.dto.ts:27-28 | the anchored pattern accepts exactly eight or more allowed characters that include a letter, a digit and a special character |
| Patterns.AnchoredImpliesUnanchored | frontend/src/pages/SignUpForm.tsx:137-141 | every password the server's pattern accepts also passes the forms' unanchored pattern |
| Patterns.TrailingSpaceAcceptedOnlyUnanchored | frontend/src/pages/SignUpForm.tsx:137-141 | "Passw0rd! " passes the forms' pattern but not the server's |
| Patterns.ExamplePasswordAccepted | backend/src/auth/dto/create-user.dto.ts:21-28 | the documented example "Password123!" passes the server's rule |
| Patterns.LooksLikeEmailIff | frontend/src/components/LoginForm.tsx:22 | `\S+@\S+\.\S+` matches exactly when some `@` has a non-space before it, non-space characters up to a `.`, and a non-space after the dot |
| Patterns.EmailAccepted | frontend/src/components/LoginForm.tsx:22 | "user@example.com" passes, and so does an address embedded in other text |
| Patterns.EmailRefused | frontend/src/components/LoginForm.tsx:22 | "a@b", "a@ b.c" and "" fail |
| Patterns.ValidEmailHasNoSpace | frontend/src/components/SignUpForm.tsx:126-131 | a value the email input accepts holds no white space |
| Patterns.DottedValidEmailLooksLikeEmail | frontend/src/components/SignUpForm.tsx:29-36 | a value the email input accepts whose domain has a dot also passes the component's `\S+@\S+\.\S+` test |
| Patterns.BrowserRefusesSpacedEmail | frontend/src/components/SignUpForm.tsx:29-36 | "a@b.c x" passes the component's test, but the email input refuses it |
| Patterns.BrowserAdmitsUndottedDomain | frontend/src/components/SignUpForm.tsx:29-36 | "a@b" passes the email input, but the component's test refuses it |
| ClassValidator.AllowedLength | backend/src/auth/dto/create-user.dto.ts:26-28 | a password of allowed characters has the length MinLength measures |
| ClassValidator.ValidateEmptyIff | backend/src/auth/dto/create-user.dto.ts:4-74 | a body passes exactly when every declared rule holds for it |
| ClassValidator.ViolationsAreDeclared | backend/src/auth/dto/create-user.dto.ts:4-74 | every reported failure names a declared property and one of its checks |
| ClassValidator.ValidateMonotone | backend/src/users/dto/create-user.dto.ts:4-35 | fewer rules never report more failures |
| ClassValidator.UndeclaredIgnored | backend/src/users/dto/create-user.dto.ts:4-35 | properties no rule names do not change the outcome |
| CreateUserDto.ValidateSignup | backend/src/auth/dto/create-user.dto.ts:4-74 | failures are reported only on the eight declared properties |
| CreateUserDto.SignupAcceptedIff | backend/src/auth/dto/create-user.dto.ts:9-73 | a body passes exactly when it has an email, a string name of length 3 or more, a password of the server's pattern, three non-empty profile strings and two booleans |
| CreateUserDto.PatternImpliesMinLength | backend/src/auth/dto/create-user.dto.ts:25-33 | whenever MinLength(8) fails on the password, the pattern fails too |
| CreateUserDto.DeclinedEulaAccepted | backend/src/auth/dto/create-user.dto.ts:64-66 | `agreeToEula: false` raises no failure on that property |
| UsersCreateUserDto.ValidateUser | backend/src/users/dto/create-user.dto.ts:4-35 | failures are reported only on email, name and password |
| UsersCreateUserDto.ProfileIgnored | backend/src/users/dto/create-user.dto.ts:4-35 | profile properties do not change the outcome |
| UsersCreateUserDto.ReducedIsRestriction | backend/src/users/dto/create-user.dto.ts:9-33 | the reduced body reports exactly the full body's failures on email, name and password |
| Configuration.EnvOr | backend/src/config/configuration.ts:20-21 | an absent or empty variable gives the fallback; any other value is kept |
| Configuration.ParseInt | backend/src/config/configuration.ts:17-24 | NaN exactly when no digit follows the leading white space and the optional sign; a negative value only after a minus |
| Configuration.ParseIntOfIntText | backend/src/config/configuration.ts:17 | `parseInt` reads back every integer's decimal text, ignoring what follows when it does not start with a digit |
| Configuration.ParseIntWithoutDigits | backend/src/config/configuration.ts:17 | a text with no digit that does not start with white space ("px", "-", "") reads as NaN |
| Configuration.AppConfigOf | backend/src/config/configuration.ts:16-27 | the port is 3000 when PORT is unset or empty, and `parseInt(PORT)` otherwise |
| Configuration.DatabaseConfigOf | backend/src/config/configuration.ts:29-31 | the URI is never empty |
| Configuration.AuthConfigOf | backend/src/config/configuration.ts:33-36 | the secret and the expiration are never empty |
| Configuration.EmptyEnvironmentDefaults | backend/src/config/configuration.ts:17-30 | with nothing set: port 3000, "development", "http://localhost:80" and the local database URI |
| Configuration.ThrottleTtlDefault | backend/src/config/configuration.ts:23 | with THROTTLE_TTL unset the ttl is 60 |
| Configuration.ThrottleLimitDefault | backend/src/config/configuration.ts:24 | with THROTTLE_LIMIT unset the limit is 10 |
| Configuration.DefaultExpirationIsFifteenDays | backend/src/config/configuration.ts:35 | with JWT_EXPIRATION unset the namespace gives "15d", and sessions then last fifteen days |
| Configuration.SecretAlwaysConfigured | backend/src/config/configuration.ts:34 | the namespace always yields a secret, so the strategy's check never fires; unset, the published fallback signs |
| Configuration.SchemaErrors | backend/src/config/configuration.ts:4-14 | the failures are among the declared keys, and a missing MONGODB_URI or JWT_SECRET is one |
| Configuration.ValidatedEnv | backend/src/config/configuration.ts:4-14 | fails exactly when a key fails; otherwise every present variable keeps its value |
| Configuration.ValidatedAuthConfig | backend/src/config/configuration.ts:6-8 | after validation the secret is the configured one, and an unset expiration reads as the schema's "1d", not "15d" |
| Configuration.ValidatedNodeEnv | backend/src/config/configuration.ts:9-11 | after validation nodeEnv is development, production or test |
| Json.ParseQuoted | frontend/src/services/auth.service.ts:11 | a string written by `JSON.stringify` parses back to itself, followed by the rest of the input |
| Json.ParseScalarText | frontend/src/services/auth.service.ts:11 | every string, boolean, null and integer value parses back from its text |
| Json.ParseMembersText | frontend/src/services/auth.service.ts:11 | the members of an object parse back from their text, in order |
| Json.ParseStringify | frontend/src/services/auth.service.ts:11 | `JSON.parse(JSON.stringify(user))` gives back the user |
| Json.Stringify | frontend/src/services/auth.service.ts:11 | the text is enclosed in braces, and is "{}" exactly for the empty object |
| Json.Parse | frontend/src/services/auth.service.ts:33 | only text that starts with `{` parses, and the empty object comes exactly from "{}" |
| ClientAuth.AfterResponse | frontend/src/services/auth.service.ts:7-23 | a truthy token stores both keys, which read back as that token and that user (a missing user then fails to parse); anything else leaves storage unchanged; other keys are never touched |
| ClientAuth.AfterLogout | frontend/src/services/auth.service.ts:25-28 | afterwards not authenticated and no current user; other keys are kept |
| ClientAuth.CurrentUserIn | frontend/src/services/auth.service.ts:30-36 | null exactly when nothing or "" is stored; a SyntaxError exactly when the stored text does not parse; otherwise the parsed object |
| ClientAuth.LogoutIdempotent | frontend/src/services/auth.service.ts:25-28 | logging out twice is logging out once |
| ClientAuth.LoginThenLogout | frontend/src/services/auth.service.ts:16-28 | a login followed by a logout leaves storage as a logout alone would |
| ClientAuth.AuthClient.Signup | frontend/src/services/auth.service.ts:7-14 | the answer is returned unchanged, and storage becomes `AfterResponse` of the old storage |
| ClientAuth.AuthClient.Login | frontend/src/services/auth.service.ts:16-23 | the answer is returned unchanged, and storage becomes `AfterResponse` of the old storage |
| ClientAuth.AuthClient.Logout | frontend/src/services/auth.service.ts:25-28 | both keys are removed and nothing else changes |
| ClientAuth.AuthClient.GetCurrentUser | frontend/src/services/auth.service.ts:30-36 | null when nothing or "" is stored, the parsed user otherwise, a SyntaxError on text that does not parse |
| ClientAuth.AuthClient.GetToken | frontend/src/services/auth.service.ts:38-40 | the stored token, or null |
| ClientAuth.AuthClient.IsAuthenticated | frontend/src/services/auth.service.ts:42-44 | true exactly when a non-empty token is stored |
| Forms.Changed | frontend/src/components/SignUpForm.tsx:68-71 | only the named field changes; it takes `checked` for a checkbox and `value` otherwise |
| Forms.Cleared | frontend/src/components/SignUpForm.tsx:73-75 | only the changed field's message is blanked; every other entry is kept and none is added |
| Forms.SubmitMessage | frontend/src/components/LoginForm.tsx:53-56 | the server's message when it is non-empty, otherwise the form's own fallback, which is never empty |
| Forms.EmailError | frontend/src/components/LoginForm.tsx:20-24 | no error exactly when the email is truthy and matches `\S+@\S+\.\S+`; an empty email gets the "missing" message |
| Forms.RequiredError | frontend/src/components/LoginForm.tsx:26-28 | no error exactly when the field is truthy |
| Forms.MinLengthError | frontend/src/components/SignUpForm.tsx:38-42 | no error exactly when the field is truthy and not shorter than the minimum in UTF-16 code units |
| Forms.PasswordError | frontend/src/components/SignUpForm.tsx:44-50 | no error exactly when the password is present, 8 code units or longer and passes the unanchored pattern; otherwise one of the three messages |
| Forms.ShortPasswordReportsLength | frontend/src/components/SignUpForm.tsx:44-50 | a short password also fails the pattern, but only the length message is reported |
| Forms.ServerPasswordPassesForms | frontend/src/pages/SignUpForm.tsx:133-144 | every password the server accepts passes the forms' check |
| Forms.FormsPassServerRefused | frontend/src/pages/SignUpForm.tsx:133-144 | the forms pass "Passw0rd! ", which the server refuses |
| Forms.StripNewlines | frontend/src/components/SignUpForm.tsx:147-152 | no line break is left, a text without one is kept as it is, and a first character that is not a line break stays first |
| Forms.EmailInputValue | frontend/src/components/SignUpForm.tsx:126-131 | the value the browser checks has no line break and no ASCII white space at either end, and is never longer than the text |
| Forms.EmailInputValueOfClean | frontend/src/components/SignUpForm.tsx:126-131 | text without line breaks or surrounding ASCII white space is checked as typed |
| SignupPage.PasswordStrength | frontend/src/pages/SignUpForm.tsx:80-116 | the score is between 0 and 5; it is 5 exactly when all criteria hold and 0 exactly when none do; the message is "Strong" exactly when the score is 4 or more |
| SignupPage.Score | frontend/src/pages/SignUpForm.tsx:80-89 | at most five points, and a password of twelve code units or more earns at least two, since length counts twice |
| SignupPage.StrengthGrows | frontend/src/pages/SignUpForm.tsx:85-89 | typing more characters never lowers the score |
| SignupPage.ServerPasswordIsGood | frontend/src/pages/SignUpForm.tsx:85-89 | a password the server accepts scores at least 3 ("Good") |
| SignupPage.FormAcceptedIff | frontend/src/pages/SignUpForm.tsx:118-156 | no errors exactly when the email looks like one, the name has 3 code units, the password passes, a phone number is given and the EULA box is ticked |
| SignupPage.ErrorsOnCheckedFields | frontend/src/pages/SignUpForm.tsx:118-152 | errors are only recorded on the five checked fields |
| SignupPage.InitialFormRefused | frontend/src/pages/SignUpForm.tsx:61-70 | the blank form is refused on all five checked fields |
| SignupPage.Page.constructor | frontend/src/pages/SignUpForm.tsx:61-78 | the blank form, no errors, an empty meter, not loading |
| SignupPage.CheckForm | frontend/src/pages/SignUpForm.tsx:119-152 | the messages the checks build, in the page's order, are exactly the form's errors on the five checked fields |
| SignupPage.Page.ValidateForm | frontend/src/pages/SignUpForm.tsx:118-156 | the recorded errors replace the old ones and are the form's errors; the answer is true exactly when there are none |
| SignupPage.Page.HandleChange | frontend/src/pages/SignUpForm.tsx:158-176 | only the named field changes, only its message is blanked, and the meter is re-rated only for the password |
| SignupPage.Page.Submit | frontend/src/pages/SignUpForm.tsx:178-194 | the request is made exactly when the form has no errors; a failure shows the server's message or the fallback; loading ends false |
| SignupComponent.FormAcceptedIff | frontend/src/components/SignUpForm.tsx:29-62 | no errors exactly when the email looks like one, the name has 3 code units, the password passes, a phone number is given and the EULA box is ticked |
| SignupComponent.MalformedEmailMessage | frontend/src/components/SignUpForm.tsx:32-36 | an email that is present but malformed gets "Please enter a valid email" |
| SignupComponent.RequiredNeverReported | frontend/src/components/SignUpForm.tsx:29-50 | once the browser lets a form through, the email, name and password are present, so none of them gets its "required" message |
| SignupComponent.PresentFieldsMessages | frontend/src/components/SignUpForm.tsx:29-50 | with the email, name and password present, only their malformed, too-short or too-weak messages can show |
| SignupComponent.CheckForm | frontend/src/components/SignUpForm.tsx:30-58 | the messages the checks build, in the component's order, are exactly the form's errors on the five checked fields |
| SignupComponent.Component.ValidateForm | frontend/src/components/SignUpForm.tsx:29-62 | the recorded errors replace the old ones and are the form's errors; the answer is true exactly when there are none |
| SignupComponent.Component.HandleChange | frontend/src/components/SignUpForm.tsx:64-76 | only the named field changes and only its message is blanked |
| SignupComponent.Component.Submit | frontend/src/components/SignUpForm.tsx:78-174 | the browser's checks on the required inputs and the email input run first; when they fail nothing changes; otherwise the request is made exactly when the form has no errors; a failure shows the server's message or the fallback; loading ends false |
| LoginComponent.FormAcceptedIff | frontend/src/components/LoginForm.tsx:17-32 | no errors exactly when the email looks like one and a password is given; the password's length and content are not checked |
| LoginComponent.ShortPasswordLetThrough | frontend/src/components/LoginForm.tsx:26-28 | a one-character password passes the login form although the sign-up forms would refuse it |
| LoginComponent.Login.ValidateForm | frontend/src/components/LoginForm.tsx:17-32 | the recorded errors replace the old ones and are the form's errors; the answer is true exactly when there are none |
| LoginComponent.Login.HandleChange | frontend/src/components/LoginForm.tsx:34-44 | only the named field changes (`checked` for the checkbox) and only its message is blanked |
| LoginComponent.Login.Submit | frontend/src/components/LoginForm.tsx:46-60 | login is attempted exactly when the form has no errors; a failure shows the server's message or "Invalid credentials" |
| SessionsPage.FormatTimeAgo | frontend/src/pages/SessionsManagement.tsx:87-99 | under a minute (negative included) gives "just now"; otherwise whole minutes under 60, whole hours under 24, or whole days, with the count in its range; an unreadable date gives "NaNd ago" |
| SessionsPage.BrowserIcon | frontend/src/pages/SessionsManagement.tsx:101-113 | the first of Firefox, Chrome, Safari and Edge found in the user agent decides the icon; the default icon is used exactly when none is found |
| SessionsPage.EdgeWithChromeShownAsChrome | frontend/src/pages/SessionsManagement.tsx:101-113 | a user agent naming both Edge and Chrome gets the Chrome icon |
| SessionsPage.FirstOwn | frontend/src/pages/SessionsManagement.tsx:37-40 | the first active session with the browser's user agent, and none exactly when no such session exists |
| SessionsPage.CurrentSessionId | frontend/src/pages/SessionsManagement.tsx:37-44 | the id of an active session with the browser's user agent when one exists, otherwise the previous id |
| SessionsPage.ActiveSessions | frontend/src/pages/SessionsManagement.tsx:184 | the listed sessions are exactly the active ones, each as many times as received and no inactive one |
| SessionsPage.ActiveSessionsAppend | frontend/src/pages/SessionsManagement.tsx:184 | filtering a list received in two parts lists the first part's active sessions, in order, before the second's, so the listed order is the order received |
| SessionsPage.ActiveSessionsOfActive | frontend/src/pages/SessionsManagement.tsx:184 | a list that is all active is shown whole, in server order |
| SessionsPage.EmptyMessageIff | frontend/src/pages/SessionsManagement.tsx:237-241 | "No active sessions found" shows exactly when no loaded session is active |
| SessionsPage.SignOutAllBesideOneListed | frontend/src/pages/SessionsManagement.tsx:162 | "Sign out all other devices" can be offered beside a single listed session, because inactive sessions count |
| SessionsPage.Page.LoadSessions | frontend/src/pages/SessionsManagement.tsx:30-50 | on success the sessions are replaced and the current id is updated as `CurrentSessionId` says; on failure "Failed to load sessions" is shown and the rest is kept; loading ends false |
| SessionsPage.Page.HandleRevokeSession | frontend/src/pages/SessionsManagement.tsx:56-67 | after a successful revoke the list is reloaded, the current session re-found as a load finds it (kept when the reload fails) and the error cleared; a failed revoke shows "Failed to revoke session" and keeps the list; the action state ends idle |
| SessionsPage.Page.HandleRevokeAllSessions | frontend/src/pages/SessionsManagement.tsx:69-81 | as for one session, including the re-found current session, and the confirmation dialog closes only on success |

## Left out

- I/O and persistence are left out. HTTP, MongoDB, Mongoose queries and `localStorage`
  are modelled as values. The collections are sequences, a query is a function on
  them, and ObjectIds are numbers from a counter written as decimal numerals (not 24
  hexadecimal digits). The texts that count as malformed ids differ as a result. The
  model accepts exactly the canonical decimal numerals, where MongoDB accepts 24
  hexadecimal digits (and 12-byte strings). So which texts fail as Internal, rather
  than finding nothing, is not the same as in the source.
- Code that is not in the repository is not part of this model:
  - the user service, bcrypt and the password check;
  - JWT signing and verification;
  - class-validator's `IsEmail` and Joi's number test.

  Their answers are parameters, or functions passed in, with no property assumed.
- The backend does not always read the clock once. `validateSession` reads it for the
  query and again for the touch, and `createSession` reads it for `expiresAt` and
  again for the timestamps. The model uses one `now` per operation.
- The cron schedule of `handleExpiredSessions`, console logging, and races between
  concurrent requests are not modelled. Requests are taken one at a time.
- Duration.DurationOfNumeral: the lifetime is the exact product of amount and
  multiplier. JavaScript computes it in doubles, and `parseInt` of a long amount is
  already rounded. The two agree whenever the expiry lands inside the Date range of
  ±8.64e15 ms, since every integer product and sum below 2^53 is exact there. Outside
  that range the model does not claim the double's value. `createSession` then fails,
  because the `expiresAt` cast fails (SessionSchema.FailedPaths, SessionsService.SessionStore.CreateSession).
- SessionsService.SessionStore.CreateSession: an expiry past the Date range fails as a
  validation error on `expiresAt`. The model does not distinguish an Invalid Date from
  a date the cast refuses.
- SignupComponent.Component.Submit: when the browser's constraint validation fails, the
  browser shows its own message bubble on the first invalid input. The model leaves
  `errors` unchanged and does not model the bubble.
- Forms.SubmitMessage: the server's message is taken as an optional string. For a
  request the `ValidationPipe` refuses, the 400 body's `message` is an array of strings,
  and `||` puts that array into the error state as it is. The model does not represent
  an array-valued message.
- Json.Parse: an `Obj` is a list of members, which may repeat a key. `JSON.parse` builds
  an object in which the last occurrence of a key wins. The model keeps every
  occurrence in order. `JSON.stringify` of a real object never repeats a key, so the
  round trip is unaffected.
- SessionsController.Controller.RevokeAllSessions: with no second word in the
  authorization header, the source still calls `validateSession(undefined)`, a
  `findOne` whose `token` filter is `undefined`. The model assumes that query matches
  nothing, so no session is excepted. A driver that sends `undefined` as null also
  matches nothing, since every stored token is a non-empty string. If the key were
  dropped from the filter instead, the query would find the first valid session of any
  user, and that session would be spared.
- Configuration.ParseInt: `parseInt` is modelled on unbounded integers. It does not
  model the loss of precision above 2^53, and it does not model how a numeral that long
  is written back as a float.
- Configuration.SchemaErrors: the schema's number test is a parameter. The model also
  does not capture that Joi converts the values it validates.
- The bootstrap in the server's entry point is not part of this model. The request
  bodies are checked by class-validator on the raw JSON body. Two options of the
  server's `ValidationPipe` (backend/src/main.ts:36-43) are not captured:
  - `enableImplicitConversion` converts values to their declared types before the
    checks, so `"agreeToEula": "false"` becomes `true` and `"name": 123` becomes `"123"`;
  - `forbidNonWhitelisted` refuses any property no decorator names.
- CreateUserDto.SignupAcceptedIff: states acceptance of the raw body. Without implicit
  conversion it refuses bodies the server accepts after converting them, such as a
  string `agreeToEula` or a numeric `name`.
- ClassValidator.UndeclaredIgnored: describes class-validator's `validate` alone. On the
  server, `forbidNonWhitelisted` makes an undeclared property such as `"foo": 1` fail the
  request; the same holds for UsersCreateUserDto.ProfileIgnored.
- UserSchema.NormaliseEmail: `toLowerCase` is modelled for the capitals with a
  one-character lower-case form that does not depend on context: ASCII, the Latin-1
  capitals U+00C0-U+00DE and the Cyrillic capitals U+0400-U+042F. Other scripts are
  not lowercased. These include Greek, whose capital sigma lowercases differently at
  the end of a word, Latin Extended and Armenian. Neither are the capitals whose lower
  case is longer, such as U+0130.
- UserSchema.Cast: its "lowercased" is the `LowerChar` mapping above, not all of Unicode.
- UserSchema.NewUser: the stored email is lowercased by the `LowerChar` mapping above
  only. Two emails that differ in a capital outside it are stored apart, and the unique
  index lets both in.
- UsersUserSchema.NewUser: the same restriction applies to the reduced schema's stored
  email.
- `Json`: the model covers the JSON that `JSON.stringify` writes for a user object.
  - Objects are flat, with string, boolean, null or integer values.
  - There is no white space between tokens, and no fractions or exponents.
  - Characters outside the Basic Multilingual Plane are written as themselves.

  `Parse` refuses `\u` surrogate-pair escapes and anything else outside this subset. A
  user object holding nested objects or non-integer numbers is beyond the model.
- The browser's client service has no `getSessions`, `revokeSession` or
  `revokeAllSessions`, although the sessions page calls all three. In this repository
  each of those calls therefore throws and is caught. The model takes each request's
  outcome as a parameter (`fetched`, `revoked`), so both the catch path and the path a
  working client would take are covered.
- React rendering, navigation and CSS are not modelled. Neither are `toLocaleString`
  and `formatDate`, the country-code sort or the strength bar's width. Change events
  are modelled only for their name, type, value and `checked`.
- The `useAuth` hook is not modelled. The forms' submit takes the result of the sign-up
  or login request as a parameter.
- SessionsPage.FormatTimeAgo takes the elapsed milliseconds, or `None` for a date that
  does not parse, instead of the date string and the clock.
- SignupPage.Page.Submit states the state after the request has settled, not the
  intermediate render with `isLoading` true. The same holds for
  SignupComponent.Component.Submit and LoginComponent.Login.Submit.
- Strings are sequences of code points. `.length` is modelled as the UTF-16 length,
  and class-validator's `MinLength` as code points minus variation selectors. Regular
  expressions are stated as predicates on what a match means, not run as automata.
