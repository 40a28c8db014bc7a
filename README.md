# Login / refresh-token service: a Dafny model

This project models the core of a small NestJS login service in Dafny 4.11.

- **Credential store** (`UserService` over the `User` collection). `create` rejects a taken username with a Conflict error. Otherwise it hashes the password with 10 salt rounds and saves `{email, username, password: hash}`, with a fresh uuid `userId`, a fresh store `_id` and both timestamps. The two lookups, `findbyUsername` and `findOne`, are exact-match queries, and `findAll` returns the whole collection.
- **Token authority** (`AuthService`).
  - `signIn` looks the user up by username and compares the stored password with the supplied one using `!==`. It signs `{sub: userId, username}` twice: once with `"access_secret_key"` for 15 s and once with `"refresh_secret_key"` for 7 days.
  - `refreshToken` verifies a token against the refresh secret and collapses every failure into one Forbidden error. On success it signs a new access token over the same `sub` and `username`.
- **Guard** (`JwtStrategy`). It verifies bearer tokens with `ignoreExpiration: false` and the `JWT_SECRET` setting. Then `validate` maps the payload to `{userId, username}`.
- **`UserResponseDto`**. A whitelist projection: only `_id`, `userId`, `email` and `username` are kept. The user listing applies it to each record.

Files, one module each:

- `wrappers.dfy` (`Wrappers`): Option and Result.
- `user_service.dfy` (`UserStore`): the schema and the `UserService` class.
- `jwt.dfy` (`Jwt`): an abstract JSON Web Token (RFC 7519).
  - Signing records the secret, the issue time and the lifetime.
  - Verification succeeds exactly when the secret matches and `now < iat + lifetime`; this is the `exp` rule of section 4.1.4 of RFC 7519.
  - Errors are reported in the library's order: malformed, then signature, then expiry.
- `auth_service.dfy` (`Auth`): `signIn` and `refreshToken` as functions of the store contents and the clock.
- `jwt_strategy.dfy` (`JwtStrategy`): the guard, plus properties that tie it to `signIn`.
- `response_user_dto.dfy` (`UserDto`): records as field maps, the projection, and the listing.
- `sign_in_scenario.dfy` (`SignInScenario`): create a user, then sign in.

Parameters and nondeterminism:

- bcrypt's `hash` is a function parameter, `Hasher`, that is never interpreted.
- The uuid default and the store's `_id` are nondeterministic fresh choices.
- The clock is an integer parameter `now`, in seconds.
- `JWT_SECRET` is a parameter of the guard's options.

How the code is modelled, where it differs from the intended design:

- **Plaintext comparison.** `signIn` compares the stored value with the plaintext by strict inequality (`src/modules/auth/auth.service.ts:23`). But `create` stores `hash(password, 10)` (`src/modules/user/user.service.ts:17-19`). So a freshly created user cannot sign in with their password (see Findings).
- **One-argument `findOne`.** `signIn` calls `findOne(username)` with one argument (`src/modules/auth/auth.service.ts:20`), but `findOne` takes two (`src/modules/user/user.service.ts:23-24`). The model treats the call as a lookup by username. How the store would treat the resulting `password: undefined` filter field is not modelled. The model's `FindOne` keeps the two-argument exact match.
- **No rotation on refresh.** The design describes full rotation on refresh. The code returns only a new access token (`src/modules/auth/auth.service.ts:61`), and the model follows the code: `NoRotation` shows that every refresh needs the unexpired refresh token from sign-in, and `SessionBound` that a session therefore ends at most 7 days plus 15 s after sign-in.
- **Guard secret.** The guard verifies with `JWT_SECRET` (`src/modules/auth/jwt.strategy.ts:13`), but the service signs with `"access_secret_key"`. `GuardAcceptsSignInAccessToken` states that the guard accepts a sign-in token only when the two secrets are equal.
- **Missing password.** `signIn`'s `pass` is an `Option<string>`. `None` stands for a request body without a password, where `pass` is `undefined` at run time. This is how `user?.password !== pass` can let an unknown user through to the destructuring of `null`.
- **Required fields.** `email` and `password` are `required` in the schema (`src/modules/user/schemas/user.schema.ts:11-18`). The store refuses an empty string for a required field. So `Create` with an empty email, or with a hash that is empty, fails validation after hashing and saves nothing.

## Model

| member | source | states |
|---|---|---|
| `UserStore.FindFirst` | src/modules/user/user.service.ts:23-29 | the store's `findOne(filter)`: the result is the first record in collection order that matches the filter, and it is absent exactly when no record matches |
| `UserStore.LookupFindsTheHolder` | src/modules/user/user.service.ts:27-29 | when usernames are unique, looking up a stored user's username returns exactly that user |
| `UserStore.FreshIdExists` | src/modules/user/schemas/user.schema.ts:8-9 | a fresh identifier outside any finite set of taken ids always exists, so the uuid default can be modelled as a fresh choice |
| `UserStore.UserService.FindbyUsername` | src/modules/user/user.service.ts:27-29 | returns a stored record whose username is `username`, and returns nothing exactly when no record has that username; it only reads the store |
| `UserStore.UserService.FindOne` | src/modules/user/user.service.ts:23-25 | returns a record only if its username and its stored password field both equal the arguments exactly; returns nothing exactly when no record matches both |
| `UserStore.UserService.FindAll` | src/modules/user/user.service.ts:31-33 | returns every record of the store in order, and only reads the store |
| `UserStore.UserService.Create` | src/modules/user/user.service.ts:13-21 | a taken username gives Conflict "Username already exists", with no hash call and no insert; otherwise exactly one hash call, with 10 rounds; on success exactly one record `{email, username, hash(password, 10)}` is appended, with a userId and `_id` held by no existing record and both timestamps `now`; an empty required field gives a validation failure and no insert; unique usernames and unique userIds are preserved |
| `UserStore.UserService.constructor` | src/modules/user/user.service.ts:11 | the service starts over the given collection, with no hash calls recorded |
| `Jwt.Sign` | src/modules/auth/auth.service.ts:31-39 | `signAsync`: the token carries the given claims and secret and its `exp` is `now + lifetime` |
| `Jwt.Verify` | src/modules/auth/auth.service.ts:49-51 | `verifyAsync` with expiry enforced: succeeds exactly for a well-formed token with the given secret before its `exp`; a correctly signed token past `exp` fails as expired |
| `Jwt.VerifyWith` | src/modules/auth/auth.service.ts:49-51 | verification succeeds exactly when the token is well formed, carries the given secret, and (unless expiry is ignored) `now < iat + lifetime`; it then yields the signed claims with `iat` and `exp` |
| `Jwt.SignVerifyRoundTrip` | src/modules/auth/auth.service.ts:31-39 | a signed token verifies with its own secret exactly before `iat + lifetime`, gives back its claims, and is rejected as expired from then on |
| `Jwt.WrongSecretRejected` | src/modules/auth/auth.service.ts:49-51 | a token never verifies with a secret other than the one it was signed with |
| `Auth.SignIn` | src/modules/auth/auth.service.ts:18-45 | Unauthorized exactly when the lookup finds nobody while a password was given, or the stored password differs from `pass`; null-destructuring TypeError exactly when nobody is found and no password was sent; success exactly when the user is found and its stored password equals `pass`, and then the result is only the access and refresh tokens over `{sub: userId, username}` |
| `Auth.StoredPasswordSignsIn` | src/modules/auth/auth.service.ts:20-44 | with unique usernames, a stored user presenting exactly the stored password value gets the token pair for their own userId and username |
| `Auth.StoredPassword` | src/modules/auth/auth.service.ts:23 | `user?.password`: absent exactly when no user was found, otherwise the stored password |
| `Auth.SessionClaims` | src/modules/auth/auth.service.ts:28 | the payload carries `sub` = the user's userId and the user's username |
| `Auth.IssueTokens` | src/modules/auth/auth.service.ts:28-39 | both tokens carry the same claims; the access token is signed with `"access_secret_key"` and expires 15 s after issue, the refresh token with `"refresh_secret_key"` and expires 7 days after issue |
| `Auth.RefreshToken` | src/modules/auth/auth.service.ts:47-65 | fails exactly when verification against the refresh secret fails, always with Forbidden "Invalid or expired refresh token"; on success returns only a new access token signed over the verified `sub`/`username` with the access secret and 15 s |
| `Auth.IssuedPairProperties` | src/modules/auth/auth.service.ts:28-39 | both tokens carry identical claims; the access token verifies only with `"access_secret_key"` for 15 s and the refresh token only with `"refresh_secret_key"` for 7 days; each is rejected with the other's secret |
| `Auth.SignInFailuresIndistinguishable` | src/modules/auth/auth.service.ts:20-25 | an unknown username and a wrong password for a known user give the same Unauthorized error |
| `Auth.RefreshRoundTrip` | src/modules/auth/auth.service.ts:36-61 | a refresh token from `signIn` at `t` is accepted by `refreshToken` exactly at times before `t + 7d`; the new access token carries the signed-in user's claims |
| `Auth.IssuedTokensRefresh` | src/modules/auth/auth.service.ts:28-61 | for any pair issued at `t`, the refresh token is accepted by `refreshToken` exactly before `t + 7d`, yielding a 15 s access token over the same claims, and the access token is always refused with the Forbidden error |
| `Auth.AccessTokenCannotRefresh` | src/modules/auth/auth.service.ts:31-51 | an access token from `signIn` is always refused by `refreshToken` with the Forbidden error |
| `Auth.NoRotation` | src/modules/auth/auth.service.ts:53-61 | a token returned by `refreshToken` can never be refreshed itself, and refreshing succeeds only before the presented token expires |
| `Auth.CreatedUserCannotSignIn` | src/modules/auth/auth.service.ts:20-25 | a record stored as `create` stores it (password field `hash(pw, 10)`) cannot sign in with `pw` unless the hash equals its input |
| `Auth.UnknownUserWithoutPasswordCrashes` | src/modules/auth/auth.service.ts:20-27 | an unknown username with no password sent ends in the null-destructuring TypeError, not Unauthorized |
| `Auth.SignInHashed` | src/modules/auth/auth.service.ts:18-45 | the intended sign-in: succeeds exactly when the user exists, a password was sent, and its hash with 10 rounds equals the stored value; every failure is Unauthorized |
| `Auth.CreatedUserSignsIn` | src/modules/auth/auth.service.ts:20-28 | with the intended sign-in, a user stored by `create` with `pw` signs in with `pw` and gets tokens for their own userId and username |
| `Auth.UnknownUserUnauthorized` | src/modules/auth/auth.service.ts:20-25 | with the intended sign-in, an unknown username is Unauthorized whether or not a password was sent |
| `JwtStrategy.StrategyOptionsFor` | src/modules/auth/jwt.strategy.ts:10-14 | the strategy is configured not to ignore expiration and to verify with the configured `JWT_SECRET` |
| `JwtStrategy.Validate` | src/modules/auth/jwt.strategy.ts:17-19 | the request user has `userId` = the payload's `sub` and the payload's `username` |
| `JwtStrategy.Authenticate` | src/modules/auth/jwt.strategy.ts:10-19 | the guard accepts exactly a present, well-formed token signed with the configured secret and not expired (unless expiry is ignored), and yields `{userId: sub, username}` |
| `JwtStrategy.ValidateKeepsOnlyIdentity` | src/modules/auth/jwt.strategy.ts:17-19 | `validate` maps `sub` to `userId` and keeps `username`; payloads that differ only in `iat` and `exp` validate alike |
| `JwtStrategy.GuardRejectsExpired` | src/modules/auth/jwt.strategy.ts:12 | with `ignoreExpiration: false` an expired token is refused |
| `JwtStrategy.GuardRejectsForeignSecret` | src/modules/auth/jwt.strategy.ts:13 | a token not signed with `JWT_SECRET` is refused |
| `JwtStrategy.GuardAcceptsSignInAccessToken` | src/modules/auth/jwt.strategy.ts:13-18 | a sign-in access token issued at `t` passes exactly when `JWT_SECRET` is `"access_secret_key"` and the time is before `t + 15`; the guard then recovers the signed-in user's userId and username |
| `JwtStrategy.GuardRejectsRefreshToken` | src/modules/auth/jwt.strategy.ts:13 | the sign-in refresh token never passes the guard unless `JWT_SECRET` is the refresh secret |
| `JwtStrategy.SessionBound` | src/modules/auth/auth.service.ts:53-61 | an access token refreshed from a sign-in at `t` passes the guard only before `t + 7d + 15s` |
| `JwtStrategy.GuardAcceptsRefreshedToken` | src/modules/auth/jwt.strategy.ts:13-18 | a token from `refreshToken` passes under the same condition, for 15 s, and yields the refreshed identity |
| `UserDto.ToDocument` | src/modules/user/schemas/user.schema.ts:6-19 | a saved user as a plain object has exactly the four exposed fields plus `password`, `createdAt`, `updatedAt` and `__v`, and its `password` field is the stored one |
| `UserDto.Project` | src/modules/user/dto/response-user.dto.ts:3-15 | the projection keeps a field exactly when it is present and is one of `_id`, `userId`, `email`, `username`, with its value unchanged |
| `UserDto.ProjectAll` | src/modules/user/user.controller.ts:18-20 | projecting a list is element-wise: same length, same order, each element projected |
| `UserDto.ListUsers` | src/modules/user/user.controller.ts:15-23 | the listing has one entry per stored user, in store order, each the projection of that user |
| `UserDto.ProjectionHidesSecrets` | src/modules/user/dto/response-user.dto.ts:3-21 | a projected record never holds `password`, `createdAt` or `updatedAt`, and holds only whitelisted fields |
| `UserDto.ProjectIdempotent` | src/modules/user/dto/response-user.dto.ts:3-15 | projecting an already projected record changes nothing |
| `UserDto.UserView` | src/modules/user/dto/response-user.dto.ts:3-15 | the view of a stored user is exactly its `_id`, `userId`, `email` and `username` |
| `UserDto.ListingHidesPasswords` | src/modules/user/user.controller.ts:15-23 | no entry of the user listing carries a password, and each keeps its user's username |
| `SignInScenario.CreateThenSignIn` | src/modules/auth/auth.service.ts:20-25 | on an empty store `create("a@x.com", "alice", "Secret123")` succeeds and stores the hash; signing in as written with "Secret123" is then Unauthorized, while the intended sign-in issues alice's tokens |

## Findings

| source | as written | input that shows it | evidently intended | confidence | as-written member | corrected member |
|---|---|---|---|---|---|---|
| src/modules/auth/auth.service.ts:23 | the stored bcrypt hash is compared with the plaintext password by `!==` | `create("a@x.com", "alice", "Secret123")`, then `signIn("alice", "Secret123")` gives Unauthorized, because bcrypt's output is never its input | check the password with the hashing primitive (bcrypt `compare`) | not executed; high | `Auth.CreatedUserCannotSignIn` | `Auth.CreatedUserSignsIn` |
| src/modules/auth/auth.service.ts:23-27 | when nobody is found and no password was sent, `user?.password !== pass` is `undefined !== undefined`, which is false; `const { password, ...result } = user` then throws a TypeError on null | `signIn("nobody", undefined)` on a store with no user "nobody" | Unauthorized, like any other unknown user | not executed; high | `Auth.UnknownUserWithoutPasswordCrashes` | `Auth.UnknownUserUnauthorized` |

The intended sign-in, `Auth.SignInHashed`, issues its tokens with the same `IssueTokens` as `Auth.SignIn`. So `Auth.IssuedPairProperties` and `Auth.IssuedTokensRefresh`, which are stated over any `IssueTokens(c, t)`, hold for its tokens as well. The other refresh and guard lemmas are stated for `Auth.SignIn` and follow from the same `IssueTokens`.

## Left out

- Asynchrony, the store's network round trips and the concurrency of check-then-insert in `create` are not modelled. Only the sequential semantics are. The store's unique index on `userId` never fires, because the model's ids are fresh.
- bcrypt, HMAC signing, base64url encoding and uuid generation are foreign libraries. The hash is a parameter, a token records its secret, and ids are fresh choices. The duration strings "15s" and "7d" are the integers 15 and 604800.
- `Create` does not state that the stored hash differs from the plaintext. That is a property of bcrypt, which stays uninterpreted here. `Auth.CreatedUserCannotSignIn` takes "the hash differs from its input" as a hypothesis.
- Auth.SignInHashed: bcrypt's random salt is not modelled. The hasher is deterministic, and bcrypt `compare(pw, h)` is idealized as `hash(pw, 10) == h`. So `Auth.CreatedUserSignsIn` proves that this idealized verifier accepts the original password, not that real bcrypt re-hashing would reproduce the stored value.
- The scenario's `userId` is a nondeterministic choice, so `SignInScenario.CreateThenSignIn` shows alice's tokens as carrying whatever id was chosen. The scenario cannot name a concrete id.
- HTTP plumbing is not modelled: the controllers' routing, the guards' wiring, and the refresh cookie's `httpOnly`, `sameSite` and `maxAge`. The only controller behaviour kept is the projected user listing (`UserDto.ListUsers`).
- Bearer-header extraction is modelled only as "a token is present or not". A `JWT_SECRET` that is missing at startup, which makes the strategy's constructor throw, is not modelled.
- The `JwtModule` registration defaults (secret and "60s") are not modelled, because every call in the service overrides them.
- The `CreateUserDto` validators (`IsEmail`, `MinLength(4)`) run in class-validator before the service and are not modelled.
- The `console.log` calls in `signIn` and the stub `AuthService.findAll` are not modelled.
- The unused `result` object in `signIn` is not modelled.
- `nbf`, `maxAge`, clock tolerance and other JWT options are not modelled, because the source sets none of them.
- UserDto.Project: records are maps from field names to plain values, and `_id` is a plain string. class-transformer's handling of object values is not modelled: it rebuilds a nested value such as the store's ObjectId `_id`, so the projected `_id` may be a new object and not the stored one. Its output for exposed fields missing from the input is not modelled either: by default those come out as keys set to `undefined`, while the model leaves them out.
- UserStore.FindFirst: the store's unsorted `findOne` returns the first match in natural order, which the model takes to be insertion order. The store does not guarantee that order. It matters only when two records share a username.
- `src/modules/auth/constants.ts`, `src/modules/user/dto/update-user.dto.ts` and `src/modules/auth/auth.guard.ts` are not part of this model.
- `src/modules/user/user.controller.spec.ts` is stale and is not modelled. Its `findAll` test expects the raw records, passwords included. That test predates the `UserResponseDto` projection the controller now applies (`src/modules/user/user.controller.ts:18-20`), which `UserDto.ListingHidesPasswords` shows removes the passwords. Its `findOne` test calls `controller.findOne` and `userService.findById`, neither of which exists.
