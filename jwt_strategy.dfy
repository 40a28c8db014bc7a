/** The guard side: `JwtStrategy`, configured with the bearer-header
    extractor, `ignoreExpiration: false` and the `JWT_SECRET` configuration
    value, verifies the presented token and hands its payload to
    `validate`. */
module JwtStrategy {

  import opened Wrappers
  import opened UserStore
  import opened Jwt
  import opened Auth

  datatype StrategyOptions = StrategyOptions(ignoreExpiration: bool, secretOrKey: string)

  /** The options the constructor passes to the strategy; `jwtSecret` is the
      value configured as `JWT_SECRET`. */
  function StrategyOptionsFor(jwtSecret: string): (o: StrategyOptions)
    ensures !o.ignoreExpiration && o.secretOrKey == jwtSecret
  {
    StrategyOptions(false, jwtSecret)
  }

  /** The request user `validate` builds. */
  datatype RequestUser = RequestUser(userId: string, username: string)

  /** `validate(payload)`: `{ userId: payload.sub, username: payload.username }`. */
  function Validate(p: Payload): (r: RequestUser)
    ensures r.userId == p.sub && r.username == p.username
  {
    RequestUser(p.sub, p.username)
  }

  datatype GuardError = GuardUnauthorized

  /** The guard: a request without a bearer token, or whose token fails
      verification with the strategy's options, is refused; otherwise the
      request user is what `validate` returns. */
  function Authenticate(opts: StrategyOptions, bearer: Option<Token>, now: int): (r: Result<RequestUser, GuardError>)
    ensures r.Success? <==>
      bearer.Some? && bearer.value.Signed? && bearer.value.secret == opts.secretOrKey &&
      (opts.ignoreExpiration || now < bearer.value.issuedAt + bearer.value.lifetime)
    ensures r.Success? ==> r.value == RequestUser(bearer.value.claims.sub, bearer.value.claims.username)
  {
    if bearer.None? then Failure(GuardUnauthorized)
    else match VerifyWith(bearer.value, opts.secretOrKey, opts.ignoreExpiration, now)
      case Failure(_) => Failure(GuardUnauthorized)
      case Success(payload) => Success(Validate(payload))
  }

  /** `validate` keeps `sub` and `username` and drops every other claim:
      payloads that differ only in `iat` and `exp` validate alike. */
  lemma ValidateKeepsOnlyIdentity(p: Payload, iat: int, exp: int)
    ensures Validate(p) == Validate(Payload(p.sub, p.username, iat, exp))
    ensures Validate(p).userId == p.sub && Validate(p).username == p.username
  {
  }

  /** With the constructor's options the guard refuses an expired token. */
  lemma GuardRejectsExpired(jwtSecret: string, t: Token, now: int)
    requires t.Signed? && now >= t.issuedAt + t.lifetime
    ensures Authenticate(StrategyOptionsFor(jwtSecret), Some(t), now) == Failure(GuardUnauthorized)
  {
  }

  /** The guard refuses a token not signed with `JWT_SECRET`. */
  lemma GuardRejectsForeignSecret(jwtSecret: string, t: Token, now: int)
    requires t.Signed? && t.secret != jwtSecret
    ensures Authenticate(StrategyOptionsFor(jwtSecret), Some(t), now) == Failure(GuardUnauthorized)
  {
  }

  /** An access token from `signIn` at `t` passes the guard exactly when
      `JWT_SECRET` is the access secret the service signs with and it is
      presented within 15 seconds; the guard then recovers the signed-in
      user's `userId` and `username`. */
  lemma GuardAcceptsSignInAccessToken(users: seq<User>, username: string, pass: Option<string>, t: int,
                                      jwtSecret: string, now: int)
    requires SignIn(users, username, pass, t).Success?
    ensures
      var access := SignIn(users, username, pass, t).value.access_token;
      var user := FindFirst(users, ByUsername(username)).value;
      var r := Authenticate(StrategyOptionsFor(jwtSecret), Some(access), now);
      && (r.Success? <==> jwtSecret == AccessSecret && now < t + AccessLifetime)
      && (r.Success? ==> r.value == RequestUser(user.userId, user.username))
  {
  }

  /** The refresh token from `signIn` never passes the guard unless
      `JWT_SECRET` is set to the refresh secret. */
  lemma GuardRejectsRefreshToken(users: seq<User>, username: string, pass: Option<string>, t: int,
                                 jwtSecret: string, now: int)
    requires SignIn(users, username, pass, t).Success?
    requires jwtSecret != RefreshSecret
    ensures Authenticate(StrategyOptionsFor(jwtSecret), Some(SignIn(users, username, pass, t).value.refresh_token), now)
      == Failure(GuardUnauthorized)
  {
  }

  /** A refreshed access token passes the guard under the same condition
      and for the same user as the one issued at sign-in. */
  lemma GuardAcceptsRefreshedToken(token: Token, now: int, jwtSecret: string, later: int)
    requires RefreshToken(token, now).Success?
    ensures
      var r := Authenticate(StrategyOptionsFor(jwtSecret), Some(RefreshToken(token, now).value.access_token), later);
      && (r.Success? <==> jwtSecret == AccessSecret && later < now + AccessLifetime)
      && (r.Success? ==> r.value == RequestUser(token.claims.sub, token.claims.username))
  {
  }

  /** A session lasts at most 7 days plus 15 seconds: an access token
      refreshed from a sign-in at `t` passes the guard only before
      `t + 7d + 15s`, since the refresh must happen before `t + 7d`. */
  lemma SessionBound(users: seq<User>, username: string, pass: Option<string>, t: int,
                     refreshAt: int, jwtSecret: string, later: int)
    requires SignIn(users, username, pass, t).Success?
    requires RefreshToken(SignIn(users, username, pass, t).value.refresh_token, refreshAt).Success?
    requires Authenticate(StrategyOptionsFor(jwtSecret),
      Some(RefreshToken(SignIn(users, username, pass, t).value.refresh_token, refreshAt).value.access_token), later).Success?
    ensures later < t + RefreshLifetime + AccessLifetime
  {
  }
}
