/** The token authority: `AuthService.signIn` and `AuthService.refreshToken`
    as functions of the store's contents, the clock and the abstract
    token primitives. */
module Auth {

  import opened Wrappers
  import opened UserStore
  import opened Jwt

  const AccessSecret: string := "access_secret_key"
  /** "15s" */
  const AccessLifetime: nat := 15
  const RefreshSecret: string := "refresh_secret_key"
  /** "7d" */
  const RefreshLifetime: nat := 7 * 24 * 60 * 60

  const RefreshFailureMessage: string := "Invalid or expired refresh token"

  /** What `signIn` returns: the two tokens and nothing else. */
  datatype SignInTokens = SignInTokens(access_token: Token, refresh_token: Token)

  /** What `refreshToken` returns: a new access token only. */
  datatype RefreshedToken = RefreshedToken(access_token: Token)

  datatype AuthError =
    | Unauthorized
    | Forbidden(message: string)
    /** the TypeError thrown by `const { password, ...result } = user`
        when `user` is null */
    | NullDestructure

  /** The payload both tokens of a session carry: `{ sub: userId, username }`. */
  function SessionClaims(u: User): (c: Claims)
    ensures c.sub == u.userId && c.username == u.username
  {
    Claims(u.userId, u.username)
  }

  /** The two signatures `signIn` makes over one payload at time `now`. */
  function IssueTokens(c: Claims, now: int): (p: SignInTokens)
    ensures p.access_token.Signed? && p.refresh_token.Signed?
    ensures p.access_token.claims == p.refresh_token.claims == c
    ensures p.access_token.secret == AccessSecret && p.access_token.issuedAt + p.access_token.lifetime == now + AccessLifetime
    ensures p.refresh_token.secret == RefreshSecret && p.refresh_token.issuedAt + p.refresh_token.lifetime == now + RefreshLifetime
  {
    SignInTokens(
      Sign(c, AccessSecret, AccessLifetime, now),
      Sign(c, RefreshSecret, RefreshLifetime, now))
  }

  /** The stored password as JavaScript's `user?.password` sees it:
      undefined (None) when the lookup found nobody. */
  function StoredPassword(user: Option<User>): (p: Option<string>)
    ensures p.Some? <==> user.Some?
    ensures user.Some? ==> p.value == user.value.password
  {
    if user.Some? then Some(user.value.password) else None
  }

  /** `signIn(username, pass)` as written. The lookup is by username (the
      one-argument `findOne(username)` call); the stored value is compared
      with `pass` by strict inequality, so `pass` must equal the stored
      (hashed) value itself. `pass` is None when the request carried no
      password: then an unknown username gets past the comparison
      (`undefined !== undefined` is false) and the destructuring of null
      throws. */
  function SignIn(users: seq<User>, username: string, pass: Option<string>, now: int)
    : (r: Result<SignInTokens, AuthError>)
    ensures r == Failure(Unauthorized) <==>
      (FindFirst(users, ByUsername(username)).None? && pass.Some?) ||
      (FindFirst(users, ByUsername(username)).Some? && pass != Some(FindFirst(users, ByUsername(username)).value.password))
    ensures r == Failure(NullDestructure) <==>
      FindFirst(users, ByUsername(username)).None? && pass.None?
    ensures r.Success? <==>
      && FindFirst(users, ByUsername(username)).Some?
      && pass == Some(FindFirst(users, ByUsername(username)).value.password)
    ensures r.Success? ==>
      r.value == IssueTokens(SessionClaims(FindFirst(users, ByUsername(username)).value), now)
  {
    var user := FindFirst(users, ByUsername(username));
    if StoredPassword(user) != pass then Failure(Unauthorized)
    else if user.None? then Failure(NullDestructure)
    else Success(IssueTokens(SessionClaims(user.value), now))
  }

  /** `refreshToken(token)`: verify against the refresh secret; any failure
      becomes the one Forbidden error; on success sign a new access token
      over the verified `sub` and `username`. The refresh token is not
      reissued. */
  function RefreshToken(token: Token, now: int): (r: Result<RefreshedToken, AuthError>)
    ensures r.Failure? <==> Verify(token, RefreshSecret, now).Failure?
    ensures r.Failure? ==> r.error == Forbidden(RefreshFailureMessage)
    ensures r.Success? ==>
      var p := Verify(token, RefreshSecret, now).value;
      r.value.access_token == Sign(Claims(p.sub, p.username), AccessSecret, AccessLifetime, now)
  {
    match Verify(token, RefreshSecret, now)
    case Failure(_) => Failure(Forbidden(RefreshFailureMessage))
    case Success(payload) =>
      Success(RefreshedToken(
        Sign(Claims(payload.sub, payload.username), AccessSecret, AccessLifetime, now)))
  }

  /** Valid credentials: when usernames are unique, a stored user who
      presents exactly the stored password value gets the token pair for
      their own `userId` and `username`. */
  lemma StoredPasswordSignsIn(users: seq<User>, i: nat, now: int)
    requires UniqueUsernames(users)
    requires i < |users|
    ensures SignIn(users, users[i].username, Some(users[i].password), now) ==
      Success(IssueTokens(Claims(users[i].userId, users[i].username), now))
  {
  }

  /** The pair issued at `now`: identical claims; the access token verifies
      only with the access secret and for 15 seconds, the refresh token
      only with the refresh secret and for 7 days. */
  lemma IssuedPairProperties(c: Claims, now: int, n: int)
    ensures IssueTokens(c, now).access_token.claims == IssueTokens(c, now).refresh_token.claims == c
    ensures Verify(IssueTokens(c, now).access_token, AccessSecret, n).Success? <==> n < now + AccessLifetime
    ensures Verify(IssueTokens(c, now).refresh_token, RefreshSecret, n).Success? <==> n < now + RefreshLifetime
    ensures Verify(IssueTokens(c, now).access_token, RefreshSecret, n) == Failure(InvalidSignature)
    ensures Verify(IssueTokens(c, now).refresh_token, AccessSecret, n) == Failure(InvalidSignature)
  {
  }

  /** Both ways of failing on a known user or a supplied password are the
      same error: an unknown username and a wrong password cannot be told
      apart. */
  lemma SignInFailuresIndistinguishable(users: seq<User>, unknown: string, known: nat, p: string, q: string, now: int)
    requires forall i :: 0 <= i < |users| ==> users[i].username != unknown
    requires UniqueUsernames(users)
    requires known < |users| && users[known].password != q
    ensures SignIn(users, unknown, Some(p), now) == SignIn(users, users[known].username, Some(q), now) == Failure(Unauthorized)
  {
  }

  /** Round trip: the refresh token from a sign-in at `t` is accepted by
      `refreshToken` exactly while `now < t + 7d`, and the new access token
      carries the signed-in user's claims. */
  lemma RefreshRoundTrip(users: seq<User>, username: string, pass: Option<string>, t: int, now: int)
    requires SignIn(users, username, pass, t).Success?
    ensures
      var tokens := SignIn(users, username, pass, t).value;
      var user := FindFirst(users, ByUsername(username)).value;
      && (RefreshToken(tokens.refresh_token, now).Success? <==> now < t + RefreshLifetime)
      && (now < t + RefreshLifetime ==>
            RefreshToken(tokens.refresh_token, now).value.access_token ==
              Sign(SessionClaims(user), AccessSecret, AccessLifetime, now))
  {
  }

  /** For any pair issued at `t`: the refresh token is accepted exactly
      before `t + 7d` and yields a 15 s access token over the same claims;
      the access token is never accepted. Both sign-ins issue such a pair. */
  lemma IssuedTokensRefresh(c: Claims, t: int, now: int)
    ensures RefreshToken(IssueTokens(c, t).refresh_token, now).Success? <==> now < t + RefreshLifetime
    ensures now < t + RefreshLifetime ==>
      RefreshToken(IssueTokens(c, t).refresh_token, now) ==
        Success(RefreshedToken(Sign(c, AccessSecret, AccessLifetime, now)))
    ensures RefreshToken(IssueTokens(c, t).access_token, now) == Failure(Forbidden(RefreshFailureMessage))
  {
  }

  /** An access token from `signIn` is never accepted by `refreshToken`. */
  lemma AccessTokenCannotRefresh(users: seq<User>, username: string, pass: Option<string>, t: int, now: int)
    requires SignIn(users, username, pass, t).Success?
    ensures RefreshToken(SignIn(users, username, pass, t).value.access_token, now) ==
      Failure(Forbidden(RefreshFailureMessage))
  {
  }

  /** Because the refresh token is not rotated, a refreshed access token
      cannot itself be refreshed: every refresh needs the unexpired token
      from sign-in. */
  lemma NoRotation(token: Token, now: int, later: int)
    requires RefreshToken(token, now).Success?
    ensures RefreshToken(RefreshToken(token, now).value.access_token, later).Failure?
    ensures now < token.issuedAt + token.lifetime
  {
  }

  /** Finding (as written): for a user stored by `create`, whose password
      field is `hash(pw, 10)`, signing in with the plaintext `pw` fails
      unless the hash happens to equal its input. */
  lemma CreatedUserCannotSignIn(users: seq<User>, i: nat, pw: string, hash: Hasher, now: int)
    requires UniqueUsernames(users)
    requires i < |users| && users[i].password == hash(pw, SaltRounds)
    requires hash(pw, SaltRounds) != pw
    ensures SignIn(users, users[i].username, Some(pw), now) == Failure(Unauthorized)
  {
  }

  /** Finding (as written): a request without a password for an unknown
      username reaches the destructuring of null. */
  lemma UnknownUserWithoutPasswordCrashes(users: seq<User>, username: string, now: int)
    requires forall i :: 0 <= i < |users| ==> users[i].username != username
    ensures SignIn(users, username, None, now) == Failure(NullDestructure)
  {
  }

  /** The intended `signIn`: an absent user or absent password is
      Unauthorized, and the password is checked with the hashing
      primitive (`hash(pass, 10)` against the stored hash) instead of by
      plaintext equality. */
  function SignInHashed(users: seq<User>, username: string, pass: Option<string>, hash: Hasher, now: int)
    : (r: Result<SignInTokens, AuthError>)
    ensures r.Failure? ==> r.error == Unauthorized
    ensures r.Success? <==>
      var user := FindFirst(users, ByUsername(username));
      user.Some? && pass.Some? && hash(pass.value, SaltRounds) == user.value.password
    ensures r.Success? ==> r.value == IssueTokens(SessionClaims(FindFirst(users, ByUsername(username)).value), now)
  {
    var user := FindFirst(users, ByUsername(username));
    if user.None? || pass.None? || hash(pass.value, SaltRounds) != user.value.password then Failure(Unauthorized)
    else Success(IssueTokens(SessionClaims(user.value), now))
  }

  /** Intended property: a user stored by `create` with plaintext `pw`
      signs in with `pw` and gets tokens for their own `userId`. */
  lemma CreatedUserSignsIn(users: seq<User>, i: nat, pw: string, hash: Hasher, now: int)
    requires UniqueUsernames(users)
    requires i < |users| && users[i].password == hash(pw, SaltRounds)
    ensures SignInHashed(users, users[i].username, Some(pw), hash, now) ==
      Success(IssueTokens(Claims(users[i].userId, users[i].username), now))
  {
  }

  /** Intended property: an unknown username is Unauthorized whether or not
      a password was sent. */
  lemma UnknownUserUnauthorized(users: seq<User>, username: string, pass: Option<string>, hash: Hasher, now: int)
    requires forall i :: 0 <= i < |users| ==> users[i].username != username
    ensures SignInHashed(users, username, pass, hash, now) == Failure(Unauthorized)
  {
  }
}
