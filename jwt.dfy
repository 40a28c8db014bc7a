/** An abstract JSON Web Token (RFC 7519) as the JWT library signs and
    verifies it: the claims, the secret it was signed with, the issue time
    `iat` and the lifetime that gives the `exp` claim (section 4.1.4 of
    RFC 7519). Signatures are modelled by remembering the secret; there is
    no cryptography and no encoding. Times are whole seconds. */
module Jwt {

  import opened Wrappers

  /** The payload a service asks to sign: `{ sub, username }`. */
  datatype Claims = Claims(sub: string, username: string)

  datatype Token =
    | Signed(claims: Claims, secret: string, issuedAt: int, lifetime: nat)
    /** any string that does not decode as a signed token */
    | Malformed

  /** The decoded payload verification hands back: the signed claims plus
      the registered `iat` and `exp` claims the library adds. */
  datatype Payload = Payload(sub: string, username: string, iat: int, exp: int)

  datatype VerifyError =
    | InvalidToken       // "jwt malformed"
    | InvalidSignature   // "invalid signature"
    | TokenExpired       // "jwt expired"

  /** `signAsync(claims, { secret, expiresIn })` at clock time `now`. */
  function Sign(claims: Claims, secret: string, lifetime: nat, now: int): (t: Token)
    ensures t.Signed? && t.claims == claims && t.secret == secret
    ensures t.issuedAt + t.lifetime == now + lifetime
  {
    Signed(claims, secret, now, lifetime)
  }

  /** `verify(token, secret, { ignoreExpiration })` at clock time `now`:
      the signature is checked first, then, unless ignored, that `now` is
      before `exp`. */
  function VerifyWith(t: Token, secret: string, ignoreExpiration: bool, now: int): (r: Result<Payload, VerifyError>)
    ensures r.Success? <==>
      t.Signed? && t.secret == secret && (ignoreExpiration || now < t.issuedAt + t.lifetime)
    ensures r.Success? ==>
      r.value == Payload(t.claims.sub, t.claims.username, t.issuedAt, t.issuedAt + t.lifetime)
  {
    match t
    case Malformed => Failure(InvalidToken)
    case Signed(claims, key, iat, lifetime) =>
      if key != secret then Failure(InvalidSignature)
      else if !ignoreExpiration && now >= iat + lifetime then Failure(TokenExpired)
      else Success(Payload(claims.sub, claims.username, iat, iat + lifetime))
  }

  /** `verifyAsync(token, { secret })`: expiry is enforced. */
  function Verify(t: Token, secret: string, now: int): (r: Result<Payload, VerifyError>)
    ensures r.Success? <==> t.Signed? && t.secret == secret && now < t.issuedAt + t.lifetime
    ensures t.Signed? && t.secret == secret && now >= t.issuedAt + t.lifetime ==> r == Failure(TokenExpired)
  {
    VerifyWith(t, secret, false, now)
  }

  /** Round trip: a token signed with `secret` at `t0` verifies with that
      secret exactly while `now < t0 + lifetime`, and gives back its claims
      with `iat = t0` and `exp = t0 + lifetime`. */
  lemma SignVerifyRoundTrip(c: Claims, secret: string, lifetime: nat, t0: int, now: int)
    ensures Verify(Sign(c, secret, lifetime, t0), secret, now).Success? <==> now < t0 + lifetime
    ensures now < t0 + lifetime ==>
      Verify(Sign(c, secret, lifetime, t0), secret, now) == Success(Payload(c.sub, c.username, t0, t0 + lifetime))
    ensures now >= t0 + lifetime ==> Verify(Sign(c, secret, lifetime, t0), secret, now) == Failure(TokenExpired)
  {
  }

  /** A token never verifies with a secret other than the one it was
      signed with, whatever the clock says. */
  lemma WrongSecretRejected(c: Claims, secret: string, other: string, lifetime: nat, t0: int, now: int, ignoreExpiration: bool)
    requires other != secret
    ensures VerifyWith(Sign(c, secret, lifetime, t0), other, ignoreExpiration, now) == Failure(InvalidSignature)
  {
  }
}
