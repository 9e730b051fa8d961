/** Access tokens. The signature is abstract: a signed token is a record that only the holder
    of the secret can make; every other string is `Garbage`. */
module Jwt {
  import opened Schema

  datatype Claims = Claims(
    userId: Uuid, chainId: Uuid, subject: Uuid, issuer: string,
    issuedAt: Time, notBefore: Time, expiresAt: Time)

  datatype AccessToken = Garbage(text: string) | Signed(secret: string, claims: Claims)

  datatype Signer = Signer(secret: string, issuer: string, accessTTL: Time)
  datatype Verifier = Verifier(secret: string, issuer: string)

  datatype Verdict = Accepted(claims: Claims) | TokenExpired | TokenInvalid

  const SECOND: Time := 1_000_000_000

  /** NumericDate (section 2 of RFC 7519) keeps whole seconds. */
  function NumericDate(t: Time): Time {
    t - t % SECOND
  }

  function Sign(s: Signer, user: Uuid, chain: Uuid, now: Time): AccessToken {
    Signed(s.secret,
      Claims(user, chain, user, s.issuer,
             NumericDate(now), NumericDate(now), NumericDate(now + s.accessTTL)))
  }

  /** A bad signature is reported before any claim is looked at; among the claims an expired
      `exp` wins over every other failure. An empty issuer is not checked. */
  function Verify(v: Verifier, token: AccessToken, now: Time): Verdict {
    match token
    case Garbage(_) => TokenInvalid
    case Signed(secret, claims) =>
      if secret != v.secret then TokenInvalid
      else if now >= claims.expiresAt then TokenExpired
      else if now < claims.notBefore || (v.issuer != "" && claims.issuer != v.issuer) then TokenInvalid
      else Accepted(claims)
  }

  /** A token is accepted exactly if the holder of the verifier's secret signed it, the issuer is
      the expected one, and it is in force; an expired one is reported as such only if the
      signature is good, and nothing unsigned is ever accepted. */
  lemma AcceptedExactly(v: Verifier, token: AccessToken, now: Time)
    ensures Verify(v, token, now).Accepted? <==>
              && token.Signed? && token.secret == v.secret
              && (v.issuer == "" || token.claims.issuer == v.issuer)
              && token.claims.notBefore <= now < token.claims.expiresAt
    ensures Verify(v, token, now).Accepted? ==> Verify(v, token, now).claims == token.claims
    ensures Verify(v, token, now).TokenExpired? <==>
              token.Signed? && token.secret == v.secret && token.claims.expiresAt <= now
    ensures token.Garbage? ==> Verify(v, token, now).TokenInvalid?
  {
  }

  /** `date` is the last whole second at or before `t`. */
  predicate WholeSecond(date: Time, t: Time) {
    date % 1_000_000_000 == 0 && date <= t < date + 1_000_000_000
  }

  /** The claims name the user, the chain and the issuer, and its dates are the minting and one
      access lifetime later, in whole seconds. */
  lemma SignedClaims(s: Signer, user: Uuid, chain: Uuid, minted: Time)
    ensures
      var t := Sign(s, user, chain, minted);
      && t.Signed? && t.secret == s.secret
      && t.claims.userId == t.claims.subject == user && t.claims.chainId == chain && t.claims.issuer == s.issuer
      && WholeSecond(t.claims.issuedAt, minted) && WholeSecond(t.claims.notBefore, minted)
      && WholeSecond(t.claims.expiresAt, minted + s.accessTTL)
  {
  }

  /** The pair of a signer and the verifier configured like it: a token is accepted, with exactly
      the user and chain it was signed for, for its whole lifetime but the last second at most, and
      from the end of the lifetime on it is reported as expired, never as invalid. */
  lemma SignVerify(s: Signer, user: Uuid, chain: Uuid, minted: Time, now: Time)
    requires minted <= now
    ensures
      var token := Sign(s, user, chain, minted);
      var v := Verify(Verifier(s.secret, s.issuer), token, now);
      && (now <= minted + s.accessTTL - 1_000_000_000 ==> v == Accepted(token.claims))
      && (now >= minted + s.accessTTL ==> v.TokenExpired?)
      && (v.TokenExpired? || v == Accepted(token.claims))
  {
    var token := Sign(s, user, chain, minted);
    SignedClaims(s, user, chain, minted);
    AcceptedExactly(Verifier(s.secret, s.issuer), token, now);
  }

  /** A token is dead at the latest one access lifetime after minting, whoever verifies it. */
  lemma DeadAfterTTL(s: Signer, user: Uuid, chain: Uuid, minted: Time, v: Verifier, now: Time)
    requires now >= minted + s.accessTTL
    ensures !Verify(v, Sign(s, user, chain, minted), now).Accepted?
  {
  }
}
