/**
 * The credential codec of backend/src/utils/tokens.util.ts.
 *
 * A JSON Web Token is modelled by what jsonwebtoken can read out of it:
 * its claims, as `jwt.decode` would return them, and whether its signature
 * checks against the server's one secret. A string that does not decode at
 * all is `Malformed`. Time is the integer millisecond clock of `Date.now()`;
 * the `iat` and `exp` claims are NumericDates, whole seconds (section 2 and
 * section 4.1.4 of RFC 7519).
 */
module Tokens {
  import opened Wrappers
  import opened Errors

  /** The subject: the user's ObjectId as a string. */
  type Id = string

  datatype Claims = Claims(id: Id, iat: int, exp: Option<int>)

  datatype Token = Signed(claims: Claims, sigOk: bool) | Malformed(text: string)

  datatype TokenPair = TokenPair(accessToken: Token, refreshToken: Token)

  /** `expiresIn: "1h"` and `expiresIn: "1w"`, in seconds. */
  const ACCESS_LIFETIME: int := 3600
  const REFRESH_LIFETIME: int := 7 * 24 * 3600

  /** jsonwebtoken's clock: `Math.floor(Date.now() / 1000)`. */
  function NumericDate(nowMs: nat): nat
  {
    nowMs / 1000
  }

  /** `jwt.sign({ id }, TOKEN_SECRET, { expiresIn })` at time nowMs. */
  function Sign(id: Id, nowMs: nat, lifetime: int): (t: Token)
    ensures t.Signed? && t.sigOk && t.claims.id == id
    ensures t.claims.iat == NumericDate(nowMs)
    ensures t.claims.exp == Some(t.claims.iat + lifetime)
  {
    Signed(Claims(id, NumericDate(nowMs), Some(NumericDate(nowMs) + lifetime)), true)
  }

  /**
   * `generate(id)`: an access token valid for one hour and a refresh token
   * valid for one week, for the same subject, signed with the same secret and
   * with no claim telling the two kinds apart.
   */
  function Generate(id: Id, nowMs: nat): (p: TokenPair)
    ensures p.accessToken.Signed? && p.refreshToken.Signed?
    ensures p.accessToken.sigOk && p.refreshToken.sigOk
    ensures p.accessToken.claims.id == id && p.refreshToken.claims.id == id
    ensures p.accessToken.claims.iat == p.refreshToken.claims.iat == NumericDate(nowMs)
    ensures p.accessToken.claims.exp == Some(NumericDate(nowMs) + 3600)
    ensures p.refreshToken.claims.exp == Some(NumericDate(nowMs) + 604800)
    ensures p.accessToken != p.refreshToken
  {
    TokenPair(Sign(id, nowMs, ACCESS_LIFETIME), Sign(id, nowMs, REFRESH_LIFETIME))
  }

  /**
   * What `jwt.verify` accepts: a decodable token whose signature checks and
   * whose `exp`, when present, is still ahead of the clock (jsonwebtoken
   * rejects once the clock has reached `exp`).
   */
  predicate Verifies(t: Token, nowMs: nat)
  {
    && t.Signed?
    && t.sigOk
    && (t.claims.exp.Some? ==> NumericDate(nowMs) < t.claims.exp.value)
  }

  /** `!token`: undefined, or the empty string. */
  predicate Absent(token: Option<Token>)
  {
    token.None? || token.value == Malformed("")
  }

  /**
   * `getUser(token)`: "No token provided" for an absent or empty token,
   * without verifying anything; otherwise the verified claims, and every
   * verification failure becomes the one error "Invalid token".
   */
  function GetUser(token: Option<Token>, nowMs: nat): (r: Result<Claims, Error>)
    ensures Absent(token) ==> r == Failure(NoTokenError())
    ensures !Absent(token) && !Verifies(token.value, nowMs) ==> r == Failure(InvalidTokenError())
    ensures r.Success? <==> !Absent(token) && Verifies(token.value, nowMs)
    ensures r.Success? ==> r.value == token.value.claims
  {
    if Absent(token) then Failure(NoTokenError())
    else if Verifies(token.value, nowMs) then Success(token.value.claims)
    else Failure(InvalidTokenError())
  }

  /** Every failure of getUser is an UnauthorizedError. */
  lemma GetUserFailsUnauthorized(token: Option<Token>, nowMs: nat)
    requires GetUser(token, nowMs).Failure?
    ensures GetUser(token, nowMs).error.Http?
    ensures GetUser(token, nowMs).error.cls == UnauthorizedError
    ensures StatusCode(GetUser(token, nowMs).error) == Some(401)
  {
  }

  /** The instant (in ms) from which a token minted at mintMs with the given lifetime is refused. */
  function ExpiryMs(mintMs: nat, lifetime: int): int
  {
    (NumericDate(mintMs) + lifetime) * 1000
  }

  /**
   * Round trip: a freshly generated token gives back its subject for exactly
   * the clock readings before its expiry instant, and that instant lies
   * between lifetime - 0.999 s and lifetime after the minting instant (the
   * claims are truncated to whole seconds).
   */
  lemma {:induction false} RoundTrip(id: Id, mintMs: nat, nowMs: nat, lifetime: int)
    requires lifetime == ACCESS_LIFETIME || lifetime == REFRESH_LIFETIME
    ensures mintMs + lifetime * 1000 - 999 <= ExpiryMs(mintMs, lifetime) <= mintMs + lifetime * 1000
    ensures GetUser(Some(Sign(id, mintMs, lifetime)), nowMs).Success? <==> nowMs < ExpiryMs(mintMs, lifetime)
    ensures nowMs < ExpiryMs(mintMs, lifetime) ==> GetUser(Some(Sign(id, mintMs, lifetime)), nowMs).value.id == id
  {
    var s := NumericDate(mintMs);
    assert s * 1000 <= mintMs < s * 1000 + 1000;
    var t := Sign(id, mintMs, lifetime);
    assert !Absent(Some(t));
    calc {
      Verifies(t, nowMs);
    <==>
      nowMs / 1000 < s + lifetime;
    <==> { DivBound(nowMs, s + lifetime); }
      nowMs < (s + lifetime) * 1000;
    }
  }

  /** n / 1000 < k exactly when n < k * 1000 (for n >= 0). */
  lemma DivBound(n: nat, k: int)
    ensures n / 1000 < k <==> n < k * 1000
  {
    assert (n / 1000) * 1000 <= n < (n / 1000) * 1000 + 1000;
    if n / 1000 < k {
      assert (n / 1000 + 1) * 1000 <= k * 1000;
    } else {
      assert k * 1000 <= (n / 1000) * 1000;
    }
  }

  /** Expiry is permanent: a token refused as expired stays refused as the clock moves on. */
  lemma ExpiryIsFinal(t: Token, nowMs: nat, laterMs: nat)
    requires nowMs <= laterMs
    requires t.Signed? && t.claims.exp.Some? && !Verifies(t, nowMs)
    ensures !Verifies(t, laterMs)
  {
    assert NumericDate(nowMs) <= NumericDate(laterMs);
  }

  /** An accepted token has not passed its embedded expiry, which it carries from minting. */
  lemma AcceptedIsUnexpired(token: Option<Token>, nowMs: nat)
    requires GetUser(token, nowMs).Success?
    requires GetUser(token, nowMs).value.exp.Some?
    ensures nowMs < GetUser(token, nowMs).value.exp.value * 1000
  {
    DivBound(nowMs, token.value.claims.exp.value);
  }

  /**
   * No kind tag: both tokens of a pair are accepted by the same check, so an
   * access token is as good as a refresh token to getUser during its hour.
   */
  lemma KindsIndistinguishable(id: Id, mintMs: nat, nowMs: nat)
    requires mintMs <= nowMs < mintMs + 3599001
    ensures GetUser(Some(Generate(id, mintMs).accessToken), nowMs) == Success(Generate(id, mintMs).accessToken.claims)
    ensures GetUser(Some(Generate(id, mintMs).refreshToken), nowMs) == Success(Generate(id, mintMs).refreshToken.claims)
  {
    RoundTrip(id, mintMs, nowMs, ACCESS_LIFETIME);
    RoundTrip(id, mintMs, nowMs, REFRESH_LIFETIME);
  }
}
