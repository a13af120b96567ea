/**
 * What the issuer and the verifier of jwt/jwt.go promise together: which tokens ParseToken
 * accepts, that issued tokens round-trip, and which tokens it refuses and with which error.
 */
module JwtProperties {
  import opened Wrappers
  import opened Rsa
  import opened GolangJwt
  import opened Jwt

  /**
   * An independent statement of when a verifier accepts a token at time `now`: its header names
   * an RS method, the verifier has a public key that accepts the signature over header and claims,
   * the time is before `exp` and not before `nbf` (either may be absent).
   */
  ghost predicate Accepts(s: TokenScheme, j: JWT, tok: Token, now: int) {
    && tok.Compact?
    && (exists m | IsRsa(m) ::
          && tok.alg == Some(MethodName(m))
          && j.publicKey.Some?
          && s.verify(RsaParams(m), j.publicKey.value, SigningInput(tok.alg, tok.claims), tok.signature))
    && (tok.claims.registered.expiresAt.Some? ==> now < tok.claims.registered.expiresAt.value)
    && (tok.claims.registered.notBefore.Some? ==> now >= tok.claims.registered.notBefore.value)
  }

  /** ParseToken returns claims exactly for the tokens `Accepts` describes, and they are the token's. */
  lemma ParseTokenAcceptsExactly(s: TokenScheme, j: JWT, tok: Token, now: int)
    ensures ParseToken(s, j, tok, now).Success? <==> Accepts(s, j, tok, now)
    ensures ParseToken(s, j, tok, now).Success? ==> ParseToken(s, j, tok, now).value == tok.claims
  {
    if tok.Compact? && tok.alg.Some? {
      var name := tok.alg.value;
      match GetSigningMethod(name)
      case None =>
        if Accepts(s, j, tok, now) {
          var m :| IsRsa(m) && tok.alg == Some(MethodName(m));
          GetSigningMethodOfName(m);
        }
      case Some(m) =>
        if Accepts(s, j, tok, now) {
          var m' :| IsRsa(m') && tok.alg == Some(MethodName(m')) && j.publicKey.Some?
                    && s.verify(RsaParams(m'), j.publicKey.value, SigningInput(tok.alg, tok.claims), tok.signature);
          GetSigningMethodOfName(m');
        }
    }
  }

  /**
   * A token whose `alg` names a registered method outside the RSA type (HMAC, RSA-PSS, ECDSA,
   * EdDSA or none) is refused by the key function, whatever its claims and signature and whatever
   * key the verifier holds, so its signature is never checked.
   */
  lemma ParseTokenRefusesOtherMethods(s: TokenScheme, j: JWT, tok: Token, now: int, m: SigningMethod)
    requires tok.Compact? && tok.alg == Some(MethodName(m)) && !IsRsa(m)
    ensures ParseToken(s, j, tok, now) == Failure(KeyFuncFailed(ErrSignatureInvalid))
  {
    GetSigningMethodOfName(m);
  }

  /** The usual algorithm-confusion attacks: an unsigned token, an HMAC token and an RSA-PSS token. */
  lemma ParseTokenRefusesNoneHmacPss(s: TokenScheme, j: JWT, c: Claims, sig: Signature, now: int)
    ensures ParseToken(s, j, Compact(Some("none"), c, sig), now) == Failure(KeyFuncFailed(ErrSignatureInvalid))
    ensures ParseToken(s, j, Compact(Some("HS256"), c, sig), now) == Failure(KeyFuncFailed(ErrSignatureInvalid))
    ensures ParseToken(s, j, Compact(Some("PS256"), c, sig), now) == Failure(KeyFuncFailed(ErrSignatureInvalid))
  {
    ParseTokenRefusesOtherMethods(s, j, Compact(Some("none"), c, sig), now, MethodNone);
    ParseTokenRefusesOtherMethods(s, j, Compact(Some("HS256"), c, sig), now, HS256);
    ParseTokenRefusesOtherMethods(s, j, Compact(Some("PS256"), c, sig), now, PS256);
  }

  /** Tokens that do not decode, lack `alg`, or name an unregistered `alg` are refused before the key function runs. */
  lemma ParseTokenRefusesUndecodable(s: TokenScheme, j: JWT, c: Claims, sig: Signature, alg: string, now: int)
    ensures ParseToken(s, j, Garbled, now) == Failure(TokenMalformed)
    ensures ParseToken(s, j, Compact(None, c, sig), now) == Failure(AlgUnspecified)
    ensures GetSigningMethod(alg).None? ==> ParseToken(s, j, Compact(Some(alg), c, sig), now) == Failure(AlgUnavailable(alg))
  {
  }

  /**
   * Round trip of an access token: a verifier holding the public half of the issuer's key accepts
   * it, with the user id and admin flag it was issued for, strictly before `exp`; from `exp` on it
   * refuses it as expired.
   */
  lemma AccessTokenRoundTrip(s: TokenScheme, issuer: JWT, verifier: JWT, userID: int64, isAdmin: bool,
                             tExp: int, tIat: int, now: int)
    requires Sound(s)
    requires issuer.privateKey.Some? && verifier.publicKey == Some(s.pub(issuer.privateKey.value))
    requires GenerateAccessToken(s, issuer, userID, isAdmin, tExp, tIat).Success?
    ensures var tok := GenerateAccessToken(s, issuer, userID, isAdmin, tExp, tIat).value;
            now < tExp + issuer.accessDuration ==>
              && ParseToken(s, verifier, tok, now).Success?
              && ParseToken(s, verifier, tok, now).value.userID == userID
              && ParseToken(s, verifier, tok, now).value.isAdmin == isAdmin
    ensures var tok := GenerateAccessToken(s, issuer, userID, isAdmin, tExp, tIat).value;
            now >= tExp + issuer.accessDuration ==>
              ParseToken(s, verifier, tok, now) == Failure(InvalidClaims([Expired]))
  {
    var tok := GenerateAccessToken(s, issuer, userID, isAdmin, tExp, tIat).value;
    GetSigningMethodOfName(RS256);
    ParseTokenAcceptsExactly(s, verifier, tok, now);
    if now >= tExp + issuer.accessDuration {
      assert Validate(tok.claims.registered, now) == [Expired];
    }
  }

  /** The same round trip for a refresh token, which also carries the admin flag, with the refresh lifetime. */
  lemma RefreshTokenRoundTrip(s: TokenScheme, issuer: JWT, verifier: JWT, userID: int64, isAdmin: bool,
                              tExp: int, tIat: int, now: int)
    requires Sound(s)
    requires issuer.privateKey.Some? && verifier.publicKey == Some(s.pub(issuer.privateKey.value))
    requires GenerateRefreshToken(s, issuer, userID, isAdmin, tExp, tIat).Success?
    ensures var tok := GenerateRefreshToken(s, issuer, userID, isAdmin, tExp, tIat).value;
            now < tExp + issuer.refreshDuration ==>
              && ParseToken(s, verifier, tok, now).Success?
              && ParseToken(s, verifier, tok, now).value.userID == userID
              && ParseToken(s, verifier, tok, now).value.isAdmin == isAdmin
    ensures var tok := GenerateRefreshToken(s, issuer, userID, isAdmin, tExp, tIat).value;
            now >= tExp + issuer.refreshDuration ==>
              ParseToken(s, verifier, tok, now) == Failure(InvalidClaims([Expired]))
  {
    var tok := GenerateRefreshToken(s, issuer, userID, isAdmin, tExp, tIat).value;
    GetSigningMethodOfName(RS256);
    ParseTokenAcceptsExactly(s, verifier, tok, now);
    if now >= tExp + issuer.refreshDuration {
      assert Validate(tok.claims.registered, now) == [Expired];
    }
  }

  /**
   * Nothing tells a refresh token from an access token: issued from the same clock readings, their
   * claims differ only in `exp`, and with equal lifetimes the two tokens are the same value, so
   * ParseToken treats them alike.
   */
  lemma RefreshTokenIsAccessShaped(s: TokenScheme, j: JWT, userID: int64, isAdmin: bool, tExp: int, tIat: int)
    ensures j.accessDuration == j.refreshDuration ==>
              GenerateRefreshToken(s, j, userID, isAdmin, tExp, tIat) == GenerateAccessToken(s, j, userID, isAdmin, tExp, tIat)
    ensures GenerateAccessToken(s, j, userID, isAdmin, tExp, tIat).Success?
            && GenerateRefreshToken(s, j, userID, isAdmin, tExp, tIat).Success? ==>
              var access := GenerateAccessToken(s, j, userID, isAdmin, tExp, tIat).value.claims;
              GenerateRefreshToken(s, j, userID, isAdmin, tExp, tIat).value.claims
              == access.(registered := access.registered.(expiresAt := Some(tExp + j.refreshDuration)))
  {
  }

  /** With the clock read once, `exp` is `iat` plus the lifetime; with two readings in order, at most that. */
  lemma AccessTokenLifetime(s: TokenScheme, j: JWT, userID: int64, isAdmin: bool, tExp: int, tIat: int)
    requires tExp <= tIat
    requires GenerateAccessToken(s, j, userID, isAdmin, tExp, tIat).Success?
    ensures var rc := GenerateAccessToken(s, j, userID, isAdmin, tExp, tIat).value.claims.registered;
            rc.expiresAt.value <= rc.issuedAt.value + j.accessDuration
            && (tExp == tIat ==> rc.expiresAt.value == rc.issuedAt.value + j.accessDuration)
  {
  }

  /**
   * A token issued with private key `k` (an access or a refresh token: see the generators'
   * contracts) is refused, at any time, by a verifier holding a public key other than k's.
   */
  lemma ParseTokenRefusesOtherKey(s: TokenScheme, k: PrivateKey, verifier: JWT, tok: Token, now: int)
    requires Unforgeable(s)
    requires IssuedWith(s, k, tok)
    requires verifier.publicKey.Some? && verifier.publicKey.value != s.pub(k)
    ensures ParseToken(s, verifier, tok, now) == Failure(SignatureInvalid(VerificationFailed))
  {
    GetSigningMethodOfName(RS256);
  }

  /** Replacing the signature of a token issued with `k` by any other byte sequence makes k's verifier refuse it. */
  lemma ParseTokenRefusesOtherSignature(s: TokenScheme, k: PrivateKey, verifier: JWT, tok: Token, now: int,
                                        forged: Signature)
    requires Unique(s)
    requires IssuedWith(s, k, tok)
    requires verifier.publicKey == Some(s.pub(k))
    requires forged != tok.signature
    ensures ParseToken(s, verifier, tok.(signature := forged), now) == Failure(SignatureInvalid(VerificationFailed))
  {
    GetSigningMethodOfName(RS256);
  }

  /** Changing the claims of a token issued with `k` while keeping its signature makes k's verifier refuse it. */
  lemma ParseTokenRefusesOtherClaims(s: TokenScheme, k: PrivateKey, verifier: JWT, tok: Token, now: int,
                                     forged: Claims)
    requires Unique(s) && Binding(s)
    requires IssuedWith(s, k, tok)
    requires verifier.publicKey == Some(s.pub(k))
    requires forged != tok.claims
    ensures ParseToken(s, verifier, tok.(claims := forged), now) == Failure(SignatureInvalid(VerificationFailed))
  {
    GetSigningMethodOfName(RS256);
  }

  /** A verifier from NewPublic can issue nothing: both generators reach the nil private key. */
  lemma NewPublicCannotIssue(file: Result<seq<bv8>, string>, decodePem: seq<bv8> -> Result<PublicKey, string>,
                             s: TokenScheme, userID: int64, isAdmin: bool, tExp: int, tIat: int)
    requires NewPublic(file, decodePem).Success?
    ensures GenerateAccessToken(s, NewPublic(file, decodePem).value, userID, isAdmin, tExp, tIat) == Failure(NilPrivateKey)
    ensures GenerateRefreshToken(s, NewPublic(file, decodePem).value, userID, isAdmin, tExp, tIat) == Failure(NilPrivateKey)
  {
  }

  /**
   * An issuer from NewPrivate accepts no token: an RS token reaches the nil public key, and every
   * other token fails earlier.
   */
  lemma NewPrivateCannotVerify(file: Result<seq<bv8>, string>, decodePem: seq<bv8> -> Result<PrivateKey, string>,
                               accessDuration: int, refreshDuration: int, s: TokenScheme, tok: Token, now: int)
    requires NewPrivate(file, decodePem, accessDuration, refreshDuration).Success?
    ensures ParseToken(s, NewPrivate(file, decodePem, accessDuration, refreshDuration).value, tok, now).Failure?
    ensures tok.Compact? && tok.alg.Some? && GetSigningMethod(tok.alg.value).Some? && IsRsa(GetSigningMethod(tok.alg.value).value)
            ==> ParseToken(s, NewPrivate(file, decodePem, accessDuration, refreshDuration).value, tok, now) == Failure(NilPublicKey)
  {
  }
}
