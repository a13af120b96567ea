/**
 * The parts of the golang-jwt (v5) library that jwt/jwt.go relies on: the registry of signing
 * methods keyed by the `alg` header (section 4.1.1 of RFC 7515), signing a token, and the default
 * parser and claims validator. The serialised form of a token (base64url segments holding JSON,
 * section 7.1 of RFC 7515) is not modelled: a token is its decoded header algorithm, its decoded
 * claims and its signature bytes, or a string that does not decode at all.
 */
module GolangJwt {
  import opened Wrappers
  import opened Rsa

  /** Every signing method the library registers under an `alg` name. */
  datatype SigningMethod =
    | HS256 | HS384 | HS512
    | RS256 | RS384 | RS512
    | PS256 | PS384 | PS512
    | ES256 | ES384 | ES512
    | EdDSA
    | MethodNone

  function MethodName(m: SigningMethod): string {
    match m
    case HS256 => "HS256"
    case HS384 => "HS384"
    case HS512 => "HS512"
    case RS256 => "RS256"
    case RS384 => "RS384"
    case RS512 => "RS512"
    case PS256 => "PS256"
    case PS384 => "PS384"
    case PS512 => "PS512"
    case ES256 => "ES256"
    case ES384 => "ES384"
    case ES512 => "ES512"
    case EdDSA => "EdDSA"
    case MethodNone => "none"
  }

  /** The registry lookup: the `alg` names are matched exactly, so "rs256" is not registered. */
  function GetSigningMethod(alg: string): (r: Option<SigningMethod>)
    ensures r.Some? ==> MethodName(r.value) == alg
  {
    if alg == "HS256" then Some(HS256)
    else if alg == "HS384" then Some(HS384)
    else if alg == "HS512" then Some(HS512)
    else if alg == "RS256" then Some(RS256)
    else if alg == "RS384" then Some(RS384)
    else if alg == "RS512" then Some(RS512)
    else if alg == "PS256" then Some(PS256)
    else if alg == "PS384" then Some(PS384)
    else if alg == "PS512" then Some(PS512)
    else if alg == "ES256" then Some(ES256)
    else if alg == "ES384" then Some(ES384)
    else if alg == "ES512" then Some(ES512)
    else if alg == "EdDSA" then Some(EdDSA)
    else if alg == "none" then Some(MethodNone)
    else None
  }

  /** Looking a method up by its own name finds that method, so no two methods share a name. */
  lemma GetSigningMethodOfName(m: SigningMethod)
    ensures GetSigningMethod(MethodName(m)) == Some(m)
  {
  }

  /**
   * The methods whose Go value is a `*SigningMethodRSA`. The RSA-PSS methods are a different
   * type (`*SigningMethodRSAPSS`), which only embeds the RSA one, so they are not included.
   */
  predicate IsRsa(m: SigningMethod)
    ensures IsRsa(m) <==> MethodName(m) in {"RS256", "RS384", "RS512"}
  {
    m.RS256? || m.RS384? || m.RS512?
  }

  predicate UsesRsaKey(m: SigningMethod) {
    IsRsa(m) || m.PS256? || m.PS384? || m.PS512?
  }

  function RsaParams(m: SigningMethod): (p: Params)
    requires UsesRsaKey(m)
    ensures p.padding == PKCS1v15 <==> IsRsa(m)
  {
    match m
    case RS256 => Params(PKCS1v15, SHA256)
    case RS384 => Params(PKCS1v15, SHA384)
    case RS512 => Params(PKCS1v15, SHA512)
    case PS256 => Params(PSS, SHA256)
    case PS384 => Params(PSS, SHA384)
    case PS512 => Params(PSS, SHA512)
  }

  /** The three time claims of the library's `RegisteredClaims` (RFC 7519 section 4.1), each optional. */
  datatype RegisteredClaims = RegisteredClaims(expiresAt: Option<int>, notBefore: Option<int>, issuedAt: Option<int>)

  /** A token as the parser sees it: decodable into header algorithm, claims and signature, or not. */
  datatype TokenString<C> =
    | Compact(alg: Option<string>, claims: C, signature: Signature)
    | Garbled

  /** What the signature covers: the encoded header (holding `alg`) and the encoded claims. */
  datatype SigningInput<C> = SigningInput(alg: Option<string>, claims: C)

  datatype SignError =
    | NilPrivateKey  // the key pointer is nil; crypto/rsa dereferences it and the Go program panics
    | SigningFailed  // crypto/rsa refused to sign

  /** `NewWithClaims(m, claims).SignedString(key)` for a method that signs with an RSA private key. */
  function SignedString<C(!new)>(s: Scheme<SigningInput<C>>, m: SigningMethod, claims: C, key: Option<PrivateKey>)
    : (r: Result<TokenString<C>, SignError>)
    requires UsesRsaKey(m)
    ensures key.None? ==> r == Failure(NilPrivateKey)
    ensures r.Success? <==> key.Some? && s.sign(RsaParams(m), key.value, SigningInput(Some(MethodName(m)), claims)).Some?
    ensures r.Success? ==> r.value.Compact? && r.value.alg == Some(MethodName(m)) && r.value.claims == claims
    ensures r.Success? && Sound(s) ==>
              s.verify(RsaParams(m), s.pub(key.value), SigningInput(r.value.alg, claims), r.value.signature)
  {
    if key.None? then Failure(NilPrivateKey)
    else
      var alg := Some(MethodName(m));
      match s.sign(RsaParams(m), key.value, SigningInput(alg, claims))
      case None => Failure(SigningFailed)
      case Some(sig) => Success(Compact(alg, claims, sig))
  }

  datatype ClaimsError = Expired | NotValidYet

  /**
   * The default validator: without leeway, a token has expired once the time reaches `exp`, and is
   * not valid yet while the time is before `nbf`; absent claims are not required. All failures
   * are reported together, and `iat` is not checked.
   */
  function Validate(rc: RegisteredClaims, now: int): (errs: seq<ClaimsError>)
    ensures Expired in errs <==> rc.expiresAt.Some? && now >= rc.expiresAt.value
    ensures NotValidYet in errs <==> rc.notBefore.Some? && now < rc.notBefore.value
    ensures forall i, j | 0 <= i < j < |errs| :: errs[i] != errs[j]
  {
    (if rc.expiresAt.Some? && !(now < rc.expiresAt.value) then [Expired] else [])
    + (if rc.notBefore.Some? && now < rc.notBefore.value then [NotValidYet] else [])
  }

  /** The error a key function may return; jwt/jwt.go only ever returns the library's `ErrSignatureInvalid`. */
  datatype KeyFuncError = ErrSignatureInvalid

  datatype VerifyError =
    | InvalidKeyType     // the method cannot use an RSA public key
    | VerificationFailed // crypto/rsa rejected the signature

  datatype ParseError =
    | TokenMalformed                        // ErrTokenMalformed: the string does not decode
    | AlgUnspecified                        // ErrTokenUnverifiable: the header has no `alg`
    | AlgUnavailable(alg: string)           // ErrTokenUnverifiable: no method is registered under `alg`
    | KeyFuncFailed(cause: KeyFuncError)    // ErrTokenUnverifiable, wrapping the key function's error
    | SignatureInvalid(reason: VerifyError) // ErrTokenSignatureInvalid
    | InvalidClaims(causes: seq<ClaimsError>) // ErrTokenInvalidClaims
    | NilPublicKey                          // a nil key reaches crypto/rsa; the Go program panics
    | InvalidKey                            // ErrInvalidKey

  /** `Method.Verify` handed the key the key function returned (an RSA public key, possibly nil). */
  function Verify<C>(s: Scheme<SigningInput<C>>, m: SigningMethod, key: Option<PublicKey>,
                     input: SigningInput<C>, sig: Signature): (r: Option<ParseError>)
    ensures r.None? <==> UsesRsaKey(m) && key.Some? && s.verify(RsaParams(m), key.value, input, sig)
  {
    if !UsesRsaKey(m) then Some(SignatureInvalid(InvalidKeyType))
    else if key.None? then Some(NilPublicKey)
    else if s.verify(RsaParams(m), key.value, input, sig) then None
    else Some(SignatureInvalid(VerificationFailed))
  }

  /** What `ParseWithClaims` gives back: the claims it filled in, the token's `Valid` flag, and its error. */
  datatype Parsed<C> = Parsed(claims: C, valid: bool, err: Option<ParseError>)

  /**
   * `ParseWithClaims` with the default parser: decode, look the method up by `alg`, ask the key
   * function for a key, verify the signature, validate the time claims, and only then set `Valid`.
   * `empty` is the claims value the caller passed in, left as it was when nothing decodes;
   * `registered` gives a claims value's registered part.
   */
  function ParseWithClaims<C>(s: Scheme<SigningInput<C>>, tok: TokenString<C>, empty: C,
                              registered: C -> RegisteredClaims,
                              keyFunc: SigningMethod -> Result<Option<PublicKey>, KeyFuncError>,
                              now: int): (p: Parsed<C>)
    ensures p.valid <==> p.err.None?
    ensures tok.Garbled? ==> p.claims == empty && p.err == Some(TokenMalformed)
    ensures tok.Compact? ==> p.claims == tok.claims
  {
    match tok
    case Garbled => Parsed(empty, false, Some(TokenMalformed))
    case Compact(alg, claims, sig) =>
      if alg.None? then Parsed(claims, false, Some(AlgUnspecified))
      else match GetSigningMethod(alg.value)
        case None => Parsed(claims, false, Some(AlgUnavailable(alg.value)))
        case Some(m) =>
          match keyFunc(m)
          case Failure(e) => Parsed(claims, false, Some(KeyFuncFailed(e)))
          case Success(key) =>
            var verified := Verify(s, m, key, SigningInput(alg, claims), sig);
            if verified.Some? then Parsed(claims, false, verified)
            else
              var errs := Validate(registered(claims), now);
              if errs != [] then Parsed(claims, false, Some(InvalidClaims(errs)))
              else Parsed(claims, true, None)
  }
}
