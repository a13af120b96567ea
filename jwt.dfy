/**
 * The token issuer and verifier of jwt/jwt.go: RS256-signed JSON Web Tokens (RFC 7519) carrying a
 * user id, an admin flag and the `iat` and `exp` claims. A `JWT` value is either an issuer (it
 * holds a private key and two lifetimes) or a verifier (it holds a public key). Reading a key file
 * and decoding its PEM encoding are passed in as their outcomes; the current time is a parameter.
 */
module Jwt {
  import opened Wrappers
  import opened Rsa
  import opened GolangJwt

  newtype int64 = x: int | -0x8000_0000_0000_0000 <= x < 0x8000_0000_0000_0000

  /** The claims record: the two private claims plus the library's registered claims. */
  datatype Claims = Claims(userID: int64, isAdmin: bool, registered: RegisteredClaims)

  /** The zero value `&Claims{}` handed to the parser. */
  const EmptyClaims: Claims := Claims(0, false, RegisteredClaims(None, None, None))

  type Token = TokenString<Claims>

  type TokenScheme = Scheme<SigningInput<Claims>>

  /** Both keys are pointers that the constructors leave nil for the role an instance does not play. */
  datatype JWT = JWT(privateKey: Option<PrivateKey>, publicKey: Option<PublicKey>,
                     accessDuration: int, refreshDuration: int)

  datatype KeyError =
    | ReadFailed(reason: string)  // os.ReadFile failed
    | PemInvalid(reason: string)  // the bytes are not a PEM-encoded RSA key of the expected kind

  /** An error from a constructor: its context message wrapping the key-loading error. */
  datatype ConstructError = Wrapped(context: string, cause: KeyError)

  /**
   * Loading a key (`getPublicKey`, `getPrivateKey`): `file` is the outcome of reading the key
   * file, `decodePem` the library's PEM decoder for the key kind.
   */
  function GetKey<K>(file: Result<seq<bv8>, string>, decodePem: seq<bv8> -> Result<K, string>)
    : (r: Result<K, KeyError>)
    ensures r.Success? <==> file.Success? && decodePem(file.value).Success?
    ensures r.Success? ==> r.value == decodePem(file.value).value
    ensures file.Failure? ==> r == Failure(ReadFailed(file.error))
    ensures file.Success? && decodePem(file.value).Failure? ==> r == Failure(PemInvalid(decodePem(file.value).error))
  {
    match file
    case Failure(e) => Failure(ReadFailed(e))
    case Success(bytes) =>
      match decodePem(bytes)
      case Failure(e) => Failure(PemInvalid(e))
      case Success(key) => Success(key)
  }

  /** The context both constructors put on a key-loading error; NewPrivate reuses NewPublic's. */
  const LoadContext: string := "JWT - NewPublic - getPublicKey"

  /** A verifier: only a public key, and zero lifetimes. */
  function NewPublic(file: Result<seq<bv8>, string>, decodePem: seq<bv8> -> Result<PublicKey, string>)
    : (r: Result<JWT, ConstructError>)
    ensures r.Success? <==> GetKey(file, decodePem).Success?
    ensures r.Success? ==>
              && r.value.privateKey.None?
              && r.value.publicKey == Some(GetKey(file, decodePem).value)
              && r.value.accessDuration == 0 && r.value.refreshDuration == 0
    ensures r.Failure? ==> r.error == Wrapped(LoadContext, GetKey(file, decodePem).error)
  {
    match GetKey(file, decodePem)
    case Failure(e) => Failure(Wrapped(LoadContext, e))
    case Success(key) => Success(JWT(None, Some(key), 0, 0))
  }

  /** An issuer: only a private key, and the two lifetimes exactly as given (they are not checked). */
  function NewPrivate(file: Result<seq<bv8>, string>, decodePem: seq<bv8> -> Result<PrivateKey, string>,
                      accessDuration: int, refreshDuration: int)
    : (r: Result<JWT, ConstructError>)
    ensures r.Success? <==> GetKey(file, decodePem).Success?
    ensures r.Success? ==>
              && r.value.publicKey.None?
              && r.value.privateKey == Some(GetKey(file, decodePem).value)
              && r.value.accessDuration == accessDuration && r.value.refreshDuration == refreshDuration
    ensures r.Failure? ==> r.error == Wrapped(LoadContext, GetKey(file, decodePem).error)
  {
    match GetKey(file, decodePem)
    case Failure(e) => Failure(Wrapped(LoadContext, e))
    case Success(key) => Success(JWT(Some(key), None, accessDuration, refreshDuration))
  }

  /**
   * `tok` is an RS256 token whose signature is the one private key `k` gives its header and
   * claims: what both generators produce.
   */
  ghost predicate IssuedWith(s: TokenScheme, k: PrivateKey, tok: Token) {
    && tok.Compact? && tok.alg == Some("RS256")
    && s.sign(Params(PKCS1v15, SHA256), k, SigningInput(tok.alg, tok.claims)) == Some(tok.signature)
  }

  /** The claims both generators build: `exp` from the first clock reading, `iat` from the second. */
  function NewClaims(userID: int64, isAdmin: bool, expiresAt: int, issuedAt: int): Claims {
    Claims(userID, isAdmin, RegisteredClaims(Some(expiresAt), None, Some(issuedAt)))
  }

  /**
   * An access token. The source reads the clock twice: `tExp` is the reading `exp` is computed
   * from, `tIat` the later one that becomes `iat`.
   */
  function GenerateAccessToken(s: TokenScheme, j: JWT, userID: int64, isAdmin: bool, tExp: int, tIat: int)
    : (r: Result<Token, SignError>)
    ensures j.privateKey.None? ==> r == Failure(NilPrivateKey)
    ensures r.Success? <==>
              && j.privateKey.Some?
              && s.sign(Params(PKCS1v15, SHA256), j.privateKey.value,
                        SigningInput(Some("RS256"), NewClaims(userID, isAdmin, tExp + j.accessDuration, tIat))).Some?
    ensures r.Success? ==>
              && r.value.Compact? && r.value.alg == Some("RS256")
              && r.value.claims.userID == userID && r.value.claims.isAdmin == isAdmin
              && r.value.claims.registered == RegisteredClaims(Some(tExp + j.accessDuration), None, Some(tIat))
    ensures r.Success? ==> IssuedWith(s, j.privateKey.value, r.value)
    ensures r.Success? && Sound(s) ==>
              s.verify(Params(PKCS1v15, SHA256), s.pub(j.privateKey.value),
                       SigningInput(Some("RS256"), r.value.claims), r.value.signature)
  {
    SignedString(s, RS256, NewClaims(userID, isAdmin, tExp + j.accessDuration, tIat), j.privateKey)
  }

  /** A refresh token: the same claims as an access token, admin flag included, with the refresh lifetime. */
  function GenerateRefreshToken(s: TokenScheme, j: JWT, userID: int64, isAdmin: bool, tExp: int, tIat: int)
    : (r: Result<Token, SignError>)
    ensures j.privateKey.None? ==> r == Failure(NilPrivateKey)
    ensures r.Success? <==>
              && j.privateKey.Some?
              && s.sign(Params(PKCS1v15, SHA256), j.privateKey.value,
                        SigningInput(Some("RS256"), NewClaims(userID, isAdmin, tExp + j.refreshDuration, tIat))).Some?
    ensures r.Success? ==>
              && r.value.Compact? && r.value.alg == Some("RS256")
              && r.value.claims.userID == userID && r.value.claims.isAdmin == isAdmin
              && r.value.claims.registered == RegisteredClaims(Some(tExp + j.refreshDuration), None, Some(tIat))
    ensures r.Success? ==> IssuedWith(s, j.privateKey.value, r.value)
    ensures r.Success? && Sound(s) ==>
              s.verify(Params(PKCS1v15, SHA256), s.pub(j.privateKey.value),
                       SigningInput(Some("RS256"), r.value.claims), r.value.signature)
  {
    SignedString(s, RS256, NewClaims(userID, isAdmin, tExp + j.refreshDuration, tIat), j.privateKey)
  }

  /** The key function: the instance's public key, but only for a method of the RSA type. */
  function KeyFunc(j: JWT, m: SigningMethod): (r: Result<Option<PublicKey>, KeyFuncError>)
    ensures r.Success? <==> IsRsa(m)
    ensures r.Success? ==> r.value == j.publicKey
  {
    if !IsRsa(m) then Failure(ErrSignatureInvalid) else Success(j.publicKey)
  }

  /** Parse and validate a token at time `now`; claims come back only when nothing failed. */
  function ParseToken(s: TokenScheme, j: JWT, tok: Token, now: int): (r: Result<Claims, ParseError>)
    ensures r != Failure(InvalidKey)
    ensures r.Success? ==> tok.Compact? && r.value == tok.claims
  {
    var parsed := ParseWithClaims(s, tok, EmptyClaims, (c: Claims) => c.registered, m => KeyFunc(j, m), now);
    if parsed.err.Some? then Failure(parsed.err.value)
    else if !parsed.valid then Failure(InvalidKey)
    else Success(parsed.claims)
  }
}
