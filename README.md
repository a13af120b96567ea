# A Dafny model of the JWT issuer/verifier and the log-level switch of go-common-forum

This project models two pieces of the repository:

- **`jwt/jwt.go`** issues RS256-signed JSON Web Tokens (RFC 7519; RS256 is defined in section 3.3 of RFC 7518) and verifies them with an RSA public key.
  - A token carries a user id, an admin flag, `iat` and `exp`.
  - An instance is either an issuer or a verifier. `NewPrivate` gives an issuer: a private key and two lifetimes. `NewPublic` gives a verifier: a public key and zero lifetimes.
  - The two generators build the same claims and differ only in the lifetime used for `exp`.
  - `ParseToken` hands the public key only to the `*SigningMethodRSA` methods `RS256`, `RS384` and `RS512`. It returns the claims only when the library reports no error and the token is valid.
- **`logger/logger.go`** turns a configuration string into one of four zerolog levels. Matching ignores case, and any other string gives Info.

The model is pure: datatypes, functions and lemmas.

- The source's own code has no loops and no updates in place. `JWT` values are built once by the constructors.
- The current time is a parameter.
- Key loading is passed in as its outcomes: the result of reading the file, and the library's PEM decoder.
- RSA is a `Scheme`: three total functions `pub`, `sign` and `verify`. What the lemmas need of it are predicates they take as hypotheses:
  - `Sound`: a signature verifies under the matching public key. Real RSA has this property.
  - `Unique`: with PKCS #1 v1.5 padding, only the signature the private key produces verifies. This holds for PKCS #1 v1.5, which is deterministic. It is not stated for PSS, which is randomised.
  - `Binding`: one key never gives two messages the same signature. This is an idealised assumption. Real signatures have bounded length and messages do not, so it stands for the collision resistance of SHA-256.
  - `Unforgeable`: a signature does not verify under another public key. This is an idealised assumption: it holds only for keys that were honestly generated and kept secret.

## Modules

- `wrappers.dfy` — `Wrappers`: `Option` and `Result`.
- `rsa.dfy` — `Rsa`: keys, signature parameters (padding and hash), `Scheme` and its four properties.
- `golang_jwt.dfy` — `GolangJwt`: the golang-jwt v5 behaviour that `jwt.go` relies on:
  - the registry of signing methods by `alg` name (section 4.1.1 of RFC 7515);
  - `SignedString`;
  - the default claims validator (`exp` and `nbf`, sections 4.1.4 and 4.1.5 of RFC 7519);
  - `ParseWithClaims`, in the library's order: decode, method lookup, key function, signature, claims, then `Valid`.
- `jwt.dfy` — `Jwt`: `Claims`, `JWT`, key loading, both constructors, both generators, the key function and `ParseToken`.
- `jwt_properties.dfy` — `JwtProperties`: an independent acceptance predicate and the round-trip and rejection lemmas.
- `logger.dfy` — `Logger`: `ToLower`, `LevelOf` and their lemmas.

## Behaviour of the code worth knowing

- Refresh tokens carry the admin flag, exactly like access tokens. No claim says whether a token is an access or a refresh token, and `ParseToken` accepts either. With equal lifetimes the two generators produce the same token (`JwtProperties.RefreshTokenIsAccessShaped`).
- There is no HMAC mode. Only `RS256`, `RS384` and `RS512` reach the key. `PS256`/`PS384`/`PS512` are refused too, because in the library they are a different Go type from the RSA method.
- A token is valid strictly before its `exp`. From `exp` on it is expired.
- The lifetimes given to `NewPrivate` are not checked. Zero or negative lifetimes are accepted.
- `NewPrivate` wraps a key-loading error with the same context text as `NewPublic` (`"JWT - NewPublic - getPublicKey"`).
- The `!token.Valid` branch of `ParseToken` cannot be reached: the library sets `Valid` exactly when it reports no error. So `ErrInvalidKey` is never returned (the first `ensures` of `Jwt.ParseToken`).
- A verifier that tries to issue, or an issuer that tries to verify an RS token, passes a nil key into `crypto/rsa`, and the Go program panics. The model returns the errors `NilPrivateKey` / `NilPublicKey` instead.

## Model

| member | source | states |
|---|---|---|
| `Jwt.GetKey` | jwt/jwt.go:25-47 | Loading succeeds exactly when the file is read and its bytes decode. The key is the decoder's. A read failure and a decode failure are reported as distinct errors carrying the cause. |
| `Jwt.NewPublic` | jwt/jwt.go:49-55 | Succeeds exactly when the public key loads. The instance has no private key, holds the loaded public key and has both lifetimes 0. On failure the load error is wrapped with the context text. |
| `Jwt.NewPrivate` | jwt/jwt.go:57-63 | Succeeds exactly when the private key loads. The instance has no public key, holds the loaded private key and keeps the given lifetimes. On failure the load error is wrapped with the same context text as `NewPublic`. |
| `Jwt.GenerateAccessToken` | jwt/jwt.go:65-76 | Issuing succeeds exactly when the instance has a private key and the scheme signs the RS256 header with the claims built by `NewClaims`. With no private key it fails with `NilPrivateKey`. A token has alg `RS256`, the given user id and admin flag unchanged, `exp` = first clock reading + access lifetime, `iat` = second reading and no `nbf`. Its signature is the one the instance's private key gives header and claims (`IssuedWith`). For a sound scheme it verifies under the key's public half. |
| `Jwt.GenerateRefreshToken` | jwt/jwt.go:78-89 | The same as the access token: it succeeds under the same condition, keeps the given user id and admin flag, and signs RS256 with the instance's private key (`IssuedWith`). `exp` uses the refresh lifetime. |
| `Jwt.KeyFunc` | jwt/jwt.go:93-98 | A key is handed out exactly for methods of the RSA type, and the key is the instance's public key. Every other method gets `ErrSignatureInvalid`. |
| `Jwt.ParseToken` | jwt/jwt.go:91-109 | Never returns `ErrInvalidKey`. Any claims it returns are the token's own. |
| `GolangJwt.GetSigningMethod` | jwt/jwt.go:93 | A method found for an `alg` name is the method with that exact name. |
| `GolangJwt.GetSigningMethodOfName` | jwt/jwt.go:93 | Looking a method up by its own name finds that method, so method names are distinct. |
| `GolangJwt.IsRsa` | jwt/jwt.go:94 | The `*SigningMethodRSA` type assertion holds exactly for the methods named `RS256`, `RS384` and `RS512`. |
| `GolangJwt.RsaParams` | jwt/jwt.go:94 | Among the methods that use an RSA key, PKCS #1 v1.5 padding is used exactly by the `*SigningMethodRSA` ones. |
| `GolangJwt.SignedString` | jwt/jwt.go:74-75 | A nil key fails with `NilPrivateKey`. Signing succeeds exactly when a key is present and the scheme signs. The token carries the method's name and the claims unchanged. For a sound scheme the signature verifies under the key's public half. |
| `GolangJwt.Validate` | jwt/jwt.go:93 | `Expired` is reported exactly when `exp` is present and now ≥ `exp`. `NotValidYet` is reported exactly when `nbf` is present and now < `nbf`. No cause is reported twice. |
| `GolangJwt.Verify` | jwt/jwt.go:93-97 | The signature check passes exactly when the method uses an RSA key, a key is present, and the scheme verifies the signature over header and claims. |
| `GolangJwt.ParseWithClaims` | jwt/jwt.go:93-98 | The token is marked valid exactly when no error is reported. An undecodable token leaves the caller's empty claims and reports `TokenMalformed`. A decodable one fills in its claims. |
| `JwtProperties.ParseTokenAcceptsExactly` | jwt/jwt.go:91-109 | `ParseToken` succeeds exactly when `Accepts` holds. `Accepts`: the header names an RS method, the verifier has a public key under which the signature verifies, now < `exp` if present, and now ≥ `nbf` if present. The result is then the token's claims. |
| `JwtProperties.ParseTokenRefusesOtherMethods` | jwt/jwt.go:93-97 | A token naming any registered non-RSA-type method fails with the key function's `ErrSignatureInvalid`, whatever its claims, signature, scheme or verifier key. |
| `JwtProperties.ParseTokenRefusesNoneHmacPss` | jwt/jwt.go:94-95 | Tokens with alg `none`, `HS256` or `PS256` are refused by the key function, whatever signature bytes they carry. |
| `JwtProperties.ParseTokenRefusesUndecodable` | jwt/jwt.go:93-102 | An undecodable token fails as malformed. A token without `alg` fails as unspecified. A token whose `alg` is unregistered fails as unavailable. |
| `JwtProperties.AccessTokenRoundTrip` | jwt/jwt.go:65-109 | Consider an access token issued with key k, checked by a verifier holding pub(k) under a sound scheme. Strictly before `exp`, `ParseToken` succeeds with the issued user id and admin flag. From `exp` on it fails with exactly `[Expired]`. |
| `JwtProperties.RefreshTokenRoundTrip` | jwt/jwt.go:78-109 | The same for a refresh token, with the refresh lifetime. The admin flag comes back too. |
| `JwtProperties.RefreshTokenIsAccessShaped` | jwt/jwt.go:65-89 | With equal lifetimes the refresh token equals the access token. When both generators succeed from the same clock readings, the refresh token's claims are the access token's claims with only `exp` changed, to first reading + refresh lifetime. |
| `JwtProperties.AccessTokenLifetime` | jwt/jwt.go:70-71 | When the two clock readings are in order, `exp` ≤ `iat` + access lifetime. When they are equal, `exp` = `iat` + access lifetime. |
| `JwtProperties.ParseTokenRefusesOtherKey` | jwt/jwt.go:91-109 | Take any token issued with private key k: access or refresh, since both generators' results are `IssuedWith` k. Under an unforgeable scheme, a verifier holding a public key other than pub(k) refuses it at any time, with `SignatureInvalid`. |
| `JwtProperties.ParseTokenRefusesOtherSignature` | jwt/jwt.go:91-109 | Take any token issued with k, with its signature replaced by other bytes. Under a scheme whose PKCS #1 v1.5 signatures are unique, the verifier holding pub(k) refuses it with `SignatureInvalid`. |
| `JwtProperties.ParseTokenRefusesOtherClaims` | jwt/jwt.go:91-109 | Take any token issued with k, with its claims changed and its signature kept. Under a unique and binding scheme, the verifier holding pub(k) refuses it with `SignatureInvalid`. |
| `JwtProperties.NewPublicCannotIssue` | jwt/jwt.go:49-89 | An instance from `NewPublic` cannot issue: both generators fail with `NilPrivateKey`. |
| `JwtProperties.NewPrivateCannotVerify` | jwt/jwt.go:57-109 | An instance from `NewPrivate` accepts no token. An RS token reaches the nil public key (`NilPublicKey`). |
| `Logger.LowerRune` | logger/logger.go:13 | Maps ASCII upper case to lower case and never yields an ASCII capital. A rune it changes becomes an ASCII lower-case letter. |
| `Logger.ToLower` | logger/logger.go:13 | Keeps the length and lower-cases every rune in place. |
| `Logger.ToLowerIdempotent` | logger/logger.go:13 | Lower-casing twice equals lower-casing once. |
| `Logger.ToLowerMatches` | logger/logger.go:13 | A string lower-cases to a name when its runes lower-case to the name's runes one by one. |
| `Logger.LevelOf` | logger/logger.go:13-24 | A total function onto the four levels. Error, Warn and Debug are selected exactly by the lower-cased names `error`, `warn` and `debug`. Info is selected exactly by every other string, including `info`. |
| `Logger.LevelOfIgnoresCase` | logger/logger.go:13 | A string selects the same level as its lower-case form. |
| `Logger.LevelOfLowerCaseNames` | logger/logger.go:14-21 | `error`, `warn`, `info` and `debug` select Error, Warn, Info and Debug. |
| `Logger.LevelOfOtherCaseNames` | logger/logger.go:13-21 | `ERROR`, `Warn`, `DEBUG` and `Debug` select Error, Warn, Debug and Debug. |
| `Logger.LevelOfUnknownNames` | logger/logger.go:22-23 | The empty string, `trace` and `INFO` select Info. |

## Left out

- RSA key arithmetic, RS256 signature computation and PEM decoding are foreign library code. They become the `Scheme` functions and the `decodePem` parameter. Real RSA's properties are hypotheses of the lemmas that need them.
- `os.ReadFile` is I/O. Its outcome is the `file` parameter.
- `time.Now()` is replaced by parameters: two readings in the generators, one in the parser.
- Times and lifetimes are unbounded integers in one unit. `NumericDate`'s truncation to seconds, nanosecond `time.Duration` and overflow in `time.Add` are not modelled.
- The serialised form of a token (base64url JSON segments) is not modelled. Each way a token can fail to decode is folded into `Garbled`, which reports `TokenMalformed`. The `typ` header is not modelled.
- The library looks up `alg` before it decodes the signature segment. So the Go code can report a different error than the model for one kind of token: the header has no `alg` or an unregistered one, the claims decode, and the signature segment is not valid base64url. Go reports `ErrTokenUnverifiable` for it. The model can only write that token as `Garbled`, and reports `TokenMalformed`. Either way the token is refused.
- `RegisteredClaims`' issuer, subject, audience and id are not modelled. `jwt.go` never sets them and the default validator does not check them. The library options `jwt.go` does not use are not modelled either: leeway, required `exp`, `iat` checking and allowed-method lists.
- `ErrHashUnavailable` is not modelled: the hash functions are assumed to be linked in.
- The key-type checks of the non-RSA methods are collapsed into one `InvalidKeyType` outcome. `jwt.go`'s key function never hands those methods a key, so the outcome is never reached. (`none` reports its own sentinel error, which is not named separately.)
- Error text is not modelled. `ConstructError` keeps the context string and its cause, not the `fmt.Errorf` formatting.
- A nil-key panic inside `crypto/rsa` is modelled as an error value (`NilPrivateKey`, `NilPublicKey`), not as a panic.
- `Logger.LowerRune`: Go's full Unicode lower-case mapping is not modelled. Only the runes whose lower case is ASCII are mapped (A–Z, U+0130 and U+212A), and other runes are left unchanged. This does not change `LevelOf`, which compares the result only with ASCII names. Invalid UTF-8 is not modelled either: strings are sequences of characters.
- `zerolog.SetGlobalLevel` (process-global state) and the construction of the stdout logger with its service field and caller frames are left out. They are I/O and library configuration.
- `postgres/migrations.go` is not part of this model: database connection and migration running are I/O through foreign libraries.
- `httpserver/server.go` is not part of this model: a thin gin wrapper whose `Run` starts a goroutine.
