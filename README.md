# Remote provider token lifecycle, modelled in Dafny

This project models the token-lifecycle logic of the remote provider in
`models/remote_auth.go`. The provider is an object with two pieces of mutable state:

- `Keys`: the cached JSON Web Key Set. Each key is a string map (RFC 7517), and the
  key id is its `"kid"` member.
- `TokenStore`: a memo from an expired opaque session token to the token the backend
  issued in its place.

The model covers five rules:

1. **Key cache.** `UpdateJWKs` replaces the cache with the fetched list. `GetJWK`
   scans the cache for a `kid`. On a miss it refreshes exactly once and scans again.
2. **Refresh store.** `refreshToken` serves a stored replacement without a remote
   call. On a miss it posts to `/refresh`, installs `old -> new`, and schedules the
   removal of exactly that entry.
3. **Retry-once requests.** `doRequestHelper` decodes the opaque token and sends the
   request with `Authorization: bearer <access token>` (section 2.1 of RFC 6750).
   `DoRequest` answers a 401 or 403 with exactly one refresh and exactly one retry.
4. **Key building.** `GenerateKey` reads `n` and `e` as Base64urlUInt values (section
   6.3.1 of RFC 7518). These are unpadded base64url: section 5 with section 3.2 of
   RFC 4648. The modulus is the big-endian value of the octets of `n`. The exponent
   is accepted only as the literal `AQAB` or `AAEAAQ`, both meaning 65537.
5. **Verification pipeline.** `VerifyToken` runs these stages in order: decode,
   unverified parse, kid, key lookup, key build, verify, claims cast. The first
   failure stops the pipeline.

Layout, one module per component:

- `wrappers.dfy`: `Option`, `Result` and `MayPanic` (returned or panicked).
- `base64.dfy`: Go's unpadded base64 decoding for both alphabets, plus an encoder
  and the round-trip lemma.
- `remote.dfy`: the shared values, the error kinds, and the `Env` bundle of
  collaborators. It also defines the `Effect` log of outbound calls.
- `token_codec.dfy`: `DecodeTokenData`.
- `key_builder.dfy`: `GenerateKey`, big-endian integers and the exponent whitelist.
- `jwks_cache.dfy`: specification functions for `UpdateJWKs` and `GetJWK`.
- `refresh_store.dfy`: specification of `refreshToken` and of its deferred eviction.
- `request_executor.dfy`: `doRequestHelper` and the specification of `DoRequest`.
- `token_verifier.dfy`: the specification of `VerifyToken`.
- `remote_auth.dfy`: class `RemoteProvider`. It has the fields `Keys` and
  `TokenStore` and the state-changing methods. Each method is proved equal to the
  specification function of its component. A ghost `Effects` field logs the outbound
  calls: requests sent, refresh posts, key fetches and scheduled evictions.

Everything outside the provider is passed in per call as a field of `Env`:

- HTTP (`http.Client.Do`, `http.Post`, `http.Get` with the body read),
- JSON decoding into `oauth2.Token`, into `map[string]string` and into the key-set
  map,
- `jwt.ParseUnverified` and `jwt.Parse`,
- the x509/PEM round trip of the public key.

Oracle errors are passed on unchanged.

A Go map read of an absent key yields `""`. The model writes this as `Remote.Field`.
It matters in three places:

- A key with no `"kid"` matches the empty kid.
- A `TokenStore` entry holding `""` counts as a miss.
- A JWK with no `"n"` gives the modulus 0.

Three behaviours of the code that a reader might not expect, which the model follows:

- The opaque token is decoded with Go's `RawStdEncoding`: the standard alphabet, not
  the URL-safe one (`TokenCodec.UrlAlphabetRejected`).
- Only a failed fetch or a failed body read leaves the key cache untouched. A fetched
  body that decodes to no `"keys"` member empties the cache, and the lookup then
  reports "Key not found" (`JwksCache.UndecodableBodyEmptiesCache`).
- The deferred eviction deletes without taking the store's lock
  (models/remote_auth.go:65). `RemoteProvider.Evict` models it as an explicit method.

## Model

| member | source | states |
|---|---|---|
| `Base64.DecodeGroups` | models/remote_auth.go:160 | On text without line breaks: the decoded length is 3 octets per 4 characters plus 1 or 2 for a final group of 2 or 3. A final group of one character is an error. |
| `Base64.Decode` | models/remote_auth.go:160 | Go's `DecodeString` skips carriage returns and line feeds. Over the remaining characters the decoded length is 3 octets per group of 4 plus 1 or 2 for a final group of 2 or 3, and a final group of one character is an error. |
| `Base64.DecodeGroupsFailsIff` | models/remote_auth.go:160 | On text without line breaks, decoding fails if and only if the text ends in a group of one character or holds a character outside the alphabet; all other text decodes. |
| `Base64.DecodeFailsIff` | models/remote_auth.go:100 | `DecodeString` reports a corrupt input if and only if, line breaks aside, the input holds a character outside the alphabet or ends in a group of one character. |
| `Base64.DecodeSkipsLineBreaks` | models/remote_auth.go:100 | Inserting a `\r` or `\n` anywhere in the input changes neither the decoded octets nor the error. |
| `Base64.DecodeEncode` | models/remote_auth.go:100 | Decoding the unpadded encoding of any octets gives them back, for both alphabets. |
| `Remote.Field` | models/remote_auth.go:42 | Go's read of a string map: the stored value when the key is present, `""` when it is absent. |
| `TokenCodec.DecodeTokenData` | models/remote_auth.go:97-111 | Malformed base64 is a decode error and the JSON decoder is not consulted. Otherwise the result is the JSON decoder's answer on the decoded octets. |
| `TokenCodec.DecodeEncodedToken` | models/remote_auth.go:100-110 | An opaque token built by encoding a JSON text decodes to what the JSON decoder makes of that text. |
| `TokenCodec.UrlAlphabetRejected` | models/remote_auth.go:100 | A token using the URL-safe alphabet (`-`) is rejected before JSON decoding. |
| `KeyBuilder.BigEndian` | models/remote_auth.go:178 | `SetBytes` reads the octets as an unsigned big-endian integer: the value of k octets is below 256^k. |
| `KeyBuilder.LeadingZeroIgnored` | models/remote_auth.go:167-169 | A leading zero octet does not change the big-endian value. |
| `KeyBuilder.ParseExponent` | models/remote_auth.go:166-175 | Succeeds if and only if `e` is `AQAB` or `AAEAAQ`, with value 65537. Any other `e` is an unsupported-exponent error. |
| `KeyBuilder.AcceptedExponentsAre65537` | models/remote_auth.go:167-169 | `AQAB` and `AAEAAQ` are the unpadded base64url of [1,0,1] and [0,1,0,1], they decode back to them, and both are 65537 big-endian. |
| `KeyBuilder.AcceptedExponentDecodes` | models/remote_auth.go:169-170 | An accepted `e` really decodes to the exponent it is taken for. |
| `KeyBuilder.NonCanonicalExponentRefused` | models/remote_auth.go:169-175 | `AAEAAR` decodes to 65537 (unused low bits are ignored) but is still refused: the whitelist is literal. |
| `KeyBuilder.GenerateKey` | models/remote_auth.go:157-196 | A bad `n` fails first. Then an unsupported `e` fails. Whenever `n` decodes and `e` is accepted, the result is the PEM round trip's answer on modulus = big-endian value of decoded `n` and exponent 65537; so a key is returned only in that case. |
| `KeyBuilder.GenerateKeyFromOctets` | models/remote_auth.go:160-180 | For `n` = base64url of octets b and an accepted `e`, the key handed on is (BigEndian(b), 65537). |
| `KeyBuilder.MissingModulusIsZero` | models/remote_auth.go:160 | A JWK without `n` yields modulus 0. |
| `JwksCache.HasKid` | models/remote_auth.go:140 | A key answers to a kid exactly when its `"kid"` member equals it, or it has no `"kid"` and the kid is empty. |
| `JwksCache.FindByKid` | models/remote_auth.go:139-143 | Returns the position of the first key whose `"kid"` equals the kid, or none exactly when no key matches. |
| `JwksCache.KeysOf` | models/remote_auth.go:127-132 | The cache becomes the body's `"keys"` member, and the empty list when the decoded body has none (Go's nil slice). |
| `JwksCache.UpdateJwksSpec` | models/remote_auth.go:114-135 | A fetch or read error is returned and the cache is kept. Otherwise the cache is replaced wholesale and no decoding error is reported. |
| `JwksCache.RefreshReplacesNotMerges` | models/remote_auth.go:127-132 | After a successful fetch the cache does not depend on what was cached before. |
| `JwksCache.RefreshIdempotent` | models/remote_auth.go:114-135 | Refreshing twice against the same answer equals refreshing once. |
| `JwksCache.GetJwkSpec` | models/remote_auth.go:138-154 | A hit returns the first match with no fetch. A miss fetches exactly once and passes on a fetch error with the cache unchanged. Otherwise it returns the first match in the refreshed list, or "Key not found". |
| `JwksCache.GetJwkSucceedsIff` | models/remote_auth.go:138-154 | Lookup succeeds if and only if the kid is cached, or the refresh succeeded and brought it. After a successful refresh it is "Key not found" if and only if neither list has it. |
| `JwksCache.RefreshedKeyIsCached` | models/remote_auth.go:132-152 | After a successful lookup, the same kid is a hit that returns the same key with no fetch. |
| `JwksCache.AbsentKidAfterRefresh` | models/remote_auth.go:144-153 | A kid absent before and after the refresh costs one fetch, then "Key not found", and the cache holds the fetched list. |
| `JwksCache.UndecodableBodyEmptiesCache` | models/remote_auth.go:127-132 | A body that decodes to nothing empties the cache and the lookup reports "Key not found". |
| `RefreshStore.Cached` | models/remote_auth.go:42-43 | A token is served from the store exactly when the store has an entry for it and that entry is not empty. |
| `RefreshStore.RefreshSpec` | models/remote_auth.go:39-68 | A hit returns the stored token with no call and the store unchanged. A miss posts exactly once. A miss fails exactly when the post or the decoding of its response fails, and returns that error with the store unchanged. A success installs old -> new, returns that same new token (the response's `token` member), leaves other entries alone and schedules the eviction of that entry only. |
| `RefreshStore.Evicted` | models/remote_auth.go:63-66 | The eviction removes the entry for that token and keeps every other entry. |
| `RefreshStore.SecondRefreshIsServedFromStore` | models/remote_auth.go:42-62 | Until evicted, a second refresh of the same token returns the identical new token with no remote call. |
| `RefreshStore.EmptyTokenIsNotCached` | models/remote_auth.go:42-62 | A response without a token installs `""`, and the next refresh of that token posts again. |
| `RefreshStore.EvictionForgetsOnlyThatEntry` | models/remote_auth.go:63-66 | After eviction the token is a miss, and other cached tokens are still served with no call. |
| `RefreshStore.AtMostOnePost` | models/remote_auth.go:42-54 | A refresh posts at most once. |
| `RefreshStore.RefreshAsWritten` | models/remote_auth.go:54-55 | As written, a miss whose post fails panics on the nil response. Otherwise it behaves as the corrected refresh. |
| `RefreshStore.UnreachableBackendPanics` | models/remote_auth.go:54-57 | On a transport failure the written code panics. The corrected refresh returns the transport error with the store unchanged. |
| `RequestExecutor.Authorized` | models/remote_auth.go:77 | Sets `Authorization` to `bearer ` + access token and keeps the target and every other header. |
| `RequestExecutor.DoRequestHelper` | models/remote_auth.go:70-84 | A decode failure returns that error and sends nothing. Otherwise it sends the authorized request and returns the client's answer. |
| `RequestExecutor.Unauthorized` | models/remote_auth.go:26 | The statuses that trigger a refresh and a retry are exactly 401 and 403. |
| `RequestExecutor.DoRequestSpec` | models/remote_auth.go:24-36 | A first answer that is not 401/403 (or any failure) is returned unchanged with no refresh. On 401/403 there is exactly one refresh of this token: a refresh error is returned, otherwise exactly one retry with the new token, whose result is returned as-is. |
| `RequestExecutor.BoundedRetry` | models/remote_auth.go:24-36 | A call sends at most two requests and posts at most one refresh. A second request implies the store a refresh produced. |
| `RequestExecutor.RetryCarriesNewBearer` | models/remote_auth.go:26-33 | After 401/403 and a successful refresh, the last request sent bears the new token's access token and its answer is returned. |
| `RequestExecutor.ExpiredTokenScenario` | models/remote_auth.go:24-84 | X ("abc") gets 401, /refresh gives Y ("def"). The effects are: send bearer abc, post X, schedule eviction of X, send bearer def. The retry's answer is returned and the store maps X to Y. |
| `RequestExecutor.DoRequestAsWritten` | models/remote_auth.go:24-36 | As written, a failed first attempt panics on the nil response. On 401/403 the refresh as written runs, and its panic (an unreachable `/refresh`) is the request's panic. Otherwise it behaves as the corrected `DoRequest`. |
| `RequestExecutor.UndecodableTokenPanics` | models/remote_auth.go:25-26 | For token `!` the written code panics. The corrected code returns the base64 error with nothing sent and the store unchanged. |
| `TokenVerifier.KidOf` | models/remote_auth.go:211 | The kid is the header's `"kid"` exactly when that member is present and a string. Otherwise it is a kid error. |
| `TokenVerifier.ClaimsOf` | models/remote_auth.go:229-232 | Claims are returned exactly when they are a claims map. Otherwise it is "Error parsing claims". |
| `TokenVerifier.VerifyTokenSpec` | models/remote_auth.go:199-234 | The stages run form a prefix of decode, parse, kid, lookup, build, verify, claims, and every stage but the last passed. Success means all passed; a failure returns the error of the stage that failed. Stage by stage: a decode, parse or kid failure returns that error with no fetch and the cache unchanged; from the lookup on, a failure of the lookup, key build, verification or claims cast returns its error, and success returns the verified claims, with the cache and fetches the lookup left. |
| `TokenVerifier.VerifiedWithLookedUpKey` | models/remote_auth.go:205-224 | When the earlier stages succeed, the result is the verification of the access token with the key built from the JWK found for the header's kid. |
| `TokenVerifier.ClaimsComeFromLookedUpKey` | models/remote_auth.go:199-233 | Returned claims imply every stage produced its value. They were verified with the key built from the JWK whose kid is the header's. |
| `TokenVerifier.VerifyAsWritten` | models/remote_auth.go:211 | As written, a header without a string kid panics. Otherwise it behaves as the corrected pipeline. |
| `TokenVerifier.MissingKidPanics` | models/remote_auth.go:211-212 | For a header without `kid` the written code panics. The corrected code stops at the kid stage with no key fetched. |
| `RemoteAuth.RemoteProvider.UpdateJWKs` | models/remote_auth.go:114-135 | One key fetch is logged. Error and new `Keys` are those of `UpdateJwksSpec`, and `TokenStore` is untouched. |
| `RemoteAuth.RemoteProvider.GetJWK` | models/remote_auth.go:138-154 | Its two scanning loops around the refresh give exactly the result, new `Keys` and effects of `GetJwkSpec`. |
| `RemoteAuth.RemoteProvider.RefreshToken` | models/remote_auth.go:39-68 | Result, new `TokenStore` and effects are those of `RefreshSpec`, and `Keys` is untouched. |
| `RemoteAuth.RemoteProvider.Evict` | models/remote_auth.go:63-66 | `TokenStore` loses exactly the entry for that token. |
| `RemoteAuth.RemoteProvider.DoRequest` | models/remote_auth.go:24-36 | Result, new `TokenStore` and effects are those of `DoRequestSpec`. |
| `RemoteAuth.RefreshTwice` | models/remote_auth.go:42-67 | On one provider, two refreshes of the same expired token return the same token, and only the first posts. |
| `RemoteAuth.RemoteProvider.VerifyToken` | models/remote_auth.go:199-234 | Result, new `Keys` and effects are those of `VerifyTokenSpec`, and `TokenStore` is untouched. |

## Findings

| source | as written | input that shows it | evidently intended | confidence | as-written member | corrected member |
|---|---|---|---|---|---|---|
| models/remote_auth.go:25-26 | `resp.StatusCode` is read before `err` is checked, and `doRequestHelper` returns a nil response with every error | an opaque token that is not base64, e.g. `!` (also any transport failure) | return the first attempt's error | high, not executed | `RequestExecutor.DoRequestAsWritten` (exhibited by `RequestExecutor.UndecodableTokenPanics`) | `RequestExecutor.DoRequestSpec` |
| models/remote_auth.go:54-55 | the error of `http.Post` is discarded and `r.Body` is read from the nil response | `/refresh` unreachable for a token not in the store | return the transport error, store unchanged | high, not executed | `RefreshStore.RefreshAsWritten` (exhibited by `RefreshStore.UnreachableBackendPanics`) | `RefreshStore.RefreshSpec` |
| models/remote_auth.go:211 | `Header["kid"].(string)` without the second result panics when the header has no string `kid` | a JWT whose header is `{"alg": "RS256"}` | fail the kid stage with an error | high, not executed | `TokenVerifier.VerifyAsWritten` (exhibited by `TokenVerifier.MissingKidPanics`) | `TokenVerifier.VerifyTokenSpec` |

## Left out

- Real HTTP (`http.Post`, `http.Get`, `http.Client.Do`, `ioutil.ReadAll`, closing bodies): the answers are `Env` fields given per call. Timeouts and connection reuse are not modelled.
- JSON (`json.Marshal`, `json.Unmarshal`, `json.NewDecoder`) and `oauth2.Token`: modelled as decoder oracles. The `json.Marshal` failure branch (models/remote_auth.go:49-53) is not modelled, because marshalling a `map[string]string` cannot fail. The token's expiry is not modelled.
- `jwt.ParseUnverified`, `jwt.Parse` (signature and claim checks), `x509.MarshalPKIXPublicKey`, PEM encoding and `jwt.ParseRSAPublicKeyFromPEM`: foreign crypto libraries, kept as oracles.
- `TokenStoreMut` locking (models/remote_auth.go:40-41) and the `time.AfterFunc` five-minute timer (:63-66): concurrency and time. The scheduling is recorded as an `EvictionScheduled` effect, and the removal is the explicit method `RemoteProvider.Evict`. Racing refreshes of the same token and racing key refreshes are not modelled.
- `GetToken` (models/remote_auth.go:87-94): cookie extraction, a thin wrapper over `http.Request.Cookie`.
- Logging. The `logrus.Fatal` process exits (models/remote_auth.go:162, 173, 184) are modelled as error returns: `Base64Error`, `UnsupportedExponent`, and the oracle's error. After the fatal call at :173 the source would return a nil error; the model returns `UnsupportedExponent`.
- `RemoteProvider.DoRequest`: the request is passed by value. The source sets the header on the caller's request object, which keeps the last `Authorization` value after the call. Header names hold a single value.
- `Request`: only a target and headers. The method and body are not modelled. The source's retry resends the same `*http.Request`, and the first `c.Do` has already consumed its body, so a retried request with a body is not faithfully represented.
- `Env.client`: one function per call. A retry that sends the same `Authorization` value (the refreshed token wraps the same access token) gets the first answer again; a real server could answer differently.
- `Base64.Decode`: a failure is `None` (the model's `Base64Error`), without the byte offset that Go's `CorruptInputError` carries.
- `RefreshStore.RefreshAsWritten`: assumes `http.Post` returns a nil response with its error. Go can return a closed non-nil response with an error when a redirect check fails; that case is not modelled.
