/** The values the remote provider works on, the collaborators it calls (HTTP, JSON, JWT,
    x509/PEM) as an oracle bundle, and the outbound effects the model records. */
module Remote {
  import opened Wrappers
  import opened Base64

  /** The failures the provider returns. Oracles return their own errors, which the
      provider passes on unchanged. */
  datatype Error =
    | Base64Error                  // illegal base64 data in an opaque token or in a key's "n"
    | JsonError(detail: string)    // a JSON decoder failed
    | TransportError(detail: string) // an HTTP call or the read of its body failed
    | KeyNotFound                  // "Key not found": the kid is absent even after a key refresh
    | UnsupportedExponent(e: string) // a key's "e" is not one of the two accepted encodings
    | KeyEncodingError(detail: string) // x509/PEM encoding or parsing of the public key failed
    | JwtError(detail: string)     // parsing or verifying the JWT failed
    | KidNotString                 // the unverified token header has no string "kid"
    | ClaimsNotMap                 // "Error parsing claims": verified claims are not a claims map

  /** The JSON field that carries an opaque token in the refresh request and response
      bodies; `tokenName` is declared in another file of the package. */
  const TokenName: string := "token"

  /** A JSON Web Key (RFC 7517) as the provider holds it: string members only. */
  type JWK = map<string, string>

  /** Go's `m[k]` on a string map: the empty string when `k` is absent. */
  function Field(m: map<string, string>, k: string): (v: string)
    ensures k in m ==> v == m[k]
    ensures k !in m ==> v == ""
  {
    if k in m then m[k] else ""
  }

  /** The decoded opaque token: the fields of an OAuth2 token that the core reads or keeps.
      The expiry is not modelled. */
  datatype Token = Token(accessToken: string, tokenType: string, refreshToken: string)

  /** An outbound request: where it goes and its headers, one value per header name. */
  datatype Request = Request(target: string, header: map<string, string>)

  datatype Response = Response(status: int, body: seq<byte>)

  /** A JSON value seen through an `interface{}`: a string, or anything else. */
  datatype JsonValue = JString(s: string) | JOther

  type Claims = map<string, JsonValue>

  /** The claims of a verified JWT: a `jwt.MapClaims`, or some other claims type. */
  datatype ClaimsValue = MapClaims(claims: Claims) | OtherClaims

  /** An RSA public key: modulus and public exponent. */
  datatype RsaPublicKey = RsaPublicKey(n: nat, e: nat)

  /** The collaborators, answering for one call of a provider operation. */
  datatype Env = Env(
    // `http.Client.Do` on the given request
    client: Request -> Result<Response, Error>,
    // `http.Post` of `{"token": old}` to /refresh: the response body, or the transport error
    postRefresh: string -> Result<seq<byte>, Error>,
    // `http.Get` of /keys followed by reading the body
    getKeys: Result<seq<byte>, Error>,
    // `json.Unmarshal` into an `oauth2.Token`
    unmarshalToken: seq<byte> -> Result<Token, Error>,
    // a JSON decoder into a `map[string]string`
    decodeStringMap: seq<byte> -> Result<map<string, string>, Error>,
    // `json.Unmarshal` into `map[string][]map[string]string`, whatever it managed to fill
    unmarshalKeySet: seq<byte> -> map<string, seq<JWK>>,
    // `jwt.Parser.ParseUnverified`: the token header
    parseUnverified: string -> Result<map<string, JsonValue>, Error>,
    // `x509.MarshalPKIXPublicKey`, PEM encoding and `jwt.ParseRSAPublicKeyFromPEM`
    pemRoundTrip: RsaPublicKey -> Result<RsaPublicKey, Error>,
    // `jwt.Parse` with a key function that returns the given key
    parseVerified: (string, RsaPublicKey) -> Result<ClaimsValue, Error>
  )

  /** An outbound action of the provider, in the order it happens. */
  datatype Effect =
    | Sent(request: Request)             // an authenticated request goes out
    | RefreshPosted(token: string)       // POST /refresh for this opaque token
    | KeysFetched                        // GET /keys
    | EvictionScheduled(token: string)   // the five-minute removal of this store entry is scheduled

  /** How many requests an effect list sends. */
  function SendCount(es: seq<Effect>): (n: nat)
    ensures n <= |es|
  {
    if es == [] then 0 else (if es[0].Sent? then 1 else 0) + SendCount(es[1..])
  }

  /** How many refresh posts an effect list makes. */
  function PostCount(es: seq<Effect>): (n: nat)
    ensures n <= |es|
  {
    if es == [] then 0 else (if es[0].RefreshPosted? then 1 else 0) + PostCount(es[1..])
  }

  lemma {:induction false} CountsOfConcat(xs: seq<Effect>, ys: seq<Effect>)
    ensures SendCount(xs + ys) == SendCount(xs) + SendCount(ys)
    ensures PostCount(xs + ys) == PostCount(xs) + PostCount(ys)
  {
    if xs == [] {
      assert xs + ys == ys;
    } else {
      assert (xs + ys)[1..] == xs[1..] + ys;
      CountsOfConcat(xs[1..], ys);
    }
  }
}
