/** `VerifyToken`: decode the opaque token, parse its JWT without verifying to read the
    key id, look the key up in the JWKS cache, build the RSA key, verify the JWT with it,
    and return its claims map. The first stage that fails ends the pipeline. */
module TokenVerifier {
  import opened Wrappers
  import opened Remote
  import opened TokenCodec
  import opened KeyBuilder
  import opened JwksCache

  datatype Stage = DecodeStage | ParseStage | KidStage | LookupStage | BuildStage | VerifyStage | ClaimsStage

  /** The stages in the order the source runs them. */
  const Pipeline: seq<Stage> :=
    [DecodeStage, ParseStage, KidStage, LookupStage, BuildStage, VerifyStage, ClaimsStage]

  /** A stage that ran, and whether it passed or with which error it failed. */
  datatype StageRun = Passed(stage: Stage) | Failed(stage: Stage, error: Error)

  /** The first `n` stages, all passed. */
  function PassedUpTo(n: nat): (t: seq<StageRun>)
    requires n <= |Pipeline|
    ensures |t| == n
    ensures forall i :: 0 <= i < n ==> t[i] == Passed(Pipeline[i])
  {
    seq(n, i requires 0 <= i < n => Passed(Pipeline[i]))
  }

  /** The first `n` stages passed and stage `n` failed with `e`. */
  function FailedAt(n: nat, e: Error): (t: seq<StageRun>)
    requires n < |Pipeline|
    ensures |t| == n + 1 && t[n] == Failed(Pipeline[n], e)
    ensures forall i :: 0 <= i < n ==> t[i] == Passed(Pipeline[i])
  {
    PassedUpTo(n) + [Failed(Pipeline[n], e)]
  }

  /** The key id of the unverified header: the `.(string)` assertion on `Header["kid"]`,
      which fails when the member is absent or not a string. */
  function KidOf(header: map<string, JsonValue>): (r: Result<string, Error>)
    ensures r.Ok? <==> "kid" in header && header["kid"].JString?
    ensures r.Ok? ==> r.value == header["kid"].s
    ensures r.Err? ==> r.error == KidNotString
  {
    if "kid" in header && header["kid"].JString? then Ok(header["kid"].s) else Err(KidNotString)
  }

  /** The `.(jwt.MapClaims)` assertion on the verified token's claims. */
  function ClaimsOf(v: ClaimsValue): (r: Result<Claims, Error>)
    ensures r.Ok? <==> v.MapClaims?
    ensures r.Ok? ==> r.value == v.claims
    ensures r.Err? ==> r.error == ClaimsNotMap
  {
    match v
    case MapClaims(c) => Ok(c)
    case OtherClaims => Err(ClaimsNotMap)
  }

  /** The result, the new key cache, the outbound effects and the stages run by one
      `VerifyToken`. */
  datatype Verification = Verification(result: Result<Claims, Error>, keys: seq<JWK>, effects: seq<Effect>, trace: seq<StageRun>)

  function VerifyTokenSpec(keys: seq<JWK>, token: string, env: Env): (v: Verification)
    // the stages run are a prefix of the pipeline, in its order
    ensures 1 <= |v.trace| <= |Pipeline|
    ensures forall i :: 0 <= i < |v.trace| ==> v.trace[i].stage == Pipeline[i]
    // every stage but the last one run passed: the first failure stops the pipeline
    ensures forall i :: 0 <= i < |v.trace| - 1 ==> v.trace[i].Passed?
    // success means that all stages ran and passed; a failure returns the error of the
    // stage that failed
    ensures v.result.Ok? <==> v.trace == PassedUpTo(|Pipeline|)
    ensures v.result.Err? ==> v.trace[|v.trace| - 1] == Failed(Pipeline[|v.trace| - 1], v.result.error)
    // no key is fetched and the cache is untouched unless the lookup stage ran
    ensures |v.trace| <= 3 ==> v.keys == keys && v.effects == []
    // stage by stage: each failure before the lookup returns that stage's error with the
    // cache untouched and nothing fetched; from the lookup on, a failure returns that
    // stage's error, and success the claims, with the cache and the fetches the lookup
    // left behind
    ensures var d := DecodeTokenData(token, env);
            d.Err? ==> v == Verification(Err(d.error), keys, [], FailedAt(0, d.error))
    ensures var d := DecodeTokenData(token, env);
            d.Ok? ==>
              var h := env.parseUnverified(d.value.accessToken);
              h.Err? ==> v == Verification(Err(h.error), keys, [], FailedAt(1, h.error))
    ensures var d := DecodeTokenData(token, env);
            d.Ok? ==>
              var h := env.parseUnverified(d.value.accessToken);
              h.Ok? && KidOf(h.value).Err? ==>
                v == Verification(Err(KidNotString), keys, [], FailedAt(2, KidNotString))
    ensures var d := DecodeTokenData(token, env);
            d.Ok? ==>
              var h := env.parseUnverified(d.value.accessToken);
              h.Ok? && KidOf(h.value).Ok? ==>
                var lookup := GetJwkSpec(keys, KidOf(h.value).value, env);
                && (lookup.result.Err? ==>
                      v == Verification(Err(lookup.result.error), lookup.keys, lookup.effects,
                                        FailedAt(3, lookup.result.error)))
                && (lookup.result.Ok? && GenerateKey(lookup.result.value, env).Err? ==>
                      var e := GenerateKey(lookup.result.value, env).error;
                      v == Verification(Err(e), lookup.keys, lookup.effects, FailedAt(4, e)))
                && (lookup.result.Ok? && GenerateKey(lookup.result.value, env).Ok? ==>
                      var p := env.parseVerified(d.value.accessToken, GenerateKey(lookup.result.value, env).value);
                      && (p.Err? ==>
                            v == Verification(Err(p.error), lookup.keys, lookup.effects, FailedAt(5, p.error)))
                      && (p.Ok? && ClaimsOf(p.value).Err? ==>
                            v == Verification(Err(ClaimsNotMap), lookup.keys, lookup.effects,
                                              FailedAt(6, ClaimsNotMap)))
                      && (p.Ok? && ClaimsOf(p.value).Ok? ==>
                            v == Verification(Ok(ClaimsOf(p.value).value), lookup.keys, lookup.effects,
                                              PassedUpTo(7))))
  {
    match DecodeTokenData(token, env)
    case Err(e) => Verification(Err(e), keys, [], FailedAt(0, e))
    case Ok(t) =>
      match env.parseUnverified(t.accessToken)
      case Err(e) => Verification(Err(e), keys, [], FailedAt(1, e))
      case Ok(header) =>
        match KidOf(header)
        case Err(e) => Verification(Err(e), keys, [], FailedAt(2, e))
        case Ok(kid) =>
          var lookup := GetJwkSpec(keys, kid, env);
          match lookup.result
          case Err(e) => Verification(Err(e), lookup.keys, lookup.effects, FailedAt(3, e))
          case Ok(jwk) =>
            match GenerateKey(jwk, env)
            case Err(e) => Verification(Err(e), lookup.keys, lookup.effects, FailedAt(4, e))
            case Ok(key) =>
              match env.parseVerified(t.accessToken, key)
              case Err(e) => Verification(Err(e), lookup.keys, lookup.effects, FailedAt(5, e))
              case Ok(verified) =>
                match ClaimsOf(verified)
                case Err(e) => Verification(Err(e), lookup.keys, lookup.effects, FailedAt(6, e))
                case Ok(claims) => Verification(Ok(claims), lookup.keys, lookup.effects, PassedUpTo(7))
  }

  /** The key handed to verification is the one built from the JWK that the cache returns
      for the header's kid, and the verification of the access token with that key decides
      the result. */
  lemma VerifiedWithLookedUpKey(keys: seq<JWK>, token: string, env: Env,
                                t: Token, header: map<string, JsonValue>, kid: string, jwk: JWK, key: RsaPublicKey)
    requires DecodeTokenData(token, env) == Ok(t)
    requires env.parseUnverified(t.accessToken) == Ok(header)
    requires KidOf(header) == Ok(kid)
    requires GetJwkSpec(keys, kid, env).result == Ok(jwk)
    requires GenerateKey(jwk, env) == Ok(key)
    ensures var v := VerifyTokenSpec(keys, token, env);
            && v.keys == GetJwkSpec(keys, kid, env).keys
            && v.effects == GetJwkSpec(keys, kid, env).effects
            && v.result == (match env.parseVerified(t.accessToken, key)
                            case Err(e) => Err(e)
                            case Ok(verified) => ClaimsOf(verified))
  {
  }

  /** Conversely, claims are returned only when every stage produced its value, and they
      are the claims of the access token verified with the key built from the JWK found
      for that token's kid. */
  lemma ClaimsComeFromLookedUpKey(keys: seq<JWK>, token: string, env: Env)
    requires VerifyTokenSpec(keys, token, env).result.Ok?
    ensures DecodeTokenData(token, env).Ok?
    ensures var access := DecodeTokenData(token, env).value.accessToken;
            && env.parseUnverified(access).Ok?
            && KidOf(env.parseUnverified(access).value).Ok?
            && var kid := KidOf(env.parseUnverified(access).value).value;
               && GetJwkSpec(keys, kid, env).result.Ok?
               && HasKid(GetJwkSpec(keys, kid, env).result.value, kid)
               && GenerateKey(GetJwkSpec(keys, kid, env).result.value, env).Ok?
               && env.parseVerified(access, GenerateKey(GetJwkSpec(keys, kid, env).result.value, env).value)
                    == Ok(MapClaims(VerifyTokenSpec(keys, token, env).result.value))
  {
  }

  /** `VerifyToken` as written: the `.(string)` assertion without a second result panics on
      a header whose "kid" is absent or not a string. */
  function VerifyAsWritten(keys: seq<JWK>, token: string, env: Env): (o: MayPanic<Verification>)
    ensures VerifyTokenSpec(keys, token, env).trace == FailedAt(2, KidNotString) ==> o == Panicked
    ensures VerifyTokenSpec(keys, token, env).trace != FailedAt(2, KidNotString) ==>
              o == Returned(VerifyTokenSpec(keys, token, env))
  {
    var v := VerifyTokenSpec(keys, token, env);
    if v.trace == FailedAt(2, KidNotString) then Panicked else Returned(v)
  }

  /** The defect shown on a token whose header has no "kid": the written code panics, the
      corrected pipeline stops at the kid stage with an error and fetches no keys. */
  lemma MissingKidPanics(keys: seq<JWK>, token: string, env: Env, t: Token)
    requires DecodeTokenData(token, env) == Ok(t)
    requires env.parseUnverified(t.accessToken) == Ok(map["alg" := JString("RS256")])
    ensures VerifyAsWritten(keys, token, env) == Panicked
    ensures VerifyTokenSpec(keys, token, env) == Verification(Err(KidNotString), keys, [], FailedAt(2, KidNotString))
  {
  }
}
