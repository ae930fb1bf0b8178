/** The provider object of models/remote_auth.go: the key cache `Keys` and the refresh
    token store `TokenStore` are fields that its methods update in place. Each method is
    proved against the specification function of its component; the ghost `Effects`
    log records the outbound calls in order. */
module RemoteAuth {
  import opened Wrappers
  import opened Remote
  import opened TokenCodec
  import opened KeyBuilder
  import opened JwksCache
  import opened RefreshStore
  import opened RequestExecutor
  import opened TokenVerifier

  class RemoteProvider {
    var Keys: seq<JWK>
    var TokenStore: map<string, string>
    ghost var Effects: seq<Effect>

    constructor ()
      ensures Keys == [] && TokenStore == map[] && Effects == []
    {
      Keys := [];
      TokenStore := map[];
      Effects := [];
    }

    /** `UpdateJWKs`: one GET of /keys; its failure is returned with the cache untouched,
        otherwise the cache becomes the fetched list. */
    method UpdateJWKs(env: Env) returns (err: Option<Error>)
      modifies this
      ensures var u := UpdateJwksSpec(old(Keys), env); err == u.error && Keys == u.keys
      ensures Effects == old(Effects) + [KeysFetched]
      ensures TokenStore == old(TokenStore)
    {
      Effects := Effects + [KeysFetched];
      match env.getKeys
      case Err(e) =>
        return Some(e);
      case Ok(body) =>
        var parsed := env.unmarshalKeySet(body);
        Keys := KeysOf(parsed);
        return None;
    }

    /** `GetJWK`: scan the cache; on a miss refresh once and scan the refreshed cache. */
    method GetJWK(kid: string, env: Env) returns (r: Result<JWK, Error>)
      modifies this
      ensures var o := GetJwkSpec(old(Keys), kid, env);
              r == o.result && Keys == o.keys && Effects == old(Effects) + o.effects
      ensures TokenStore == old(TokenStore)
    {
      for i := 0 to |Keys|
        invariant forall j :: 0 <= j < i ==> !HasKid(Keys[j], kid)
      {
        if Field(Keys[i], "kid") == kid {
          return Ok(Keys[i]);
        }
      }
      var err := UpdateJWKs(env);
      if err.Some? {
        return Err(err.value);
      }
      for i := 0 to |Keys|
        invariant forall j :: 0 <= j < i ==> !HasKid(Keys[j], kid)
      {
        if Field(Keys[i], "kid") == kid {
          return Ok(Keys[i]);
        }
      }
      return Err(KeyNotFound);
    }

    /** `refreshToken`: served from the store when it holds a token for `tokenString`;
        otherwise one post to /refresh, whose new token is stored and returned. */
    method RefreshToken(tokenString: string, env: Env) returns (r: Result<string, Error>)
      modifies this
      ensures var o := RefreshSpec(old(TokenStore), tokenString, env);
              r == o.result && TokenStore == o.store && Effects == old(Effects) + o.effects
      ensures Keys == old(Keys)
    {
      var cached := Field(TokenStore, tokenString);
      if cached != "" {
        return Ok(cached);
      }
      var posted := env.postRefresh(tokenString);
      Effects := Effects + [RefreshPosted(tokenString)];
      if posted.Err? {
        return Err(posted.error);
      }
      var target := env.decodeStringMap(posted.value);
      if target.Err? {
        return Err(target.error);
      }
      var issued := Field(target.value, TokenName);
      TokenStore := TokenStore[tokenString := issued];
      Effects := Effects + [EvictionScheduled(tokenString)];
      return Ok(issued);
    }

    /** The deferred removal that `refreshToken` schedules, run when it falls due. */
    method Evict(tokenString: string)
      modifies this`TokenStore
      ensures TokenStore == Evicted(old(TokenStore), tokenString)
    {
      TokenStore := TokenStore - {tokenString};
    }

    /** `DoRequest`: one attempt; on 401 or 403 one refresh and one retry. */
    method DoRequest(req: Request, tokenString: string, env: Env) returns (r: Result<Response, Error>)
      modifies this
      ensures var x := DoRequestSpec(old(TokenStore), req, tokenString, env);
              r == x.result && TokenStore == x.store && Effects == old(Effects) + x.effects
      ensures Keys == old(Keys)
    {
      var first := DoRequestHelper(req, tokenString, env);
      Effects := Effects + AttemptEffects(first);
      if first.result.Err? || !Unauthorized(first.result.value) {
        return first.result;
      }
      var issued := RefreshToken(tokenString, env);
      if issued.Err? {
        return Err(issued.error);
      }
      var second := DoRequestHelper(req, issued.value, env);
      Effects := Effects + AttemptEffects(second);
      return second.result;
    }

    /** `VerifyToken`: decode, parse unverified, read the kid, look the key up, build it,
        verify, and cast the claims, stopping at the first failure. */
    method VerifyToken(tokenString: string, env: Env) returns (r: Result<Claims, Error>)
      modifies this
      ensures var v := VerifyTokenSpec(old(Keys), tokenString, env);
              r == v.result && Keys == v.keys && Effects == old(Effects) + v.effects
      ensures TokenStore == old(TokenStore)
    {
      var decoded := DecodeTokenData(tokenString, env);
      if decoded.Err? {
        return Err(decoded.error);
      }
      var accessToken := decoded.value.accessToken;
      var header := env.parseUnverified(accessToken);
      if header.Err? {
        return Err(header.error);
      }
      var kid := KidOf(header.value);
      if kid.Err? {
        return Err(kid.error);
      }
      var jwk := GetJWK(kid.value, env);
      if jwk.Err? {
        return Err(jwk.error);
      }
      var key := GenerateKey(jwk.value, env);
      if key.Err? {
        return Err(key.error);
      }
      var verified := env.parseVerified(accessToken, key.value);
      if verified.Err? {
        return Err(verified.error);
      }
      r := ClaimsOf(verified.value);
    }
  }

  /** Two refreshes of the same expired token on one provider, the second against any
      backend: both return the same token, and only the first posts to /refresh. */
  method RefreshTwice(p: RemoteProvider, tokenString: string, env: Env, later: Env)
      returns (first: Result<string, Error>, second: Result<string, Error>)
    requires !Cached(p.TokenStore, tokenString)
    requires RefreshSpec(p.TokenStore, tokenString, env).result.Ok?
    requires RefreshSpec(p.TokenStore, tokenString, env).result.value != ""
    modifies p
    ensures first == second && first.Ok?
    ensures p.Effects == old(p.Effects) + [RefreshPosted(tokenString), EvictionScheduled(tokenString)]
  {
    ghost var before := p.TokenStore;
    first := p.RefreshToken(tokenString, env);
    SecondRefreshIsServedFromStore(before, tokenString, env, later);
    second := p.RefreshToken(tokenString, later);
  }
}
