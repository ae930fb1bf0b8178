/** The JWKS cache rules of `UpdateJWKs` and `GetJWK`: the cached key list is replaced
    wholesale by a fetch, and a lookup by key id (section 4.5 of RFC 7517) that misses
    refreshes once and looks again. */
module JwksCache {
  import opened Wrappers
  import opened Remote

  /** Whether a cached key answers to `kid`. Go compares `key["kid"]`, which is "" for a
      key without a "kid", so the empty kid matches such keys. */
  predicate HasKid(key: JWK, kid: string): (b: bool)
    ensures b <==> ("kid" in key && key["kid"] == kid) || ("kid" !in key && kid == "")
  {
    Field(key, "kid") == kid
  }

  /** The position of the first key answering to `kid`, scanning from the front. */
  function FindByKid(keys: seq<JWK>, kid: string): (r: Option<nat>)
    ensures r.Some? ==> r.value < |keys| && HasKid(keys[r.value], kid)
    ensures r.Some? ==> forall j :: 0 <= j < r.value ==> !HasKid(keys[j], kid)
    ensures r.None? <==> forall j :: 0 <= j < |keys| ==> !HasKid(keys[j], kid)
    decreases |keys|
  {
    if keys == [] then None
    else if HasKid(keys[0], kid) then Some(0)
    else match FindByKid(keys[1..], kid)
      case None => None
      case Some(i) => Some(i + 1)
  }

  /** What the decoded body puts in the cache: its "keys" list, or nothing at all when
      the decoder left no such member (a nil slice in the source). */
  function KeysOf(body: map<string, seq<JWK>>): (keys: seq<JWK>)
    ensures "keys" in body ==> keys == body["keys"]
    ensures "keys" !in body ==> keys == []
  {
    if "keys" in body then body["keys"] else []
  }

  /** The result and the new cache of one `UpdateJWKs`. */
  datatype Update = Update(error: Option<Error>, keys: seq<JWK>)

  /** A fetch or read failure is returned and leaves the cache as it was; otherwise the
      decoder's best effort replaces the cache, and a decoding failure is not reported. */
  function UpdateJwksSpec(keys: seq<JWK>, env: Env): (u: Update)
    ensures env.getKeys.Err? ==> u == Update(Some(env.getKeys.error), keys)
    ensures env.getKeys.Ok? ==> u == Update(None, KeysOf(env.unmarshalKeySet(env.getKeys.value)))
  {
    match env.getKeys
    case Err(e) => Update(Some(e), keys)
    case Ok(body) => Update(None, KeysOf(env.unmarshalKeySet(body)))
  }

  /** A successful refresh replaces the cache wholesale: what was cached before has no
      influence on what is cached after. */
  lemma RefreshReplacesNotMerges(keys: seq<JWK>, other: seq<JWK>, env: Env)
    requires env.getKeys.Ok?
    ensures UpdateJwksSpec(keys, env) == UpdateJwksSpec(other, env)
  {
  }

  /** Refreshing twice against the same answer is refreshing once (last write wins). */
  lemma RefreshIdempotent(keys: seq<JWK>, env: Env)
    ensures UpdateJwksSpec(UpdateJwksSpec(keys, env).keys, env) == UpdateJwksSpec(keys, env)
  {
  }

  /** The result, the new cache and the outbound effects of one `GetJWK`. */
  datatype Lookup = Lookup(result: Result<JWK, Error>, keys: seq<JWK>, effects: seq<Effect>)

  function GetJwkSpec(keys: seq<JWK>, kid: string, env: Env): (o: Lookup)
    // a hit returns the first matching key, fetches nothing and keeps the cache
    ensures FindByKid(keys, kid).Some? ==>
              o == Lookup(Ok(keys[FindByKid(keys, kid).value]), keys, [])
    // a miss fetches exactly once
    ensures FindByKid(keys, kid).None? ==> o.effects == [KeysFetched]
    // a failed refresh: its error, cache untouched
    ensures FindByKid(keys, kid).None? && env.getKeys.Err? ==>
              o.result == Err(env.getKeys.error) && o.keys == keys
    // a refresh that went through: the refreshed cache is kept and searched again
    ensures FindByKid(keys, kid).None? && env.getKeys.Ok? ==>
              && o.keys == UpdateJwksSpec(keys, env).keys
              && (FindByKid(o.keys, kid).Some? ==> o.result == Ok(o.keys[FindByKid(o.keys, kid).value]))
              && (FindByKid(o.keys, kid).None? ==> o.result == Err(KeyNotFound))
    // whatever is returned answers to the kid
    ensures o.result.Ok? ==> HasKid(o.result.value, kid)
  {
    match FindByKid(keys, kid)
    case Some(i) => Lookup(Ok(keys[i]), keys, [])
    case None =>
      var u := UpdateJwksSpec(keys, env);
      if u.error.Some? then Lookup(Err(u.error.value), keys, [KeysFetched])
      else match FindByKid(u.keys, kid)
        case Some(j) => Lookup(Ok(u.keys[j]), u.keys, [KeysFetched])
        case None => Lookup(Err(KeyNotFound), u.keys, [KeysFetched])
  }

  /** A lookup succeeds exactly when the kid is cached, or the refresh went through and the
      refreshed list has it; after a refresh that went through it fails with "Key not
      found" exactly when neither list has it. */
  lemma GetJwkSucceedsIff(keys: seq<JWK>, kid: string, env: Env)
    ensures GetJwkSpec(keys, kid, env).result.Ok? <==>
              (exists j :: 0 <= j < |keys| && HasKid(keys[j], kid)) ||
              (env.getKeys.Ok? && exists j :: 0 <= j < |UpdateJwksSpec(keys, env).keys| && HasKid(UpdateJwksSpec(keys, env).keys[j], kid))
    ensures env.getKeys.Ok? ==>
              (GetJwkSpec(keys, kid, env).result == Err(KeyNotFound) <==>
               (forall j :: 0 <= j < |keys| ==> !HasKid(keys[j], kid)) &&
               (forall j :: 0 <= j < |UpdateJwksSpec(keys, env).keys| ==> !HasKid(UpdateJwksSpec(keys, env).keys[j], kid)))
  {
  }

  /** The cache keeps what a refresh brought in: once a lookup that refreshed has found a
      key, looking the same kid up again is a hit that returns the same key and fetches
      nothing, whatever the backend would answer now. */
  lemma RefreshedKeyIsCached(keys: seq<JWK>, kid: string, env: Env, later: Env)
    requires GetJwkSpec(keys, kid, env).result.Ok?
    ensures var o := GetJwkSpec(keys, kid, env);
            GetJwkSpec(o.keys, kid, later) == Lookup(o.result, o.keys, [])
  {
    var o := GetJwkSpec(keys, kid, env);
    if FindByKid(keys, kid).None? {
      assert FindByKid(o.keys, kid).Some?;
    }
  }

  /** A kid the fetched set lacks costs one fetch and then "Key not found", and the cache
      is the fetched set: the caller is never handed some other key. */
  lemma AbsentKidAfterRefresh(keys: seq<JWK>, kid: string, env: Env)
    requires forall j :: 0 <= j < |keys| ==> !HasKid(keys[j], kid)
    requires env.getKeys.Ok?
    requires forall j :: 0 <= j < |KeysOf(env.unmarshalKeySet(env.getKeys.value))| ==>
               !HasKid(KeysOf(env.unmarshalKeySet(env.getKeys.value))[j], kid)
    ensures GetJwkSpec(keys, kid, env) ==
              Lookup(Err(KeyNotFound), KeysOf(env.unmarshalKeySet(env.getKeys.value)), [KeysFetched])
  {
  }

  /** A body the decoder can make nothing of still counts as a successful refresh: the
      cache ends up empty and the lookup reports "Key not found", not the decoding error. */
  lemma UndecodableBodyEmptiesCache(keys: seq<JWK>, kid: string, env: Env)
    requires FindByKid(keys, kid).None?
    requires env.getKeys.Ok? && env.unmarshalKeySet(env.getKeys.value) == map[]
    ensures GetJwkSpec(keys, kid, env) == Lookup(Err(KeyNotFound), [], [KeysFetched])
  {
  }
}
