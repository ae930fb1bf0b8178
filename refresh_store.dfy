/** The refresh token store of `refreshToken`: a memo from an expired opaque token to the
    one the backend issued in its place. A hit costs no remote call; a miss posts to
    /refresh, installs old -> new and schedules the removal of exactly that entry. */
module RefreshStore {
  import opened Wrappers
  import opened Remote

  /** The result, the new store and the outbound effects of one `refreshToken`. */
  datatype Refresh = Refresh(result: Result<string, Error>, store: map<string, string>, effects: seq<Effect>)

  /** Whether the store answers for `expired`. The source tests `TokenStore[tokenString] != ""`, so an
      entry holding the empty string counts as absent. */
  predicate Cached(store: map<string, string>, expired: string): (b: bool)
    ensures b <==> expired in store && store[expired] != ""
  {
    Field(store, expired) != ""
  }

  /** `refreshToken` with the transport failure of the post returned as an error (the
      source goes on with a nil response instead; see RefreshAsWritten). */
  function RefreshSpec(store: map<string, string>, expired: string, env: Env): (o: Refresh)
    // a hit: the stored value, no remote call, store unchanged
    ensures Cached(store, expired) ==> o == Refresh(Ok(store[expired]), store, [])
    // a miss posts exactly once, for `expired`
    ensures !Cached(store, expired) ==> |o.effects| >= 1 && o.effects[0] == RefreshPosted(expired)
    // a miss fails exactly when the post or the decoding of its response fails, with
    // that error
    ensures !Cached(store, expired) && env.postRefresh(expired).Err? ==>
              o.result == Err(env.postRefresh(expired).error)
    ensures !Cached(store, expired) && env.postRefresh(expired).Ok? &&
            env.decodeStringMap(env.postRefresh(expired).value).Err? ==>
              o.result == Err(env.decodeStringMap(env.postRefresh(expired).value).error)
    ensures !Cached(store, expired) && env.postRefresh(expired).Ok? &&
            env.decodeStringMap(env.postRefresh(expired).value).Ok? ==>
              o.result.Ok?
    // a failure (transport or response decoding) changes nothing in the store
    ensures o.result.Err? ==> o.store == store && o.effects == [RefreshPosted(expired)]
    // a success on a miss installs old -> new, returns that same new, leaves other entries,
    // and schedules the removal of that entry only
    ensures !Cached(store, expired) && o.result.Ok? ==>
              && o.store == store[expired := o.result.value]
              && o.effects == [RefreshPosted(expired), EvictionScheduled(expired)]
    // the new token is the response's "token" member ("" when it has none)
    ensures !Cached(store, expired) && o.result.Ok? ==>
              && env.postRefresh(expired).Ok?
              && env.decodeStringMap(env.postRefresh(expired).value).Ok?
              && o.result.value == Field(env.decodeStringMap(env.postRefresh(expired).value).value, TokenName)
  {
    if Cached(store, expired) then Refresh(Ok(store[expired]), store, [])
    else match env.postRefresh(expired)
      case Err(e) => Refresh(Err(e), store, [RefreshPosted(expired)])
      case Ok(body) =>
        match env.decodeStringMap(body)
        case Err(e) => Refresh(Err(e), store, [RefreshPosted(expired)])
        case Ok(target) =>
          var issued := Field(target, TokenName);
          Refresh(Ok(issued), store[expired := issued], [RefreshPosted(expired), EvictionScheduled(expired)])
  }

  /** The deferred removal: it deletes the entry for `expired` and nothing else. */
  function Evicted(store: map<string, string>, expired: string): (s: map<string, string>)
    ensures expired !in s
    ensures forall k :: k in store && k != expired ==> k in s && s[k] == store[k]
    ensures forall k :: k in s ==> k in store
  {
    store - {expired}
  }

  /** Between a refresh and its eviction, the same expired token is served from the store:
      a second refresh returns the identical token with no remote call, whatever the
      backend would answer now (this is the at-most-one-remote-refresh-per-token rule). */
  lemma SecondRefreshIsServedFromStore(store: map<string, string>, expired: string, env: Env, later: Env)
    requires !Cached(store, expired)
    requires RefreshSpec(store, expired, env).result.Ok?
    requires RefreshSpec(store, expired, env).result.value != ""
    ensures var first := RefreshSpec(store, expired, env);
            RefreshSpec(first.store, expired, later) == Refresh(first.result, first.store, [])
  {
  }

  /** A response without a "token" member is a success that installs "", which the next
      refresh does not treat as cached: it posts again. */
  lemma EmptyTokenIsNotCached(store: map<string, string>, expired: string, env: Env, later: Env)
    requires !Cached(store, expired)
    requires RefreshSpec(store, expired, env).result == Ok("")
    ensures PostCount(RefreshSpec(RefreshSpec(store, expired, env).store, expired, later).effects) == 1
  {
    var s := RefreshSpec(store, expired, env).store;
    assert !Cached(s, expired);
    var e := RefreshSpec(s, expired, later).effects;
    assert e == [RefreshPosted(expired)] || e == [RefreshPosted(expired), EvictionScheduled(expired)];
  }

  /** After the eviction the token is a miss again, and other entries are still served. */
  lemma EvictionForgetsOnlyThatEntry(store: map<string, string>, expired: string, other: string, env: Env)
    requires other != expired && Cached(store, other)
    ensures !Cached(Evicted(store, expired), expired)
    ensures RefreshSpec(Evicted(store, expired), other, env) ==
              Refresh(Ok(store[other]), Evicted(store, expired), [])
  {
  }

  /** A refresh never posts more than once. */
  lemma AtMostOnePost(store: map<string, string>, expired: string, env: Env)
    ensures PostCount(RefreshSpec(store, expired, env).effects) <= 1
  {
    var e := RefreshSpec(store, expired, env).effects;
    assert e == [] || e == [RefreshPosted(expired)] || e == [RefreshPosted(expired), EvictionScheduled(expired)];
  }

  /** `refreshToken` as written: the error of the post is dropped and `r.Body` is read
      from the nil response that accompanies it, so a failed post panics. */
  function RefreshAsWritten(store: map<string, string>, expired: string, env: Env): (o: MayPanic<Refresh>)
    ensures Cached(store, expired) || env.postRefresh(expired).Ok? ==>
              o == Returned(RefreshSpec(store, expired, env))
    ensures !Cached(store, expired) && env.postRefresh(expired).Err? ==> o == Panicked
  {
    if !Cached(store, expired) && env.postRefresh(expired).Err? then Panicked
    else Returned(RefreshSpec(store, expired, env))
  }

  /** The defect: a backend that cannot be reached crashes the written code, while the
      corrected refresh returns the transport error and leaves the store as it was. */
  lemma UnreachableBackendPanics(store: map<string, string>, expired: string, env: Env)
    requires !Cached(store, expired)
    requires env.postRefresh(expired) == Err(TransportError("connection refused"))
    ensures RefreshAsWritten(store, expired, env) == Panicked
    ensures RefreshSpec(store, expired, env) ==
              Refresh(Err(TransportError("connection refused")), store, [RefreshPosted(expired)])
  {
  }
}
