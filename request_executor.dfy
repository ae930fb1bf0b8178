/** `doRequestHelper` and `DoRequest`: send a request with the bearer credential of an
    opaque token (section 2.1 of RFC 6750), and on 401 or 403 refresh the token once and
    retry once. */
module RequestExecutor {
  import opened Wrappers
  import opened Base64
  import opened Remote
  import opened TokenCodec
  import opened RefreshStore

  /** The request with its Authorization header set to the bearer credential; the target
      and every other header stay as they were. */
  function Authorized(req: Request, accessToken: string): (r: Request)
    ensures r.target == req.target
    ensures "Authorization" in r.header && r.header["Authorization"] == "bearer " + accessToken
    ensures forall h :: h != "Authorization" ==> (h in r.header <==> h in req.header)
    ensures forall h :: h != "Authorization" && h in req.header ==> r.header[h] == req.header[h]
  {
    req.(header := req.header["Authorization" := "bearer " + accessToken])
  }

  /** One attempt: the request that went out, if any, and what came back. */
  datatype Attempt = Attempt(sent: Option<Request>, result: Result<Response, Error>)

  /** `doRequestHelper`: a token that does not decode stops everything before a request is
      made; otherwise the authorized request is sent and the client's answer returned. */
  function DoRequestHelper(req: Request, token: string, env: Env): (a: Attempt)
    ensures DecodeTokenData(token, env).Err? ==>
              a == Attempt(None, Err(DecodeTokenData(token, env).error))
    ensures DecodeTokenData(token, env).Ok? ==>
              && a.sent == Some(Authorized(req, DecodeTokenData(token, env).value.accessToken))
              && a.result == env.client(a.sent.value)
  {
    match DecodeTokenData(token, env)
    case Err(e) => Attempt(None, Err(e))
    case Ok(t) =>
      var r := Authorized(req, t.accessToken);
      Attempt(Some(r), env.client(r))
  }

  /** The outbound effect of an attempt: the request it sent, if it sent one. */
  function AttemptEffects(a: Attempt): (es: seq<Effect>)
    ensures a.sent.Some? ==> es == [Sent(a.sent.value)]
    ensures a.sent.None? ==> es == []
  {
    if a.sent.Some? then [Sent(a.sent.value)] else []
  }

  /** The statuses that make `DoRequest` refresh and retry. */
  predicate Unauthorized(resp: Response): (b: bool)
    ensures b <==> resp.status in {401, 403}
  {
    resp.status == 401 || resp.status == 403
  }

  /** The result, the new refresh store and the outbound effects of one `DoRequest`. */
  datatype Execution = Execution(result: Result<Response, Error>, store: map<string, string>, effects: seq<Effect>)

  /** `DoRequest`, with a failed first attempt returned as its error (the source reads the
      status of the nil response instead; see DoRequestAsWritten). */
  function DoRequestSpec(store: map<string, string>, req: Request, token: string, env: Env): (x: Execution)
    // any response but 401/403 (and any failure) of the first attempt is returned as it
    // is, with no refresh and no second request
    ensures var first := DoRequestHelper(req, token, env);
            first.result.Err? || !Unauthorized(first.result.value) ==>
              x == Execution(first.result, store, AttemptEffects(first))
    // on 401/403: exactly one refresh of this token, then exactly one retry with the new
    // token, whose outcome (even another 401/403) is returned as it is
    ensures var first := DoRequestHelper(req, token, env);
            var refresh := RefreshSpec(store, token, env);
            first.result.Ok? && Unauthorized(first.result.value) ==>
              && x.store == refresh.store
              && (refresh.result.Err? ==>
                    x == Execution(Err(refresh.result.error), refresh.store,
                                   AttemptEffects(first) + refresh.effects))
              && (refresh.result.Ok? ==>
                    var second := DoRequestHelper(req, refresh.result.value, env);
                    x == Execution(second.result, refresh.store,
                                   AttemptEffects(first) + refresh.effects + AttemptEffects(second)))
  {
    var first := DoRequestHelper(req, token, env);
    match first.result
    case Err(_) => Execution(first.result, store, AttemptEffects(first))
    case Ok(resp) =>
      if !Unauthorized(resp) then Execution(first.result, store, AttemptEffects(first))
      else
        var refresh := RefreshSpec(store, token, env);
        match refresh.result
        case Err(e) => Execution(Err(e), refresh.store, AttemptEffects(first) + refresh.effects)
        case Ok(issued) =>
          var second := DoRequestHelper(req, issued, env);
          Execution(second.result, refresh.store, AttemptEffects(first) + refresh.effects + AttemptEffects(second))
  }

  /** The hard bounds: one `DoRequest` sends at most two requests and posts at most one
      refresh, and a second request implies the store a refresh produced. */
  lemma BoundedRetry(store: map<string, string>, req: Request, token: string, env: Env)
    ensures var x := DoRequestSpec(store, req, token, env);
            SendCount(x.effects) <= 2 && PostCount(x.effects) <= 1
    ensures var x := DoRequestSpec(store, req, token, env);
            SendCount(x.effects) == 2 ==> x.store == RefreshSpec(store, token, env).store
  {
    var x := DoRequestSpec(store, req, token, env);
    var first := DoRequestHelper(req, token, env);
    var refresh := RefreshSpec(store, token, env);
    AtMostOnePost(store, token, env);
    assert SendCount(refresh.effects) == 0 by {
      var e := refresh.effects;
      assert e == [] || e == [RefreshPosted(token)] || e == [RefreshPosted(token), EvictionScheduled(token)];
    }
    if first.result.Ok? && Unauthorized(first.result.value) && refresh.result.Ok? {
      var second := DoRequestHelper(req, refresh.result.value, env);
      CountsOfConcat(AttemptEffects(first), refresh.effects);
      CountsOfConcat(AttemptEffects(first) + refresh.effects, AttemptEffects(second));
    } else if first.result.Ok? && Unauthorized(first.result.value) {
      CountsOfConcat(AttemptEffects(first), refresh.effects);
    }
  }

  /** The retry carries the replacement token: when the first answer is 401/403 and the
      refresh returns a token that decodes, the last request sent bears that token's
      access token, and its answer is the result. */
  lemma RetryCarriesNewBearer(store: map<string, string>, req: Request, token: string, env: Env)
    requires DoRequestHelper(req, token, env).result.Ok?
    requires Unauthorized(DoRequestHelper(req, token, env).result.value)
    requires RefreshSpec(store, token, env).result.Ok?
    requires DecodeTokenData(RefreshSpec(store, token, env).result.value, env).Ok?
    ensures var x := DoRequestSpec(store, req, token, env);
            var retried := Authorized(req, DecodeTokenData(RefreshSpec(store, token, env).result.value, env).value.accessToken);
            && |x.effects| >= 2
            && x.effects[|x.effects| - 1] == Sent(retried)
            && x.result == env.client(retried)
  {
  }

  /** An expired token refreshed end to end: X decodes to access token "abc", the protected
      resource answers 401, the store has no entry for X, /refresh answers {"token": "Y"},
      and Y decodes to "def". The retry goes out with `bearer def`, its answer is returned,
      and the store now maps X to Y. */
  lemma ExpiredTokenScenario(store: map<string, string>, req: Request, x: string, y: string, body: seq<byte>, env: Env)
    requires DecodeTokenData(x, env).Ok? && DecodeTokenData(x, env).value.accessToken == "abc"
    requires env.client(Authorized(req, "abc")).Ok? && env.client(Authorized(req, "abc")).value.status == 401
    requires !Cached(store, x)
    requires env.postRefresh(x) == Ok(body) && env.decodeStringMap(body) == Ok(map[TokenName := y])
    requires DecodeTokenData(y, env).Ok? && DecodeTokenData(y, env).value.accessToken == "def"
    ensures var run := DoRequestSpec(store, req, x, env);
            && run.effects == [Sent(Authorized(req, "abc")), RefreshPosted(x), EvictionScheduled(x), Sent(Authorized(req, "def"))]
            && Authorized(req, "def").header["Authorization"] == "bearer def"
            && run.result == env.client(Authorized(req, "def"))
            && run.store == store[x := y]
  {
    assert Field(map[TokenName := y], TokenName) == y;
  }

  /** `DoRequest` as written: the status of the first response is read before its error is
      looked at, so a first attempt that failed (no response) panics. */
  function DoRequestAsWritten(store: map<string, string>, req: Request, token: string, env: Env): (o: MayPanic<Execution>)
    // a failed first attempt: the status of the nil response is read
    ensures DoRequestHelper(req, token, env).result.Err? ==> o == Panicked
    // any other first answer but 401/403 is returned as the corrected code returns it
    ensures var first := DoRequestHelper(req, token, env);
            first.result.Ok? && !Unauthorized(first.result.value) ==>
              o == Returned(DoRequestSpec(store, req, token, env))
    // on 401/403 the refresh as written runs: its panic is the request's panic, and
    // otherwise the retry goes as in the corrected code
    ensures var first := DoRequestHelper(req, token, env);
            first.result.Ok? && Unauthorized(first.result.value) ==>
              && (RefreshAsWritten(store, token, env).Panicked? ==> o == Panicked)
              && (RefreshAsWritten(store, token, env).Returned? ==>
                    o == Returned(DoRequestSpec(store, req, token, env)))
  {
    var first := DoRequestHelper(req, token, env);
    match first.result
    case Err(_) => Panicked
    case Ok(resp) =>
      if !Unauthorized(resp) then Returned(DoRequestSpec(store, req, token, env))
      else
        match RefreshAsWritten(store, token, env)
        case Panicked => Panicked
        case Returned(_) => Returned(DoRequestSpec(store, req, token, env))
  }

  /** The defect shown on a token that is not base64: the written code dereferences the
      nil response, the corrected one returns the decoding error and sends nothing. */
  lemma UndecodableTokenPanics(store: map<string, string>, req: Request, env: Env)
    ensures DoRequestAsWritten(store, req, "!", env) == Panicked
    ensures DoRequestSpec(store, req, "!", env) == Execution(Err(Base64Error), store, [])
  {
    assert WithoutNewlines("!") == "!";
  }
}
