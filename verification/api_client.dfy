/** The session gateway of src/api/client.ts: the in-memory token and company
    store, the request decorator of `apiClient`, and its 401 response
    interceptor with single-flight refresh and a queue of waiting requests.

    The JavaScript event loop runs each interceptor step to completion, so the
    gateway is a state machine: a 401 reaching the interceptor is one event,
    and the outcome of the refresh call it starts is a later event. */
module ApiClient {
  import opened Base
  import opened Text
  import opened RefreshQueue

  /** The module-level state of src/api/client.ts. `initiator` is the request
      whose interceptor call is suspended at `await authClient.post(...)`. */
  datatype Gateway = Gateway(
    token: Option<string>,
    companyId: Option<string>,
    isRefreshing: bool,
    queue: seq<Request>,
    initiator: Option<Request>)

  /** Process start: no token, no company, no refresh. */
  const Initial := Gateway(None, None, false, [], None)

  /** The gateway's invariant: a refresh is in flight exactly when some request
      awaits it, nothing waits while no refresh is in flight, and every request
      the interceptor holds already carries its `_retry` mark. */
  predicate Valid(g: Gateway) {
    && (g.isRefreshing <==> g.initiator.Some?)
    && (!g.isRefreshing ==> g.queue == [])
    && (g.initiator.Some? ==> g.initiator.value.retried)
    && (forall i :: 0 <= i < |g.queue| ==> g.queue[i].retried)
  }

  /** `setToken(token)`: replaces the token and nothing else. */
  function SetToken(g: Gateway, token: Option<string>): (r: Gateway)
    ensures r.token == token
    ensures r.(token := g.token) == g
  {
    g.(token := token)
  }

  /** `setCompanyId(id)`: replaces the company and nothing else. */
  function SetCompanyId(g: Gateway, id: Option<string>): (r: Gateway)
    ensures r.companyId == id
    ensures r.(companyId := g.companyId) == g
  {
    g.(companyId := id)
  }

  /** The request interceptor: a truthy token becomes `Authorization: Bearer
      <token>`, a truthy company becomes `x-company-id`; a falsy one leaves the
      header as it was; no other header changes. */
  function Decorate(g: Gateway, req: Request): (r: Request)
    ensures r.url == req.url && r.retried == req.retried
    ensures Truthy(g.token) ==>
              AuthorizationHeader in r.headers && r.headers[AuthorizationHeader] == Bearer(g.token.value)
    ensures Truthy(g.companyId) ==>
              CompanyHeader in r.headers && r.headers[CompanyHeader] == g.companyId.value
    ensures forall k :: (k == AuthorizationHeader ==> !Truthy(g.token)) && (k == CompanyHeader ==> !Truthy(g.companyId)) ==>
              (k in r.headers <==> k in req.headers) && (k in req.headers ==> r.headers[k] == req.headers[k])
  {
    var withToken := if Truthy(g.token) then req.headers[AuthorizationHeader := Bearer(g.token.value)] else req.headers;
    var withCompany := if Truthy(g.companyId) then withToken[CompanyHeader := g.companyId.value] else withToken;
    req.(headers := withCompany)
  }

  /** Decorating twice adds nothing to decorating once. */
  lemma DecorateIdempotent(g: Gateway, req: Request)
    ensures Decorate(g, Decorate(g, req)) == Decorate(g, req)
  {
    var once := Decorate(g, req);
    assert Decorate(g, once).headers == once.headers;
  }

  /** Setting a token and sending a fresh request yields `Bearer <token>`;
      setting no token sends no `Authorization` header at all. */
  lemma SetTokenThenDecorate(g: Gateway, token: Option<string>, url: string, headers: Headers)
    requires AuthorizationHeader !in headers
    ensures Truthy(token) ==>
              Decorate(SetToken(g, token), Request(url, headers, false)).headers[AuthorizationHeader] == Bearer(token.value)
    ensures token.None? ==> AuthorizationHeader !in Decorate(SetToken(g, token), Request(url, headers, false)).headers
  {
  }

  /** The three endpoint fragments the interceptor refuses to handle. */
  predicate IsAuthUrl(url: string) {
    Contains(url, "/auth/refresh") || Contains(url, "/auth/login") || Contains(url, "/auth/logout")
  }

  /** What the interceptor does with a rejected request: reject it unchanged,
      park it on the queue, or become the request that performs the refresh. */
  datatype Reaction = PassedThrough | Queued | RefreshStarted

  datatype Step = Step(gateway: Gateway, reaction: Reaction)

  /** Whether the interceptor handles the error at all: a 401 on a request
      not yet retried and not aimed at an auth endpoint. */
  predicate Intercepted(e: HttpError) {
    e.status == Some(401) && !e.config.retried && !IsAuthUrl(e.config.url)
  }

  /** The synchronous part of the 401 response interceptor, up to its first
      suspension point. */
  function OnResponseError(g: Gateway, e: HttpError): (s: Step)
    ensures s.reaction.PassedThrough? <==> !Intercepted(e)
    ensures s.reaction.PassedThrough? ==> s.gateway == g
    ensures s.reaction.Queued? <==> Intercepted(e) && g.isRefreshing
    ensures s.reaction.Queued? ==> s.gateway == g.(queue := g.queue + [e.config.(retried := true)])
    ensures s.reaction.RefreshStarted? ==>
              s.gateway == g.(isRefreshing := true, initiator := Some(e.config.(retried := true)))
    ensures s.gateway.token == g.token && s.gateway.companyId == g.companyId
    ensures Valid(g) ==> Valid(s.gateway)
  {
    if e.status != Some(401) || e.config.retried then Step(g, PassedThrough)
    else if IsAuthUrl(e.config.url) then Step(g, PassedThrough)
    else
      var original := e.config.(retried := true);
      if g.isRefreshing then Step(g.(queue := g.queue + [original]), Queued)
      else Step(g.(isRefreshing := true, initiator := Some(original)), RefreshStarted)
  }

  /** A request that was already retried once is rejected unchanged, whatever
      its status: each request is retried at most once. */
  lemma AtMostOneRetry(g: Gateway, e: HttpError)
    requires e.config.retried
    ensures OnResponseError(g, e) == Step(g, PassedThrough)
  {
  }

  /** What happens to the request whose interceptor call performed the refresh. */
  datatype Outcome = Replayed(request: Request) | Failed(error: Failure)

  /** The end of a refresh: the new gateway, how each waiter was settled (in
      queue order) and what became of the initiating request. */
  datatype Settled = Settled(gateway: Gateway, waiters: seq<Settlement>, original: Outcome)

  /** `await authClient.post('/api/auth/refresh')` resolved; `newToken` is the
      response's `accessToken` (possibly missing). The token is stored, the
      queue processed, the original request sent again with the new bearer
      header, and the flag cleared by the `finally` block. */
  function OnRefreshSucceeded(g: Gateway, newToken: Nullable): (s: Settled)
    requires g.initiator.Some?
    ensures s.gateway.token == ToOption(newToken) && s.gateway.companyId == g.companyId
    ensures !s.gateway.isRefreshing && s.gateway.queue == [] && s.gateway.initiator.None?
    ensures |s.waiters| == |g.queue|
    ensures TruthyValue(newToken) ==> forall i :: 0 <= i < |s.waiters| ==>
              && s.waiters[i].Resumed?
              && s.waiters[i].request.url == g.queue[i].url
              && s.waiters[i].request.retried == g.queue[i].retried
              && AuthorizationHeader in s.waiters[i].request.headers
              && s.waiters[i].request.headers[AuthorizationHeader] == Bearer(newToken.s)
    ensures !TruthyValue(newToken) ==> forall i :: 0 <= i < |s.waiters| ==> s.waiters[i] == Left(g.queue[i])
    ensures s.original.Replayed?
    ensures s.original.request.url == g.initiator.value.url
    ensures s.original.request.retried == g.initiator.value.retried
    ensures AuthorizationHeader in s.original.request.headers
    ensures s.original.request.headers[AuthorizationHeader] == Bearer(Show(newToken))
    ensures Valid(s.gateway)
  {
    var g1 := SetToken(g, ToOption(newToken));
    var waiters := ProcessQueue(g.queue, None, newToken, req => Decorate(g1, req));
    var replay := Decorate(g1, WithAuthorization(g.initiator.value, Bearer(Show(newToken))));
    Settled(g1.(isRefreshing := false, queue := [], initiator := None), waiters, Replayed(replay))
  }

  /** The refresh call rejected with `reason`: every waiter is rejected with
      it, the token and company are cleared, the error propagates to the
      original caller, and the flag is cleared. */
  function OnRefreshFailed(g: Gateway, reason: string): (s: Settled)
    requires g.initiator.Some?
    ensures s.gateway == Initial
    ensures |s.waiters| == |g.queue|
    ensures forall i :: 0 <= i < |s.waiters| ==> s.waiters[i] == Aborted(g.queue[i], RefreshCallFailed(reason))
    ensures s.original == Failed(RefreshCallFailed(reason))
  {
    var waiters := ProcessQueue(g.queue, Some(RefreshCallFailed(reason)), Null, req => Decorate(g, req));
    var g1 := SetCompanyId(SetToken(g, None), None);
    Settled(g1.(isRefreshing := false, queue := [], initiator := None), waiters, Failed(RefreshCallFailed(reason)))
  }

  /** Every request the gateway sends again after a refresh carries its
      `_retry` mark, so a second 401 on it is rejected unchanged. */
  lemma ReplaysAreNotRetried(g: Gateway, newToken: Nullable, later: Gateway, status: Option<int>)
    requires Valid(g) && g.isRefreshing
    ensures var s := OnRefreshSucceeded(g, newToken);
            && OnResponseError(later, HttpError(status, s.original.request)) == Step(later, PassedThrough)
            && forall i :: 0 <= i < |s.waiters| && s.waiters[i].Resumed? ==>
                 OnResponseError(later, HttpError(status, s.waiters[i].request)) == Step(later, PassedThrough)
  {
  }

  /** The interceptor run over a burst of rejected requests that arrive before
      any refresh settles, one event-loop turn each. This is the fold that
      SingleFlight reasons about; its own contract only pairs each error with
      one reaction. */
  function HandleAll(g: Gateway, errors: seq<HttpError>): (r: (Gateway, seq<Reaction>))
    ensures |r.1| == |errors|
    decreases errors
  {
    if errors == [] then (g, [])
    else
      var s := OnResponseError(g, errors[0]);
      var rest := HandleAll(s.gateway, errors[1..]);
      (rest.0, [s.reaction] + rest.1)
  }

  function CountStarts(rs: seq<Reaction>): nat {
    if rs == [] then 0 else (if rs[0].RefreshStarted? then 1 else 0) + CountStarts(rs[1..])
  }

  function CountIntercepted(errors: seq<HttpError>): nat {
    if errors == [] then 0 else (if Intercepted(errors[0]) then 1 else 0) + CountIntercepted(errors[1..])
  }

  /** Single-flight refresh: over any burst of rejected requests, at most one
      refresh call starts — exactly one when none was in flight and some 401 is
      intercepted, none when one was already in flight — and every other
      intercepted request joins the queue. */
  lemma {:induction false} SingleFlight(g: Gateway, errors: seq<HttpError>)
    requires Valid(g)
    ensures var (g', reactions) := HandleAll(g, errors);
            && Valid(g')
            && CountStarts(reactions) == (if !g.isRefreshing && CountIntercepted(errors) > 0 then 1 else 0)
            && |g'.queue| == |g.queue| + CountIntercepted(errors) - CountStarts(reactions)
            && g'.isRefreshing == (g.isRefreshing || CountIntercepted(errors) > 0)
            && g'.token == g.token && g'.companyId == g.companyId
    decreases errors
  {
    if errors != [] {
      var s := OnResponseError(g, errors[0]);
      SingleFlight(s.gateway, errors[1..]);
    }
  }
}
