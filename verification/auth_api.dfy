/** The auth endpoints of src/api/auth.api.ts as transitions of the session
    gateway, and the gateway as a whole: every event the running client can
    feed it, with the invariants that hold along every trace. */
module AuthApi {
  import opened Base
  import opened Text
  import opened RefreshQueue
  import opened ApiClient

  /** The `/api/auth/login` body: `accessToken` (which the client does not
      check) and `user?.companyId`. */
  datatype LoginResponse = LoginResponse(accessToken: Nullable, userCompanyId: Nullable)

  /** The `/api/auth/me` body, reduced to the field the gateway reads. */
  datatype MeResponse = MeResponse(companyId: Nullable)

  /** `login`: a rejected call (`None`) changes nothing; otherwise the token is
      stored as `refresh` stores it (a missing one clears it) and the company
      replaced only when the response names one. */
  function Login(g: Gateway, response: Option<LoginResponse>): (r: Gateway)
    ensures response.None? ==> r == g
    ensures response.Some? ==> r.token == ToOption(response.value.accessToken)
    ensures response.Some? && TruthyValue(response.value.userCompanyId) ==> r.companyId == Some(response.value.userCompanyId.s)
    ensures response.Some? && !TruthyValue(response.value.userCompanyId) ==> r.companyId == g.companyId
    ensures r.isRefreshing == g.isRefreshing && r.queue == g.queue && r.initiator == g.initiator
  {
    match response
    case None => g
    case Some(data) =>
      var g1 := SetToken(g, ToOption(data.accessToken));
      if TruthyValue(data.userCompanyId) then SetCompanyId(g1, Some(data.userCompanyId.s)) else g1
  }

  /** `me`: a response naming a company replaces it; nothing else changes. */
  function Me(g: Gateway, response: Option<MeResponse>): (r: Gateway)
    ensures response.Some? && TruthyValue(response.value.companyId) ==> r == g.(companyId := Some(response.value.companyId.s))
    ensures !(response.Some? && TruthyValue(response.value.companyId)) ==> r == g
  {
    if response.Some? && TruthyValue(response.value.companyId) then SetCompanyId(g, Some(response.value.companyId.s))
    else g
  }

  /** `refresh`: a resolved call stores the response's token (whatever it is). */
  function Refresh(g: Gateway, accessToken: Option<Nullable>): (r: Gateway)
    ensures accessToken.None? ==> r == g
    ensures accessToken.Some? ==> r == g.(token := ToOption(accessToken.value))
  {
    if accessToken.Some? then SetToken(g, ToOption(accessToken.value)) else g
  }

  /** `login` and `refresh` store a response's `accessToken` the same way. */
  lemma LoginStoresAsRefresh(g: Gateway, data: LoginResponse)
    ensures Login(g, Some(data)).token == Refresh(g, Some(data.accessToken)).token
  {
  }

  /** `logout`: the call's failure is swallowed; token and company end cleared
      either way, and the interceptor's own state is untouched. */
  function Logout(g: Gateway, callThrew: bool): (r: Gateway)
    ensures r.token.None? && r.companyId.None?
    ensures r.isRefreshing == g.isRefreshing && r.queue == g.queue && r.initiator == g.initiator
  {
    SetCompanyId(SetToken(g, None), None)
  }

  /** The two axios instances: `authClient` has no interceptors. */
  datatype Client = AuthClient | InterceptedClient

  datatype AuthCall = LoginCall | MeCall | RefreshCall | LogoutCall

  function ClientOf(c: AuthCall): Client {
    if c == MeCall then InterceptedClient else AuthClient
  }

  function UrlOf(c: AuthCall): string {
    match c
    case LoginCall => "/api/auth/login"
    case MeCall => "/api/auth/me"
    case RefreshCall => "/api/auth/refresh"
    case LogoutCall => "/api/auth/logout"
  }

  /** A 401 from an auth call can start the refresh-and-retry protocol only if
      the call goes through `apiClient` and its URL escapes the exemption;
      of the four, only `me` qualifies. `login`, `refresh` and `logout` are
      doubly protected: they use `authClient`, and their URLs are exempt. */
  lemma OnlyMeCanTriggerRefresh(c: AuthCall)
    ensures (ClientOf(c) == InterceptedClient && !IsAuthUrl(UrlOf(c))) <==> c == MeCall
    ensures c != MeCall ==> IsAuthUrl(UrlOf(c))
  {
    match c
    case LoginCall =>
      ContainsInfix("/api", "/auth/login", "");
      assert "/api" + "/auth/login" + "" == UrlOf(c);
    case RefreshCall =>
      ContainsInfix("/api", "/auth/refresh", "");
      assert "/api" + "/auth/refresh" + "" == UrlOf(c);
    case LogoutCall =>
      ContainsInfix("/api", "/auth/logout", "");
      assert "/api" + "/auth/logout" + "" == UrlOf(c);
    case MeCall =>
      UrlNotExempt(UrlOf(c));
  }

  /** Everything that can happen to the gateway, one event-loop turn each. */
  datatype Event =
    | ResponseError(error: HttpError)
    | RefreshSucceeded(newToken: Nullable)
    | RefreshFailed(reason: string)
    | LoggedIn(login: Option<LoginResponse>)
    | MeLoaded(me: Option<MeResponse>)
    | Refreshed(refresh: Option<Nullable>)
    | LoggedOut(callThrew: bool)

  /** A refresh outcome can only arrive while a refresh call is outstanding. */
  predicate Enabled(g: Gateway, ev: Event) {
    (ev.RefreshSucceeded? || ev.RefreshFailed?) ==> g.initiator.Some?
  }

  /** One event; `Enabled` events only, the others leave the gateway alone. */
  function Next(g: Gateway, ev: Event): (r: Gateway)
    ensures Valid(g) ==> Valid(r)
  {
    if !Enabled(g, ev) then g
    else
      match ev
      case ResponseError(e) => OnResponseError(g, e).gateway
      case RefreshSucceeded(t) => OnRefreshSucceeded(g, t).gateway
      case RefreshFailed(reason) => OnRefreshFailed(g, reason).gateway
      case LoggedIn(resp) => Login(g, resp)
      case MeLoaded(resp) => Me(g, resp)
      case Refreshed(resp) => Refresh(g, resp)
      case LoggedOut(threw) => Logout(g, threw)
  }

  /** Refresh calls started by an event, and refresh calls it settles. */
  function Starts(g: Gateway, ev: Event): nat {
    if ev.ResponseError? && OnResponseError(g, ev.error).reaction == RefreshStarted then 1 else 0
  }

  function Settles(g: Gateway, ev: Event): nat {
    if Enabled(g, ev) && (ev.RefreshSucceeded? || ev.RefreshFailed?) then 1 else 0
  }

  /** The gateway after a trace, with the refresh calls started and settled. */
  function Run(g: Gateway, events: seq<Event>): (r: (Gateway, nat, nat))
    decreases |events|
  {
    if events == [] then (g, 0, 0)
    else
      var rest := Run(Next(g, events[0]), events[1..]);
      (rest.0, Starts(g, events[0]) + rest.1, Settles(g, events[0]) + rest.2)
  }

  function InFlight(g: Gateway): nat {
    if g.isRefreshing then 1 else 0
  }

  /** Along every trace the invariant holds, and refresh calls started by the
      interceptor never overlap: every one started is either settled or the
      single one still in flight. */
  lemma {:induction false} RunKeepsValid(g: Gateway, events: seq<Event>)
    requires Valid(g)
    ensures var (g', started, settled) := Run(g, events);
            Valid(g') && InFlight(g) + started == settled + InFlight(g')
    decreases |events|
  {
    if events != [] {
      RunKeepsValid(Next(g, events[0]), events[1..]);
    }
  }

  /** From process start: at most one interceptor-started refresh call is
      ever outstanding. `authApi.refresh` is the single `Refreshed` event and
      is not counted. */
  lemma SingleFlightFromStart(events: seq<Event>)
    ensures var (g', started, settled) := Run(Initial, events);
            Valid(g') && started == settled + InFlight(g') && started <= settled + 1
  {
    RunKeepsValid(Initial, events);
  }

  /** Token `"A"` set; three requests to ordinary endpoints each get a 401
      before the refresh returns `"B"`: one refresh call, two waiters resumed
      and the initiator replayed, all three with `Bearer B` and all marked as
      retried. */
  lemma ThreeConcurrentUnauthorized(u1: string, u2: string, u3: string)
    requires !IsAuthUrl(u1) && !IsAuthUrl(u2) && !IsAuthUrl(u3)
    ensures var g0 := SetToken(Initial, Some("A"));
            var errors := [HttpError(Some(401), Decorate(g0, Request(u1, map[], false))),
                           HttpError(Some(401), Decorate(g0, Request(u2, map[], false))),
                           HttpError(Some(401), Decorate(g0, Request(u3, map[], false)))];
            var (g3, reactions) := HandleAll(g0, errors);
            && reactions == [RefreshStarted, Queued, Queued]
            && g3.initiator.Some?
            && var s := OnRefreshSucceeded(g3, Str("B"));
               && |s.waiters| == 2
               && (forall i :: 0 <= i < 2 ==>
                     (s.waiters[i].Resumed?
                      && s.waiters[i].request.url == errors[i + 1].config.url
                      && s.waiters[i].request.headers[AuthorizationHeader] == "Bearer B"
                      && s.waiters[i].request.retried))
               && s.original.request.url == u1
               && s.original.request.headers[AuthorizationHeader] == "Bearer B"
               && s.original.request.retried
               && s.gateway.token == Some("B") && !s.gateway.isRefreshing
  {
    var g0 := SetToken(Initial, Some("A"));
    var e1 := HttpError(Some(401), Decorate(g0, Request(u1, map[], false)));
    var e2 := HttpError(Some(401), Decorate(g0, Request(u2, map[], false)));
    var e3 := HttpError(Some(401), Decorate(g0, Request(u3, map[], false)));
    var s1 := OnResponseError(g0, e1);
    assert s1.reaction == RefreshStarted;
    var s2 := OnResponseError(s1.gateway, e2);
    assert s2.reaction == Queued;
    var s3 := OnResponseError(s2.gateway, e3);
    assert s3.reaction == Queued;
    HandleAllCons(s2.gateway, e3, []);
    HandleAllCons(s1.gateway, e2, [e3]);
    HandleAllCons(g0, e1, [e2, e3]);
    assert s3.gateway.queue == [e2.config.(retried := true), e3.config.(retried := true)];
  }

  lemma HandleAllCons(g: Gateway, e: HttpError, rest: seq<HttpError>)
    ensures var s := OnResponseError(g, e);
            HandleAll(g, [e] + rest) == (HandleAll(s.gateway, rest).0, [s.reaction] + HandleAll(s.gateway, rest).1)
  {
    assert ([e] + rest)[1..] == rest;
  }

  /** A URL free of the letters `f` and `g` names no auth endpoint. */
  lemma UrlNotExempt(url: string)
    requires 'f' !in url && 'g' !in url
    ensures !IsAuthUrl(url)
  {
    assert 'f' in "/auth/refresh" && 'g' in "/auth/login" && 'g' in "/auth/logout";
    if Contains(url, "/auth/refresh") { ContainsChars(url, "/auth/refresh", 'f'); }
    if Contains(url, "/auth/login") { ContainsChars(url, "/auth/login", 'g'); }
    if Contains(url, "/auth/logout") { ContainsChars(url, "/auth/logout", 'g'); }
  }

  /** A failed refresh clears the session: the next request carries neither
      an `Authorization` nor an `x-company-id` header it did not already have. */
  lemma FailedRefreshSendsAnonymously(g: Gateway, reason: string, url: string)
    requires Valid(g) && g.isRefreshing
    ensures var next := Decorate(OnRefreshFailed(g, reason).gateway, Request(url, map[], false));
            AuthorizationHeader !in next.headers && CompanyHeader !in next.headers
  {
  }
}
