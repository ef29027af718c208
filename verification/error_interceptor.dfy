/** The store-backed variant of the 401 interceptor,
    src/lib/api/error.interceptor.ts (`setupErrorInterceptor`): no URL
    exemption, a refresh answer without a token counts as failure, success is
    published by dispatching `auth/setAccessToken` and setting the client's
    default `Authorization` header, and failure leaves the session alone. */
module ErrorInterceptor {
  import opened Base
  import opened RefreshQueue
  import AuthSlice

  /** The interceptor's module-level state plus the client default header it
      writes. `initiator` is the rejected request whose interceptor call is
      suspended at the refresh POST. */
  datatype State = State(
    isRefreshing: bool,
    queue: seq<Request>,
    initiator: Option<HttpError>,
    defaultAuthorization: Option<string>)

  const Initial := State(false, [], None, None)

  predicate Valid(s: State) {
    && (s.isRefreshing <==> s.initiator.Some?)
    && (!s.isRefreshing ==> s.queue == [])
    && (s.initiator.Some? ==> s.initiator.value.config.retried)
    && (forall i :: 0 <= i < |s.queue| ==> s.queue[i].retried)
  }

  datatype Reaction = PassedThrough | Queued | RefreshStarted

  datatype Step = Step(state: State, reaction: Reaction)

  /** The only pass-through conditions: not a 401, or already retried. */
  predicate Intercepted(e: HttpError) {
    e.status == Some(401) && !e.config.retried
  }

  function OnResponseError(s: State, e: HttpError): (r: Step)
    ensures r.reaction.PassedThrough? <==> !Intercepted(e)
    ensures r.reaction.PassedThrough? ==> r.state == s
    ensures r.reaction.Queued? <==> Intercepted(e) && s.isRefreshing
    ensures r.reaction.Queued? ==> r.state == s.(queue := s.queue + [e.config.(retried := true)])
    ensures r.reaction.RefreshStarted? ==>
              r.state == s.(isRefreshing := true, initiator := Some(e.(config := e.config.(retried := true))))
    ensures r.state.defaultAuthorization == s.defaultAuthorization
    ensures Valid(s) ==> Valid(r.state)
  {
    if e.status != Some(401) || e.config.retried then Step(s, PassedThrough)
    else
      var original := e.config.(retried := true);
      if s.isRefreshing then Step(s.(queue := s.queue + [original]), Queued)
      else Step(s.(isRefreshing := true, initiator := Some(e.(config := original))), RefreshStarted)
  }

  datatype Outcome = Replayed(request: Request) | Failed(error: Failure)

  /** The end of a refresh: the new state, the waiters' settlements in queue
      order, the initiating request's fate, and the actions dispatched to the
      auth store. */
  datatype Settled = Settled(state: State, waiters: seq<Settlement>, original: Outcome, dispatched: seq<AuthSlice.Action>)

  /** Resolved waiters are sent through the same client; its request
      decorators are not part of this model. */
  function Resend(req: Request): Request {
    req
  }

  /** The refresh POST resolved and `response.data?.accessToken` is
      `accessToken`. A falsy token throws the original 401 error into the
      failure path. */
  function OnRefreshResponse(s: State, accessToken: Nullable): (r: Settled)
    requires s.initiator.Some?
    ensures !r.state.isRefreshing && r.state.queue == [] && r.state.initiator.None?
    ensures |r.waiters| == |s.queue|
    ensures TruthyValue(accessToken) ==>
              && r.dispatched == [AuthSlice.SetAccessToken(accessToken.s)]
              && r.state.defaultAuthorization == Some(Bearer(accessToken.s))
              && r.original == Replayed(s.initiator.value.config)
              && forall i :: 0 <= i < |r.waiters| ==>
                   r.waiters[i] == Resumed(WithAuthorization(s.queue[i], Bearer(accessToken.s)))
    ensures !TruthyValue(accessToken) ==>
              && r.dispatched == []
              && r.state.defaultAuthorization == s.defaultAuthorization
              && r.original == Failed(Unauthorized(s.initiator.value))
              && forall i :: 0 <= i < |r.waiters| ==> r.waiters[i] == Aborted(s.queue[i], Unauthorized(s.initiator.value))
  {
    var idle := s.(isRefreshing := false, queue := [], initiator := None);
    if !TruthyValue(accessToken) then
      var error := Unauthorized(s.initiator.value);
      Settled(idle, ProcessQueue(s.queue, Some(error), Null, Resend), Failed(error), [])
    else
      var token := accessToken.s;
      Settled(idle.(defaultAuthorization := Some(Bearer(token))),
              ProcessQueue(s.queue, None, accessToken, Resend),
              Replayed(s.initiator.value.config),
              [AuthSlice.SetAccessToken(token)])
  }

  /** The refresh POST itself rejected: every waiter is rejected with its
      error, nothing is dispatched, and the default header is untouched. */
  function OnRefreshError(s: State, reason: string): (r: Settled)
    requires s.initiator.Some?
    ensures r.state == s.(isRefreshing := false, queue := [], initiator := None)
    ensures r.dispatched == []
    ensures r.original == Failed(RefreshCallFailed(reason))
    ensures |r.waiters| == |s.queue|
    ensures forall i :: 0 <= i < |r.waiters| ==> r.waiters[i] == Aborted(s.queue[i], RefreshCallFailed(reason))
  {
    var error := RefreshCallFailed(reason);
    Settled(s.(isRefreshing := false, queue := [], initiator := None),
            ProcessQueue(s.queue, Some(error), Null, Resend), Failed(error), [])
  }

  /** A successful refresh publishes exactly the new token to the auth store:
      whatever the store held, only its `accessToken` changes. */
  lemma RefreshPublishesToken(s: State, token: string, store: AuthSlice.State)
    requires s.initiator.Some? && token != ""
    ensures AuthSlice.Run(store, OnRefreshResponse(s, Str(token)).dispatched) == store.(accessToken := Some(token))
  {
    var d := OnRefreshResponse(s, Str(token)).dispatched;
    assert d == [AuthSlice.SetAccessToken(token)];
    assert AuthSlice.Run(store, d) == AuthSlice.Run(AuthSlice.Reduce(store, d[0]), d[1..]);
  }

  /** Unlike the session gateway, this variant leaves the auth store alone
      whenever the refresh fails, by error or by a missing token. */
  lemma FailureLeavesStore(s: State, accessToken: Nullable, reason: string, store: AuthSlice.State)
    requires s.initiator.Some?
    ensures !TruthyValue(accessToken) ==> AuthSlice.Run(store, OnRefreshResponse(s, accessToken).dispatched) == store
    ensures AuthSlice.Run(store, OnRefreshError(s, reason).dispatched) == store
  {
  }

  /** Every settled refresh returns the interceptor to a valid idle state, so
      the next 401 starts a fresh refresh. */
  lemma SettledIsIdle(s: State, accessToken: Nullable, reason: string, e: HttpError)
    requires Valid(s) && s.isRefreshing && Intercepted(e)
    ensures OnResponseError(OnRefreshResponse(s, accessToken).state, e).reaction == RefreshStarted
    ensures OnResponseError(OnRefreshError(s, reason).state, e).reaction == RefreshStarted
  {
  }
}
