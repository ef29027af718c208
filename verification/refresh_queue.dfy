/** Requests, response errors and the queue of requests waiting on a token
    refresh, shared by both 401 interceptors of the client (the session
    gateway's in src/api/client.ts and the store-backed variant in
    src/lib/api/error.interceptor.ts, whose `processQueue` functions are the
    same). A queued promise is represented by the request it will replay. */
module RefreshQueue {
  import opened Base

  type Headers = map<string, string>

  const AuthorizationHeader := "Authorization"
  const CompanyHeader := "x-company-id"

  /** An outgoing request config: its URL (`''` when absent), its headers and
      the `_retry` mark the interceptors put on it. */
  datatype Request = Request(url: string, headers: Headers, retried: bool)

  /** A rejected request as a response interceptor sees it: the HTTP status
      (`None` when no response arrived: network failure or timeout) and the
      request config. */
  datatype HttpError = HttpError(status: Option<int>, config: Request)

  /** The error a failed refresh settles its waiters with: the refresh call's
      own error, or (in the store-backed variant) the original 401 error when
      the refresh answered without a token. JavaScript error objects are
      always truthy. */
  datatype Failure = RefreshCallFailed(reason: string) | Unauthorized(error: HttpError)

  /** How `processQueue` settles one queued promise: resolved (the request is
      replayed), rejected with the error, or left pending forever. */
  datatype Settlement =
    | Resumed(request: Request)
    | Aborted(request: Request, error: Failure)
    | Left(request: Request)

  function Bearer(token: string): string {
    "Bearer " + token
  }

  /** `req.headers.Authorization = value`. */
  function WithAuthorization(req: Request, value: string): (r: Request)
    ensures r.url == req.url && r.retried == req.retried
    ensures AuthorizationHeader in r.headers && r.headers[AuthorizationHeader] == value
    ensures forall k :: k != AuthorizationHeader ==>
              (k in r.headers <==> k in req.headers) && (k in req.headers ==> r.headers[k] == req.headers[k])
  {
    req.(headers := req.headers[AuthorizationHeader := value])
  }

  /** What `processQueue(error, token)` does to one waiter: reject when there is
      an error, otherwise resolve when the token is truthy — the resolve
      callback sets the bearer header and sends the request again through
      `send` — and otherwise neither. */
  function SettleOne(req: Request, error: Option<Failure>, token: Nullable, send: Request -> Request): Settlement {
    if error.Some? then Aborted(req, error.value)
    else if TruthyValue(token) then Resumed(send(WithAuthorization(req, Bearer(token.s))))
    else Left(req)
  }

  /** `processQueue(error, token)`: every waiter, in queue order, settled the
      same way; the caller then empties the queue. */
  function ProcessQueue(queue: seq<Request>, error: Option<Failure>, token: Nullable, send: Request -> Request)
    : (out: seq<Settlement>)
    ensures |out| == |queue|
    ensures forall i :: 0 <= i < |out| ==> out[i] == SettleOne(queue[i], error, token, send)
  {
    if queue == [] then []
    else [SettleOne(queue[0], error, token, send)] + ProcessQueue(queue[1..], error, token, send)
  }

  /** A waiter is left hanging exactly when there is neither an error nor a
      truthy token; with an error every waiter is rejected with that error. */
  lemma SettleOneCases(req: Request, error: Option<Failure>, token: Nullable, send: Request -> Request)
    ensures SettleOne(req, error, token, send).Left? <==> error.None? && !TruthyValue(token)
    ensures error.Some? ==> SettleOne(req, error, token, send) == Aborted(req, error.value)
    ensures SettleOne(req, error, token, send).Resumed? <==> error.None? && TruthyValue(token)
  {
  }
}
