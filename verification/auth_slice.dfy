/** The auth reducer of src/modules/auth/slice.ts — the one the root reducer
    mounts as `state.auth` — as a function from state and action to state. */
module AuthSlice {
  import opened Base
  import opened AuthTypes

  datatype State = State(accessToken: Option<string>, user: Option<User>, status: AuthStatus)

  const Initial := State(None, None, Idle)

  datatype Action =
    | StartLoading
    | SetAccessToken(token: string)
    | SetUser(user: User)
    | SetUnauthenticated
    | Logout

  /** What every reachable state satisfies: an authenticated session has a
      user, and neither the initial nor the signed-out status holds one. */
  predicate Inv(s: State) {
    && (s.status == Authenticated ==> s.user.Some?)
    && (s.status == Idle ==> s.user.None?)
    && (s.status == Unauthenticated ==> s.user.None?)
  }

  function Reduce(s: State, a: Action): (r: State)
    ensures a.StartLoading? ==> r == s.(status := Loading)
    ensures a.SetAccessToken? ==> r == s.(accessToken := Some(a.token))
    ensures a.SetUser? ==> r.user == Some(a.user) && r.status == Authenticated && r.accessToken == s.accessToken
    ensures a.SetUnauthenticated? || a.Logout? ==> r == State(None, None, Unauthenticated)
    ensures Inv(s) ==> Inv(r)
  {
    match a
    case StartLoading => s.(status := Loading)
    case SetAccessToken(token) => s.(accessToken := Some(token))
    case SetUser(user) => s.(user := Some(user), status := Authenticated)
    case SetUnauthenticated => s.(accessToken := None, user := None, status := Unauthenticated)
    case Logout => s.(accessToken := None, user := None, status := Unauthenticated)
  }

  /** The store after dispatching `actions` in order. */
  function Run(s: State, actions: seq<Action>): State
    decreases |actions|
  {
    if actions == [] then s else Run(Reduce(s, actions[0]), actions[1..])
  }

  /** `setUnauthenticated` and `logout` are the same transition. */
  lemma SetUnauthenticatedIsLogout(s: State)
    ensures Reduce(s, SetUnauthenticated) == Reduce(s, Logout)
  {
  }

  /** Every action sequence keeps the invariant. */
  lemma {:induction false} RunKeepsInv(s: State, actions: seq<Action>)
    requires Inv(s)
    ensures Inv(Run(s, actions))
    decreases |actions|
  {
    if actions != [] {
      RunKeepsInv(Reduce(s, actions[0]), actions[1..]);
    }
  }

  /** Every state reachable from the initial one satisfies the invariant; in
      particular an authenticated session always has a user. */
  lemma Reachable(actions: seq<Action>)
    ensures Inv(Run(Initial, actions))
    ensures Run(Initial, actions).status == Authenticated ==> Run(Initial, actions).user.Some?
  {
    RunKeepsInv(Initial, actions);
  }
}
