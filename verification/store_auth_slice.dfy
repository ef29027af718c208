/** The second auth reducer, src/store/auth.slice.ts (the one `AuthBootstrap`
    dispatches to): user and status only, no token. */
module StoreAuthSlice {
  import opened Base
  import opened AuthTypes

  datatype State = State(user: Option<User>, status: AuthStatus)

  const Initial := State(None, Idle)

  datatype Action = StartLoading | SetUser(user: User) | ClearAuth

  predicate Inv(s: State) {
    && (s.status == Authenticated ==> s.user.Some?)
    && (s.status == Idle ==> s.user.None?)
    && (s.status == Unauthenticated ==> s.user.None?)
  }

  function Reduce(s: State, a: Action): (r: State)
    ensures a.StartLoading? ==> r == s.(status := Loading)
    ensures a.SetUser? ==> r == State(Some(a.user), Authenticated)
    ensures a.ClearAuth? ==> r == State(None, Unauthenticated)
    ensures Inv(s) ==> Inv(r)
  {
    match a
    case StartLoading => s.(status := Loading)
    case SetUser(user) => s.(user := Some(user), status := Authenticated)
    case ClearAuth => s.(user := None, status := Unauthenticated)
  }

  function Run(s: State, actions: seq<Action>): State
    decreases |actions|
  {
    if actions == [] then s else Run(Reduce(s, actions[0]), actions[1..])
  }

  lemma {:induction false} RunKeepsInv(s: State, actions: seq<Action>)
    requires Inv(s)
    ensures Inv(Run(s, actions))
    decreases |actions|
  {
    if actions != [] {
      RunKeepsInv(Reduce(s, actions[0]), actions[1..]);
    }
  }

  /** Every reachable state satisfies the invariant: authenticated implies a user. */
  lemma Reachable(actions: seq<Action>)
    ensures Inv(Run(Initial, actions))
    ensures Run(Initial, actions).status == Authenticated ==> Run(Initial, actions).user.Some?
  {
    RunKeepsInv(Initial, actions);
  }
}
