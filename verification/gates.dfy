/** The two render-time gates — `RequirePermission` (src/guards/
    RequirePermission.tsx) around each protected branch and `AuthGate`
    (src/pages/AuthGate.tsx) at `/` — and the navigation they cause together
    with the route table. */
module Gates {
  import opened Base
  import opened AuthTypes
  import opened Permissions
  import opened Routing
  import AuthSlice
  import StoreAuthSlice

  /** What `RequirePermission` renders. */
  datatype GateView = RenderNothing | RedirectTo(path: string) | RenderChildren

  /** `RequirePermission` over the auth status and `user?.role`. */
  function RequirePermission(status: AuthStatus, role: Option<Role>, p: Permission): (v: GateView)
    ensures v == RenderChildren <==> status == Authenticated && HasPermission(role, p)
    ensures v == RenderNothing <==> status == Idle || status == Loading
    ensures v.RedirectTo? ==> v.path == "/"
  {
    match status
    case Idle | Loading => RenderNothing
    case Unauthenticated => RedirectTo("/")
    case Authenticated => if !HasPermission(role, p) then RedirectTo("/") else RenderChildren
  }

  /** An authenticated session whose user has no role is turned away by every
      guard. */
  lemma NoRoleIsRedirected(p: Permission)
    ensures RequirePermission(Authenticated, None, p) == RedirectTo("/")
  {
  }

  datatype Screen = InitializingSession | LoginScreen | Redirecting

  /** What `AuthGate` shows, and where its effect navigates (with `replace`). */
  datatype AuthGateView = AuthGateView(screen: Screen, navigate: Option<string>)

  function AuthGate(status: AuthStatus, role: Option<Role>): (v: AuthGateView)
    ensures v.screen == InitializingSession <==> status == Idle || status == Loading
    ensures v.screen == LoginScreen <==> status == Unauthenticated
    ensures v.navigate.Some? <==> status == Authenticated && role.Some?
    ensures v.navigate.Some? ==> v.navigate.value == DashboardRoute(role)
  {
    var navigate := if status == Authenticated && role.Some? then Some(DashboardRoute(role)) else None;
    var screen :=
      if status == Idle || status == Loading then InitializingSession
      else if status == Unauthenticated then LoginScreen
      else Redirecting;
    AuthGateView(screen, navigate)
  }

  /** The central property: every role's landing route admits that role. */
  lemma LandingRouteAdmitsRole(r: Role)
    ensures var m := Resolve(DashboardRoute(Some(r)));
            && m.guard.Some?
            && RequirePermission(Authenticated, Some(r), m.guard.value) == RenderChildren
  {
  }

  /** Where the app goes next from `path`: a guard's redirect, AuthGate's
      navigation, or nowhere (`None`) once the location is stable. */
  function NextLocation(path: string, status: AuthStatus, role: Option<Role>): Option<string> {
    var m := Resolve(path);
    if m.page == AuthGatePage then AuthGate(status, role).navigate
    else if m.guard.None? then None
    else
      match RequirePermission(status, role, m.guard.value)
      case RedirectTo(target) => Some(target)
      case _ => None
  }

  /** The location after following at most `steps` navigations. */
  function Follow(path: string, status: AuthStatus, role: Option<Role>, steps: nat): string
    decreases steps
  {
    if steps == 0 then path
    else
      match NextLocation(path, status, role)
      case None => path
      case Some(next) => Follow(next, status, role, steps - 1)
  }

  /** Once a landing route is reached the location is stable. */
  lemma LandingIsStable(r: Role)
    ensures NextLocation(DashboardRoute(Some(r)), Authenticated, Some(r)).None?
    ensures Resolve(DashboardRoute(Some(r))).page != AuthGatePage
  {
    LandingRouteAdmitsRole(r);
  }

  /** From the gate at `/`: a signed-in user with a role is sent to the
      landing route, anyone else stays. */
  lemma FromRoot(status: AuthStatus, role: Option<Role>)
    ensures Resolve("/").page == AuthGatePage
    ensures status == Authenticated && role.Some? ==> NextLocation("/", status, role) == Some(DashboardRoute(role))
    ensures !(status == Authenticated && role.Some?) ==> NextLocation("/", status, role).None?
  {
  }

  /** No redirect loop: whatever the starting location and the session, at
      most two navigations reach a stable location; an authenticated user with
      a role then sees a page of their landing route's branch or the page they
      asked for, and never the gate. */
  lemma NavigationSettles(path: string, status: AuthStatus, role: Option<Role>)
    ensures NextLocation(Follow(path, status, role, 2), status, role).None?
    ensures status == Authenticated && role.Some? ==>
              Resolve(Follow(path, status, role, 2)).page != AuthGatePage
    ensures status == Unauthenticated ==> Follow(path, status, role, 2) in {path, "/"}
  {
    FromRoot(status, role);
    var signedIn := status == Authenticated && role.Some?;
    if signedIn {
      LandingIsStable(role.value);
    }
    match NextLocation(path, status, role)
    case None =>
      assert Follow(path, status, role, 2) == path;
      if signedIn {
        assert Resolve(path).page != AuthGatePage;
      }
    case Some(next) =>
      assert Follow(path, status, role, 2) == Follow(next, status, role, 1);
      var m := Resolve(path);
      if m.page == AuthGatePage {
        assert signedIn && next == DashboardRoute(role);
        assert Follow(next, status, role, 1) == next;
      } else {
        assert next == "/";
        if signedIn {
          assert Follow(next, status, role, 1) == Follow(DashboardRoute(role), status, role, 0);
        } else {
          assert Follow(next, status, role, 1) == "/";
        }
      }
  }

  /** A signed-in user is at most two navigations from a rendered page,
      whichever page they open first, when the session comes from the auth
      store mounted at `state.auth`. */
  lemma NoRedirectLoopFromStore(actions: seq<AuthSlice.Action>, path: string)
    ensures var s := AuthSlice.Run(AuthSlice.Initial, actions);
            var role := if s.user.Some? then Some(s.user.value.role) else None;
            s.status == Authenticated ==>
              && role.Some?
              && NextLocation(Follow(path, s.status, role, 2), s.status, role).None?
              && Resolve(Follow(path, s.status, role, 2)).page != AuthGatePage
  {
    var s := AuthSlice.Run(AuthSlice.Initial, actions);
    AuthSlice.Reachable(actions);
    var role := if s.user.Some? then Some(s.user.value.role) else None;
    NavigationSettles(path, s.status, role);
  }

  /** The same for the store-level auth slice of src/store/auth.slice.ts. */
  lemma NoRedirectLoopFromStoreSlice(actions: seq<StoreAuthSlice.Action>, path: string)
    ensures var s := StoreAuthSlice.Run(StoreAuthSlice.Initial, actions);
            var role := if s.user.Some? then Some(s.user.value.role) else None;
            s.status == Authenticated ==>
              && role.Some?
              && NextLocation(Follow(path, s.status, role, 2), s.status, role).None?
              && Resolve(Follow(path, s.status, role, 2)).page != AuthGatePage
  {
    var s := StoreAuthSlice.Run(StoreAuthSlice.Initial, actions);
    StoreAuthSlice.Reachable(actions);
    var role := if s.user.Some? then Some(s.user.value.role) else None;
    NavigationSettles(path, s.status, role);
  }
}
