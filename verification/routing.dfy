/** Where each role lands (src/utils/dashboard.ts) and the route table of
    src/app/routes.tsx as a function from a location's path to the permission
    guarding it and the page it shows. */
module Routing {
  import opened Base
  import opened AuthTypes
  import opened Permissions

  /** `getDashboardRoute(role)`. */
  function DashboardRoute(role: Option<Role>): (path: string)
    ensures role == Some(SuperAdmin) ==> path == "/super-admin"
    ensures role == Some(CompanyAdmin) || role == Some(HR) ==> path == "/admin"
    ensures role == Some(Employee) ==> path == "/employee"
    ensures role.None? ==> path == "/"
  {
    match role
    case Some(SuperAdmin) => "/super-admin"
    case Some(CompanyAdmin) => "/admin"
    case Some(HR) => "/admin"
    case Some(Employee) => "/employee"
    case None => "/"
  }

  /** The pages the table can show; the profile page carries the matched
      `:employeeId` segment. */
  datatype Page =
    | AuthGatePage
    | EmployeeDashboardPage
    | AdminDashboardPage
    | AdminEmployeeListPage
    | AdminEmployeeProfilePage(employeeId: string)
    | AdminLeaveApprovalsPage
    | AdminHolidaysPage
    | SuperAdminDashboardPage
    | NotFoundPage

  /** A dynamic segment matches a non-empty run without `/`. */
  predicate IsSegment(s: string) {
    s != [] && '/' !in s
  }

  /** The pages a path can lead to: every one except a profile page whose id
      is not a single segment. */
  predicate Routable(page: Page) {
    page.AdminEmployeeProfilePage? ==> IsSegment(page.employeeId)
  }

  /** The permission each page's branch of the table requires: the parent
      route's guard covers the index and every child route. */
  function GuardOf(page: Page): Option<Permission> {
    match page
    case AuthGatePage | NotFoundPage => None
    case EmployeeDashboardPage => Some(EmployeeView)
    case SuperAdminDashboardPage => Some(CompanyManage)
    case _ => Some(AdminAccess)
  }

  const ProfilePrefix := "/admin/employees/"

  /** The path that leads to each page (the catch-all has none of its own;
      `/404` stands for it). */
  function PathOf(page: Page): string {
    match page
    case AuthGatePage => "/"
    case EmployeeDashboardPage => "/employee"
    case AdminDashboardPage => "/admin"
    case AdminEmployeeListPage => "/admin/employees"
    case AdminEmployeeProfilePage(id) => ProfilePrefix + id
    case AdminLeaveApprovalsPage => "/admin/leave-approvals"
    case AdminHolidaysPage => "/admin/holidays"
    case SuperAdminDashboardPage => "/super-admin"
    case NotFoundPage => "/404"
  }

  datatype RouteMatch = RouteMatch(guard: Option<Permission>, page: Page)

  /** The element rendered for a path, exactly as written in the table. */
  function Resolve(path: string): (m: RouteMatch)
    ensures m.guard == GuardOf(m.page)
    ensures Routable(m.page)
    ensures !m.page.NotFoundPage? ==> PathOf(m.page) == path
  {
    var page :=
      if path == "/" then AuthGatePage
      else if path == "/employee" then EmployeeDashboardPage
      else if path == "/admin" then AdminDashboardPage
      else if path == "/admin/employees" then AdminEmployeeListPage
      else if path == "/admin/leave-approvals" then AdminLeaveApprovalsPage
      else if path == "/admin/holidays" then AdminHolidaysPage
      else if ProfilePrefix <= path && IsSegment(path[|ProfilePrefix|..]) then
        AdminEmployeeProfilePage(path[|ProfilePrefix|..])
      else if path == "/super-admin" then SuperAdminDashboardPage
      else NotFoundPage;
    assert page.AdminEmployeeProfilePage? ==> path == ProfilePrefix + page.employeeId;
    RouteMatch(GuardOf(page), page)
  }

  /** Every page but the catch-all is reached by its own path: with the
      ensures of `Resolve`, the table is a bijection between matched paths and
      routable pages. */
  lemma ResolvePathOf(page: Page)
    requires Routable(page) && !page.NotFoundPage?
    ensures Resolve(PathOf(page)) == RouteMatch(GuardOf(page), page)
  {
    if page.AdminEmployeeProfilePage? {
      var path := PathOf(page);
      assert path[|ProfilePrefix|..] == page.employeeId;
      assert |path| > |ProfilePrefix|;
      assert path != "/admin/leave-approvals" by {
        assert path[7] == 'e';
      }
    }
  }

  /** A path leads to the catch-all exactly when it is no page's path. */
  lemma NotFoundIffUnmatched(path: string, page: Page)
    requires Routable(page) && !page.NotFoundPage?
    ensures Resolve(path).page.NotFoundPage? ==> PathOf(page) != path
  {
    if PathOf(page) == path {
      ResolvePathOf(page);
    }
  }

  /** The paths under `/admin` all carry the `admin.access` guard. */
  lemma AdminSubtreeGuarded(id: string)
    requires IsSegment(id)
    ensures Resolve("/admin").guard == Some(AdminAccess)
    ensures Resolve("/admin/employees").guard == Some(AdminAccess)
    ensures Resolve(ProfilePrefix + id).guard == Some(AdminAccess)
    ensures Resolve("/admin/leave-approvals").guard == Some(AdminAccess)
    ensures Resolve("/admin/holidays").guard == Some(AdminAccess)
  {
    ResolvePathOf(AdminEmployeeProfilePage(id));
  }

  /** Every landing route is a real page of the table, never the catch-all. */
  lemma DashboardRouteResolves(role: Option<Role>)
    ensures !Resolve(DashboardRoute(role)).page.NotFoundPage?
    ensures role.None? <==> Resolve(DashboardRoute(role)).page == AuthGatePage
  {
  }
}
