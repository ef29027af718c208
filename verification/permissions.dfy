/** The role-based access table of src/utils/permissions.ts: the eleven
    namespaced permissions, the role → permission lists, and the two lookups. */
module Permissions {
  import opened Base
  import opened AuthTypes

  datatype Permission =
    | AdminAccess
    | EmployeeView
    | EmployeeEdit
    | EmployeeRoleChange
    | LeaveView
    | LeaveApprove
    | AttendanceView
    | AttendanceOverride
    | OrgManage
    | HolidayManage
    | CompanyManage

  /** The dot-notation string each permission is written as. */
  function Name(p: Permission): string {
    match p
    case AdminAccess => "admin.access"
    case EmployeeView => "employee.view"
    case EmployeeEdit => "employee.edit"
    case EmployeeRoleChange => "employee.role.change"
    case LeaveView => "leave.view"
    case LeaveApprove => "leave.approve"
    case AttendanceView => "attendance.view"
    case AttendanceOverride => "attendance.override"
    case OrgManage => "org.manage"
    case HolidayManage => "holiday.manage"
    case CompanyManage => "company.manage"
  }

  /** The permission a string names, if any. */
  function FromName(s: string): (p: Option<Permission>)
    ensures p.Some? ==> Name(p.value) == s
  {
    if s == "admin.access" then Some(AdminAccess)
    else if s == "employee.view" then Some(EmployeeView)
    else if s == "employee.edit" then Some(EmployeeEdit)
    else if s == "employee.role.change" then Some(EmployeeRoleChange)
    else if s == "leave.view" then Some(LeaveView)
    else if s == "leave.approve" then Some(LeaveApprove)
    else if s == "attendance.view" then Some(AttendanceView)
    else if s == "attendance.override" then Some(AttendanceOverride)
    else if s == "org.manage" then Some(OrgManage)
    else if s == "holiday.manage" then Some(HolidayManage)
    else if s == "company.manage" then Some(CompanyManage)
    else None
  }

  /** Distinct permissions have distinct names: the string type is a faithful
      encoding of the enumeration. */
  lemma NameRoundTrip(p: Permission)
    ensures FromName(Name(p)) == Some(p)
  {
  }

  /** The permissions in the order the `Permission` type lists them. */
  const AllPermissions: seq<Permission> := [
    AdminAccess, EmployeeView, EmployeeEdit, EmployeeRoleChange, LeaveView, LeaveApprove,
    AttendanceView, AttendanceOverride, OrgManage, HolidayManage, CompanyManage]

  /** `ROLE_PERMISSION_MAP[role]`, in source order. */
  function RolePermissions(r: Role): seq<Permission> {
    match r
    case SuperAdmin => [
      AdminAccess, CompanyManage, EmployeeView, EmployeeEdit, EmployeeRoleChange, LeaveView,
      LeaveApprove, AttendanceView, AttendanceOverride, OrgManage, HolidayManage]
    case CompanyAdmin => [
      AdminAccess, EmployeeView, EmployeeEdit, EmployeeRoleChange, LeaveView, LeaveApprove,
      AttendanceView, AttendanceOverride, OrgManage, HolidayManage]
    case HR => [AdminAccess, EmployeeView, EmployeeEdit, LeaveView, LeaveApprove, AttendanceView]
    case Employee => [EmployeeView, LeaveView, AttendanceView]
  }

  /** `getUserPermissions(role)`: no role, no permissions. */
  function GetUserPermissions(role: Option<Role>): (ps: seq<Permission>)
    ensures role.None? ==> ps == []
    ensures role.Some? ==> ps == RolePermissions(role.value)
  {
    if role.None? then [] else RolePermissions(role.value)
  }

  /** `hasPermission(role, permission)`. */
  function HasPermission(role: Option<Role>, p: Permission): (b: bool)
    ensures b <==> role.Some? && p in RolePermissions(role.value)
  {
    role.Some? && p in GetUserPermissions(role)
  }

  /** An independent description of the table: the roles form a chain, and
      each permission is granted from some level of the chain upwards. */
  function Rank(r: Role): nat {
    match r
    case Employee => 0
    case HR => 1
    case CompanyAdmin => 2
    case SuperAdmin => 3
  }

  function MinRank(p: Permission): nat {
    match p
    case EmployeeView | LeaveView | AttendanceView => 0
    case AdminAccess | EmployeeEdit | LeaveApprove => 1
    case EmployeeRoleChange | AttendanceOverride | OrgManage | HolidayManage => 2
    case CompanyManage => 3
  }

  /** The table agrees with the chain description, in both directions. */
  lemma HasPermissionByRank(r: Role, p: Permission)
    ensures HasPermission(Some(r), p) <==> Rank(r) >= MinRank(p)
  {
  }

  /** Without a role nothing is granted. */
  lemma NoRoleNoPermission(p: Permission)
    ensures GetUserPermissions(None) == []
    ensures !HasPermission(None, p)
  {
  }

  /** The permission sets are nested: Employee ⊆ HR ⊆ CompanyAdmin ⊆ SuperAdmin. */
  lemma Nested(r1: Role, r2: Role, p: Permission)
    requires Rank(r1) <= Rank(r2)
    ensures HasPermission(Some(r1), p) ==> HasPermission(Some(r2), p)
  {
    HasPermissionByRank(r1, p);
    HasPermissionByRank(r2, p);
  }

  /** Company management belongs to the super administrator alone. */
  lemma CompanyManageOnlySuperAdmin(role: Option<Role>)
    ensures HasPermission(role, CompanyManage) <==> role == Some(SuperAdmin)
  {
  }

  /** The super administrator holds every permission there is. */
  lemma SuperAdminHoldsAll(p: Permission)
    ensures HasPermission(Some(SuperAdmin), p)
    ensures p in AllPermissions
  {
  }

  /** A plain employee cannot enter the administration area. */
  lemma EmployeeLacksAdminAccess()
    ensures !HasPermission(Some(Employee), AdminAccess)
    ensures forall p :: HasPermission(Some(Employee), p) <==> MinRank(p) == 0
  {
  }
}
