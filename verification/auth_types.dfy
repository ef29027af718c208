/** The authentication vocabulary shared by the slices, the guards and the
    permission table (src/modules/auth/types.ts, src/types/auth.types.ts). */
module AuthTypes {
  import opened Base

  /** `UserRole`. */
  datatype Role = SuperAdmin | CompanyAdmin | HR | Employee

  /** The `status` field of the auth slices. */
  datatype AuthStatus = Idle | Loading | Authenticated | Unauthenticated

  /** The `/api/auth/me` payload (`MeResponse`). */
  datatype User = User(id: string, email: string, role: Role, companyId: Option<string>)
}
