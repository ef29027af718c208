# hrms-fe core, modelled in Dafny

This project models the logic of the hrms-fe HR web client that sits beneath its rendering. Each part is written as immutable datatypes and pure functions.

- **Session gateway.** The module-level token and company store of `src/api/client.ts` is covered, together with its request decorator and its 401 response interceptor. That interceptor does a single-flight refresh, keeps a queue of waiting requests and sets a `_retry` mark. The store-backed interceptor variant of `src/lib/api/error.interceptor.ts` is modelled too. So are the four auth endpoints of `src/api/auth.api.ts`, as transitions of the gateway. Every interceptor step is one event-loop turn, so a 401 arriving is one event and the outcome of the refresh call it started is a later event.
- **Access control.**
  - The role → permission table and its two lookups (`src/utils/permissions.ts`).
  - The landing route of each role (`src/utils/dashboard.ts`).
  - The route table (`src/app/routes.tsx`), as a function from a path to a page and the permission guarding it.
  - The two render-time gates, `RequirePermission` and `AuthGate`.
  - The navigation the gates cause together with the route table.
- **Reducers.** The two auth slices, the attendance slice and the employee slice are each a function from state and action to state, with the invariant every reachable state satisfies.
- **Hooks.**
  - The check-in and check-out guards of the attendance hooks, as the action sequence each call dispatches.
  - The employee hierarchy derivation, the on-leave enrichment and the bootstrap.
  - The `useMyProfile` derivation and the active/inactive list filters.
- **Location.** The normalisation of browser geolocation errors, the option defaults, and the user-facing failure policy.
- **Display formatters** of `src/components/LeaveRequestList.tsx` and `src/pages/EmployeeDashboard.tsx`:
  - the 24-hour → 12-hour time label, the duration text and the time range;
  - the status badge and the cancel rule;
  - the seconds → h/m/s split, the check-in state and the live timer;
  - the capped progress, the greeting and the calendar leave label;
  - the upcoming holidays, the leave-balance warning and the avatar initials.

JavaScript semantics are modelled where they matter:

- truthiness (`""` is falsy);
- `undefined` and `null` as distinct values, compared with `===`;
- `parseInt`, and the truncating `%`;
- `Math.floor` and `Math.round`;
- number-to-string conversion.

Network answers, the browser's geolocation answer and the current time are parameters.

| file | modules |
|---|---|
| base.dfy, numbers.dfy, text.dfy | `Base`, `Numbers`, `Text`: options, nullable values, list helpers, JavaScript number and string helpers |
| refresh_queue.dfy | `RefreshQueue`: requests, errors and `processQueue` shared by both interceptors |
| api_client.dfy, auth_api.dfy | `ApiClient`, `AuthApi`: the session gateway and the auth endpoints |
| error_interceptor.dfy | `ErrorInterceptor`: the store-backed 401 interceptor |
| auth_types.dfy, auth_slice.dfy, store_auth_slice.dfy | `AuthTypes`, `AuthSlice`, `StoreAuthSlice` |
| permissions.dfy, routing.dfy, gates.dfy | `Permissions`, `Routing`, `Gates` |
| attendance_slice.dfy, attendance_hooks.dfy | `AttendanceSlice`, `AttendanceHooks` |
| employee_slice.dfy, employee_hooks.dfy, use_employee.dfy | `EmployeeTypes`, `EmployeeSlice`, `EmployeeHooks`, `EmployeeList`, `UseEmployee`, `AdminEmployeeList` |
| geo.dfy, geo_policy.dfy | `Geo`, `GeoPolicy` |
| leave_request_list.dfy, employee_dashboard.dfy | `LeaveRequestList`, `EmployeeDashboard` |

## Model

| member | source | states |
|---|---|---|
| Base.ToOption | src/api/client.ts:109-110 | storing `undefined` or `null` leaves no value, a string is stored as it is, and the stored value is truthy exactly when the given one is, so the decorator's `if (accessToken)` sees the same truthiness |
| Numbers.ParseInt | src/components/LeaveRequestList.tsx:33 | `parseInt(s, 10)` is `NaN` exactly when, after leading whitespace and one sign, no digit follows |
| Numbers.ParseIntOfDigits | src/components/LeaveRequestList.tsx:33 | any run of digits, leading zeros included, followed by a non-digit or nothing, parses to the value of the digits |
| Numbers.NatToStringRoundTrip | src/components/LeaveRequestList.tsx:36-37 | reading back the numeral `${n}` of a whole number gives n |
| Text.Split | src/components/LeaveRequestList.tsx:32 | `split` on one character gives at least one part and no part contains the separator |
| Text.JoinSplit | src/components/LeaveRequestList.tsx:32-56 | joining the parts of a split with the same separator restores the text |
| Text.SplitJoin | src/components/LeaveRequestList.tsx:32-56 | splitting a join of separator-free parts gives the parts back |
| RefreshQueue.WithAuthorization | src/api/client.ts:95-97 | setting the bearer header changes that header only; URL, retry mark and every other header are kept |
| RefreshQueue.ProcessQueue | src/api/client.ts:62-68 | every waiter is settled in queue order, the same way, and none is dropped from the result |
| RefreshQueue.SettleOneCases | src/api/client.ts:62-68 | a waiter is rejected iff there is an error; it is resolved iff there is no error and the token is truthy; otherwise it is left pending |
| ApiClient.SetToken | src/api/client.ts:33-35 | the token is replaced and nothing else in the gateway changes |
| ApiClient.SetCompanyId | src/api/client.ts:38-40 | the company is replaced and nothing else in the gateway changes |
| ApiClient.Decorate | src/api/client.ts:44-52 | a truthy token gives `Authorization: Bearer <token>`; a truthy company gives `x-company-id`; every other header, the URL and the retry mark are untouched |
| ApiClient.DecorateIdempotent | src/api/client.ts:44-52 | decorating twice equals decorating once |
| ApiClient.SetTokenThenDecorate | src/api/client.ts:33-52 | after setting a token, a fresh request carries exactly `Bearer <token>`; with no token it carries no `Authorization` header |
| ApiClient.OnResponseError | src/api/client.ts:70-104 | rejected unchanged iff not a 401, already retried, or aimed at a refresh/login/logout URL; otherwise marked retried, then queued iff a refresh is in flight, else it starts one; the gateway invariant is preserved |
| ApiClient.AtMostOneRetry | src/api/client.ts:76-78 | a request already marked retried is passed through and changes no state, whatever its status |
| ApiClient.OnRefreshSucceeded | src/api/client.ts:106-123 | the new token is stored; with a truthy token every waiter resumes carrying `Bearer <token>`, otherwise every waiter is left pending; the initiator is replayed with the new bearer header; the queue ends empty and the flag cleared |
| ApiClient.OnRefreshFailed | src/api/client.ts:114-123 | every waiter is rejected with the refresh error; token and company are cleared; the error reaches the original caller; the gateway is back to its initial state |
| ApiClient.ReplaysAreNotRetried | src/api/client.ts:90-113 | every request sent again after a refresh carries the retry mark, so a later 401 on it is passed through |
| ApiClient.SingleFlight | src/api/client.ts:92-104 | over any burst of 401s, at most one refresh starts: exactly one if none was in flight and some 401 is intercepted, none otherwise; every other intercepted request joins the queue |
| AuthApi.Login | src/api/auth.api.ts:11-22 | a resolved login stores the response's `accessToken` as a setter stores a possibly missing value (`undefined` or `null` clears it); it replaces the company only when the response names a truthy one; a rejected login changes nothing |
| AuthApi.Me | src/api/auth.api.ts:24-31 | only a response with a truthy company changes the gateway, and then only the company |
| AuthApi.Refresh | src/api/auth.api.ts:33-40 | a resolved refresh stores the response's token, whatever it is |
| AuthApi.LoginStoresAsRefresh | src/api/auth.api.ts:11-40 | login and refresh store a response's `accessToken` identically, for every gateway and response |
| AuthApi.Logout | src/api/auth.api.ts:42-51 | token and company end cleared whether or not the call threw; the interceptor state is untouched |
| AuthApi.OnlyMeCanTriggerRefresh | src/api/auth.api.ts:11-51 | of the four auth calls, only `me` both goes through the intercepted client and escapes the URL exemption; the other three have exempt URLs |
| AuthApi.Next | src/api/client.ts:70-123 | every gateway event preserves the gateway invariant |
| AuthApi.RunKeepsValid | src/api/client.ts:92-123 | along every trace the invariant holds, and refreshes started equal refreshes settled plus the one possibly still in flight |
| AuthApi.SingleFlightFromStart | src/api/client.ts:92-123 | from process start, at most one refresh call started by the interceptor is ever outstanding; `authApi.refresh` is not counted |
| AuthApi.ThreeConcurrentUnauthorized | src/api/client.ts:70-123 | three concurrent 401s cause one refresh; afterwards all three requests go out with `Bearer B` and the retry mark |
| AuthApi.FailedRefreshSendsAnonymously | src/api/client.ts:114-120 | after a failed refresh a new request carries neither an `Authorization` nor an `x-company-id` header |
| ErrorInterceptor.OnResponseError | src/lib/api/error.interceptor.ts:25-48 | passed through iff not a 401 or already retried (there is no URL exemption); otherwise marked retried, then queued iff refreshing, else it starts a refresh; the invariant is preserved |
| ErrorInterceptor.OnRefreshResponse | src/lib/api/error.interceptor.ts:48-77 | a truthy token dispatches `setAccessToken`, sets the default header, resumes every waiter with the bearer header and replays the original; a missing token rejects every waiter and the original with the original 401 and dispatches nothing; the flag ends cleared |
| ErrorInterceptor.OnRefreshError | src/lib/api/error.interceptor.ts:72-77 | every waiter is rejected with the refresh error; nothing is dispatched; the default header is kept; the flag is cleared |
| ErrorInterceptor.RefreshPublishesToken | src/lib/api/error.interceptor.ts:63-66 | after a successful refresh the auth store differs from before only in holding the new token |
| ErrorInterceptor.FailureLeavesStore | src/lib/api/error.interceptor.ts:57-77 | a failed refresh, by error or by a missing token, leaves the auth store unchanged |
| ErrorInterceptor.SettledIsIdle | src/lib/api/error.interceptor.ts:75-77 | after either outcome the next intercepted 401 starts a fresh refresh |
| AuthSlice.Reduce | src/modules/auth/slice.ts:17-45 | each action changes exactly its fields: loading changes only the status, setAccessToken only the token, setUser sets user and authenticated keeping the token, setUnauthenticated and logout clear everything; the invariant is preserved |
| AuthSlice.SetUnauthenticatedIsLogout | src/modules/auth/slice.ts:34-44 | `setUnauthenticated` and `logout` give the same state |
| AuthSlice.RunKeepsInv | src/modules/auth/slice.ts:11-44 | every action sequence preserves the invariant |
| AuthSlice.Reachable | src/modules/auth/slice.ts:11-44 | every state reachable from the initial one satisfies the invariant; authenticated implies a user |
| StoreAuthSlice.Reduce | src/store/auth.slice.ts:21-36 | startLoading changes only the status; setUser gives the user and authenticated; clearAuth gives no user and unauthenticated; the invariant is preserved |
| StoreAuthSlice.RunKeepsInv | src/store/auth.slice.ts:16-35 | every action sequence preserves the invariant |
| StoreAuthSlice.Reachable | src/store/auth.slice.ts:16-35 | every reachable state satisfies the invariant; authenticated implies a user |
| Permissions.FromName | src/utils/permissions.ts:9-20 | a string read as a permission is that permission's name |
| Permissions.NameRoundTrip | src/utils/permissions.ts:9-20 | every permission is read back from its name, so the names are distinct |
| Permissions.GetUserPermissions | src/utils/permissions.ts:74-79 | no role gives no permissions; a role gives its row of the table |
| Permissions.HasPermission | src/utils/permissions.ts:84-96 | holds iff there is a role and the permission is in its row |
| Permissions.HasPermissionByRank | src/utils/permissions.ts:26-68 | the table agrees, in both directions, with an independent chain description: a role holds a permission iff its rank reaches the permission's minimum rank |
| Permissions.NoRoleNoPermission | src/utils/permissions.ts:74-96 | without a role the list is empty and nothing is granted |
| Permissions.Nested | src/utils/permissions.ts:26-68 | Employee ⊆ HR ⊆ CompanyAdmin ⊆ SuperAdmin |
| Permissions.CompanyManageOnlySuperAdmin | src/utils/permissions.ts:26-68 | `company.manage` is held iff the role is SuperAdmin |
| Permissions.SuperAdminHoldsAll | src/utils/permissions.ts:26-39 | SuperAdmin holds every permission |
| Permissions.EmployeeLacksAdminAccess | src/utils/permissions.ts:63-67 | an employee lacks `admin.access` and holds exactly the view permissions |
| Routing.DashboardRoute | src/utils/dashboard.ts:4-15 | SuperAdmin goes to `/super-admin`, CompanyAdmin and HR to `/admin`, Employee to `/employee`, no role to `/` |
| Routing.Resolve | src/app/routes.tsx:17-62 | the guard of a matched page is that page's branch guard; every matched page is reached by exactly its own path |
| Routing.ResolvePathOf | src/app/routes.tsx:17-62 | every page except the catch-all is reached by its own path with its own guard, so paths and pages are in bijection |
| Routing.NotFoundIffUnmatched | src/app/routes.tsx:61 | the catch-all is shown only for a path that is no page's path |
| Routing.AdminSubtreeGuarded | src/app/routes.tsx:32-48 | `/admin` and every route below it require `admin.access` |
| Routing.DashboardRouteResolves | src/utils/dashboard.ts:4-15 | every landing route is a real page; it is the gate at `/` iff there is no role |
| Gates.RequirePermission | src/guards/RequirePermission.tsx:12-28 | children render iff authenticated with the permission; nothing renders iff idle or loading; every redirect goes to `/` |
| Gates.NoRoleIsRedirected | src/guards/RequirePermission.tsx:23-25 | an authenticated user with no role is redirected by every guard |
| Gates.AuthGate | src/pages/AuthGate.tsx:13-28 | idle or loading shows the initializing screen; unauthenticated shows login; it navigates iff authenticated with a role, and then to that role's landing route |
| Gates.LandingRouteAdmitsRole | src/utils/dashboard.ts:4-15 | the guard on every role's landing route admits that role |
| Gates.LandingIsStable | src/utils/dashboard.ts:4-15 | a signed-in user on their landing route is not sent anywhere else |
| Gates.FromRoot | src/pages/AuthGate.tsx:13-17 | from `/`, a signed-in user with a role is sent to their landing route; anyone else stays |
| Gates.NavigationSettles | src/app/routes.tsx:17-62 | from any path, at most two navigations reach a location with no further redirect; a signed-in user with a role never ends on the gate; an unauthenticated user ends where they started or at `/` |
| Gates.NoRedirectLoopFromStore | src/modules/auth/slice.ts:11-44 | for every session the auth store can reach, an authenticated user settles within two navigations on a page other than the gate |
| Gates.NoRedirectLoopFromStoreSlice | src/store/auth.slice.ts:16-35 | the same for the store-level auth slice |
| AttendanceSlice.Reduce | src/modules/attendance/slice.ts:24-56 | each action sets its status and exactly its fields: a start clears the error, a success sets the day, an error keeps the day, a reset gives the initial state; the invariant is preserved |
| AttendanceSlice.RunAppend | src/modules/attendance/slice.ts:24-56 | dispatching two sequences in turn is dispatching their concatenation |
| AttendanceSlice.RunKeepsInv | src/modules/attendance/slice.ts:18-55 | every action sequence preserves the invariant |
| AttendanceSlice.Reachable | src/modules/attendance/slice.ts:18-55 | in every reachable state: checked in or out implies a day record, an error status implies a message, and a check in progress has no stale error |
| AttendanceSlice.ResetForgets | src/modules/attendance/slice.ts:53-55 | whatever came before, a reset gives the initial state |
| AttendanceHooks.FailureMessage | src/modules/attendance/hooks.ts:64-71 | a truthy error code gives the location policy's message; anything else gives the generic text |
| AttendanceHooks.CheckIn | src/modules/attendance/hooks.ts:29-72 | nothing is dispatched while checking in or checked in; with no employee only the context error is dispatched; otherwise `startCheckIn` then a PRESENT success record or the failure message |
| AttendanceHooks.CheckOut | src/modules/attendance/hooks.ts:91-135 | outside checked-in only the "check in first" error is dispatched; with no employee only the context error; otherwise `startCheckOut` then the success record or the failure message |
| AttendanceHooks.CheckInEffect | src/modules/attendance/hooks.ts:29-72 | run against the reducer, a check-in past its guards ends checked in iff there is an employee and the call succeeded; otherwise it ends in error keeping the day; the status guard changes nothing |
| AttendanceHooks.CheckOutEffect | src/modules/attendance/hooks.ts:91-135 | a check-out ends checked out iff it began checked in with an employee and succeeded; otherwise it ends in error keeping the day |
| AttendanceHooks.FailureReportsPolicyMessage | src/modules/attendance/hooks.ts:64-71 | a coded failure stores the policy message for that code; an uncoded one stores "Check-in failed" |
| AttendanceHooks.CodedApiFailureGetsLocationMessage | src/modules/attendance/hooks.ts:64-71 | as written, a coded error that is not a location code, such as an HTTP client error, stores the policy's generic location message instead of "Check-in failed" |
| AttendanceHooks.IntendedFailureMessage | src/modules/attendance/hooks.ts:64-69 | corrected: the policy's message only for one of the location codes, the generic text for every other failure |
| AttendanceHooks.IntendedFailureAgrees | src/modules/attendance/hooks.ts:64-69 | the corrected message differs from the one as written exactly for a truthy code that is not a location code; an `ERR_BAD_REQUEST` failure reads "Check-in failed" |
| AttendanceHooks.CheckInThenOut | src/modules/attendance/hooks.ts:29-135 | from a fresh store, a successful check-in then check-out ends checked out with the check-out record and no error |
| EmployeeSlice.Reduce | src/modules/employee/slice.ts:21-54 | a start sets loading and clears the error; a success sets its field and stops loading; an error keeps profile and hierarchy; a reset gives the initial state; the invariant is preserved |
| EmployeeSlice.RunKeepsInv | src/modules/employee/slice.ts:14-53 | every action sequence preserves "loading implies no error" |
| EmployeeSlice.Reachable | src/modules/employee/slice.ts:14-53 | every reachable state satisfies "loading implies no error" |
| EmployeeSlice.ErrorsKeepData | src/modules/employee/slice.ts:46-49 | any run of errors keeps profile and hierarchy, and shows the last message |
| EmployeeHooks.BuildHierarchy | src/modules/employee/hooks.ts:23-50 | self is the first entry with the user's id; the manager is the first entry with the manager id, or none when it is falsy; reportees and peers are exactly the entries whose manager id is the user / equals the user's manager id with the user excluded |
| EmployeeHooks.HierarchyKeepsOrder | src/modules/employee/hooks.ts:34-42 | peers and reportees keep the input order |
| EmployeeHooks.PeersOfTopLevel | src/modules/employee/hooks.ts:38-42 | with an undefined manager id the peers are the others whose manager id is undefined, never null, and never the user |
| EmployeeHooks.Enrich | src/modules/employee/hooks.ts:78-86 | length, order and every other field are kept; the on-leave flag is set iff the id is on leave today |
| EmployeeHooks.LeaveSet | src/modules/employee/hooks.ts:77-79 | the set holds exactly the ids listed |
| EmployeeHooks.EnrichFilter | src/modules/employee/hooks.ts:78-86 | enriching commutes with any filter that ignores the on-leave flag |
| EmployeeHooks.EnrichFind | src/modules/employee/hooks.ts:78-86 | enriching commutes with any search that ignores the on-leave flag |
| EmployeeHooks.EnrichedHierarchy | src/modules/employee/hooks.ts:78-90 | enriching before building the hierarchy puts the same people in the same places |
| EmployeeHooks.LoadEmployeeContext | src/modules/employee/hooks.ts:63-99 | it always starts with `fetchEmployeeStart`; a failed profile call dispatches the error; a failed list call dispatches the profile then the error; success dispatches the profile, then the hierarchy built from the enriched list |
| EmployeeHooks.Bootstrap | src/modules/employee/hooks.ts:101-105 | it dispatches nothing iff a profile is already stored |
| EmployeeHooks.BootstrapEffect | src/modules/employee/hooks.ts:63-105 | a bootstrap ends not loading: full success stores the profile and the enriched hierarchy; a failure stores the error and keeps the old hierarchy; afterwards the guard would let a later bootstrap dispatch again iff the profile call failed |
| EmployeeList.InitialList | src/hooks/useEmployee.ts:65-68 | an empty list, no error, inactive hidden, loading as the hook starts it |
| EmployeeList.StepList | src/hooks/useEmployee.ts:70-97 | a start sets loading and clears the error; a success replaces the list; a failure keeps the list and sets the message; a toggle flips only the filter; "loading implies no error" is preserved |
| EmployeeList.RunListKeepsInv | src/hooks/useEmployee.ts:70-82 | every event sequence preserves "loading implies no error" |
| EmployeeList.ToggleTwice | src/hooks/useEmployee.ts:97 | toggling twice restores the state |
| EmployeeList.Visible | src/hooks/useEmployee.ts:88-90 | with inactive shown, every employee; otherwise exactly the active ones |
| EmployeeList.AllActiveShowsAll | src/hooks/useEmployee.ts:88-90 | when every employee is active the filter changes nothing |
| EmployeeList.LoadCycle | src/hooks/useEmployee.ts:70-82 | one load from any state, whatever error it showed, ends not loading with the filter untouched; a success shows exactly the fetched list and no error; a failure keeps the list already shown and shows the message |
| UseEmployee.MyHierarchy | src/hooks/useEmployee.ts:33-46 | the manager is the first entry whose id is the profile's manager id, or none; no peers without a manager id, otherwise exactly the entries with the same manager and another id; reportees are exactly the entries managed by the profile |
| UseEmployee.LoadProfile | src/hooks/useEmployee.ts:21-52 | success stores the profile and its hierarchy and clears the error; failure keeps what was shown and sets the message; loading ends false |
| UseEmployee.HierarchySelfIsProfile | src/hooks/useEmployee.ts:46 | the hierarchy's self is the fetched profile |
| UseEmployee.EmployeeListMount | src/hooks/useEmployee.ts:64-68 | on mount the list is loading, inactive hidden, nothing shown |
| AdminEmployeeList.AdminListLoad | src/modules/employee/hooks.admin.ts:18-57 | it starts idle with inactive hidden; after a load it shows exactly the active employees in order, and after a toggle all of them |
| Geo.CodeFromName | src/utils/geo.ts:9-14 | a string read as a code is that code's name |
| Geo.CodeNameRoundTrip | src/utils/geo.ts:9-14 | every code is read back from its name |
| Geo.NormalizeGeoError | src/utils/geo.ts:30-53 | browser codes 1, 2, 3 become the same-named app codes, any other code becomes UNKNOWN, and UNSUPPORTED is never produced |
| Geo.ResolveOptions | src/utils/geo.ts:69-73 | each missing option takes its default (high accuracy, 10000 ms, 0) and each given one is passed through |
| Geo.GetCurrentLocation | src/utils/geo.ts:59-97 | without a geolocation API it rejects with UNSUPPORTED and the browser is never asked; otherwise the browser is asked once with the resolved options and its answer is passed on, errors normalised |
| Geo.DefaultRequest | src/utils/geo.ts:69-73 | called without options it asks for a fresh high-accuracy fix with a ten-second timeout |
| GeoPolicy.MapGeoErrorToAppError | src/utils/geoPolicy.ts:16-63 | BLOCK iff UNSUPPORTED; REQUEST_PERMISSION iff PERMISSION_DENIED; RETRY iff POSITION_UNAVAILABLE or TIMEOUT; FAIL with code UNKNOWN iff any other string; the four named codes are kept |
| GeoPolicy.PolicyKeepsCode | src/utils/geoPolicy.ts:16-63 | every app code keeps its code through the policy |
| GeoPolicy.BrowserErrorsNeverBlock | src/utils/geoPolicy.ts:18-24 | a normalised browser error is never BLOCK |
| GeoPolicy.BlockIffUnsupported | src/utils/geo.ts:62-67 | along `getCurrentLocation`, a rejection is BLOCK iff the device has no geolocation API |
| LeaveRequestList.ClockHour | src/components/LeaveRequestList.tsx:36 | a 24-hour value gives a clock hour from 1 to 12 |
| LeaveRequestList.ClockHourRoundTrip | src/components/LeaveRequestList.tsx:35-36 | the clock hour together with AM/PM gives back the 24-hour value |
| LeaveRequestList.Hour12OfClock | src/components/LeaveRequestList.tsx:36 | on whole hours 0-23, the label's hour arithmetic equals the clock hour |
| LeaveRequestList.LabelOfClock | src/components/LeaveRequestList.tsx:35-37 | the label is the clock hour, the minutes, then AM below 12 and PM from 12 |
| LeaveRequestList.ParseNumeral | src/components/LeaveRequestList.tsx:33 | `parseInt` reads back any printed whole number |
| LeaveRequestList.FormatTimeLabel | src/components/LeaveRequestList.tsx:31-38 | the label always ends in " AM" or " PM", PM exactly when the text before the first colon reads as twelve or more |
| LeaveRequestList.TimeLabelOfClock | src/components/LeaveRequestList.tsx:31-38 | for `H:rest` with H any digit text, zero-padded or not, reading as an hour of the day, the label is the 12-hour clock of H, the text before the next colon, and AM/PM (0 → 12 AM, 12 → 12 PM) |
| LeaveRequestList.TimeLabelCopiesMinutes | src/components/LeaveRequestList.tsx:32-37 | for such an hour text, minutes without a colon are copied verbatim |
| LeaveRequestList.BareHourGetsZeroMinutes | src/components/LeaveRequestList.tsx:32-37 | such an hour text with no minute part gets `:00` |
| LeaveRequestList.PaddedTimes | src/components/LeaveRequestList.tsx:31-38 | the backend's `HH:mm` texts: "00:30" reads "12:30 AM", "09:05" reads "9:05 AM", "13:45" reads "1:45 PM" |
| LeaveRequestList.FormatDuration | src/components/LeaveRequestList.tsx:40-61 | FULL_DAY gives "N days" above one and "N day" otherwise; HALF_DAY and QUARTER_DAY give their fixed labels; HOURLY gives the hour/minute text; any other type gives the bare number |
| LeaveRequestList.FullDays | src/components/LeaveRequestList.tsx:42-45 | a whole number k of days reads "k days" when k > 1 and "k day" otherwise |
| LeaveRequestList.PartsOfTotal | src/components/LeaveRequestList.tsx:52-57 | the hour/minute parts of a whole number of minutes read as the reference text: zero parts omitted, "0m" when both are zero |
| LeaveRequestList.HourlyOfWholeMinutes | src/components/LeaveRequestList.tsx:50-57 | an hourly duration that is a whole number of minutes reads as the reference text for those minutes |
| LeaveRequestList.HourlyTextOfWholeMinutes | src/components/LeaveRequestList.tsx:50-57 | the same statement for the real-valued hour count |
| LeaveRequestList.HourlyMinutes | src/components/LeaveRequestList.tsx:51-52 | the minutes shown are between 0 and 60, and together with the hours make the rounded total |
| LeaveRequestList.SixtyMinutesShown | src/components/LeaveRequestList.tsx:50-57 | as written, 1.995 hours reads "1h 60m" |
| LeaveRequestList.HourlyCarried | src/components/LeaveRequestList.tsx:50-57 | the carried text splits the rounded total into hours and fewer than sixty minutes, and agrees with the text as written whenever that text shows fewer than sixty minutes |
| LeaveRequestList.CarriedAgrees | src/components/LeaveRequestList.tsx:50-57 | the same statement for the real-valued hour count |
| LeaveRequestList.HourlyLabelCarried | src/components/LeaveRequestList.tsx:50-57 | the corrected hourly text: for a non-negative rounded total of minutes it is the reference text of that total |
| LeaveRequestList.CarriedOfTotal | src/components/LeaveRequestList.tsx:50-57 | the carried text of a whole number of minutes is the reference text |
| LeaveRequestList.FormatTimeRange | src/components/LeaveRequestList.tsx:63-68 | a range exists iff both times are truthy; it is the start label, then " – ", then the end label |
| LeaveRequestList.TimeRangeOfClock | src/components/LeaveRequestList.tsx:31-68 | two `H:mm` times, zero-padded or not, give their 12-hour labels joined by " – " |
| LeaveRequestList.StatusBadge | src/components/LeaveRequestList.tsx:21-29 | an unknown status falls back to the CANCELLED badge; the default colour appears iff the status is unknown or CANCELLED |
| LeaveRequestList.BadgesDistinct | src/components/LeaveRequestList.tsx:21-29 | distinct known statuses get distinct badges |
| LeaveRequestList.ShowCancel | src/components/LeaveRequestList.tsx:184 | the cancel action shows iff there is a handler and the status has the PENDING badge |
| EmployeeDashboard.FormatTime | src/pages/EmployeeDashboard.tsx:290-295 | for a non-negative total, minutes and seconds are below 60 and hours are non-negative |
| EmployeeDashboard.FormatTimeDecomposes | src/pages/EmployeeDashboard.tsx:290-295 | for a non-negative total, h·3600 + m·60 + s is the total, and it is the only such split with m and s below 60 |
| EmployeeDashboard.NegativeTotal | src/pages/EmployeeDashboard.tsx:290-295 | a negative total splits into negative parts that do not add back up: -1 gives -1h -1m -1s |
| EmployeeDashboard.FormatMinutesSplits | src/pages/EmployeeDashboard.tsx:306-310 | minutes read "Xh Ym" with X·60 + Y the minutes and Y below 60 |
| EmployeeDashboard.FormatTimeStrOfClock | src/pages/EmployeeDashboard.tsx:290-304 | a total of h hours, m < 60 minutes and s < 60 seconds reads `<h>h <m>m`, followed by ` <s>s` when seconds are asked for |
| EmployeeDashboard.MinutesAgreeWithSeconds | src/pages/EmployeeDashboard.tsx:297-310 | formatting minutes agrees with formatting the same number of seconds without the seconds part |
| EmployeeDashboard.IsCheckedIn | src/pages/EmployeeDashboard.tsx:282-288 | checked in only when there are events |
| EmployeeDashboard.LastEventDecides | src/pages/EmployeeDashboard.tsx:282-288 | checked in iff the last event is a check-in; no events means not checked in |
| EmployeeDashboard.ElapsedSeconds | src/pages/EmployeeDashboard.tsx:267-273 | the live part of the timer is the number of whole seconds since the check-in instant |
| EmployeeDashboard.TimerCounts | src/pages/EmployeeDashboard.tsx:260-280 | the live timer is the recorded minutes plus the whole seconds since check-in and never runs backwards; off the clock `currentDisplaySeconds` shows the recorded minutes, or zero without any |
| EmployeeDashboard.Progress | src/pages/EmployeeDashboard.tsx:362-365 | progress is at most 100, and is 100 iff eight hours are reached |
| EmployeeDashboard.ProgressMonotone | src/pages/EmployeeDashboard.tsx:362-365 | more time never lowers progress |
| EmployeeDashboard.ProgressBelowTarget | src/pages/EmployeeDashboard.tsx:362-365 | below the target, progress is the exact share of eight hours |
| EmployeeDashboard.Greeting | src/pages/EmployeeDashboard.tsx:368-373 | Good Morning iff before 12, Good Afternoon iff 12-16, Good Evening iff 17 or later |
| EmployeeDashboard.DateKey | src/pages/EmployeeDashboard.tsx:378-380 | a day has a key iff it has a date |
| EmployeeDashboard.GetLeaveLabel | src/pages/EmployeeDashboard.tsx:376-404 | the first active request whose date range covers the day decides the label; with none, "Partial" when minutes were worked, else "Leave" |
| EmployeeDashboard.LeaveKindLabel | src/pages/EmployeeDashboard.tsx:392-403 | "Leave" exactly for an unknown duration type; half and quarter days read as in the leave list; an hourly leave ends in "h Leave" |
| EmployeeDashboard.InactiveIgnored | src/pages/EmployeeDashboard.tsx:379-384 | requests that are neither approved nor pending never affect the label |
| EmployeeDashboard.FirstMatchWins | src/pages/EmployeeDashboard.tsx:379-384 | later requests never override an earlier covering one |
| EmployeeDashboard.NoDateNoLeave | src/pages/EmployeeDashboard.tsx:376-404 | a day without a date gets only the fallback labels |
| EmployeeDashboard.TimeOfDayIgnored | src/pages/EmployeeDashboard.tsx:378-380 | only the first ten characters of the date matter |
| EmployeeDashboard.UpcomingHolidays | src/pages/EmployeeDashboard.tsx:318-324 | at most three, each an upcoming holiday of the list, in list order |
| EmployeeDashboard.UpcomingLeftOutOnlyWhenFull | src/pages/EmployeeDashboard.tsx:318-324 | an upcoming holiday is left out only when three are already shown |
| EmployeeDashboard.PastHolidaysIgnored | src/pages/EmployeeDashboard.tsx:318-324 | appending past holidays changes nothing |
| EmployeeDashboard.UsedPercent | src/pages/EmployeeDashboard.tsx:1070-1075 | 0 when nothing is allocated, otherwise the exact share used, in percent |
| EmployeeDashboard.IsLow | src/pages/EmployeeDashboard.tsx:1074-1075 | low iff something is allocated and less than a fifth remains, stated without the division |
| EmployeeDashboard.LowIffMostlyUsed | src/pages/EmployeeDashboard.tsx:1070-1075 | low iff something is allocated and more than 80 percent is used |
| EmployeeDashboard.Initials | src/pages/EmployeeDashboard.tsx:173-178 | at most two characters, none a lower-case letter |
| EmployeeDashboard.InitialsOfName | src/pages/EmployeeDashboard.tsx:173-178 | "first rest…" gives the upper-cased first letters of the first two words |

## Left out

- **Not modelled at all.** The following are outside the model and have no operational content:
  - JSX rendering and styling;
  - the axios instances and their timeouts and credentials;
  - the environment-variable check at import time;
  - real promises, `setInterval`, `Date` and dayjs week arithmetic;
  - the REST wrappers, whose answers are parameters of the model.
- **Store wiring.** src/store/store.ts is not part of this model. Which auth reducer the running store mounts is therefore taken from src/store/rootReducer.ts (`state.auth` is src/modules/auth/slice.ts). The redirect-loop theorem is stated for both auth slices.
- **Headers and routing.**
  - Header names are compared exactly. axios's case-insensitive header lookup is not modelled.
  - React Router's case-insensitive and trailing-slash matching is not modelled. Paths match exactly as written in the table.
- **Refresh calls.**
  - `authApi.refresh` (src/api/auth.api.ts:33-40) also posts to `/api/auth/refresh`. It is modelled as one `Refreshed` event, so the time it spends in flight is not modelled, nor its overlap with a refresh the interceptor started.
  - Resend: waiters resolved by the store-backed interceptor are returned as the request to resend. The client's own request decorators, which run again on that resend, are not applied in that module.
  - The refresh call's own network behaviour, and the `withCredentials` cookie, are parameters (`newToken`, `reason`).
- **Hooks.** The hooks read the status and employee id captured at render. Two overlapping calls from the same render are not modelled; each call is modelled from the values it captured.
- **Numbers.**
  - Floating-point arithmetic is modelled exactly. Durations and balances are exact decimals or reals, so binary rounding noise, exponent notation in number-to-string, and NaN or Infinity from division are not modelled.
  - `parseInt` is modelled for ASCII whitespace, an optional sign and decimal digits only.
  - `toUpperCase` is modelled for ASCII letters only.
- **Strings.** Strings are sequences of Unicode code points. JavaScript indexes and slices them by UTF-16 code unit, so for a name starting with a character outside the Basic Multilingual Plane, `n[0]` and `.slice(0, 2)` in the avatar initials (src/pages/EmployeeDashboard.tsx:173-178) give a lone surrogate in the source and the whole character in EmployeeDashboard.Initials. Indexing per UTF-16 unit is not modelled, and the relational operators on strings compare code points rather than UTF-16 units (the source compares ISO date strings, which are ASCII, and on ASCII the two orders agree).
- **Timer.** ElapsedSeconds and DisplaySeconds take times in milliseconds as integers. An invalid check-in timestamp (NaN) is not modelled. The recorded `totalMinutes` is an integer: the declared type is `number` (src/types/attendance.types.ts:15,31), and fractional minutes are not modelled.
- **Roles.** `Role` is a closed datatype of the four members of the `UserRole` union. A role string outside the union cannot be expressed, so the source's handling of one is not modelled: the `?? []` of src/utils/permissions.ts:78 and the `default` route `/` of src/utils/dashboard.ts:13-14. A missing role is modelled.
- **Leave requests.**
  - FormatTimeRange reads `startTime` and `endTime` from a leave request. The declared request type has neither field, so they are modelled as optional strings.
  - StatusBadge: lookups of inherited object keys such as `constructor` in the status table are not modelled. Every status outside the four named ones takes the fallback.
- **Geolocation.** Coordinates are carried as opaque values; nothing is computed with them.
- SingleFlightFromStart: counts only refresh calls the interceptor starts. The call `authApi.refresh` makes is not counted, so the lemma does not say that at most one `/api/auth/refresh` request of any origin is outstanding.

## Findings

| source | as written | input that shows it | evidently intended | confidence | as-written member | corrected member |
|---|---|---|---|---|---|---|
| src/modules/attendance/hooks.ts:64-69 | the catch block sends every error with a truthy `code` through the location policy; HTTP client errors carry such a code too | a check-in whose API call is rejected with code `ERR_BAD_REQUEST` stores "An unexpected location error occurred." | location codes go through the policy, any other failure gets "Check-in failed" | medium, not executed | AttendanceHooks.CodedApiFailureGetsLocationMessage | AttendanceHooks.IntendedFailureAgrees |
| src/components/LeaveRequestList.tsx:50-57 | the HOURLY text rounds the fractional minutes after taking whole hours, so a fraction that rounds up to sixty minutes is shown as "60m" | durationValue 1.995 with type HOURLY reads "1h 60m" | the rounded minutes carried into the hours: "2h" | medium, not executed | LeaveRequestList.SixtyMinutesShown | LeaveRequestList.HourlyCarried |

The component as modelled (`LeaveRequestList.FormatDuration`) keeps the behaviour as written. `LeaveRequestList.HourlyLabelCarried` is the corrected text. `LeaveRequestList.HourlyCarried` proves two things about it:

- it never shows sixty minutes or more;
- it agrees with the text as written whenever that text shows fewer than sixty minutes.

`LeaveRequestList.CarriedOfTotal` proves that it equals the reference text for every whole number of minutes.

For the attendance hooks, `AttendanceHooks.CheckIn` and `AttendanceHooks.CheckOut` also keep the behaviour as written. `AttendanceHooks.IntendedFailureMessage` is the corrected message. `AttendanceHooks.IntendedFailureAgrees` proves that it differs from the message as written exactly for a truthy code that is not a location code, and that an `ERR_BAD_REQUEST` failure then reads "Check-in failed".
