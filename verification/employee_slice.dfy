/** The employee records of src/modules/employee/types.ts and the employee
    reducer of src/modules/employee/slice.ts. */
module EmployeeTypes {
  import opened Base

  /** `EmployeeMini`, with the `managerId` the list endpoint also sends (the
      hierarchy code reads it through an `any` cast). */
  datatype EmployeeMini = EmployeeMini(
    id: string,
    name: string,
    designation: Option<string>,
    team: Option<string>,
    isOnLeaveToday: Option<bool>,
    isActive: bool,
    managerId: Nullable)

  /** `EmployeeProfile`, reduced to what the client reads. */
  datatype EmployeeProfile = EmployeeProfile(
    id: string,
    email: string,
    name: string,
    isActive: bool,
    managerId: Nullable)

  /** `EmployeeHierarchy` as `buildHierarchy` fills it: `self` is the list
      entry found for the user, or undefined. */
  datatype EmployeeHierarchy = EmployeeHierarchy(
    self: Option<EmployeeMini>,
    manager: Option<EmployeeMini>,
    peers: seq<EmployeeMini>,
    reportees: seq<EmployeeMini>)
}

module EmployeeSlice {
  import opened Base
  import opened EmployeeTypes

  datatype State = State(
    profile: Option<EmployeeProfile>,
    hierarchy: Option<EmployeeHierarchy>,
    loading: bool,
    error: Option<string>)

  const Initial := State(None, None, false, None)

  datatype Action =
    | FetchEmployeeStart
    | FetchEmployeeProfileSuccess(profile: EmployeeProfile)
    | FetchEmployeeHierarchySuccess(hierarchy: EmployeeHierarchy)
    | EmployeeError(message: string)
    | ResetEmployeeState

  /** A fetch in progress never shows a stale error. */
  predicate Inv(s: State) {
    s.loading ==> s.error.None?
  }

  function Reduce(s: State, a: Action): (r: State)
    ensures a.FetchEmployeeStart? ==> r == s.(loading := true, error := None)
    ensures a.FetchEmployeeProfileSuccess? ==> r == s.(profile := Some(a.profile), loading := false)
    ensures a.FetchEmployeeHierarchySuccess? ==> r == s.(hierarchy := Some(a.hierarchy), loading := false)
    ensures a.EmployeeError? ==> r == s.(loading := false, error := Some(a.message))
    ensures a.ResetEmployeeState? ==> r == Initial
    ensures Inv(s) ==> Inv(r)
  {
    match a
    case FetchEmployeeStart => s.(loading := true, error := None)
    case FetchEmployeeProfileSuccess(p) => s.(profile := Some(p), loading := false)
    case FetchEmployeeHierarchySuccess(h) => s.(hierarchy := Some(h), loading := false)
    case EmployeeError(m) => s.(loading := false, error := Some(m))
    case ResetEmployeeState => Initial
  }

  function Run(s: State, actions: seq<Action>): State
    decreases |actions|
  {
    if actions == [] then s else Run(Reduce(s, actions[0]), actions[1..])
  }

  lemma {:induction false} RunKeepsInv(s: State, actions: seq<Action>)
    requires Inv(s)
    ensures Inv(Run(s, actions))
    decreases |actions|
  {
    if actions != [] {
      RunKeepsInv(Reduce(s, actions[0]), actions[1..]);
    }
  }

  /** Every state reachable from the initial one satisfies the invariant. */
  lemma Reachable(actions: seq<Action>)
    ensures Inv(Run(Initial, actions))
  {
    RunKeepsInv(Initial, actions);
  }

  /** Only a success or a reset ever replaces the profile or the hierarchy: an
      error keeps what was loaded before. */
  lemma {:induction false} ErrorsKeepData(s: State, messages: seq<string>)
    ensures var r := Run(s, ErrorActions(messages));
            r.profile == s.profile && r.hierarchy == s.hierarchy
            && (messages != [] ==> !r.loading && r.error == Some(messages[|messages| - 1]))
    decreases |messages|
  {
    if messages != [] {
      assert ErrorActions(messages)[1..] == ErrorActions(messages[1..]);
      ErrorsKeepData(Reduce(s, EmployeeError(messages[0])), messages[1..]);
      if |messages| > 1 {
        assert messages[1..][|messages[1..]| - 1] == messages[|messages| - 1];
      } else {
        assert ErrorActions(messages[1..]) == [];
      }
    }
  }

  function ErrorActions(messages: seq<string>): (actions: seq<Action>)
    ensures |actions| == |messages|
    ensures forall i :: 0 <= i < |actions| ==> actions[i] == EmployeeError(messages[i])
  {
    if messages == [] then [] else [EmployeeError(messages[0])] + ErrorActions(messages[1..])
  }
}
