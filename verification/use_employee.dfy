/** The component-local employee hooks: `useMyProfile` and `useEmployeeList`
    of src/hooks/useEmployee.ts over the backend's list items
    (src/types/employee.types.ts), and `useAdminEmployeeList` of
    src/modules/employee/hooks.admin.ts over `EmployeeMini`. Each hook's
    state is a record; each `setState` batch between two awaits is one event. */
module EmployeeList {
  import opened Base

  /** The load-and-filter state both list hooks keep. */
  datatype ListState<T> = ListState(items: seq<T>, loading: bool, error: Option<string>, showInactive: bool)

  datatype ListEvent<T> = LoadStarted | LoadSucceeded(data: seq<T>) | LoadFailed | ToggleInactive

  const LoadFailedMessage := "Failed to load employees"

  /** `useEmployeeList` starts loading; `useAdminEmployeeList` starts idle. */
  function InitialList<T>(loading: bool): (s: ListState<T>)
    ensures s.items == [] && s.error.None? && !s.showInactive && s.loading == loading
  {
    ListState([], loading, None, false)
  }

  /** A load never shows a stale error while it is in flight. */
  predicate ListInv<T>(s: ListState<T>) {
    s.loading ==> s.error.None?
  }

  function StepList<T>(s: ListState<T>, ev: ListEvent<T>): (r: ListState<T>)
    ensures ev.LoadStarted? ==> r == s.(loading := true, error := None)
    ensures ev.LoadSucceeded? ==> r == s.(items := ev.data, loading := false)
    ensures ev.LoadFailed? ==> r == s.(loading := false, error := Some(LoadFailedMessage))
    ensures ev.ToggleInactive? ==> r == s.(showInactive := !s.showInactive)
    ensures ListInv(s) ==> ListInv(r)
  {
    match ev
    case LoadStarted => s.(loading := true, error := None)
    case LoadSucceeded(data) => s.(items := data, loading := false)
    case LoadFailed => s.(loading := false, error := Some(LoadFailedMessage))
    case ToggleInactive => s.(showInactive := !s.showInactive)
  }

  function RunList<T>(s: ListState<T>, events: seq<ListEvent<T>>): ListState<T>
    decreases |events|
  {
    if events == [] then s else RunList(StepList(s, events[0]), events[1..])
  }

  lemma {:induction false} RunListKeepsInv<T>(s: ListState<T>, events: seq<ListEvent<T>>)
    requires ListInv(s)
    ensures ListInv(RunList(s, events))
    decreases |events|
  {
    if events != [] {
      RunListKeepsInv(StepList(s, events[0]), events[1..]);
    }
  }

  /** Toggling twice restores the filter and changes nothing else. */
  lemma ToggleTwice<T>(s: ListState<T>)
    ensures StepList(StepList(s, ToggleInactive), ToggleInactive) == s
  {
  }

  /** The list the hook returns: everything when inactive employees are shown,
      otherwise exactly the active ones, in their original order. */
  function Visible<T>(s: ListState<T>, isActive: T -> bool): (r: seq<T>)
    ensures s.showInactive ==> r == s.items
    ensures !s.showInactive ==> forall i :: 0 <= i < |r| ==> r[i] in s.items && isActive(r[i])
    ensures !s.showInactive ==> forall i :: 0 <= i < |s.items| && isActive(s.items[i]) ==> s.items[i] in r
  {
    if s.showInactive then s.items else Filter(s.items, isActive)
  }

  /** When every employee is active the filter is invisible. */
  lemma AllActiveShowsAll<T>(s: ListState<T>, isActive: T -> bool)
    requires forall i :: 0 <= i < |s.items| ==> isActive(s.items[i])
    ensures Visible(s, isActive) == s.items
  {
    if !s.showInactive {
      FilterAll(s.items, isActive);
    }
  }

  /** One `load()`: its start and its outcome. */
  lemma RunListPair<T>(s: ListState<T>, x: ListEvent<T>, y: ListEvent<T>)
    ensures RunList(s, [x, y]) == StepList(StepList(s, x), y)
  {
    var evs := [x, y];
    assert RunList(s, evs) == RunList(StepList(s, x), evs[1..]);
    assert evs[1..] == [y];
    var s1 := StepList(s, x);
    assert RunList(s1, [y]) == RunList(StepList(s1, y), [y][1..]);
    assert [y][1..] == [];
  }

  /** One `load()` from any state, whatever error it showed before, ends
      idle with the filter untouched: a success shows exactly the fetched
      list and no error; a failure keeps the list already shown and shows
      the message. */
  lemma LoadCycle<T>(s: ListState<T>, outcome: ListEvent<T>)
    requires outcome.LoadSucceeded? || outcome.LoadFailed?
    ensures var r := RunList(s, [LoadStarted, outcome]);
            && !r.loading && r.showInactive == s.showInactive
            && (outcome.LoadSucceeded? ==> r.items == outcome.data && r.error.None?)
            && (outcome.LoadFailed? ==> r.items == s.items && r.error == Some(LoadFailedMessage))
  {
    RunListPair(s, LoadStarted, outcome);
  }
}

module UseEmployee {
  import opened Base
  import opened EmployeeList

  /** `EmployeeListItem` (and `EmployeeDetail`, which only adds subordinates),
      reduced to the fields the hooks read. */
  datatype EmployeeListItem = EmployeeListItem(id: string, displayName: string, isActive: bool, managerId: Option<string>)

  datatype Hierarchy = Hierarchy(
    self: EmployeeListItem,
    manager: Option<EmployeeListItem>,
    peers: seq<EmployeeListItem>,
    reportees: seq<EmployeeListItem>)

  /** `e.id === me.managerId`: a null manager id matches no one. */
  function IsManagerOf(me: EmployeeListItem): EmployeeListItem -> bool {
    (e: EmployeeListItem) => me.managerId == Some(e.id)
  }

  function IsPeerOf(me: EmployeeListItem): EmployeeListItem -> bool {
    (e: EmployeeListItem) => e.managerId == me.managerId && e.id != me.id
  }

  function IsReporteeOf(me: EmployeeListItem): EmployeeListItem -> bool {
    (e: EmployeeListItem) => e.managerId == Some(me.id)
  }

  /** The hierarchy `useMyProfile` derives from the profile and the list. */
  function MyHierarchy(me: EmployeeListItem, all: seq<EmployeeListItem>): (h: Hierarchy)
    ensures h.self == me
    ensures h.manager.None? <==> me.managerId.None? || forall i :: 0 <= i < |all| ==> all[i].id != me.managerId.value
    ensures h.manager.Some? ==> exists i :: 0 <= i < |all| && all[i] == h.manager.value && Some(all[i].id) == me.managerId
                                   && forall j :: 0 <= j < i ==> Some(all[j].id) != me.managerId
    ensures !Truthy(me.managerId) ==> h.peers == []
    ensures forall i :: 0 <= i < |h.peers| ==> h.peers[i] in all && h.peers[i].managerId == me.managerId && h.peers[i].id != me.id
    ensures Truthy(me.managerId) ==> forall i :: 0 <= i < |all| ==>
              (all[i] in h.peers <==> all[i].managerId == me.managerId && all[i].id != me.id)
    ensures forall i :: 0 <= i < |all| ==> (all[i] in h.reportees <==> all[i].managerId == Some(me.id))
    ensures forall i :: 0 <= i < |h.reportees| ==> h.reportees[i] in all && h.reportees[i].managerId == Some(me.id)
  {
    var manager := Find(all, IsManagerOf(me));
    var peers := if Truthy(me.managerId) then Filter(all, IsPeerOf(me)) else [];
    Hierarchy(me, manager, peers, Filter(all, IsReporteeOf(me)))
  }

  datatype ProfileState = ProfileState(
    profile: Option<EmployeeListItem>,
    hierarchy: Option<Hierarchy>,
    loading: bool,
    error: Option<string>)

  const InitialProfile := ProfileState(None, None, true, None)

  const ProfileFailedMessage := "Failed to load profile"

  /** One run of `load()`: the start, then the awaited `Promise.all` of the
      own profile and the list (`None` when either call threw). */
  function LoadProfile(s: ProfileState, fetched: Option<(EmployeeListItem, seq<EmployeeListItem>)>): (r: ProfileState)
    ensures !r.loading
    ensures fetched.Some? ==>
              && r.profile == Some(fetched.value.0)
              && r.hierarchy == Some(MyHierarchy(fetched.value.0, fetched.value.1))
              && r.error.None?
    ensures fetched.None? ==> r.profile == s.profile && r.hierarchy == s.hierarchy && r.error == Some(ProfileFailedMessage)
  {
    var started := s.(loading := true, error := None);
    match fetched
    case Some((me, all)) =>
      started.(profile := Some(me), hierarchy := Some(MyHierarchy(me, all)), loading := false)
    case None => started.(error := Some(ProfileFailedMessage), loading := false)
  }

  /** On success the hierarchy's `self` is the fetched profile. */
  lemma HierarchySelfIsProfile(s: ProfileState, me: EmployeeListItem, all: seq<EmployeeListItem>)
    ensures var r := LoadProfile(s, Some((me, all)));
            r.hierarchy.Some? && r.profile == Some(r.hierarchy.value.self)
  {
  }

  function IsActiveItem(e: EmployeeListItem): bool {
    e.isActive
  }

  /** `useEmployeeList` from mount: loading, inactive employees hidden. */
  lemma EmployeeListMount()
    ensures var s: ListState<EmployeeListItem> := InitialList(true);
            s.loading && !s.showInactive && Visible(s, IsActiveItem) == []
  {
  }
}

module AdminEmployeeList {
  import opened Base
  import opened EmployeeTypes
  import opened EmployeeList

  function IsActiveMini(e: EmployeeMini): bool {
    e.isActive
  }

  /** `useAdminEmployeeList` from mount: not loading, no error, inactive
      employees hidden; after a successful load it shows exactly the active
      employees, in order. */
  lemma AdminListLoad(data: seq<EmployeeMini>)
    ensures var s0: ListState<EmployeeMini> := InitialList(false);
            var s := RunList(s0, [LoadStarted, LoadSucceeded(data)]);
            && !s0.loading && s0.error.None? && !s0.showInactive
            && s.items == data && !s.loading && s.error.None?
            && Visible(s, IsActiveMini) == Filter(data, IsActiveMini)
            && Visible(StepList(s, ToggleInactive), IsActiveMini) == data
  {
    var s0: ListState<EmployeeMini> := InitialList(false);
    RunListPair(s0, LoadStarted, LoadSucceeded(data));
  }
}
