/** The hierarchy derivation and the bootstrap of src/modules/employee/
    hooks.ts: `buildHierarchy` over the flat employee list, the on-leave
    enrichment, and the actions `loadEmployeeContext` dispatches. */
module EmployeeHooks {
  import opened Base
  import opened EmployeeTypes
  import opened EmployeeSlice

  /** `e.id === selfId`. */
  function IsSelf(selfId: string): EmployeeMini -> bool {
    (e: EmployeeMini) => e.id == selfId
  }

  /** `e.id === managerId`, for a manager id that is a string. */
  function HasId(id: string): EmployeeMini -> bool {
    (e: EmployeeMini) => e.id == id
  }

  /** `e.managerId === selfId`. */
  function ReportsTo(selfId: string): EmployeeMini -> bool {
    (e: EmployeeMini) => e.managerId == Str(selfId)
  }

  /** `e.managerId === managerId && e.id !== selfId`: strict equality, so an
      undefined manager id matches only undefined, never null. */
  function IsPeer(selfId: string, managerId: Nullable): EmployeeMini -> bool {
    (e: EmployeeMini) => e.managerId == managerId && e.id != selfId
  }

  /** `buildHierarchy(selfId, employees, managerId)`. */
  function BuildHierarchy(selfId: string, employees: seq<EmployeeMini>, managerId: Nullable): (h: EmployeeHierarchy)
    ensures h.self == Find(employees, IsSelf(selfId))
    ensures !TruthyValue(managerId) ==> h.manager.None?
    ensures TruthyValue(managerId) ==> h.manager == Find(employees, HasId(managerId.s))
    ensures forall i :: 0 <= i < |employees| ==>
              (employees[i] in h.reportees <==> employees[i].managerId == Str(selfId))
    ensures forall i :: 0 <= i < |employees| ==>
              (employees[i] in h.peers <==> employees[i].managerId == managerId && employees[i].id != selfId)
    ensures forall i :: 0 <= i < |h.reportees| ==> h.reportees[i] in employees && h.reportees[i].managerId == Str(selfId)
    ensures forall i :: 0 <= i < |h.peers| ==>
              h.peers[i] in employees && h.peers[i].managerId == managerId && h.peers[i].id != selfId
  {
    var self := Find(employees, IsSelf(selfId));
    var manager := if TruthyValue(managerId) then Find(employees, HasId(managerId.s)) else None;
    EmployeeHierarchy(self, manager, Filter(employees, IsPeer(selfId, managerId)), Filter(employees, ReportsTo(selfId)))
  }

  /** The lists keep the order of the input: the hierarchy of a list split in
      two is the two hierarchies' lists joined. */
  lemma HierarchyKeepsOrder(selfId: string, xs: seq<EmployeeMini>, ys: seq<EmployeeMini>, managerId: Nullable)
    ensures BuildHierarchy(selfId, xs + ys, managerId).reportees ==
              BuildHierarchy(selfId, xs, managerId).reportees + BuildHierarchy(selfId, ys, managerId).reportees
    ensures BuildHierarchy(selfId, xs + ys, managerId).peers ==
              BuildHierarchy(selfId, xs, managerId).peers + BuildHierarchy(selfId, ys, managerId).peers
  {
    FilterAppend(xs, ys, ReportsTo(selfId));
    FilterAppend(xs, ys, IsPeer(selfId, managerId));
  }

  /** The user is never among their own peers, and someone with no manager id
      at all has as peers exactly the others with none: a `null` manager id
      does not count as undefined. */
  lemma PeersOfTopLevel(selfId: string, employees: seq<EmployeeMini>, i: nat)
    requires i < |employees|
    ensures forall k :: 0 <= k < |BuildHierarchy(selfId, employees, Undefined).peers| ==>
              BuildHierarchy(selfId, employees, Undefined).peers[k].id != selfId
    ensures employees[i] in BuildHierarchy(selfId, employees, Undefined).peers <==>
              employees[i].managerId == Undefined && employees[i].id != selfId
    ensures employees[i].managerId == Null ==> employees[i] !in BuildHierarchy(selfId, employees, Undefined).peers
  {
  }

  /** One list entry with its on-leave flag. */
  function EnrichOne(e: EmployeeMini, onLeave: set<string>): EmployeeMini {
    e.(isOnLeaveToday := Some(e.id in onLeave))
  }

  /** `allEmployees.map(emp => ({...emp, isOnLeaveToday: leaveSet.has(emp.id)}))`. */
  function Enrich(employees: seq<EmployeeMini>, onLeave: set<string>): (r: seq<EmployeeMini>)
    ensures |r| == |employees|
    ensures forall i :: 0 <= i < |r| ==>
              && r[i].isOnLeaveToday == Some(employees[i].id in onLeave)
              && r[i].(isOnLeaveToday := employees[i].isOnLeaveToday) == employees[i]
  {
    if employees == [] then [] else [EnrichOne(employees[0], onLeave)] + Enrich(employees[1..], onLeave)
  }

  /** The leave lookup: the ids of everyone on leave today. */
  function LeaveSet(onLeaveIds: seq<string>): (s: set<string>)
    ensures forall id :: id in s <==> id in onLeaveIds
  {
    set i | 0 <= i < |onLeaveIds| :: onLeaveIds[i]
  }

  /** Enrichment commutes with any filter that ignores the on-leave flag. */
  lemma {:induction false} EnrichFilter(xs: seq<EmployeeMini>, onLeave: set<string>, p: EmployeeMini -> bool)
    requires forall i :: 0 <= i < |xs| ==> p(EnrichOne(xs[i], onLeave)) == p(xs[i])
    ensures Filter(Enrich(xs, onLeave), p) == Enrich(Filter(xs, p), onLeave)
  {
    if xs != [] {
      assert Enrich(xs, onLeave)[1..] == Enrich(xs[1..], onLeave);
      EnrichFilter(xs[1..], onLeave, p);
      if p(xs[0]) {
        assert Filter(xs, p) == [xs[0]] + Filter(xs[1..], p);
        assert Enrich(Filter(xs, p), onLeave)[1..] == Enrich(Filter(xs[1..], p), onLeave);
      }
    }
  }

  /** And with any search that ignores it. */
  lemma {:induction false} EnrichFind(xs: seq<EmployeeMini>, onLeave: set<string>, p: EmployeeMini -> bool)
    requires forall i :: 0 <= i < |xs| ==> p(EnrichOne(xs[i], onLeave)) == p(xs[i])
    ensures Find(Enrich(xs, onLeave), p) ==
              if Find(xs, p).Some? then Some(EnrichOne(Find(xs, p).value, onLeave)) else None
  {
    if xs != [] {
      assert Enrich(xs, onLeave)[1..] == Enrich(xs[1..], onLeave);
      EnrichFind(xs[1..], onLeave, p);
    }
  }

  /** Enriching before building the hierarchy puts the same people in the
      same places: it only annotates them. */
  lemma EnrichedHierarchy(selfId: string, xs: seq<EmployeeMini>, onLeave: set<string>, managerId: Nullable)
    ensures var h := BuildHierarchy(selfId, xs, managerId);
            var e := BuildHierarchy(selfId, Enrich(xs, onLeave), managerId);
            && e.peers == Enrich(h.peers, onLeave)
            && e.reportees == Enrich(h.reportees, onLeave)
            && e.self == (if h.self.Some? then Some(EnrichOne(h.self.value, onLeave)) else None)
            && e.manager == (if h.manager.Some? then Some(EnrichOne(h.manager.value, onLeave)) else None)
  {
    EnrichFilter(xs, onLeave, IsPeer(selfId, managerId));
    EnrichFilter(xs, onLeave, ReportsTo(selfId));
    EnrichFind(xs, onLeave, IsSelf(selfId));
    if TruthyValue(managerId) {
      EnrichFind(xs, onLeave, HasId(managerId.s));
    }
  }

  /** The two awaited steps of `loadEmployeeContext`: the own profile, then
      the employee list and today's leave (`None` where the call threw). */
  function LoadEmployeeContext(me: Option<EmployeeProfile>, lists: Option<(seq<EmployeeMini>, seq<string>)>)
    : (actions: seq<Action>)
    ensures |actions| >= 2 && actions[0] == FetchEmployeeStart
    ensures me.None? ==> actions == [FetchEmployeeStart, EmployeeError(LoadFailedMessage)]
    ensures me.Some? ==> actions[1] == FetchEmployeeProfileSuccess(me.value) && |actions| == 3
    ensures me.Some? && lists.None? ==> actions[2] == EmployeeError(LoadFailedMessage)
    ensures me.Some? && lists.Some? ==>
              actions[2] == FetchEmployeeHierarchySuccess(
                BuildHierarchy(me.value.id, Enrich(lists.value.0, LeaveSet(lists.value.1)), me.value.managerId))
  {
    match me
    case None => [FetchEmployeeStart, EmployeeError(LoadFailedMessage)]
    case Some(p) =>
      [FetchEmployeeStart, FetchEmployeeProfileSuccess(p)] +
      match lists
      case None => [EmployeeError(LoadFailedMessage)]
      case Some((all, leave)) =>
        [FetchEmployeeHierarchySuccess(BuildHierarchy(p.id, Enrich(all, LeaveSet(leave)), p.managerId))]
  }

  const LoadFailedMessage := "Failed to load employee data"

  /** The bootstrap effect: it loads only while no profile is stored. */
  function Bootstrap(s: State, me: Option<EmployeeProfile>, lists: Option<(seq<EmployeeMini>, seq<string>)>)
    : (actions: seq<Action>)
    ensures s.profile.Some? <==> actions == []
  {
    if s.profile.None? then LoadEmployeeContext(me, lists) else []
  }

  /** A bootstrap that runs ends not loading; on full success the store holds
      the profile and the hierarchy built from the enriched list; on a failure
      it holds the error, and a failed list call keeps the profile already
      stored. Afterwards the guard would let a later bootstrap dispatch again
      exactly when the profile call failed; the effect itself re-runs only
      when its dependencies change, which a failed profile call does not do. */
  lemma BootstrapEffect(s: State, me: Option<EmployeeProfile>, lists: Option<(seq<EmployeeMini>, seq<string>)>)
    requires s.profile.None?
    ensures var r := Run(s, Bootstrap(s, me, lists));
            && !r.loading
            && (me.Some? ==> r.profile == me)
            && (me.Some? && lists.Some? ==>
                  (&& r.error.None? && r.hierarchy.Some?
                   && r.hierarchy.value.reportees ==
                        Filter(Enrich(lists.value.0, LeaveSet(lists.value.1)), ReportsTo(me.value.id))))
            && (me.None? || lists.None? ==> r.error == Some(LoadFailedMessage) && r.hierarchy == s.hierarchy)
            && (Bootstrap(r, me, lists) == [] <==> me.Some?)
  {
    var actions := Bootstrap(s, me, lists);
    var s1 := Reduce(s, actions[0]);
    var s2 := Reduce(s1, actions[1]);
    assert Run(s, actions) == Run(s1, actions[1..]);
    assert actions[1..][0] == actions[1];
    assert Run(s1, actions[1..]) == Run(s2, actions[2..]) by {
      assert actions[1..][1..] == actions[2..];
    }
    if |actions| == 3 {
      assert Run(s2, actions[2..]) == Run(Reduce(s2, actions[2]), actions[3..]);
      assert actions[3..] == [];
    } else {
      assert actions[2..] == [];
    }
  }
}
