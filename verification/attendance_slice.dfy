/** The attendance reducer of src/modules/attendance/slice.ts. */
module AttendanceSlice {
  import opened Base

  datatype Status = Idle | CheckingIn | CheckedIn | CheckingOut | CheckedOut | Error

  datatype DayStatus = Present | Absent | Partial

  /** `AttendanceDay`. */
  datatype AttendanceDay = AttendanceDay(
    id: string,
    employeeId: string,
    date: string,
    status: DayStatus,
    totalMinutes: Option<int>,
    checkInTime: Option<string>,
    checkOutTime: Option<string>)

  datatype State = State(status: Status, today: Option<AttendanceDay>, lastError: Option<string>)

  const Initial := State(Idle, None, None)

  datatype Action =
    | StartCheckIn
    | CheckInSuccess(day: AttendanceDay)
    | StartCheckOut
    | CheckOutSuccess(day: AttendanceDay)
    | AttendanceError(message: string)
    | ResetAttendanceState

  /** What every reachable state satisfies: a checked-in or checked-out
      status has the day's record, an error status has a message, a check in
      progress has no stale message, and the idle status is the initial state. */
  predicate Inv(s: State) {
    && (s.status == CheckedIn || s.status == CheckedOut ==> s.today.Some?)
    && (s.status == Error ==> s.lastError.Some?)
    && (s.status == CheckingIn || s.status == CheckingOut ==> s.lastError.None?)
    && (s.status == Idle ==> s == Initial)
  }

  function Reduce(s: State, a: Action): (r: State)
    ensures a.StartCheckIn? ==> r == s.(status := CheckingIn, lastError := None)
    ensures a.CheckInSuccess? ==> r == s.(status := CheckedIn, today := Some(a.day))
    ensures a.StartCheckOut? ==> r == s.(status := CheckingOut, lastError := None)
    ensures a.CheckOutSuccess? ==> r == s.(status := CheckedOut, today := Some(a.day))
    ensures a.AttendanceError? ==> r == s.(status := Error, lastError := Some(a.message))
    ensures a.ResetAttendanceState? ==> r == Initial
    ensures Inv(s) ==> Inv(r)
  {
    match a
    case StartCheckIn => s.(status := CheckingIn, lastError := None)
    case CheckInSuccess(day) => s.(status := CheckedIn, today := Some(day))
    case StartCheckOut => s.(status := CheckingOut, lastError := None)
    case CheckOutSuccess(day) => s.(status := CheckedOut, today := Some(day))
    case AttendanceError(message) => s.(status := Error, lastError := Some(message))
    case ResetAttendanceState => Initial
  }

  function Run(s: State, actions: seq<Action>): State
    decreases |actions|
  {
    if actions == [] then s else Run(Reduce(s, actions[0]), actions[1..])
  }

  /** Dispatching two sequences one after the other is dispatching their
      concatenation. */
  lemma {:induction false} RunAppend(s: State, a: seq<Action>, b: seq<Action>)
    ensures Run(s, a + b) == Run(Run(s, a), b)
    decreases |a|
  {
    if a != [] {
      assert (a + b)[1..] == a[1..] + b;
      RunAppend(Reduce(s, a[0]), a[1..], b);
    } else {
      assert a + b == b;
    }
  }

  lemma RunPair(s: State, x: Action, y: Action)
    ensures Run(s, [x, y]) == Reduce(Reduce(s, x), y)
  {
    assert [x, y][1..] == [y];
    RunSingle(Reduce(s, x), y);
  }

  lemma RunSingle(s: State, x: Action)
    ensures Run(s, [x]) == Reduce(s, x)
  {
    assert [x][1..] == [];
  }

  lemma {:induction false} RunKeepsInv(s: State, actions: seq<Action>)
    requires Inv(s)
    ensures Inv(Run(s, actions))
    decreases |actions|
  {
    if actions != [] {
      RunKeepsInv(Reduce(s, actions[0]), actions[1..]);
    }
  }

  /** Every state reachable from the initial one satisfies the invariant. */
  lemma Reachable(actions: seq<Action>)
    ensures Inv(Run(Initial, actions))
  {
    RunKeepsInv(Initial, actions);
  }

  /** Whatever happened before, a reset forgets it. */
  lemma ResetForgets(actions: seq<Action>, s: State)
    ensures Run(s, actions + [ResetAttendanceState]) == Initial
  {
    RunAppend(s, actions, [ResetAttendanceState]);
  }
}
