/** The check-in and check-out orchestration of src/modules/attendance/
    hooks.ts as the sequence of actions each call dispatches. The status and
    employee id are the values the hook captured at render; the location
    lookup and the API call are folded into one outcome parameter. */
module AttendanceHooks {
  import opened Base
  import opened Geo
  import opened GeoPolicy
  import opened AttendanceSlice

  /** How the awaited part of a check-in or check-out ended: the API's event,
      or a thrown error with its `code` property (`None` when it has none). */
  datatype Outcome = Recorded(eventId: string, timestamp: string) | Threw(code: Option<string>)

  const NoEmployeeMessage := "Employee context not found"
  const NotCheckedInMessage := "You must check in before checking out"
  const CheckInFailedMessage := "Check-in failed"
  const CheckOutFailedMessage := "Check-out failed"

  /** The message the catch block dispatches: a truthy `code` goes through
      the location policy, anything else gets the generic text. */
  function FailureMessage(code: Option<string>, generic: string): (m: string)
    ensures Truthy(code) ==> m == MapGeoErrorToAppError(code.value).message
    ensures !Truthy(code) ==> m == generic
  {
    if Truthy(code) then MapGeoErrorToAppError(code.value).message else generic
  }

  /** `checkIn()`; `date` is today's ISO date, the first ten characters of
      `new Date().toISOString()`. */
  function CheckIn(status: Status, employeeId: Option<string>, date: string, outcome: Outcome): (actions: seq<Action>)
    ensures status == CheckingIn || status == CheckedIn ==> actions == []
    ensures status != CheckingIn && status != CheckedIn && !Truthy(employeeId) ==>
              actions == [AttendanceError(NoEmployeeMessage)]
    ensures StartCheckIn in actions <==> status != CheckingIn && status != CheckedIn && Truthy(employeeId)
    ensures StartCheckIn in actions ==> |actions| == 2 && actions[0] == StartCheckIn
    ensures StartCheckIn in actions && outcome.Recorded? ==>
              actions[1] == CheckInSuccess(AttendanceDay(outcome.eventId, employeeId.value, date, Present,
                                                         None, Some(outcome.timestamp), None))
    ensures StartCheckIn in actions && outcome.Threw? ==>
              actions[1] == AttendanceError(FailureMessage(outcome.code, CheckInFailedMessage))
  {
    if status == CheckingIn || status == CheckedIn then []
    else if !Truthy(employeeId) then [AttendanceError(NoEmployeeMessage)]
    else
      [StartCheckIn] +
      match outcome
      case Recorded(id, timestamp) =>
        [CheckInSuccess(AttendanceDay(id, employeeId.value, date, Present, None, Some(timestamp), None))]
      case Threw(code) => [AttendanceError(FailureMessage(code, CheckInFailedMessage))]
  }

  /** `checkOut()`. */
  function CheckOut(status: Status, employeeId: Option<string>, date: string, outcome: Outcome): (actions: seq<Action>)
    ensures status != CheckedIn ==> actions == [AttendanceError(NotCheckedInMessage)]
    ensures status == CheckedIn && !Truthy(employeeId) ==> actions == [AttendanceError(NoEmployeeMessage)]
    ensures StartCheckOut in actions <==> status == CheckedIn && Truthy(employeeId)
    ensures StartCheckOut in actions ==> |actions| == 2 && actions[0] == StartCheckOut
    ensures StartCheckOut in actions && outcome.Recorded? ==>
              actions[1] == CheckOutSuccess(AttendanceDay(outcome.eventId, employeeId.value, date, Present,
                                                          None, None, Some(outcome.timestamp)))
    ensures StartCheckOut in actions && outcome.Threw? ==>
              actions[1] == AttendanceError(FailureMessage(outcome.code, CheckOutFailedMessage))
  {
    if status != CheckedIn then [AttendanceError(NotCheckedInMessage)]
    else if !Truthy(employeeId) then [AttendanceError(NoEmployeeMessage)]
    else
      [StartCheckOut] +
      match outcome
      case Recorded(id, timestamp) =>
        [CheckOutSuccess(AttendanceDay(id, employeeId.value, date, Present, None, None, Some(timestamp)))]
      case Threw(code) => [AttendanceError(FailureMessage(code, CheckOutFailedMessage))]
  }

  /** The hooks dispatch at most two actions; running them is applying them. */
  lemma RunActions(s: State, actions: seq<Action>)
    requires |actions| <= 2
    ensures |actions| == 0 ==> Run(s, actions) == s
    ensures |actions| == 1 ==> Run(s, actions) == Reduce(s, actions[0])
    ensures |actions| == 2 ==> Run(s, actions) == Reduce(Reduce(s, actions[0]), actions[1])
  {
    if |actions| == 2 {
      assert actions == [actions[0], actions[1]];
      RunPair(s, actions[0], actions[1]);
    } else if |actions| == 1 {
      assert actions == [actions[0]];
      RunSingle(s, actions[0]);
    }
  }

  /** Run against the reducer: a check-in that gets past its guards ends
      checked in with the new record, or in the error state with the failure
      message; one turned away by the employee guard ends in the error state;
      one turned away by the status guard changes nothing. */
  lemma CheckInEffect(s: State, employeeId: Option<string>, date: string, outcome: Outcome)
    ensures var r := Run(s, CheckIn(s.status, employeeId, date, outcome));
            && (s.status == CheckingIn || s.status == CheckedIn ==> r == s)
            && (s.status != CheckingIn && s.status != CheckedIn ==>
                  (r.status == CheckedIn <==> Truthy(employeeId) && outcome.Recorded?))
            && (r.status == CheckedIn && s.status != CheckedIn ==>
                  r.today.Some? && r.today.value.status == Present && r.today.value.checkInTime.Some?)
            && (s.status != CheckingIn && s.status != CheckedIn && !(Truthy(employeeId) && outcome.Recorded?) ==>
                  r.status == Error && r.today == s.today)
  {
    var actions := CheckIn(s.status, employeeId, date, outcome);
    RunActions(s, actions);
  }

  /** The same for check-out: it can only begin from the checked-in status. */
  lemma CheckOutEffect(s: State, employeeId: Option<string>, date: string, outcome: Outcome)
    ensures var r := Run(s, CheckOut(s.status, employeeId, date, outcome));
            && (r.status == CheckedOut <==> s.status == CheckedIn && Truthy(employeeId) && outcome.Recorded?)
            && (r.status == CheckedOut ==> r.today.Some? && r.today.value.checkOutTime.Some?)
            && (r.status != CheckedOut ==> r.status == Error && r.today == s.today)
            && (s.status != CheckedIn ==> r.lastError == Some(NotCheckedInMessage))
  {
    var actions := CheckOut(s.status, employeeId, date, outcome);
    RunActions(s, actions);
  }

  /** A check-in attempt that failed with a coded error (every location
      failure has one) reports the policy's message for that code; an error
      with no code reports the generic text. */
  lemma FailureReportsPolicyMessage(s: State, employee: string, date: string, code: string)
    requires s.status != CheckingIn && s.status != CheckedIn && employee != "" && code != ""
    ensures Run(s, CheckIn(s.status, Some(employee), date, Threw(Some(code)))).lastError ==
              Some(MapGeoErrorToAppError(code).message)
    ensures Run(s, CheckIn(s.status, Some(employee), date, Threw(None))).lastError == Some(CheckInFailedMessage)
  {
    RunActions(s, CheckIn(s.status, Some(employee), date, Threw(Some(code))));
    RunActions(s, CheckIn(s.status, Some(employee), date, Threw(None)));
  }

  /** Any coded error that is not one of the location codes — an HTTP client
      error carries a code such as `ERR_BAD_REQUEST` — is reported with the
      policy's generic location message, not with "Check-in failed". */
  lemma CodedApiFailureGetsLocationMessage(s: State, employee: string, date: string, code: string)
    requires s.status != CheckingIn && s.status != CheckedIn && employee != "" && code != ""
    requires CodeFromName(code).None?
    ensures Run(s, CheckIn(s.status, Some(employee), date, Threw(Some(code)))).lastError == Some(UnknownMessage)
  {
    FailureReportsPolicyMessage(s, employee, date, code);
  }

  /** The catch block as evidently intended: the location policy speaks
      only for an error that carries one of the location codes; any other
      failure, the API call's included, gets the generic text. */
  function IntendedFailureMessage(code: Option<string>, generic: string): (m: string)
    ensures code.Some? && CodeFromName(code.value).Some? ==> m == MapGeoErrorToAppError(code.value).message
    ensures code.None? || CodeFromName(code.value).None? ==> m == generic
  {
    if code.Some? && CodeFromName(code.value).Some? then MapGeoErrorToAppError(code.value).message else generic
  }

  /** The intended message differs from the one as written exactly for a
      failure whose code is truthy but not a location code; for every
      location failure and every uncoded failure the two agree, and an API
      error such as `ERR_BAD_REQUEST` gets "Check-in failed". */
  lemma IntendedFailureAgrees(code: Option<string>, generic: string)
    requires generic != UnknownMessage
    ensures IntendedFailureMessage(code, generic) == FailureMessage(code, generic) <==>
              !(Truthy(code) && CodeFromName(code.value).None?)
    ensures IntendedFailureMessage(Some("ERR_BAD_REQUEST"), CheckInFailedMessage) == CheckInFailedMessage
  {
    if Truthy(code) && CodeFromName(code.value).None? {
      assert MapGeoErrorToAppError(code.value).action == Fail;
    }
    assert CodeFromName("ERR_BAD_REQUEST").None?;
  }

  /** A full working day from a fresh store: check in, then check out, both
      recorded, ends checked out with the check-out record. */
  lemma CheckInThenOut(employee: string, date: string, inId: string, inAt: string, outId: string, outAt: string)
    requires employee != ""
    ensures var afterIn := Run(Initial, CheckIn(Idle, Some(employee), date, Recorded(inId, inAt)));
            var afterOut := Run(afterIn, CheckOut(afterIn.status, Some(employee), date, Recorded(outId, outAt)));
            && afterIn.status == CheckedIn
            && afterOut.status == CheckedOut
            && afterOut.today == Some(AttendanceDay(outId, employee, date, Present, None, None, Some(outAt)))
            && afterOut.lastError.None?
  {
    var a := CheckIn(Idle, Some(employee), date, Recorded(inId, inAt));
    RunActions(Initial, a);
    var afterIn := Run(Initial, a);
    RunActions(afterIn, CheckOut(afterIn.status, Some(employee), date, Recorded(outId, outAt)));
  }
}
