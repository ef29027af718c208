/** The computations of src/pages/EmployeeDashboard.tsx that sit between
    the fetched data and the rendered page: the working-time clock, the
    check-in indicator, the progress towards the eight-hour target, the
    greeting, the calendar's leave label, the upcoming holidays, the leave
    balance warning and the avatar initials. */
module EmployeeDashboard {
  import opened Base
  import opened Numbers
  import opened Text
  import opened LeaveRequestList

  // ---------------------------------------------------------------------
  // Working time

  /** Hours, minutes and seconds as `formatTime` returns them. */
  datatype Clock = Clock(h: int, m: int, s: int)

  /** `formatTime(totalSeconds)`: `Math.floor` of a quotient for hours and
      minutes, the truncating `%` for the remainders. */
  function FormatTime(totalSeconds: int): (c: Clock)
    ensures totalSeconds >= 0 ==> c.h >= 0 && 0 <= c.m < 60 && 0 <= c.s < 60
  {
    Clock(FloorDiv(totalSeconds, 3600), FloorDiv(JsRem(totalSeconds, 3600), 60), JsRem(totalSeconds, 60))
  }

  function Seconds(c: Clock): int {
    c.h * 3600 + c.m * 60 + c.s
  }

  /** Division by sixty has one quotient and one remainder. */
  lemma DivMod60(a: int, q: int, r: int)
    requires a == q * 60 + r && 0 <= r < 60
    ensures a / 60 == q && a % 60 == r
  {
  }

  /** For a non-negative total the clock is the one way of writing it as
      hours, minutes below sixty and seconds below sixty. */
  lemma {:induction false} FormatTimeDecomposes(t: int, c: Clock)
    requires t >= 0
    ensures Seconds(FormatTime(t)) == t
    ensures 0 <= c.m < 60 && 0 <= c.s < 60 && Seconds(c) == t ==> c == FormatTime(t)
  {
    var q := t / 3600;
    var r := t % 3600;
    var m := r / 60;
    var s := r % 60;
    assert r == m * 60 + s;
    assert t == (q * 60 + m) * 60 + s;
    DivMod60(t, q * 60 + m, s);
    assert FormatTime(t) == Clock(q, m, s);
    if 0 <= c.m < 60 && 0 <= c.s < 60 && Seconds(c) == t {
      assert t == (c.h * 60 + c.m) * 60 + c.s;
      DivMod60(t, c.h * 60 + c.m, c.s);
      DivMod60(c.h * 60 + c.m, c.h, c.m);
      DivMod60(q * 60 + m, q, m);
    }
  }

  /** A negative total (a device clock behind the server's check-in time)
      mixes a flooring quotient with a truncating remainder: one second
      before zero reads as minus one of each unit, which adds up to minus
      3661 seconds. */
  lemma NegativeTotal()
    ensures FormatTime(-1) == Clock(-1, -1, -1)
    ensures Seconds(FormatTime(-1)) == -3661
  {
  }

  /** `formatTimeStr(totalSeconds, showSeconds)`. */
  function FormatTimeStr(totalSeconds: int, showSeconds: bool): string {
    var c := FormatTime(totalSeconds);
    IntToString(c.h) + "h " + IntToString(c.m) + "m" + if showSeconds then " " + IntToString(c.s) + "s" else ""
  }

  /** A non-negative total shows its hours, its minutes below sixty and, on
      request, its seconds below sixty, each as a plain numeral. */
  lemma FormatTimeStrOfClock(t: int, h: nat, m: nat, sec: nat, showSeconds: bool)
    requires m < 60 && sec < 60 && t == h * 3600 + m * 60 + sec
    ensures FormatTimeStr(t, showSeconds) ==
              NatToString(h) + "h " + NatToString(m) + "m" + if showSeconds then " " + NatToString(sec) + "s" else ""
  {
    ClockOfSeconds(h, m, sec);
    ClockText(t, h, m, sec, showSeconds);
  }

  lemma ClockOfSeconds(h: nat, m: nat, sec: nat)
    requires m < 60 && sec < 60
    ensures FormatTime(h * 3600 + m * 60 + sec) == Clock(h, m, sec)
  {
    var c := Clock(h, m, sec);
    var t := h * 3600 + m * 60 + sec;
    assert Seconds(c) == t;
    FormatTimeDecomposes(t, c);
  }

  lemma ClockText(t: int, h: nat, m: nat, sec: nat, showSeconds: bool)
    requires FormatTime(t) == Clock(h, m, sec)
    ensures FormatTimeStr(t, showSeconds) ==
              NatToString(h) + "h " + NatToString(m) + "m" + if showSeconds then " " + NatToString(sec) + "s" else ""
  {
  }

  /** `formatMinutes(mins)`. */
  function FormatMinutes(mins: int): string {
    IntToString(FloorDiv(mins, 60)) + "h " + IntToString(JsRem(mins, 60)) + "m"
  }

  /** A non-negative number of minutes is shown as the hours and the
      minutes below sixty that make it up. */
  lemma FormatMinutesSplits(mins: int, x: int, y: int)
    requires mins >= 0 && x * 60 + y == mins && 0 <= y < 60
    ensures FormatMinutes(mins) == NatToString(x) + "h " + NatToString(y) + "m"
  {
    DivMod60(mins, x, y);
  }

  /** The two formatters agree: a whole number of minutes reads the same
      as that many minutes' worth of seconds without the seconds. */
  lemma MinutesAgreeWithSeconds(mins: int)
    requires mins >= 0
    ensures FormatMinutes(mins) == FormatTimeStr(mins * 60, false)
  {
    var x := mins / 60;
    var y := mins % 60;
    FormatTimeDecomposes(mins * 60, Clock(x, y, 0));
    assert Seconds(Clock(x, y, 0)) == mins * 60;
    DivMod60(mins, x, y);
  }

  /** The kind of an attendance event. */
  datatype EventType = CheckInEvent | CheckOutEvent

  /** `isCheckedIn`: today's record exists, has events, and the last one is
      a check-in. `None` stands for a missing record or missing events. */
  function IsCheckedIn(events: Option<seq<EventType>>): (checkedIn: bool)
    ensures checkedIn ==> events.Some? && events.value != []
  {
    events.Some? && |events.value| > 0 && events.value[|events.value| - 1] == CheckInEvent
  }

  /** Whatever came before, the last event decides. */
  lemma LastEventDecides(events: seq<EventType>, e: EventType)
    ensures IsCheckedIn(Some(events + [e])) <==> e == CheckInEvent
    ensures !IsCheckedIn(Some([])) && !IsCheckedIn(None)
  {
  }

  /** The live timer: the minutes already worked plus the whole seconds
      since the last check-in (`Date.now()` and the check-in instant in
      milliseconds). */
  function ElapsedSeconds(totalMinutes: int, now: int, checkInTime: int): (seconds: int)
    ensures var live := seconds - totalMinutes * 60;
            live * 1000 <= now - checkInTime < live * 1000 + 1000
  {
    totalMinutes * 60 + FloorDiv(now - checkInTime, 1000)
  }

  /** `currentDisplaySeconds`: the live timer while checked in, otherwise the
      recorded minutes (none counted as zero). */
  function DisplaySeconds(checkedIn: bool, elapsed: int, totalMinutes: Option<int>): int {
    if checkedIn then elapsed else (if totalMinutes.Some? then totalMinutes.value else 0) * 60
  }

  /** The live timer adds one second per full thousand milliseconds since the
      check-in to the recorded minutes and never runs backwards; off the
      clock the recorded minutes are shown instead. */
  lemma TimerCounts(totalMinutes: int, checkInTime: int, d: int, ms: int, now: int, later: nat, elapsed: int)
    requires 0 <= ms < 1000
    ensures ElapsedSeconds(totalMinutes, checkInTime + d * 1000 + ms, checkInTime) == totalMinutes * 60 + d
    ensures ElapsedSeconds(totalMinutes, now, checkInTime) <= ElapsedSeconds(totalMinutes, now + later, checkInTime)
    ensures DisplaySeconds(true, elapsed, Some(totalMinutes)) == elapsed
    ensures DisplaySeconds(false, elapsed, Some(totalMinutes)) == totalMinutes * 60
    ensures DisplaySeconds(false, elapsed, None) == 0
  {
    var q := FloorDiv(d * 1000 + ms, 1000);
    assert q == d;
    var a := FloorDiv(now - checkInTime, 1000);
    var b := FloorDiv(now + later - checkInTime, 1000);
    assert a <= b;
  }

  /** Eight hours, the day's target. */
  const TargetSeconds := 8 * 3600

  /** `progressPercent`: the share of the target, capped at one hundred. */
  function Progress(seconds: int): (p: real)
    ensures p <= 100.0
    ensures p == 100.0 <==> seconds >= TargetSeconds
  {
    var share := seconds as real / TargetSeconds as real * 100.0;
    if share < 100.0 then share else 100.0
  }

  /** More time worked never shows less progress. */
  lemma ProgressMonotone(a: int, b: int)
    requires a <= b
    ensures Progress(a) <= Progress(b)
  {
    assert a as real / TargetSeconds as real <= b as real / TargetSeconds as real;
  }

  /** Below the target the bar is exactly proportional. */
  lemma ProgressBelowTarget(seconds: int)
    requires seconds < TargetSeconds
    ensures Progress(seconds) * TargetSeconds as real == seconds as real * 100.0
  {
  }

  /** The greeting for the local hour. */
  function Greeting(hour: int): (text: string)
    ensures text == "Good Morning" <==> hour < 12
    ensures text == "Good Afternoon" <==> 12 <= hour < 17
    ensures text == "Good Evening" <==> hour >= 17
  {
    if hour < 12 then "Good Morning" else if hour < 17 then "Good Afternoon" else "Good Evening"
  }

  // ---------------------------------------------------------------------
  // Calendar leave label

  /** A leave request as the calendar reads it. */
  datatype LeaveReq = LeaveReq(status: string, fromDate: string, toDate: string,
                               durationType: DurationType, durationValue: Decimal)

  /** A calendar cell: its date (`None` when absent) and its worked minutes
      (`None` when absent). */
  datatype DayData = DayData(date: Option<string>, totalMinutes: Option<int>)

  predicate IsActiveLeave(r: LeaveReq) {
    r.status == "APPROVED" || r.status == "PENDING"
  }

  /** `dayData.date?.slice(0, 10)`. */
  function DateKey(day: DayData): (key: Option<string>)
    ensures key.Some? <==> day.date.Some?
  {
    if day.date.Some? then Some(Prefix(day.date.value, 10)) else None
  }

  /** The request matches the cell: it is approved or pending and the
      cell's date lies between the first ten characters of its from and to
      dates, compared as strings. An undefined date compares false. */
  function Covers(key: Option<string>): LeaveReq -> bool {
    (r: LeaveReq) =>
      IsActiveLeave(r) && key.Some? && LexLe(Prefix(r.fromDate, 10), key.value) && LexLe(key.value, Prefix(r.toDate, 10))
  }

  /** The label of a matched request, by its duration type. */
  function LeaveKindLabel(r: LeaveReq): (text: string)
    ensures text == "Leave" <==> r.durationType.OtherType?
    ensures r.durationType.HalfDay? || r.durationType.QuarterDay? ==>
              text == FormatDuration(r.durationType, r.durationValue)
    ensures r.durationType.Hourly? ==> |text| >= 7 && text[|text| - 7..] == "h Leave"
  {
    match r.durationType
    case FullDay => "Full Day"
    case HalfDay => "Half Day"
    case QuarterDay => "Quarter Day"
    case Hourly => ShowDecimal(r.durationValue) + "h Leave"
    case OtherType(_) => "Leave"
  }

  /** `getLeaveLabel(dayData)`. */
  function GetLeaveLabel(day: DayData, requests: seq<LeaveReq>): (text: string)
    ensures (forall i :: 0 <= i < |requests| ==> !Covers(DateKey(day))(requests[i])) ==>
              text == if day.totalMinutes.Some? && day.totalMinutes.value > 0 then "Partial" else "Leave"
    ensures forall i :: 0 <= i < |requests| && Covers(DateKey(day))(requests[i])
                        && (forall j :: 0 <= j < i ==> !Covers(DateKey(day))(requests[j])) ==>
              text == LeaveKindLabel(requests[i])
  {
    match Find(requests, Covers(DateKey(day)))
    case Some(r) => LeaveKindLabel(r)
    case None => if day.totalMinutes.Some? && day.totalMinutes.value > 0 then "Partial" else "Leave"
  }

  /** Searching after dropping elements the search can never accept finds
      the same element. */
  lemma {:induction false} FindFilter<T>(xs: seq<T>, p: T -> bool, q: T -> bool)
    requires forall i :: 0 <= i < |xs| && q(xs[i]) ==> p(xs[i])
    ensures Find(Filter(xs, p), q) == Find(xs, q)
  {
    if xs != [] {
      FindFilter(xs[1..], p, q);
      if p(xs[0]) {
        assert Filter(xs, p) == [xs[0]] + Filter(xs[1..], p);
        assert ([xs[0]] + Filter(xs[1..], p))[1..] == Filter(xs[1..], p);
      }
    }
  }

  /** Rejected and cancelled requests never affect the calendar. */
  lemma InactiveIgnored(day: DayData, requests: seq<LeaveReq>)
    ensures GetLeaveLabel(day, requests) == GetLeaveLabel(day, Filter(requests, IsActiveLeave))
  {
    FindFilter(requests, IsActiveLeave, Covers(DateKey(day)));
  }

  /** A search over a list split in two answers from the first part when it
      can. */
  lemma {:induction false} FindAppend<T>(xs: seq<T>, ys: seq<T>, p: T -> bool)
    ensures Find(xs + ys, p) == if Find(xs, p).Some? then Find(xs, p) else Find(ys, p)
  {
    if xs == [] {
      assert xs + ys == ys;
    } else {
      assert (xs + ys)[1..] == xs[1..] + ys;
      FindAppend(xs[1..], ys, p);
    }
  }

  /** The first matching request wins: requests after it do not change the
      label. */
  lemma FirstMatchWins(day: DayData, earlier: seq<LeaveReq>, later: seq<LeaveReq>)
    requires exists i :: 0 <= i < |earlier| && Covers(DateKey(day))(earlier[i])
    ensures GetLeaveLabel(day, earlier + later) == GetLeaveLabel(day, earlier)
  {
    FindAppend(earlier, later, Covers(DateKey(day)));
  }

  /** A cell without a date matches no request. */
  lemma NoDateNoLeave(day: DayData, requests: seq<LeaveReq>)
    requires day.date.None?
    ensures GetLeaveLabel(day, requests) == "Partial" || GetLeaveLabel(day, requests) == "Leave"
  {
  }

  /** A timestamp matches the same requests as its date: only the first ten
      characters count. */
  lemma TimeOfDayIgnored(date: string, suffix: string, minutes: Option<int>, requests: seq<LeaveReq>)
    requires |date| == 10
    ensures GetLeaveLabel(DayData(Some(date + suffix), minutes), requests) ==
              GetLeaveLabel(DayData(Some(date), minutes), requests)
  {
    assert Prefix(date + suffix, 10) == date;
    assert DateKey(DayData(Some(date + suffix), minutes)) == DateKey(DayData(Some(date), minutes));
  }

  // ---------------------------------------------------------------------
  // Upcoming holidays

  /** A holiday with the instant its date parses to (`None` for a date that
      does not parse, which is never after anything). */
  datatype Holiday = Holiday(id: string, name: string, at: Option<int>)

  function IsUpcoming(now: int): Holiday -> bool {
    (h: Holiday) => h.at.Some? && h.at.value > now
  }

  /** `upcomingHolidays`: the first three holidays after now, in list order. */
  function UpcomingHolidays(holidays: seq<Holiday>, now: int): (shown: seq<Holiday>)
    ensures |shown| <= 3
    ensures forall i :: 0 <= i < |shown| ==> shown[i] in holidays && IsUpcoming(now)(shown[i])
    ensures shown <= Filter(holidays, IsUpcoming(now))
  {
    Take(Filter(holidays, IsUpcoming(now)), 3)
  }

  /** An upcoming holiday is left out only when three are already shown. */
  lemma UpcomingLeftOutOnlyWhenFull(holidays: seq<Holiday>, now: int, i: nat)
    requires i < |holidays| && IsUpcoming(now)(holidays[i])
    requires holidays[i] !in UpcomingHolidays(holidays, now)
    ensures |UpcomingHolidays(holidays, now)| == 3
  {
    var f := Filter(holidays, IsUpcoming(now));
    assert holidays[i] in f;
  }

  lemma {:induction false} FilterNone<T>(xs: seq<T>, p: T -> bool)
    requires forall i :: 0 <= i < |xs| ==> !p(xs[i])
    ensures Filter(xs, p) == []
  {
    if xs != [] {
      FilterNone(xs[1..], p);
    }
  }

  /** Past holidays added to the list change nothing. */
  lemma PastHolidaysIgnored(holidays: seq<Holiday>, past: seq<Holiday>, now: int)
    requires forall i :: 0 <= i < |past| ==> !IsUpcoming(now)(past[i])
    ensures UpcomingHolidays(holidays + past, now) == UpcomingHolidays(holidays, now)
  {
    FilterAppend(holidays, past, IsUpcoming(now));
    FilterNone(past, IsUpcoming(now));
    assert Filter(holidays, IsUpcoming(now)) + [] == Filter(holidays, IsUpcoming(now));
  }

  // ---------------------------------------------------------------------
  // Leave balances

  datatype Balance = Balance(allocation: real, remaining: real)

  /** `usedPercent`. */
  function UsedPercent(b: Balance): (p: real)
    ensures b.allocation <= 0.0 ==> p == 0.0
    ensures b.allocation > 0.0 ==> p * b.allocation == (b.allocation - b.remaining) * 100.0
  {
    if b.allocation > 0.0 then (b.allocation - b.remaining) / b.allocation * 100.0 else 0.0
  }

  /** `isLow`: less than a fifth of the allocation remains, stated without
      the division. */
  function IsLow(b: Balance): (low: bool)
    ensures low <==> b.allocation > 0.0 && 5.0 * b.remaining < b.allocation
  {
    if b.allocation > 0.0 then QuotientBelow(b.remaining, b.allocation, 0.2); b.remaining / b.allocation < 0.2
    else false
  }

  lemma QuotientBelow(x: real, y: real, c: real)
    requires y > 0.0
    ensures x / y < c <==> x < c * y
  {
    assert (x / y) * y == x;
    if x / y < c {
      assert (x / y) * y < c * y;
    }
    if x < c * y {
      assert x / y < c * y / y;
    }
  }

  /** Low exactly when more than eighty percent of the allocation is used. */
  lemma LowIffMostlyUsed(b: Balance)
    ensures IsLow(b) <==> b.allocation > 0.0 && UsedPercent(b) > 80.0
  {
    if b.allocation > 0.0 {
      var p := UsedPercent(b);
      ScaleAbove(p, b.allocation, 80.0);
      assert p * b.allocation == (b.allocation - b.remaining) * 100.0;
      assert (b.allocation - b.remaining) * 100.0 > 80.0 * b.allocation <==> 5.0 * b.remaining < b.allocation;
    }
  }

  /** Multiplying by a positive factor keeps a strict comparison. */
  lemma ScaleAbove(p: real, a: real, c: real)
    requires a > 0.0
    ensures p > c <==> p * a > c * a
  {
    if p > c {
      assert (p - c) * a > 0.0;
    } else {
      assert (c - p) * a >= 0.0;
    }
  }

  // ---------------------------------------------------------------------
  // Avatar initials

  /** The first character of every non-empty word; `n[0]` of an empty word
      is undefined, which `join('')` writes as nothing. */
  function FirstLetters(words: seq<string>): (letters: string)
    ensures |letters| <= |words|
  {
    if words == [] then ""
    else (if words[0] == [] then "" else [words[0][0]]) + FirstLetters(words[1..])
  }

  /** The avatar's initials: the first letters of the space-separated words,
      at most two, upper-cased. */
  function Initials(name: string): (initials: string)
    ensures |initials| <= 2
    ensures forall i :: 0 <= i < |initials| ==> !IsAsciiLower(initials[i])
  {
    ToUpper(Prefix(FirstLetters(Split(name, ' ')), 2))
  }

  /** The first part of a split text that does not start with the
      separator starts with the text's first character. */
  lemma SplitHead(s: string, sep: char)
    requires s != [] && s[0] != sep
    ensures Split(s, sep)[0] != [] && Split(s, sep)[0][0] == s[0]
  {
  }

  /** A name made of a first word and a rest that starts with a word gets
      the upper-cased first letters of both. */
  lemma InitialsOfName(first: string, rest: string)
    requires first != [] && ' ' !in first
    requires rest != [] && rest[0] != ' '
    ensures Initials(first + " " + rest) == [UpperChar(first[0]), UpperChar(rest[0])]
  {
    assert first + " " + rest == first + [' '] + rest;
    SplitPrefix(first, rest, ' ');
    var words := Split(first + " " + rest, ' ');
    assert words == [first] + Split(rest, ' ');
    SplitHead(rest, ' ');
    assert words[1..] == Split(rest, ' ');
    var tail := Split(rest, ' ');
    assert FirstLetters(tail) == [rest[0]] + FirstLetters(tail[1..]);
    assert FirstLetters(words) == [first[0]] + FirstLetters(tail);
    var letters := FirstLetters(words);
    assert letters[..2] == [first[0], rest[0]];
  }
}
