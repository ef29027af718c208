/** The display helpers of src/components/LeaveRequestList.tsx: the 24-hour
    to 12-hour time label, the duration text, the optional time range, the
    status badge with its fallback, and the rule for the cancel button. */
module LeaveRequestList {
  import opened Base
  import opened Numbers
  import opened Text

  // ---------------------------------------------------------------------
  // Time labels

  /** `h >= 12 ? 'PM' : 'AM'`: `NaN >= 12` is false. */
  function Meridiem(h: JsNumber): string {
    if h.Num? && h.n >= 12 then "PM" else "AM"
  }

  /** `h === 0 ? 12 : h > 12 ? h - 12 : h`. */
  function Hour12Of(h: JsNumber): JsNumber {
    match h
    case NaN => NaN
    case Num(n) => if n == 0 then Num(12) else if n > 12 then Num(n - 12) else Num(n)
  }

  /** The label for a parsed hour and the minute text. */
  function LabelOf(h: JsNumber, minutes: string): string {
    ShowNumber(Hour12Of(h)) + ":" + minutes + " " + Meridiem(h)
  }

  /** `parts[1] ?? '00'`. */
  function MinutePart(parts: seq<string>): string {
    if |parts| > 1 then parts[1] else "00"
  }

  /** `formatTimeLabel(time)`: the hour is the leading integer of the part
      before the first colon, the minutes are the text between the first and
      the second colon, `"00"` when there is no colon. `parts[0]` always
      exists, so the `'0'` default is never used. The label always ends in a
      meridiem, PM exactly when the hour reads as twelve or more. */
  function FormatTimeLabel(time: string): (text: string)
    ensures var h := ParseInt(Split(time, ':')[0]);
            && |text| >= 3
            && text[|text| - 3..] == (if h.Num? && h.n >= 12 then " PM" else " AM")
  {
    var parts := Split(time, ':');
    LabelEndsWithMeridiem(ParseInt(parts[0]), MinutePart(parts));
    LabelOf(ParseInt(parts[0]), MinutePart(parts))
  }

  lemma LabelEndsWithMeridiem(h: JsNumber, minutes: string)
    ensures var l := LabelOf(h, minutes);
            |l| >= 3 && l[|l| - 3..] == (if h.Num? && h.n >= 12 then " PM" else " AM")
  {
    var pre := ShowNumber(Hour12Of(h)) + ":" + minutes;
    var tail := " " + Meridiem(h);
    assert LabelOf(h, minutes) == pre + tail;
    assert (pre + tail)[|pre|..] == tail;
  }

  /** The hour on a 12-hour clock face, as a reference: the remainder modulo
      twelve, with twelve in place of zero. */
  function ClockHour(h: nat): (c: nat)
    requires h < 24
    ensures 1 <= c <= 12
  {
    if h % 12 == 0 then 12 else h % 12
  }

  /** Reading a 12-hour label back: the hour and the meridiem determine the
      24-hour hour. */
  function Hour24(clock: nat, pm: bool): nat {
    clock % 12 + if pm then 12 else 0
  }

  /** The 12-hour label loses nothing: every hour of the day is recovered
      from its clock hour and its meridiem. */
  lemma ClockHourRoundTrip(h: nat)
    requires h < 24
    ensures Hour24(ClockHour(h), h >= 12) == h
  {
  }

  /** For an hour of the day the source's branches give the clock hour. */
  lemma Hour12OfClock(h: nat)
    requires h < 24
    ensures Hour12Of(Num(h)) == Num(ClockHour(h))
  {
  }

  /** And so the label shows the clock hour, with PM exactly from noon. */
  lemma LabelOfClock(h: nat, minutes: string)
    requires h < 24
    ensures LabelOf(Num(h), minutes) == NatToString(ClockHour(h)) + ":" + minutes + " " + (if h < 12 then "AM" else "PM")
  {
    Hour12OfClock(h);
    var c := ClockHour(h);
    assert ShowNumber(Num(c)) == NatToString(c);
    assert Meridiem(Num(h)) == if h < 12 then "AM" else "PM";
  }

  lemma ParseNumeral(n: nat)
    ensures ParseInt(NatToString(n)) == Num(n)
  {
    ParseIntOfNumeral(n, "");
    assert NatToString(n) + "" == NatToString(n);
  }

  lemma DigitsHaveNoColon(d: string)
    requires AllDigits(d)
    ensures ':' !in d
  {
    forall i | 0 <= i < |d|
      ensures d[i] != ':'
    {
      assert IsDigit(d[i]);
    }
  }

  /** An hour text is a run of digits, with or without leading zeros, that
      reads as an hour of the day: `"9"`, `"09"` and `"00"` all qualify. */
  predicate HourText(hs: string) {
    |hs| >= 1 && AllDigits(hs) && DigitsValue(hs) < 24
  }

  /** The label of a time whose hour text reads as hour `h`. */
  function ClockLabel(h: nat, minutes: string): string
    requires h < 24
  {
    NatToString(ClockHour(h)) + ":" + minutes + " " + (if h < 12 then "AM" else "PM")
  }

  /** A time `H:rest` with `H` an hour of the day, zero-padded or not, is
      labelled with the clock hour, the text up to the next colon, and AM
      before noon, PM from noon: hour 0 is 12 AM, hour 12 is 12 PM, hours 13
      to 23 lose twelve, and a leading zero of the hour is dropped. */
  lemma TimeLabelOfClock(hs: string, rest: string)
    requires HourText(hs)
    ensures FormatTimeLabel(hs + ":" + rest) == ClockLabel(DigitsValue(hs), Split(rest, ':')[0])
  {
    var h := DigitsValue(hs);
    DigitsHaveNoColon(hs);
    SplitPrefix(hs, rest, ':');
    assert hs + ":" + rest == hs + [':'] + rest;
    var parts := Split(hs + ":" + rest, ':');
    assert parts[0] == hs && MinutePart(parts) == Split(rest, ':')[0];
    ParseIntOfDigits(hs, "");
    assert hs + "" == hs;
    LabelOfClock(h, Split(rest, ':')[0]);
  }

  /** Minutes without a colon after them are copied verbatim. */
  lemma TimeLabelCopiesMinutes(hs: string, mm: string)
    requires HourText(hs) && ':' !in mm
    ensures FormatTimeLabel(hs + ":" + mm) == ClockLabel(DigitsValue(hs), mm)
  {
    TimeLabelOfClock(hs, mm);
    SplitFree(mm, ':');
  }

  /** The label is read off the first two parts of the split. */
  lemma LabelFromParts(time: string, hourPart: string, minutes: string)
    requires Split(time, ':')[0] == hourPart && MinutePart(Split(time, ':')) == minutes
    ensures FormatTimeLabel(time) == LabelOf(ParseInt(hourPart), minutes)
  {
  }

  lemma ZeroMinutesText(c: string, ampm: string)
    ensures c + ":" + "00" + " " + ampm == c + ":00 " + ampm
  {
  }

  /** A bare hour, zero-padded or not, gets the minutes `"00"`. */
  lemma BareHourGetsZeroMinutes(hs: string)
    requires HourText(hs)
    ensures FormatTimeLabel(hs) == ClockLabel(DigitsValue(hs), "00")
  {
    var h := DigitsValue(hs);
    DigitsHaveNoColon(hs);
    SplitFree(hs, ':');
    LabelFromParts(hs, hs, "00");
    ParseIntOfDigits(hs, "");
    assert hs + "" == hs;
    LabelOfClock(h, "00");
  }

  /** The `HH:mm` times of the backend: midnight half past, a padded morning
      hour and an afternoon hour. */
  lemma PaddedTimes(midnight: string, morning: string, afternoon: string)
    requires midnight == "00:30" && morning == "09:05" && afternoon == "13:45"
    ensures FormatTimeLabel(midnight) == "12:30 AM"
    ensures FormatTimeLabel(morning) == "9:05 AM"
    ensures FormatTimeLabel(afternoon) == "1:45 PM"
  {
    MidnightHalfPast(midnight);
    PaddedMorning(morning);
    Afternoon(afternoon);
  }

  lemma ClockLabelTexts()
    ensures ClockLabel(0, "30") == "12:30 AM"
    ensures ClockLabel(9, "05") == "9:05 AM"
    ensures ClockLabel(13, "45") == "1:45 PM"
  {
    assert NatToString(12) == "12" by { assert NatToString(1) == "1"; }
    assert NatToString(9) == "9";
    assert NatToString(1) == "1";
  }

  lemma HourTexts()
    ensures HourText("00") && DigitsValue("00") == 0
    ensures HourText("09") && DigitsValue("09") == 9
    ensures HourText("13") && DigitsValue("13") == 13
  {
    assert "00"[..1] == "0" && "09"[..1] == "0" && "13"[..1] == "1";
  }

  lemma MidnightHalfPast(time: string)
    requires time == "00:30"
    ensures FormatTimeLabel(time) == "12:30 AM"
  {
    assert "00" + ":" + "30" == time;
    assert FormatTimeLabel("00" + ":" + "30") == ClockLabel(0, "30") by {
      HourTexts();
      assert ':' !in "30";
      TimeLabelCopiesMinutes("00", "30");
    }
    assert ClockLabel(0, "30") == "12:30 AM" by { ClockLabelTexts(); }
  }

  lemma PaddedMorning(time: string)
    requires time == "09:05"
    ensures FormatTimeLabel(time) == "9:05 AM"
  {
    assert "09" + ":" + "05" == time;
    assert FormatTimeLabel("09" + ":" + "05") == ClockLabel(9, "05") by {
      HourTexts();
      assert ':' !in "05";
      TimeLabelCopiesMinutes("09", "05");
    }
    assert ClockLabel(9, "05") == "9:05 AM" by { ClockLabelTexts(); }
  }

  lemma Afternoon(time: string)
    requires time == "13:45"
    ensures FormatTimeLabel(time) == "1:45 PM"
  {
    assert "13" + ":" + "45" == time;
    assert FormatTimeLabel("13" + ":" + "45") == ClockLabel(13, "45") by {
      HourTexts();
      assert ':' !in "45";
      TimeLabelCopiesMinutes("13", "45");
    }
    assert ClockLabel(13, "45") == "1:45 PM" by { ClockLabelTexts(); }
  }

  // ---------------------------------------------------------------------
  // Durations

  /** `LeaveDurationType`; any other string the backend sends takes the
      `default` branch. */
  datatype DurationType = FullDay | HalfDay | QuarterDay | Hourly | OtherType(name: string)

  /** The text of the hour and minute parts that are positive, joined by a
      space, or `"0m"` when neither is. */
  function PartsLabel(hours: int, mins: int): string {
    var parts := (if hours > 0 then [IntToString(hours) + "h"] else []) +
                 (if mins > 0 then [IntToString(mins) + "m"] else []);
    if parts == [] then "0m" else Join(parts, ' ')
  }

  /** The `HOURLY` branch of `formatDuration` as written: whole hours, then the
      rounded minutes of the fraction. */
  function HourlyLabel(value: Decimal): string {
    HourlyText(Value(value))
  }

  /** The hourly text of a number of hours. */
  function HourlyText(x: real): string {
    var hours := Floor(x);
    PartsLabel(hours, Round((x - hours as real) * 60.0))
  }

  /** `formatDuration(req)`. */
  function FormatDuration(durationType: DurationType, value: Decimal): (text: string)
    ensures durationType.FullDay? && Value(value) > 1.0 ==> text == ShowDecimal(value) + " days"
    ensures durationType.FullDay? && Value(value) <= 1.0 ==> text == ShowDecimal(value) + " day"
    ensures durationType.HalfDay? ==> text == "Half Day"
    ensures durationType.QuarterDay? ==> text == "Quarter Day"
    ensures durationType.Hourly? ==> text == HourlyLabel(value)
    ensures durationType.OtherType? ==> text == ShowDecimal(value)
  {
    match durationType
    case FullDay => ShowDecimal(value) + " day" + (if Value(value) > 1.0 then "s" else "")
    case HalfDay => "Half Day"
    case QuarterDay => "Quarter Day"
    case Hourly => HourlyLabel(value)
    case OtherType(_) => ShowDecimal(value)
  }

  lemma CancelScale(a: real, p: real)
    requires p != 0.0
    ensures (a * p) / p == a
  {
  }

  lemma ValueOfWhole(k: int, scale: nat)
    ensures Value(Decimal(k * Pow10(scale), scale)) == k as real
  {
    var p := Pow10(scale);
    assert (k * p) as real == k as real * p as real;
    CancelScale(k as real, p as real);
  }

  /** A whole number of days, however many zero decimals it was entered with,
      renders as its numeral; only more than one day is plural. */
  lemma FullDays(k: int, scale: nat)
    ensures FormatDuration(FullDay, Decimal(k * Pow10(scale), scale)) ==
              IntToString(k) + (if k > 1 then " days" else " day")
  {
    ShowWholeDecimal(k, scale);
    ValueOfWhole(k, scale);
  }

  /** A reference text for a whole number of minutes: hours and minutes,
      each shown only when non-zero, `"0m"` for none. */
  function MinutesText(total: nat): string {
    if total == 0 then "0m"
    else if total < 60 then NatToString(total) + "m"
    else if total % 60 == 0 then NatToString(total / 60) + "h"
    else NatToString(total / 60) + "h " + NatToString(total % 60) + "m"
  }

  /** `Math.floor` of a value known to lie in `[q, q + 1)` is `q`. */
  lemma FloorIs(x: real, q: int)
    requires q as real <= x < q as real + 1.0
    ensures Floor(x) == q
  {
  }

  /** `Math.round` of a whole value is that value. */
  lemma RoundWhole(n: int)
    ensures Round(n as real) == n
  {
  }

  lemma JoinOne(a: string)
    ensures Join([a], ' ') == a
  {
  }

  lemma JoinTwo(a: string, b: string)
    ensures Join([a, b], ' ') == a + " " + b
  {
    assert [a, b][1..] == [b];
    JoinOne(b);
  }

  /** The parts of a whole number of minutes split into hours and the
      remaining minutes are the reference text. */
  lemma PartsOfTotal(total: nat)
    ensures PartsLabel(total / 60, total % 60) == MinutesText(total)
  {
    var q := total / 60;
    var r := total % 60;
    if q > 0 && r > 0 {
      var hp := IntToString(q) + "h";
      var mp := IntToString(r) + "m";
      assert [hp] + [mp] == [hp, mp];
      JoinTwo(hp, mp);
      assert hp + " " + mp == NatToString(q) + "h " + NatToString(r) + "m";
    } else if q > 0 {
      assert [IntToString(q) + "h"] + [] == [IntToString(q) + "h"];
      JoinOne(IntToString(q) + "h");
    } else if r > 0 {
      assert [] + [IntToString(r) + "m"] == [IntToString(r) + "m"];
      JoinOne(IntToString(r) + "m");
    }
  }

  /** An hourly duration that is a whole number of minutes renders as that
      many hours and minutes, zero parts left out. */
  lemma HourlyOfWholeMinutes(value: Decimal, total: nat)
    requires Value(value) * 60.0 == total as real
    ensures FormatDuration(Hourly, value) == MinutesText(total)
  {
    HourlyTextOfWholeMinutes(Value(value), total);
  }

  lemma HourlyTextOfWholeMinutes(x: real, total: nat)
    requires x * 60.0 == total as real
    ensures HourlyText(x) == MinutesText(total)
  {
    var q := total / 60;
    var r := total % 60;
    assert total == q * 60 + r;
    assert x == q as real + r as real / 60.0;
    FloorIs(x, q);
    assert (x - q as real) * 60.0 == r as real;
    RoundWhole(r);
    assert HourlyText(x) == PartsLabel(q, r);
    PartsOfTotal(total);
  }

  /** The minutes the hourly text shows: the rounded total minutes less the
      whole hours, which can reach sixty. */
  lemma HourlyMinutes(x: real)
    ensures var hours := Floor(x);
            var mins := Round((x - hours as real) * 60.0);
            && 0 <= mins <= 60
            && hours * 60 + mins == Round(x * 60.0)
  {
    var hours := Floor(x);
    var y := (x - hours as real) * 60.0;
    assert 0.0 <= y < 60.0;
    var mins := Round(y);
    var h60 := hours * 60;
    assert x * 60.0 == y + h60 as real;
    assert Round(x * 60.0) == mins + h60 by {
      var z := mins + h60;
      assert x * 60.0 - 0.5 < z as real <= x * 60.0 + 0.5;
      assert Round(x * 60.0) as real > x * 60.0 - 0.5;
      assert Round(x * 60.0) as real <= x * 60.0 + 0.5;
    }
  }

  /** An hourly duration of 1.995 hours is 1 hour and 59.7 minutes; the
      minutes round up to a full hour and the text shows sixty of them. */
  lemma SixtyMinutesShown()
    ensures HourlyLabel(Decimal(1995, 3)) == "1h 60m"
  {
    var v := Decimal(1995, 3);
    assert Pow10(3) == 1000;
    assert Value(v) == 1.995;
    SixtyMinutesText();
  }

  lemma SixtyMinutesText()
    ensures HourlyText(1.995) == "1h 60m"
  {
    FloorIs(1.995, 1);
    assert (1.995 - 1.0) * 60.0 == 59.7;
    FloorIs(60.2, 60);
    assert Round(59.7) == 60;
    assert HourlyText(1.995) == PartsLabel(1, 60);
    assert NatToString(1) == "1";
    assert NatToString(6) == "6";
    assert NatToString(60) == NatToString(6) + "0";
    assert IntToString(1) + "h" == "1h" && IntToString(60) + "m" == "60m";
    assert ["1h"] + ["60m"] == ["1h", "60m"];
    assert PartsLabel(1, 60) == Join(["1h", "60m"], ' ');
    JoinTwo("1h", "60m");
    assert "1h" + " " + "60m" == "1h 60m";
  }

  /** The hourly text with the rounding carried into the hours: the rounded
      total minutes split into hours and fewer than sixty minutes. */
  function HourlyLabelCarried(value: Decimal): (text: string)
    ensures var total := Round(Value(value) * 60.0);
            total >= 0 ==> text == MinutesText(total)
  {
    CarriedHourlyText(Value(value))
  }

  /** The carried text of a number of hours. */
  function CarriedHourlyText(x: real): (text: string)
    ensures var total := Round(x * 60.0);
            total >= 0 ==> text == MinutesText(total)
  {
    var total := Round(x * 60.0);
    if total >= 0 then CarriedOfTotal(total); CarriedText(total) else CarriedText(total)
  }

  /** A whole number of minutes as hours and fewer than sixty minutes. */
  function CarriedText(total: int): string {
    PartsLabel(FloorDiv(total, 60), total % 60)
  }

  /** The carried text never shows sixty minutes or more, shows the same
      total as the text as written, and differs from it only where that one
      shows sixty minutes. */
  lemma HourlyCarried(value: Decimal)
    ensures var total := Round(Value(value) * 60.0);
            && FloorDiv(total, 60) * 60 + total % 60 == total
            && 0 <= total % 60 < 60
            && (Round((Value(value) - Floor(Value(value)) as real) * 60.0) < 60 ==>
                  HourlyLabelCarried(value) == HourlyLabel(value))
  {
    CarriedAgrees(Value(value));
  }

  lemma CarriedAgrees(x: real)
    ensures var total := Round(x * 60.0);
            && FloorDiv(total, 60) * 60 + total % 60 == total
            && 0 <= total % 60 < 60
            && (Round((x - Floor(x) as real) * 60.0) < 60 ==> CarriedHourlyText(x) == HourlyText(x))
  {
    var total := Round(x * 60.0);
    HourlyMinutes(x);
    var hours := Floor(x);
    var mins := Round((x - hours as real) * 60.0);
    assert CarriedHourlyText(x) == CarriedText(total);
    if mins < 60 {
      assert total == hours * 60 + mins;
      assert FloorDiv(total, 60) == hours;
      assert total % 60 == mins;
    }
  }

  /** A whole non-negative number of minutes, carried, is the reference
      text. */
  lemma CarriedOfTotal(total: nat)
    ensures CarriedText(total) == MinutesText(total)
  {
    assert CarriedText(total) == PartsLabel(total / 60, total % 60);
    PartsOfTotal(total);
  }

  // ---------------------------------------------------------------------
  // Time range, status badge, cancel button

  /** `formatTimeRange(req)`: both ends must be truthy strings. */
  function FormatTimeRange(startTime: Option<string>, endTime: Option<string>): (range: Option<string>)
    ensures range.Some? <==> Truthy(startTime) && Truthy(endTime)
    ensures range.Some? ==> FormatTimeLabel(startTime.value) <= range.value
    ensures range.Some? ==>
              range.value[|FormatTimeLabel(startTime.value)|..] == " – " + FormatTimeLabel(endTime.value)
  {
    if Truthy(startTime) && Truthy(endTime) then
      var first := FormatTimeLabel(startTime.value);
      var rest := " – " + FormatTimeLabel(endTime.value);
      assert (first + rest)[|first|..] == rest;
      Some(first + rest)
    else None
  }

  /** The range of two `H:mm` times, hours zero-padded or not, joins their
      12-hour labels with an en dash. */
  lemma TimeRangeOfClock(hs1: string, mm1: string, hs2: string, mm2: string)
    requires HourText(hs1) && ':' !in mm1
    requires HourText(hs2) && ':' !in mm2
    ensures FormatTimeRange(Some(hs1 + ":" + mm1), Some(hs2 + ":" + mm2)) ==
              Some(ClockLabel(DigitsValue(hs1), mm1) + " – " + ClockLabel(DigitsValue(hs2), mm2))
  {
    var t1, t2 := hs1 + ":" + mm1, hs2 + ":" + mm2;
    RangeOfLabels(t1, t2);
    TimeLabelCopiesMinutes(hs1, mm1);
    TimeLabelCopiesMinutes(hs2, mm2);
  }

  /** Two truthy times give their labels joined by the en dash. */
  lemma RangeOfLabels(t1: string, t2: string)
    requires t1 != "" && t2 != ""
    ensures FormatTimeRange(Some(t1), Some(t2)) == Some(FormatTimeLabel(t1) + " – " + FormatTimeLabel(t2))
  {
    var r := FormatTimeRange(Some(t1), Some(t2));
    var a, b := FormatTimeLabel(t1), FormatTimeLabel(t2);
    assert a <= r.value && r.value[|a|..] == " – " + b;
    assert r.value == r.value[..|a|] + r.value[|a|..];
    assert a + (" – " + b) == a + " – " + b;
  }

  datatype BadgeColor = Warning | Success | ErrorColor | DefaultColor

  datatype Badge = Badge(color: BadgeColor, caption: string)

  predicate KnownStatus(status: string) {
    status == "PENDING" || status == "APPROVED" || status == "REJECTED" || status == "CANCELLED"
  }

  /** `statusConfig[req.status] ?? statusConfig.CANCELLED`. */
  function StatusBadge(status: string): (b: Badge)
    ensures !KnownStatus(status) || status == "CANCELLED" ==> b == Badge(DefaultColor, "Cancelled")
    ensures b.color == DefaultColor <==> !KnownStatus(status) || status == "CANCELLED"
  {
    if status == "PENDING" then Badge(Warning, "Pending")
    else if status == "APPROVED" then Badge(Success, "Approved")
    else if status == "REJECTED" then Badge(ErrorColor, "Rejected")
    else Badge(DefaultColor, "Cancelled")
  }

  /** Distinct known statuses get distinct badges, so a badge tells the
      status apart among the known ones. */
  lemma BadgesDistinct(s1: string, s2: string)
    requires KnownStatus(s1) && KnownStatus(s2) && s1 != s2
    ensures StatusBadge(s1) != StatusBadge(s2)
  {
  }

  /** `req.status === 'PENDING' && onCancel`. */
  function ShowCancel(status: string, hasHandler: bool): (shown: bool)
    ensures shown <==> hasHandler && StatusBadge(status).color == Warning
  {
    status == "PENDING" && hasHandler
  }
}
