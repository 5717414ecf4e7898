/**
 * The single date-and-time picker of
 * frontend/src/components/ui/datetime-picker.tsx. Its `Date` carries a
 * time of day, so here it is a number of minutes since 1970-01-01T00:00
 * local time. The date fields of its `parseISO` and the time fields it
 * reads are exactly DateRangePicker's `parseISO` and `extractTime`, and its
 * `formatToISO` prints a `Date` as DateRangePicker's does for a day and a
 * time, so those pieces are reused. The chosen time is state of the
 * component: class TimeState.
 */
module DateTimePicker {
  import opened Common
  import opened Calendar
  import DateRangePicker
  import DateTimeInput

  const DayMinutes: int := 1440

  /** A `Date` with a time of day: a local minute, or the Invalid Date. */
  datatype JsDateTime = InvalidDateTime | AtMinute(minute: int)

  /** `formatToISO(date)`: the date, then the `getHours()`:`getMinutes()` of the minute. */
  function FormatToIso(date: JsDateTime): string
  {
    match date
    case InvalidDateTime => "NaN-NaN-NaNTNaN:NaN"
    case AtMinute(t) =>
      DateRangePicker.FormatToIso(DateRangePicker.DateAt(t / DayMinutes),
                                  DateRangePicker.Time((t % DayMinutes) / 60, t % 60))
  }

  /**
   * `parseISO`: `null` for an empty text or an empty date part, otherwise
   * `new Date(year, month - 1, day, hours, minutes)` with a missing or
   * non-numeric time field read as 0; hours and minutes out of range
   * carry into the following days and hours.
   */
  function ParseIso(s: string): Option<JsDateTime>
  {
    match DateRangePicker.ParseIso(s)
    case None => None
    case Some(d) =>
      if d.InvalidDate? then Some(InvalidDateTime)
      else
        var t := DateRangePicker.ExtractTime(s);
        Some(AtMinute(d.day * DayMinutes + t.hours * 60 + t.minutes))
  }

  /** The empty value is no date at all. */
  lemma ParseEmpty()
    ensures ParseIso("") == None
  {
  }

  /** A date without a time is read at 00:00. */
  lemma ParseDateOnly(s: string, n: int)
    requires 'T' !in s && DateRangePicker.ParseIso(s) == Some(DateRangePicker.DateAt(n))
    ensures ParseIso(s) == Some(AtMinute(n * DayMinutes))
  {
    DateRangePicker.ExtractTimeWithoutT(s);
  }

  /** A minute of day `n` at a real time of day falls on day `n` with that time. */
  lemma MinuteParts(n: int, h: int, mi: int)
    requires 0 <= h <= 23 && 0 <= mi <= 59
    ensures var t := n * DayMinutes + h * 60 + mi;
            t / DayMinutes == n && (t % DayMinutes) / 60 == h && t % 60 == mi
  {
    var t := n * DayMinutes + h * 60 + mi;
    DivModUnique(t, DayMinutes, n, h * 60 + mi);
    DivModUnique(h * 60 + mi, 60, h, mi);
    DivModUnique(t, 60, n * 24 + h, mi);
  }

  /** Every minute is a day, an hour of the day and a minute of the hour. */
  lemma MinuteSplit(t: int)
    ensures var h := (t % DayMinutes) / 60;
            0 <= h <= 23 && 0 <= t % 60 <= 59 && t == t / DayMinutes * DayMinutes + h * 60 + t % 60
  {
    var r := t % DayMinutes;
    assert t == t / DayMinutes * DayMinutes + r;
    assert r == r / 60 * 60 + r % 60;
    assert t == (t / DayMinutes * 24 + r / 60) * 60 + r % 60;
    assert t % 60 == r % 60;
  }

  /** `parseISO` in terms of the day and time the range picker's helpers read. */
  lemma ParseOfParts(s: string, n: int, tm: DateRangePicker.Time)
    requires DateRangePicker.ParseIso(s) == Some(DateRangePicker.DateAt(n))
    requires DateRangePicker.ExtractTime(s) == tm
    ensures ParseIso(s) == Some(AtMinute(n * DayMinutes + tm.hours * 60 + tm.minutes))
  {
  }

  /** `formatToISO` of a minute given as a day and a real time of day. */
  lemma FormatOfParts(t: int, n: int, h: int, mi: int)
    requires 0 <= h <= 23 && 0 <= mi <= 59 && t == n * DayMinutes + h * 60 + mi
    ensures FormatToIso(AtMinute(t)) == DateRangePicker.FormatToIso(DateRangePicker.DateAt(n), DateRangePicker.Time(h, mi))
  {
    MinuteParts(n, h, mi);
    FormatAt(t, n, h, mi);
  }

  /** A minute prints as its day, its hour of the day and its minute of the hour. */
  lemma FormatAt(t: int, n: int, h: int, mi: int)
    requires t / DayMinutes == n && (t % DayMinutes) / 60 == h && t % 60 == mi
    ensures FormatToIso(AtMinute(t)) == DateRangePicker.FormatToIso(DateRangePicker.DateAt(n), DateRangePicker.Time(h, mi))
  {
  }

  /**
   * A real 'YYYY-MM-DDTHH:mm' from year 1000 on, with HH ≤ 23 and mm ≤ 59,
   * comes back unchanged from `formatToISO(parseISO(s))`.
   */
  lemma IsoRoundTrip(x: string)
    requires DateTimeInput.IsIsoDateTime(x) && x[0] != '0'
    requires ValidCivil(DecimalValue(x[..4]), DecimalValue(x[5..7]), DecimalValue(x[8..10]))
    requires DecimalValue(x[11..13]) <= 23 && DecimalValue(x[14..]) <= 59
    ensures ParseIso(x).Some? && FormatToIso(ParseIso(x).value) == x
  {
    DateRangePicker.IsoRoundTrip(x);
    DateRangePicker.IsoFields(x);
    var d := DateRangePicker.ParseIso(x).value;
    RoundTripOfParts(x, d.day, DateRangePicker.ExtractTime(x));
  }

  /** `formatToISO(parseISO(x))` in terms of the range picker's reading of `x`. */
  lemma RoundTripOfParts(x: string, n: int, tm: DateRangePicker.Time)
    requires DateRangePicker.ParseIso(x) == Some(DateRangePicker.DateAt(n))
    requires DateRangePicker.ExtractTime(x) == tm && 0 <= tm.hours <= 23 && 0 <= tm.minutes <= 59
    ensures ParseIso(x).Some?
    ensures FormatToIso(ParseIso(x).value) == DateRangePicker.FormatToIso(DateRangePicker.DateAt(n), tm)
  {
    ParseOfParts(x, n, tm);
    FormatOfParsed(ParseIso(x), n, tm);
  }

  lemma FormatOfParsed(p: Option<JsDateTime>, n: int, tm: DateRangePicker.Time)
    requires 0 <= tm.hours <= 23 && 0 <= tm.minutes <= 59
    requires p == Some(AtMinute(n * DayMinutes + tm.hours * 60 + tm.minutes))
    ensures FormatToIso(p.value) == DateRangePicker.FormatToIso(DateRangePicker.DateAt(n), tm)
  {
    FormatOfParts(p.value.minute, n, tm.hours, tm.minutes);
  }

  /** Formatting an instant and parsing it again gives the same minute, from year 100 on. */
  lemma ParseFormatted(t: int)
    requires CivilFromDays(t / DayMinutes).year >= 100
    ensures ParseIso(FormatToIso(AtMinute(t))) == Some(AtMinute(t))
  {
    var n := t / DayMinutes;
    var tm := DateRangePicker.Time((t % DayMinutes) / 60, t % 60);
    MinuteSplit(t);
    FormatOfParts(t, n, tm.hours, tm.minutes);
    var s := DateRangePicker.FormatToIso(DateRangePicker.DateAt(n), tm);
    DateRangePicker.ParseFormatted(n, tm);
    DateRangePicker.ExtractFormatted(DateRangePicker.DateAt(n), tm);
    ParseOfParts(s, n, tm);
  }

  // ------------------------------------------------------------------
  // The chosen time
  // ------------------------------------------------------------------

  /** The '−' hour button: one hour back, from 0 to 23. */
  function HourDown(h: int): int { if h > 0 then h - 1 else 23 }

  /** The '+' hour button: one hour on, from 23 to 0. */
  function HourUp(h: int): int { if h < 23 then h + 1 else 0 }

  /** The '−' minute button: one minute back, from 0 to 59. */
  function MinuteDown(m: int): int { if m > 0 then m - 1 else 59 }

  /** The '+' minute button: one minute on, from 59 to 0. */
  function MinuteUp(m: int): int { if m < 59 then m + 1 else 0 }

  /** On a real hour the hour buttons count modulo 24 and undo each other. */
  lemma HourButtonsCycle(h: int)
    requires 0 <= h <= 23
    ensures HourUp(h) == (h + 1) % 24 && HourDown(h) == (h + 23) % 24
    ensures HourDown(HourUp(h)) == h && HourUp(HourDown(h)) == h
  {
  }

  /** On a real minute the minute buttons count modulo 60 and undo each other. */
  lemma MinuteButtonsCycle(m: int)
    requires 0 <= m <= 59
    ensures MinuteUp(m) == (m + 1) % 60 && MinuteDown(m) == (m + 59) % 60
    ensures MinuteDown(MinuteUp(m)) == m && MinuteUp(MinuteDown(m)) == m
  {
  }

  /** `k` presses of '+' on a real hour land on `(h + k) % 24`. */
  function HourUpTimes(h: int, k: nat): int
    decreases k
  {
    if k == 0 then h else HourUp(HourUpTimes(h, k - 1))
  }

  lemma {:induction false} HourUpTimesMod(h: int, k: nat)
    requires 0 <= h <= 23
    ensures HourUpTimes(h, k) == (h + k) % 24
    decreases k
  {
    if k > 0 {
      HourUpTimesMod(h, k - 1);
      var p := (h + k - 1) % 24;
      var q := (h + k - 1) / 24;
      DivModUnique(h + k - 1, 24, q, p);
      if p == 23 {
        DivModUnique(h + k, 24, q + 1, 0);
      } else {
        DivModUnique(h + k, 24, q, p + 1);
      }
    }
  }

  /**
   * The picker's `selectedDate` and `selectedTime`. Every way the time is
   * changed keeps it a real time of day.
   */
  class TimeState {
    var selectedDate: Option<JsDateTime>
    var hours: int
    var minutes: int

    predicate Valid()
      reads this
    {
      0 <= hours <= 23 && 0 <= minutes <= 59
    }

    /** The initial state for a `value`: its date and time, or no date at 18:00. */
    constructor (value: string)
      requires ParseIso(value) != Some(InvalidDateTime)
      ensures Valid()
      ensures selectedDate == ParseIso(value)
      ensures ParseIso(value).Some? && ParseIso(value).value.AtMinute? ==>
                hours == (ParseIso(value).value.minute % DayMinutes) / 60 && minutes == ParseIso(value).value.minute % 60
      ensures ParseIso(value).None? ==> hours == 18 && minutes == 0
    {
      selectedDate := ParseIso(value);
      match ParseIso(value)
      case Some(AtMinute(t)) =>
        hours := (t % DayMinutes) / 60;
        minutes := t % 60;
      case _ =>
        hours := 18;
        minutes := 0;
    }

    method HourMinus()
      requires Valid()
      modifies this
      ensures Valid() && hours == (old(hours) + 23) % 24
      ensures minutes == old(minutes) && selectedDate == old(selectedDate)
    {
      hours := HourDown(hours);
    }

    method HourPlus()
      requires Valid()
      modifies this
      ensures Valid() && hours == (old(hours) + 1) % 24
      ensures minutes == old(minutes) && selectedDate == old(selectedDate)
    {
      hours := HourUp(hours);
    }

    method MinuteMinus()
      requires Valid()
      modifies this
      ensures Valid() && minutes == (old(minutes) + 59) % 60
      ensures hours == old(hours) && selectedDate == old(selectedDate)
    {
      minutes := MinuteDown(minutes);
    }

    method MinutePlus()
      requires Valid()
      modifies this
      ensures Valid() && minutes == (old(minutes) + 1) % 60
      ensures hours == old(hours) && selectedDate == old(selectedDate)
    {
      minutes := MinuteUp(minutes);
    }

    /** The hour box: the typed `parseInt` clamped to 0..23, `NaN` as 0. */
    method TypeHours(text: string)
      modifies this
      ensures hours == ClampParsed(text, 0, 23) && 0 <= hours <= 23
      ensures JsParseInt(text).None? ==> hours == 0
      ensures JsParseInt(text).Some? && 0 <= JsParseInt(text).value <= 23 ==> hours == JsParseInt(text).value
      ensures JsParseInt(text).Some? && JsParseInt(text).value > 23 ==> hours == 23
      ensures JsParseInt(text).Some? && JsParseInt(text).value < 0 ==> hours == 0
      ensures minutes == old(minutes) && selectedDate == old(selectedDate)
    {
      hours := ClampParsed(text, 0, 23);
    }

    /** The minute box: the typed `parseInt` clamped to 0..59, `NaN` as 0. */
    method TypeMinutes(text: string)
      modifies this
      ensures minutes == ClampParsed(text, 0, 59) && 0 <= minutes <= 59
      ensures JsParseInt(text).None? ==> minutes == 0
      ensures JsParseInt(text).Some? && 0 <= JsParseInt(text).value <= 59 ==> minutes == JsParseInt(text).value
      ensures JsParseInt(text).Some? && JsParseInt(text).value > 59 ==> minutes == 59
      ensures JsParseInt(text).Some? && JsParseInt(text).value < 0 ==> minutes == 0
      ensures hours == old(hours) && selectedDate == old(selectedDate)
    {
      minutes := ClampParsed(text, 0, 59);
    }

    /** A click on a day of the grid selects it. */
    method SelectDay(day: int)
      modifies this
      ensures selectedDate == Some(AtMinute(day * DayMinutes))
      ensures hours == old(hours) && minutes == old(minutes)
    {
      selectedDate := Some(AtMinute(day * DayMinutes));
    }

    /**
     * `handleConfirm`: the selected date, or `today` when none is
     * selected, at the chosen time, as 'YYYY-MM-DDTHH:mm'.
     */
    method Confirm(today: int) returns (value: string)
      requires Valid()
      ensures value == FormatToIso(WithClock(if selectedDate.Some? then selectedDate.value else AtMinute(today * DayMinutes), hours, minutes))
    {
      var date := if selectedDate.Some? then selectedDate.value else AtMinute(today * DayMinutes);
      value := FormatToIso(WithClock(date, hours, minutes));
    }
  }

  /** `date.setHours(h, m, 0, 0)`: same day, new time; the Invalid Date stays invalid. */
  function WithClock(date: JsDateTime, h: int, m: int): JsDateTime
  {
    match date
    case InvalidDateTime => InvalidDateTime
    case AtMinute(t) => AtMinute(t / DayMinutes * DayMinutes + h * 60 + m)
  }

  /** Confirming keeps the day and prints exactly the chosen time. */
  lemma ConfirmedValue(day: int, h: int, m: int, t0: int)
    requires 0 <= h <= 23 && 0 <= m <= 59 && t0 / DayMinutes == day
    ensures FormatToIso(WithClock(AtMinute(t0), h, m))
            == DateRangePicker.FormatToIso(DateRangePicker.DateAt(day), DateRangePicker.Time(h, m))
  {
    var t := day * DayMinutes + h * 60 + m;
    assert WithClock(AtMinute(t0), h, m) == AtMinute(t);
    FormatOfParts(t, day, h, m);
  }

  /** `handleClear` emits the empty value, which reads back as no date. */
  function Clear(): (value: string)
    ensures ParseIso(value).None?
  {
    ""
  }

  // ------------------------------------------------------------------
  // isInRange
  // ------------------------------------------------------------------

  /** The day of a `Date` once `setHours(0, 0, 0, 0)`; the Invalid Date has none. */
  function DayOfDate(d: JsDateTime): Option<int>
  {
    match d
    case InvalidDateTime => None
    case AtMinute(t) => Some(t / DayMinutes)
  }

  /** The end of the highlighted range: the selected day if not before today, else a suggested day after today. */
  function RangeEnd(today: int, selected: Option<JsDateTime>, suggested: Option<JsDateTime>): Option<int>
  {
    var fromSelected :=
      if selected.Some? && DayOfDate(selected.value).Some? && DayOfDate(selected.value).value >= today
      then DayOfDate(selected.value) else None;
    if fromSelected.None? && suggested.Some? && DayOfDate(suggested.value).Some? && DayOfDate(suggested.value).value > today
    then DayOfDate(suggested.value)
    else fromSelected
  }

  /** `isInRange` for the cell `day` of the month shown at `month`. */
  predicate IsInRange(day: Option<int>, month: int, today: int, selected: Option<JsDateTime>, suggested: Option<JsDateTime>)
  {
    match day
    case None => false
    case Some(d) =>
      var c := CivilFromDays(month);
      var checkDate := JsMakeDay(c.year, c.month - 1, d);
      if checkDate <= today then false
      else
        var endDate := RangeEnd(today, selected, suggested);
        endDate.Some? && checkDate > today && checkDate < endDate.value
  }

  /**
   * A cell is highlighted iff it lies strictly after today and strictly
   * before the end: the selected day when that is today or later,
   * otherwise a suggested day after today.
   */
  lemma InRangeMeaning(d: int, month: int, today: int, selected: Option<JsDateTime>, suggested: Option<JsDateTime>)
    ensures var c := CivilFromDays(month);
            var x := JsMakeDay(c.year, c.month - 1, d);
            var sel := if selected.Some? then DayOfDate(selected.value) else None;
            var sug := if suggested.Some? then DayOfDate(suggested.value) else None;
            IsInRange(Some(d), month, today, selected, suggested) <==>
              today < x &&
              ((sel.Some? && sel.value >= today && x < sel.value) ||
               (!(sel.Some? && sel.value >= today) && sug.Some? && sug.value > today && x < sug.value))
  {
  }

  /** Selecting today hides the suggested range: nothing is highlighted. */
  lemma SelectedTodayHidesRange(d: int, month: int, today: int, t: int, suggested: Option<JsDateTime>)
    requires t / DayMinutes == today
    ensures !IsInRange(Some(d), month, today, Some(AtMinute(t)), suggested)
  {
  }
}
