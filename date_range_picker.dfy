/**
 * The start/end picker of frontend/src/components/ui/date-range-picker.tsx:
 * the 'YYYY-MM-DDTHH:mm' codec of its two values, the calendar grid of a
 * month, the range highlight, the confirm swap and the typed-time clamps.
 * A JavaScript `Date` at local midnight is a day number (module Calendar);
 * `new Date()` never appears here because the picker only reads it for
 * default times, which are parameters.
 */
module DateRangePicker {
  import opened Common
  import opened Calendar
  import DateTimeInput

  /** A `Date` value: a day, or the Invalid Date that `NaN` arguments produce. */
  datatype JsDate = InvalidDate | DateAt(day: int)

  /** The `{ hours, minutes }` object the picker keeps for each end. */
  datatype Time = Time(hours: int, minutes: int)

  // ------------------------------------------------------------------
  // formatToISO
  // ------------------------------------------------------------------

  /** 'YYYY-MM-DD' of a date: the year unpadded, month and day padded to two. */
  function IsoDate(c: Civil): string
  {
    JsIntString(c.year) + "-" + PadInt2(c.month) + "-" + PadInt2(c.day)
  }

  /** 'HH:mm' of a time, both fields padded to two. */
  function IsoClock(t: Time): string
  {
    PadInt2(t.hours) + ":" + PadInt2(t.minutes)
  }

  /** `formatToISO(date, time)`; the Invalid Date prints its fields as "NaN". */
  function FormatToIso(date: JsDate, time: Time): string
  {
    var datePart := match date
      case InvalidDate => "NaN-NaN-NaN"
      case DateAt(n) => IsoDate(CivilFromDays(n));
    datePart + "T" + IsoClock(time)
  }

  // ------------------------------------------------------------------
  // parseISO and extractTime
  // ------------------------------------------------------------------

  /** `Number` of element `i` of a split; a missing element is `undefined`, i.e. `NaN`. */
  function NumberPart(parts: seq<string>, i: nat): Option<int>
  {
    if i < |parts| then JsNumber(parts[i]) else None
  }

  /** `Number(part) || 0`: `NaN` and a missing element both give 0. */
  function NumberOrZero(parts: seq<string>, i: nat): int
  {
    match NumberPart(parts, i)
    case None => 0
    case Some(v) => v
  }

  /**
   * `parseISO`: `None` is `null` (empty input or empty date part); the
   * date part's three '-' fields go through `Number` into `new Date`.
   */
  function ParseIso(s: string): Option<JsDate>
  {
    if s == "" then None
    else
      var datePart := Split(s, 'T')[0];
      if datePart == "" then None
      else
        var ymd := Split(datePart, '-');
        match (NumberPart(ymd, 0), NumberPart(ymd, 1), NumberPart(ymd, 2))
        case (Some(y), Some(m), Some(d)) => Some(DateAt(JsMakeDay(y, m - 1, d)))
        case _ => Some(InvalidDate)
  }

  /** `extractTime`: the ':' fields after the first 'T', each `NaN` read as 0. */
  function ExtractTime(s: string): Time
  {
    if s == "" then Time(0, 0)
    else
      var parts := Split(s, 'T');
      if |parts| < 2 || parts[1] == "" then Time(0, 0)
      else
        var hm := Split(parts[1], ':');
        Time(NumberOrZero(hm, 0), NumberOrZero(hm, 1))
  }

  /** Without a 'T' there is no time: `extractTime` gives 00:00. */
  lemma ExtractTimeWithoutT(s: string)
    requires 'T' !in s
    ensures ExtractTime(s) == Time(0, 0)
  {
    if s != "" {
      SplitNoSep(s, 'T');
    }
  }

  /** A time field that is not a number reads as 0, whatever the other field holds. */
  lemma ExtractTimeNaN(d: string, h: string, m: string)
    requires 'T' !in d && 'T' !in h && 'T' !in m && ':' !in h && ':' !in m
    requires JsNumber(h).None? && JsNumber(m).Some?
    ensures ExtractTime(d + "T" + (h + ":" + m)) == Time(0, JsNumber(m).value)
  {
    assert 'T' !in h + ":" + m;
    SplitTwo(d, 'T', h + ":" + m);
    SplitTwo(h, ':', m);
    ExtractOfSplits(d + "T" + (h + ":" + m), d, h + ":" + m, h, m);
  }

  // ------------------------------------------------------------------
  // Round trips
  // ------------------------------------------------------------------

  /** The characters of a padded integer are digits or '-'. */
  lemma PadInt2Chars(i: int)
    ensures 'T' !in PadInt2(i) && ':' !in PadInt2(i)
    ensures i >= 0 ==> '-' !in PadInt2(i) && AllDigits(PadInt2(i))
  {
    var t := JsIntString(i);
    assert i < 0 ==> t == "-" + NatToString(-i);
    assert forall k :: 0 <= k < |t| ==> t[k] == '-' || IsDigit(t[k]);
    assert forall k :: 0 <= k < |PadInt2(i)| ==> PadInt2(i)[k] == '-' || IsDigit(PadInt2(i)[k]);
  }

  /** The text of a real date from year 0 on splits on '-' into its three fields. */
  lemma SplitIsoDate(c: Civil)
    requires c.year >= 0 && c.month >= 0 && c.day >= 0
    ensures 'T' !in IsoDate(c) && IsoDate(c) != ""
    ensures Split(IsoDate(c), '-') == [NatToString(c.year), Pad2(c.month), Pad2(c.day)]
  {
    var y, mm, dd := NatToString(c.year), Pad2(c.month), Pad2(c.day);
    PadInt2Chars(c.month);
    PadInt2Chars(c.day);
    assert '-' !in y && 'T' !in y;
    assert IsoDate(c) == y + "-" + (mm + "-" + dd);
    SplitAt(y, '-', mm + "-" + dd);
    SplitAt(mm, '-', dd);
    SplitNoSep(dd, '-');
  }

  /** The ISO text of a date splits on 'T' into the date and the clock. */
  lemma SplitIso(c: Civil, t: Time)
    requires c.year >= 0 && c.month >= 0 && c.day >= 0
    ensures 'T' !in IsoClock(t) && Split(IsoDate(c) + "T" + IsoClock(t), 'T') == [IsoDate(c), IsoClock(t)]
  {
    SplitIsoDate(c);
    PadInt2Chars(t.hours);
    PadInt2Chars(t.minutes);
    SplitAt(IsoDate(c), 'T', IsoClock(t));
    SplitNoSep(IsoClock(t), 'T');
  }

  /** `Number` reads the three fields of the text of a real date from year 0 on. */
  lemma NumbersOfIsoDate(c: Civil)
    requires c.year >= 0 && c.month >= 0 && c.day >= 0
    ensures var ymd := Split(IsoDate(c), '-');
            NumberPart(ymd, 0) == Some(c.year) && NumberPart(ymd, 1) == Some(c.month)
            && NumberPart(ymd, 2) == Some(c.day)
  {
    SplitIsoDate(c);
    NatToStringValue(c.year);
    JsNumberOfDigits(NatToString(c.year));
    Pad2ValueAll(c.month);
    JsNumberOfDigits(Pad2(c.month));
    Pad2ValueAll(c.day);
    JsNumberOfDigits(Pad2(c.day));
  }

  /** Parsing a formatted date from year 100 on gives the same day back. */
  lemma ParseFormatted(n: int, t: Time)
    requires CivilFromDays(n).year >= 100
    ensures ParseIso(FormatToIso(DateAt(n), t)) == Some(DateAt(n))
  {
    var c := CivilFromDays(n);
    CivilFromDaysInverse(n);
    assert FormatToIso(DateAt(n), t) == IsoDate(c) + "T" + IsoClock(t);
    ParseOfCivil(c, t);
  }

  /** Parsing the text of a real date from year 100 on gives its day number. */
  lemma ParseOfCivil(c: Civil, t: Time)
    requires c.year >= 100 && ValidCivil(c.year, c.month, c.day)
    ensures ParseIso(IsoDate(c) + "T" + IsoClock(t)) == Some(DateAt(DaysFromCivil(c.year, c.month, c.day)))
  {
    var s := IsoDate(c) + "T" + IsoClock(t);
    SplitIso(c, t);
    SplitIsoDate(c);
    NumbersOfIsoDate(c);
    ParseOfFields(s, c.year, c.month, c.day);
    JsMakeDayOfCivil(c.year, c.month, c.day);
  }

  /** `parseISO` of a text whose date fields read as numbers. */
  lemma ParseOfFields(s: string, y: int, m: int, d: int)
    requires s != "" && Split(s, 'T')[0] != ""
    requires var ymd := Split(Split(s, 'T')[0], '-');
             NumberPart(ymd, 0) == Some(y) && NumberPart(ymd, 1) == Some(m) && NumberPart(ymd, 2) == Some(d)
    ensures ParseIso(s) == Some(DateAt(JsMakeDay(y, m - 1, d)))
  {
  }

  /** The date text of a value never holds a 'T'. */
  lemma NoTInDate(date: JsDate)
    ensures date.InvalidDate? ==> 'T' !in "NaN-NaN-NaN"
    ensures date.DateAt? ==> 'T' !in IsoDate(CivilFromDays(date.day))
  {
    if date.DateAt? {
      var c := CivilFromDays(date.day);
      PadInt2Chars(c.year);
      PadInt2Chars(c.month);
      PadInt2Chars(c.day);
      var y := JsIntString(c.year);
      assert forall k :: 0 <= k < |y| ==> y[k] == '-' || IsDigit(y[k]);
    }
  }

  /** A date text without 'T', a 'T' and a clock split on 'T' into the two texts. */
  lemma SplitClockT(d: string, t: Time)
    requires 'T' !in d
    ensures Split(d + "T" + IsoClock(t), 'T') == [d, IsoClock(t)]
  {
    PadInt2Chars(t.hours);
    PadInt2Chars(t.minutes);
    SplitAt(d, 'T', IsoClock(t));
    SplitNoSep(IsoClock(t), 'T');
  }

  /** A clock with non-negative fields splits on ':' into its two padded fields. */
  lemma SplitClockColon(t: Time)
    requires t.hours >= 0 && t.minutes >= 0
    ensures Split(IsoClock(t), ':') == [Pad2(t.hours), Pad2(t.minutes)]
  {
    PadInt2Chars(t.hours);
    PadInt2Chars(t.minutes);
    SplitAt(PadInt2(t.hours), ':', PadInt2(t.minutes));
    SplitNoSep(PadInt2(t.minutes), ':');
  }

  /** `Number` reads a padded field back. */
  lemma NumberOfPad2(n: nat)
    ensures JsNumber(Pad2(n)) == Some(n)
  {
    Pad2ValueAll(n);
    JsNumberOfDigits(Pad2(n));
  }

  /** `extractTime` of a date text, 'T' and a clock with non-negative fields. */
  lemma ExtractOfClock(d: string, t: Time)
    requires 'T' !in d && t.hours >= 0 && t.minutes >= 0
    ensures ExtractTime(d + "T" + IsoClock(t)) == t
  {
    SplitClockT(d, t);
    SplitClockColon(t);
    NumberOfPad2(t.hours);
    NumberOfPad2(t.minutes);
    ExtractOfSplits(d + "T" + IsoClock(t), d, IsoClock(t), Pad2(t.hours), Pad2(t.minutes));
  }

  /** `extractTime` of a text whose splits on 'T' and ':' are known. */
  lemma ExtractOfSplits(s: string, date: string, clock: string, h: string, m: string)
    requires s != "" && clock != "" && Split(s, 'T') == [date, clock] && Split(clock, ':') == [h, m]
    ensures ExtractTime(s) == Time(NumberOrZero([h, m], 0), NumberOrZero([h, m], 1))
  {
  }

  /** Extracting the time of a formatted value gives the same non-negative time back. */
  lemma ExtractFormatted(date: JsDate, t: Time)
    requires t.hours >= 0 && t.minutes >= 0
    ensures ExtractTime(FormatToIso(date, t)) == t
  {
    NoTInDate(date);
    match date
    case InvalidDate => ExtractOfClock("NaN-NaN-NaN", t);
    case DateAt(n) => ExtractOfClock(IsoDate(CivilFromDays(n)), t);
  }

  /** `parseISO` of 'YYYY-MM-DDT…' given by its three date fields. */
  lemma ParseDateFields(y: string, m: string, d: string, clock: string)
    requires |y| == 4 && |m| == 2 && |d| == 2 && 'T' !in clock
    requires AllDigits(y) && AllDigits(m) && AllDigits(d)
    requires 1 <= DecimalValue(m) <= 12 && !(0 <= DecimalValue(y) <= 99)
    ensures ParseIso((y + "-" + m + "-" + d) + "T" + clock)
            == Some(DateAt(DaysFromCivil(DecimalValue(y), DecimalValue(m), DecimalValue(d))))
  {
    var date := y + "-" + m + "-" + d;
    var s := date + "T" + clock;
    assert 'T' !in date && '-' !in y && '-' !in m && '-' !in d;
    SplitAt(date, 'T', clock);
    assert Split(s, 'T')[0] == date;
    Regroup(y, "-", m, "-", d);
    SplitAt(y, '-', m + "-" + d);
    SplitAt(m, '-', d);
    SplitNoSep(d, '-');
    JsNumberOfDigits(y);
    JsNumberOfDigits(m);
    JsNumberOfDigits(d);
    ParseOfFields(s, DecimalValue(y), DecimalValue(m), DecimalValue(d));
    JsMakeDayOfCivil(DecimalValue(y), DecimalValue(m), DecimalValue(d));
  }

  /** `extractTime` of '…THH:mm' given by its two time fields. */
  lemma ExtractClockFields(date: string, h: string, mi: string)
    requires |h| == 2 && |mi| == 2 && AllDigits(h) && AllDigits(mi) && 'T' !in date
    ensures ExtractTime(date + "T" + (h + ":" + mi)) == Time(DecimalValue(h), DecimalValue(mi))
  {
    var clock := h + ":" + mi;
    assert 'T' !in clock && ':' !in h && ':' !in mi;
    SplitTwo(date, 'T', clock);
    SplitTwo(h, ':', mi);
    JsNumberOfDigits(h);
    JsNumberOfDigits(mi);
    ExtractOfSplits(date + "T" + clock, date, clock, h, mi);
  }

  lemma Regroup(a: string, b: string, c: string, d: string, e: string)
    ensures a + b + c + d + e == a + b + (c + d + e)
  {
  }

  /** Four digits without a leading zero make a year from 1000 on. */
  lemma FourDigitYear(y: string)
    requires |y| == 4 && AllDigits(y) && y[0] != '0'
    ensures DecimalValue(y) >= 1000
  {
    assert y[..3][..2] == y[..2] && y[..2][..1] == y[..1] && y[..1][..0] == [];
    assert DecimalValue(y[..1]) >= 1;
    assert DecimalValue(y[..2]) >= 10;
    assert DecimalValue(y[..3]) >= 100;
  }

  /** What `parseISO` and `extractTime` read from a real 'YYYY-MM-DDTHH:mm' from year 1000 on. */
  lemma IsoFields(x: string)
    requires DateTimeInput.IsIsoDateTime(x) && x[0] != '0'
    requires ValidCivil(DecimalValue(x[..4]), DecimalValue(x[5..7]), DecimalValue(x[8..10]))
    ensures ParseIso(x) == Some(DateAt(DaysFromCivil(DecimalValue(x[..4]), DecimalValue(x[5..7]), DecimalValue(x[8..10]))))
    ensures ExtractTime(x) == Time(DecimalValue(x[11..13]), DecimalValue(x[14..]))
  {
    var y, m, d, h, mi := x[..4], x[5..7], x[8..10], x[11..13], x[14..];
    assert x == (y + "-" + m + "-" + d) + "T" + (h + ":" + mi);
    FourDigitYear(y);
    assert 'T' !in h + ":" + mi && 'T' !in y + "-" + m + "-" + d;
    ParseDateFields(y, m, d, h + ":" + mi);
    ExtractClockFields(y + "-" + m + "-" + d, h, mi);
  }

  /**
   * Opening the picker on a real 'YYYY-MM-DDTHH:mm' from year 1000 on and
   * confirming without a change emits the same text: `formatToISO` of
   * `parseISO` and `extractTime` is the identity.
   */
  lemma IsoRoundTrip(x: string)
    requires DateTimeInput.IsIsoDateTime(x) && x[0] != '0'
    requires ValidCivil(DecimalValue(x[..4]), DecimalValue(x[5..7]), DecimalValue(x[8..10]))
    ensures ParseIso(x).Some? && FormatToIso(ParseIso(x).value, ExtractTime(x)) == x
  {
    var y, m, d, h, mi := x[..4], x[5..7], x[8..10], x[11..13], x[14..];
    assert x == (y + "-" + m + "-" + d) + "T" + (h + ":" + mi);
    IsoFields(x);
    var c := Civil(DecimalValue(y), DecimalValue(m), DecimalValue(d));
    DaysFromCivilInverse(c.year, c.month, c.day);
    NatToStringOfDigits(y);
    Pad2OfDigits(m);
    Pad2OfDigits(d);
    Pad2OfDigits(h);
    Pad2OfDigits(mi);
    assert IsoDate(c) == y + "-" + m + "-" + d;
    assert IsoClock(Time(DecimalValue(h), DecimalValue(mi))) == h + ":" + mi;
  }

  /** `formatToDisplay` turns a formatted value into 'DD/MM/YYYY HH:mm'. */
  lemma DisplayOfFormatted(n: int, t: Time)
    requires CivilFromDays(n).year >= 0
    ensures var c := CivilFromDays(n);
            DateTimeInput.FormatToDisplay(FormatToIso(DateAt(n), t))
            == (PadInt2(c.day) + "/" + PadInt2(c.month) + "/" + JsIntString(c.year)) + " " + IsoClock(t)
  {
    var c := CivilFromDays(n);
    CivilFromDaysInverse(n);
    SplitIso(c, t);
    SplitIsoDate(c);
    PadInt2Chars(t.hours);
    PadInt2Chars(t.minutes);
    SplitTwo(PadInt2(t.hours), ':', PadInt2(t.minutes));
    DateTimeInput.DisplayOfSplits(FormatToIso(DateAt(n), t), IsoDate(c), IsoClock(t),
                                  [NatToString(c.year), Pad2(c.month), Pad2(c.day)], [PadInt2(t.hours), PadInt2(t.minutes)]);
  }

  // ------------------------------------------------------------------
  // The calendar grid: getDaysInMonth
  // ------------------------------------------------------------------

  /** `getDay()` of `new Date(year, month, 1)` for the month shown at `date`. */
  function FirstWeekday(date: int): (w: int)
    ensures 0 <= w < 7
  {
    var c := CivilFromDays(date);
    JsDay(JsMakeDay(c.year, c.month - 1, 1))
  }

  /** `getDate()` of `new Date(year, month + 1, 0)` for the month shown at `date`. */
  function MonthLength(date: int): (k: int)
    ensures k >= 1
  {
    var c := CivilFromDays(date);
    var last := JsMakeDay(c.year, c.month, 0);
    CivilFromDaysInverse(last);
    CivilFromDays(last).day
  }

  /**
   * `getDaysInMonth`: one empty cell per weekday before the first, then
   * the days 1 … length of the month in order.
   */
  method GetDaysInMonth(date: int) returns (days: seq<Option<int>>)
    ensures |days| == FirstWeekday(date) + MonthLength(date)
    ensures forall i :: 0 <= i < FirstWeekday(date) ==> days[i] == None
    ensures forall i :: FirstWeekday(date) <= i < |days| ==> days[i] == Some(i - FirstWeekday(date) + 1)
  {
    var daysInMonth := MonthLength(date);
    var startingDayOfWeek := FirstWeekday(date);
    days := [];
    var i := 0;
    while i < startingDayOfWeek
      invariant 0 <= i <= startingDayOfWeek && |days| == i
      invariant forall k :: 0 <= k < i ==> days[k] == None
    {
      days := days + [None];
      i := i + 1;
    }
    i := 1;
    while i <= daysInMonth
      invariant 1 <= i <= daysInMonth + 1 && |days| == startingDayOfWeek + i - 1
      invariant forall k :: 0 <= k < startingDayOfWeek ==> days[k] == None
      invariant forall k :: startingDayOfWeek <= k < |days| ==> days[k] == Some(k - startingDayOfWeek + 1)
    {
      days := days + [Some(i)];
      i := i + 1;
    }
  }

  /**
   * For a year outside 0..99 the grid is the real month: it starts on the
   * weekday of the first, has as many days as the month, and the shown
   * date sits in its own cell.
   */
  lemma GridIsTheMonth(date: int)
    requires !(0 <= CivilFromDays(date).year <= 99)
    ensures var c := CivilFromDays(date);
            FirstWeekday(date) == JsDay(DaysFromCivil(c.year, c.month, 1))
            && MonthLength(date) == DaysInMonth(c.year, c.month)
            && 1 <= c.day <= MonthLength(date)
  {
    var c := CivilFromDays(date);
    CivilFromDaysInverse(date);
    JsMakeDayOfCivil(c.year, c.month, 1);
    LastDayOfMonth(c.year, c.month - 1);
  }

  // ------------------------------------------------------------------
  // isInRange and handleConfirm
  // ------------------------------------------------------------------

  /** Strictly between two days, whichever of them is the earlier. */
  predicate StrictlyBetween(x: int, a: int, b: int)
  {
    var lo := if a < b then a else b;
    var hi := if a < b then b else a;
    x > lo && x < hi
  }

  /**
   * `isInRange` for the cell `day` of the month shown at `month`: inside
   * the selected range, or, while only the start is chosen, inside the
   * range up to the hovered day.
   */
  predicate IsInRange(day: Option<int>, month: int, startDate: Option<int>, endDate: Option<int>, hoverDate: Option<int>)
  {
    match day
    case None => false
    case Some(d) =>
      var c := CivilFromDays(month);
      var checkDate := JsMakeDay(c.year, c.month - 1, d);
      if startDate.Some? && endDate.Some? then StrictlyBetween(checkDate, startDate.value, endDate.value)
      else if startDate.Some? && hoverDate.Some? && endDate.None? then StrictlyBetween(checkDate, startDate.value, hoverDate.value)
      else false
  }

  /** The highlight does not depend on which end was picked first. */
  lemma StrictlyBetweenSymmetric(x: int, a: int, b: int)
    ensures StrictlyBetween(x, a, b) == StrictlyBetween(x, b, a)
    ensures StrictlyBetween(x, a, b) <==> (a < x < b || b < x < a)
  {
  }

  /** The two ends themselves are never highlighted. */
  lemma EndsNotInRange(d: int, month: int, startDate: int, endDate: int, hoverDate: Option<int>)
    requires var c := CivilFromDays(month); JsMakeDay(c.year, c.month - 1, d) in {startDate, endDate}
    ensures !IsInRange(Some(d), month, Some(startDate), Some(endDate), hoverDate)
  {
  }

  /** With both ends chosen, a cell is highlighted iff it lies strictly between them. */
  lemma InRangeBothEnds(d: int, month: int, a: int, b: int, hoverDate: Option<int>)
    ensures var c := CivilFromDays(month);
            var x := JsMakeDay(c.year, c.month - 1, d);
            IsInRange(Some(d), month, Some(a), Some(b), hoverDate) <==> (a < x < b || b < x < a)
  {
  }

  /**
   * `handleConfirm`: nothing is emitted unless both days are chosen; a
   * start after the end swaps the two days together with their times, so
   * the emitted start is never after the emitted end.
   */
  method HandleConfirm(startDate: Option<int>, endDate: Option<int>, startTime: Time, endTime: Time)
    returns (emitted: Option<(string, string)>)
    ensures emitted.None? <==> startDate.None? || endDate.None?
    ensures emitted.Some? && startDate.value <= endDate.value ==>
              emitted.value == (FormatToIso(DateAt(startDate.value), startTime), FormatToIso(DateAt(endDate.value), endTime))
    ensures emitted.Some? && startDate.value > endDate.value ==>
              emitted.value == (FormatToIso(DateAt(endDate.value), endTime), FormatToIso(DateAt(startDate.value), startTime))
  {
    if startDate.None? || endDate.None? {
      return None;
    }
    var finalStartDate := startDate.value;
    var finalEndDate := endDate.value;
    var finalStartTime := startTime;
    var finalEndTime := endTime;
    if startDate.value > endDate.value {
      finalStartDate := endDate.value;
      finalEndDate := startDate.value;
      finalStartTime := endTime;
      finalEndTime := startTime;
    }
    emitted := Some((FormatToIso(DateAt(finalStartDate), finalStartTime), FormatToIso(DateAt(finalEndDate), finalEndTime)));
  }

  /**
   * What `handleConfirm` emits reads back, from year 100 on, as a start
   * day no later than the end day, each with the time chosen for it.
   */
  lemma ConfirmedRangeOrdered(lo: int, hi: int, tLo: Time, tHi: Time)
    requires lo <= hi && CivilFromDays(lo).year >= 100 && CivilFromDays(hi).year >= 100
    requires tLo.hours >= 0 && tLo.minutes >= 0 && tHi.hours >= 0 && tHi.minutes >= 0
    ensures var s := FormatToIso(DateAt(lo), tLo);
            var e := FormatToIso(DateAt(hi), tHi);
            ParseIso(s) == Some(DateAt(lo)) && ParseIso(e) == Some(DateAt(hi)) && ParseIso(s).value.day <= ParseIso(e).value.day
            && ExtractTime(s) == tLo && ExtractTime(e) == tHi
  {
    ParseFormatted(lo, tLo);
    ParseFormatted(hi, tHi);
    ExtractFormatted(DateAt(lo), tLo);
    ExtractFormatted(DateAt(hi), tHi);
  }

  // ------------------------------------------------------------------
  // Typed times
  // ------------------------------------------------------------------

  /** The hour box: `Math.max(0, Math.min(23, parseInt(v) || 0))`, minutes kept. */
  function TypeHours(t: Time, text: string): (r: Time)
    ensures 0 <= r.hours <= 23 && r.minutes == t.minutes
    ensures JsParseInt(text).None? ==> r.hours == 0
    ensures JsParseInt(text).Some? && 0 <= JsParseInt(text).value <= 23 ==> r.hours == JsParseInt(text).value
    ensures JsParseInt(text).Some? && JsParseInt(text).value > 23 ==> r.hours == 23
    ensures JsParseInt(text).Some? && JsParseInt(text).value < 0 ==> r.hours == 0
  {
    t.(hours := ClampParsed(text, 0, 23))
  }

  /** The minute box: `Math.max(0, Math.min(59, parseInt(v) || 0))`, hours kept. */
  function TypeMinutes(t: Time, text: string): (r: Time)
    ensures 0 <= r.minutes <= 59 && r.hours == t.hours
    ensures JsParseInt(text).None? ==> r.minutes == 0
    ensures JsParseInt(text).Some? && 0 <= JsParseInt(text).value <= 59 ==> r.minutes == JsParseInt(text).value
    ensures JsParseInt(text).Some? && JsParseInt(text).value > 59 ==> r.minutes == 59
    ensures JsParseInt(text).Some? && JsParseInt(text).value < 0 ==> r.minutes == 0
  {
    t.(minutes := ClampParsed(text, 0, 59))
  }

  /** A typed time formats as two-digit hours and minutes that read back unchanged. */
  lemma TypedTimeRoundTrip(date: JsDate, t: Time, hText: string, mText: string)
    ensures var r := TypeMinutes(TypeHours(t, hText), mText);
            ExtractTime(FormatToIso(date, r)) == r && |IsoClock(r)| == 5
  {
    var r := TypeMinutes(TypeHours(t, hText), mText);
    ClockRoundTrip(date, r);
  }

  /** A time within the clock formats as `HH:mm` and reads back unchanged. */
  lemma ClockRoundTrip(date: JsDate, r: Time)
    requires 0 <= r.hours <= 23 && 0 <= r.minutes <= 59
    ensures ExtractTime(FormatToIso(date, r)) == r && |IsoClock(r)| == 5
  {
    ExtractFormatted(date, r);
    Pad2Value(r.hours);
    Pad2Value(r.minutes);
  }
}
