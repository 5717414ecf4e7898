/**
 * Calendar arithmetic on day numbers. A date is the number of days since
 * 1970-01-01 (a Thursday) and an instant is a number of milliseconds since
 * 1970-01-01T00:00; negative values are earlier. The proleptic Gregorian
 * conversions follow the well-known `days_from_civil`/`civil_from_days`
 * formulas, so a JavaScript `Date` or a Python `date` corresponds to
 * exactly one day number.
 */
module Calendar {

  const DayMs: int := 86400000
  const HourMs: int := 3600000
  const MinuteMs: int := 60000

  /** A positive multiple of a positive number is at least that number. */
  lemma {:induction false} MulAtLeast(k: int, m: int)
    requires k >= 1 && m > 0
    ensures k * m >= m
    decreases k
  {
    if k > 1 {
      MulAtLeast(k - 1, m);
      assert k * m == (k - 1) * m + m;
    }
  }

  /** Euclidean division is unique: a quotient and a remainder in range are the ones `/` and `%` give. */
  lemma DivModUnique(x: int, m: int, q: int, r: int)
    requires m > 0 && 0 <= r < m && x == q * m + r
    ensures x / m == q && x % m == r
  {
    var q0, r0 := x / m, x % m;
    assert q0 * m + r0 == q * m + r;
    if q0 > q {
      MulAtLeast(q0 - q, m);
    } else if q0 < q {
      MulAtLeast(q - q0, m);
    }
  }

  datatype Civil = Civil(year: int, month: int, day: int)

  /** Day number of a proleptic Gregorian date. */
  function DaysFromCivil(y: int, m: int, d: int): int
    requires 1 <= m <= 12
  {
    var y1 := if m <= 2 then y - 1 else y;
    var era := y1 / 400;
    var yoe := y1 - era * 400;
    var mp := if m > 2 then m - 3 else m + 9;
    var doy := MonthStart(mp) + d - 1;
    var doe := yoe * 365 + yoe / 4 - yoe / 100 + doy;
    era * 146097 + doe - 719468
  }

  /** Proleptic Gregorian date of a day number. */
  function CivilFromDays(n: int): Civil
  {
    var z := n + 719468;
    var era := z / 146097;
    CivilOfEra(era, z - era * 146097)
  }

  /** The date of day `doe` (0..146096) of 400-year era `era`. */
  function CivilOfEra(era: int, doe: int): Civil
  {
    var yoe := YoeOf(doe);
    var doy := doe - (365 * yoe + yoe / 4 - yoe / 100);
    var mp := (5 * doy + 2) / 153;
    var d := doy - MonthStart(mp) + 1;
    var m := if mp < 10 then mp + 3 else mp - 9;
    Civil(yoe + era * 400 + (if m <= 2 then 1 else 0), m, d)
  }

  predicate IsLeap(y: int)
  {
    y % 4 == 0 && (y % 100 != 0 || y % 400 == 0)
  }

  function DaysInMonth(y: int, m: int): int
    requires 1 <= m <= 12
  {
    if m == 2 then (if IsLeap(y) then 29 else 28)
    else if m == 4 || m == 6 || m == 9 || m == 11 then 30
    else 31
  }

  /** A real calendar date. */
  predicate ValidCivil(y: int, m: int, d: int)
  {
    1 <= m <= 12 && 1 <= d <= DaysInMonth(y, m)
  }

  // ------------------------------------------------------------------
  // The two conversions are inverse to each other on real dates
  // ------------------------------------------------------------------

  /** Year of the era (0..399, years starting in March) of a day of the era. */
  function YoeOf(doe: int): int
  {
    (doe - doe / 1460 + doe / 36524 - doe / 146096) / 365
  }

  /** First day of the year of March-based month `mp` (0 = March … 11 = February). */
  function MonthStart(mp: int): int
  {
    (153 * mp + 2) / 5
  }

  /**
   * A day of the era written as `c` centuries, `k` four-year blocks and
   * `u` days: the year of the era is recovered from the parts.
   */
  lemma YoeFromParts(c: int, k: int, u: int)
    requires 0 <= c <= 3 && 0 <= k <= 24 && 0 <= u <= 1460 && 1461 * k + u < 36524
    ensures var e := (24 * c + k + u) / 1460;
            0 <= e <= 1 && (e == 1 ==> u >= 1364) &&
            YoeOf(36524 * c + 1461 * k + u) == 100 * c + 4 * k + (u - e) / 365
  {
    var doe := 36524 * c + 1461 * k + u;
    var e := (24 * c + k + u) / 1460;
    assert 0 <= 24 * c + k + u < 2920;
    assert doe == 1460 * (25 * c + k) + (24 * c + k + u);
    assert doe / 1460 == 25 * c + k + e;
    assert doe / 36524 == c;
    assert doe / 146096 == 0;
    var g := doe - doe / 1460 + doe / 36524 - doe / 146096;
    assert g == 365 * (100 * c + 4 * k) + (u - e);
    assert u - e >= 0;
  }

  /** Splitting a day of the era below the last one into its parts. */
  lemma PartsOf(doe: int) returns (c: int, k: int, u: int)
    requires 0 <= doe < 146096
    ensures 0 <= c <= 3 && 0 <= k <= 24 && 0 <= u <= 1460 && 1461 * k + u < 36524
    ensures doe == 36524 * c + 1461 * k + u
  {
    c := doe / 36524;
    var t := doe - 36524 * c;
    k := t / 1461;
    u := t - 1461 * k;
  }

  /**
   * The day of the year left over after the year of the era is taken out
   * lies in 0..365, and 365 (29 February) only in years that end in a
   * leap February.
   */
  lemma DoyBounds(doe: int)
    requires 0 <= doe <= 146096
    ensures var yoe := YoeOf(doe);
            var doy := doe - (365 * yoe + yoe / 4 - yoe / 100);
            0 <= yoe <= 399 && 0 <= doy <= 365 &&
            (doy == 365 ==> yoe % 4 == 3 && (yoe % 100 != 99 || yoe == 399))
  {
    if doe == 146096 {
      assert YoeOf(doe) == 399;
    } else {
      DoyBoundsBelow(doe);
    }
  }

  /** `DoyBounds` below the last day of the era, through the parts of the day. */
  lemma DoyBoundsBelow(doe: int)
    requires 0 <= doe < 146096
    ensures var yoe := YoeOf(doe);
            var doy := doe - (365 * yoe + yoe / 4 - yoe / 100);
            0 <= yoe <= 399 && 0 <= doy <= 365 &&
            (doy == 365 ==> yoe % 4 == 3 && (yoe % 100 != 99 || yoe == 399))
  {
    var c, k, u := PartsOf(doe);
    YoeFromParts(c, k, u);
    var e := (24 * c + k + u) / 1460;
    var j := (u - e) / 365;
    assert 0 <= j <= 3;
    var yoe := 100 * c + 4 * k + j;
    assert YoeOf(doe) == yoe;
    DivModUnique(yoe, 4, 25 * c + k, j);
    DivModUnique(yoe, 100, c, 4 * k + j);
    var doy := u - 365 * j;
    assert doe - (365 * yoe + yoe / 4 - yoe / 100) == doy;
    if doy == 365 {
      assert e == 1 && u == 1460 && j == 3;
      assert k < 24;
    }
  }

  /** The March-based month of a day of the year. */
  lemma MonthOfDoy(mp: int, doy: int)
    requires MonthStart(mp) <= doy < MonthStart(mp + 1)
    ensures (5 * doy + 2) / 153 == mp
  {
  }

  /** Month lengths from March (mp = 0) to January (mp = 10). */
  lemma MonthLengths(mp: int)
    requires 0 <= mp <= 10
    ensures var m := if mp < 10 then mp + 3 else mp - 9;
            MonthStart(mp + 1) - MonthStart(mp) == DaysInMonth(0, m)
  {
  }

  /** A day number as a day of a 400-year era. */
  lemma EraOf(n: int) returns (era: int, doe: int)
    ensures 0 <= doe <= 146096 && n + 719468 == era * 146097 + doe
    ensures CivilFromDays(n) == CivilOfEra(era, doe)
  {
    var z := n + 719468;
    era := z / 146097;
    doe := z - era * 146097;
  }

  /** The parts CivilOfEra computes, with their ranges. */
  lemma CivilOfEraParts(era: int, doe: int) returns (yoe: int, doy: int, mp: int)
    requires 0 <= doe <= 146096
    ensures 0 <= yoe <= 399 && 0 <= doy <= 365 && 0 <= mp <= 11
    ensures yoe == YoeOf(doe) && doy == doe - (365 * yoe + yoe / 4 - yoe / 100)
    ensures mp == (5 * doy + 2) / 153
    ensures doy == 365 ==> yoe % 4 == 3 && (yoe % 100 != 99 || yoe == 399)
    ensures var c := CivilOfEra(era, doe);
            c.day == doy - MonthStart(mp) + 1 &&
            c.month == (if mp < 10 then mp + 3 else mp - 9) &&
            c.year == yoe + era * 400 + (if c.month <= 2 then 1 else 0)
  {
    DoyBounds(doe);
    yoe := YoeOf(doe);
    doy := doe - (365 * yoe + yoe / 4 - yoe / 100);
    mp := (5 * doy + 2) / 153;
  }

  /** CivilOfEra always gives a real date. */
  lemma CivilOfEraValid(era: int, doe: int)
    requires 0 <= doe <= 146096
    ensures var c := CivilOfEra(era, doe); ValidCivil(c.year, c.month, c.day)
  {
    var yoe, doy, mp := CivilOfEraParts(era, doe);
    var c := CivilOfEra(era, doe);
    assert 5 * MonthStart(mp) <= 153 * mp + 2;
    if mp <= 10 {
      MonthLengths(mp);
      assert DaysInMonth(c.year, c.month) == DaysInMonth(0, c.month);
    } else {
      assert c.month == 2 && MonthStart(11) == 337;
      if c.day == 29 {
        assert doy == 365;
        assert c.year == (yoe + 1) + era * 400;
        LeapSucc(yoe);
        LeapShift(yoe + 1, era);
      }
    }
  }

  /** CivilOfEra's date converts back to its day. */
  lemma CivilOfEraDays(era: int, doe: int)
    requires 0 <= doe <= 146096
    ensures var c := CivilOfEra(era, doe);
            1 <= c.month <= 12 && DaysFromCivil(c.year, c.month, c.day) == era * 146097 + doe - 719468
  {
    var yoe, doy, mp := CivilOfEraParts(era, doe);
    var c := CivilOfEra(era, doe);
    var y1 := if c.month <= 2 then c.year - 1 else c.year;
    assert y1 == yoe + era * 400;
    assert y1 / 400 == era;
    assert y1 - era * 400 == yoe;
    var mp2 := if c.month > 2 then c.month - 3 else c.month + 9;
    assert mp2 == mp;
    assert MonthStart(mp2) + c.day - 1 == doy;
    assert yoe * 365 + yoe / 4 - yoe / 100 + doy == doe;
  }

  /** Every day number names a real date, and converting it back gives the day number. */
  lemma CivilFromDaysInverse(n: int)
    ensures var c := CivilFromDays(n);
            ValidCivil(c.year, c.month, c.day) && DaysFromCivil(c.year, c.month, c.day) == n
  {
    var era, doe := EraOf(n);
    CivilOfEraValid(era, doe);
    CivilOfEraDays(era, doe);
  }

  /** The parts DaysFromCivil computes for a real date, with their ranges. */
  lemma DaysFromCivilParts(y: int, m: int, d: int) returns (era: int, yoe: int, mp: int, doy: int)
    requires ValidCivil(y, m, d)
    ensures 0 <= yoe <= 399 && 0 <= mp <= 11 && 0 <= doy <= 365
    ensures doy == 365 ==> yoe % 4 == 3 && (yoe % 100 != 99 || yoe == 399)
    ensures (5 * doy + 2) / 153 == mp && doy - MonthStart(mp) + 1 == d
    ensures m == (if mp < 10 then mp + 3 else mp - 9)
    ensures y == yoe + era * 400 + (if m <= 2 then 1 else 0)
    ensures DaysFromCivil(y, m, d) + 719468 == era * 146097 + (yoe * 365 + yoe / 4 - yoe / 100 + doy)
  {
    var y1 := if m <= 2 then y - 1 else y;
    era := y1 / 400;
    yoe := y1 - era * 400;
    mp := if m > 2 then m - 3 else m + 9;
    doy := MonthStart(mp) + d - 1;
    if mp <= 10 {
      MonthLengths(mp);
      assert DaysInMonth(y, m) == DaysInMonth(0, m);
    } else {
      assert MonthStart(11) == 337 && MonthStart(12) == 367;
      if d == 29 {
        LeapFebruary(y, era, yoe);
      }
    }
    MonthOfDoy(mp, doy);
  }

  /** A leap February ends a March-based year of the era that is 3 modulo 4 and not 99 modulo 100 below 399. */
  lemma LeapFebruary(y: int, era: int, yoe: int)
    requires 0 <= yoe <= 399 && y == (yoe + 1) + era * 400 && IsLeap(y)
    ensures yoe % 4 == 3 && (yoe % 100 != 99 || yoe == 399)
  {
    LeapShift(yoe + 1, era);
    var q := (yoe + 1) / 4;
    DivModUnique(yoe, 4, q - 1, 3);
  }

  /** A real date converts to a day number that converts back to it. */
  lemma DaysFromCivilInverse(y: int, m: int, d: int)
    requires ValidCivil(y, m, d)
    ensures CivilFromDays(DaysFromCivil(y, m, d)) == Civil(y, m, d)
  {
    var era0, yoe, mp, doy := DaysFromCivilParts(y, m, d);
    var doe0 := yoe * 365 + yoe / 4 - yoe / 100 + doy;
    YoeOfAssembled(yoe, doy);
    var era, doe := EraOf(DaysFromCivil(y, m, d));
    EraUnique(era, doe, era0, doe0);
    CivilOfAssembled(era0, yoe, mp, doy, y, m, d);
  }

  /** Taking apart a day of the era assembled from a date's parts gives the date. */
  lemma CivilOfAssembled(era: int, yoe: int, mp: int, doy: int, y: int, m: int, d: int)
    requires 0 <= yoe <= 399 && 0 <= mp <= 11 && 0 <= doy <= 365
    requires YoeOf(yoe * 365 + yoe / 4 - yoe / 100 + doy) == yoe
    requires 0 <= yoe * 365 + yoe / 4 - yoe / 100 + doy <= 146096
    requires (5 * doy + 2) / 153 == mp && doy - MonthStart(mp) + 1 == d
    requires m == (if mp < 10 then mp + 3 else mp - 9)
    requires y == yoe + era * 400 + (if m <= 2 then 1 else 0)
    ensures CivilOfEra(era, yoe * 365 + yoe / 4 - yoe / 100 + doy) == Civil(y, m, d)
  {
    var doe := yoe * 365 + yoe / 4 - yoe / 100 + doy;
    var yoe2, doy2, mp2 := CivilOfEraParts(era, doe);
    assert yoe2 == yoe;
    assert doy2 == doy;
  }

  /** A day of an era is written one way only. */
  lemma EraUnique(e1: int, d1: int, e2: int, d2: int)
    requires 0 <= d1 <= 146096 && 0 <= d2 <= 146096
    requires e1 * 146097 + d1 == e2 * 146097 + d2
    ensures e1 == e2 && d1 == d2
  {
    assert (e1 * 146097 + d1) / 146097 == e1;
    assert (e2 * 146097 + d2) / 146097 == e2;
  }

  /** The calendar year after March-based year `yoe` of an era is leap when its February is. */
  lemma LeapSucc(yoe: int)
    requires 0 <= yoe <= 399 && yoe % 4 == 3 && (yoe % 100 != 99 || yoe == 399)
    ensures (yoe + 1) % 4 == 0 && ((yoe + 1) % 100 != 0 || (yoe + 1) % 400 == 0)
  {
    assert yoe == 4 * (yoe / 4) + 3;
    assert yoe + 1 == 4 * (yoe / 4 + 1);
  }

  /** Shifting a year by whole 400-year eras keeps its leap-year status. */
  lemma LeapShift(a: int, era: int)
    ensures a % 4 == (a + era * 400) % 4
    ensures a % 100 == (a + era * 400) % 100
    ensures a % 400 == (a + era * 400) % 400
  {
    DivModUnique(a + era * 400, 4, a / 4 + era * 100, a % 4);
    DivModUnique(a + era * 400, 100, a / 100 + era * 4, a % 100);
    DivModUnique(a + era * 400, 400, a / 400 + era, a % 400);
  }

  /** Assembling a day of the era from a year and a day of the year, and taking it apart again. */
  lemma YoeOfAssembled(yoe: int, doy: int)
    requires 0 <= yoe <= 399 && 0 <= doy <= 365
    requires doy == 365 ==> yoe % 4 == 3 && (yoe % 100 != 99 || yoe == 399)
    ensures var doe := yoe * 365 + yoe / 4 - yoe / 100 + doy;
            0 <= doe <= 146096 && YoeOf(doe) == yoe
  {
    var c := yoe / 100;
    var k := (yoe % 100) / 4;
    var j := yoe % 4;
    assert yoe == 100 * c + 4 * k + j;
    assert yoe / 4 == 25 * c + k;
    var doe := yoe * 365 + yoe / 4 - yoe / 100 + doy;
    assert doe == 36524 * c + 1461 * k + 365 * j + doy;
    if doe == 146096 {
      assert yoe == 399;
    } else {
      var u := 365 * j + doy;
      YoeFromParts(c, k, u);
      var e := (24 * c + k + u) / 1460;
      if doy == 365 {
        assert j == 3 && u == 1460 && e == 1;
      } else if doy == 0 {
        assert e == 0;
      }
      assert (u - e) / 365 == j;
    }
  }

  // ------------------------------------------------------------------
  // Consecutive days
  // ------------------------------------------------------------------

  /** Day number of 1 March of March-based year `y1`, before the epoch shift. */
  function YearBase(y1: int): int
  {
    var era := y1 / 400;
    var yoe := y1 - era * 400;
    era * 146097 + (yoe * 365 + yoe / 4 - yoe / 100)
  }

  /** A March-based year has 366 days exactly when the February that ends it is leap. */
  lemma YearStep(y: int)
    ensures YearBase(y) - YearBase(y - 1) == 365 + (if IsLeap(y) then 1 else 0)
  {
    var era := (y - 1) / 400;
    var yoe := (y - 1) - era * 400;
    LeapShift(yoe + 1, era);
    if yoe == 399 {
      assert y == (era + 1) * 400;
      assert y / 400 == era + 1 && y - y / 400 * 400 == 0;
      assert y % 400 == 0 && y % 4 == 0;
    } else {
      assert y / 400 == era && y - era * 400 == yoe + 1;
      assert (yoe + 1) / 4 - yoe / 4 == (if (yoe + 1) % 4 == 0 then 1 else 0);
      assert (yoe + 1) / 100 - yoe / 100 == (if (yoe + 1) % 100 == 0 then 1 else 0);
    }
  }

  /** The next day of the same month is the next day number. */
  lemma NextDayInMonth(y: int, m: int, d: int)
    requires 1 <= m <= 12
    ensures DaysFromCivil(y, m, d + 1) == DaysFromCivil(y, m, d) + 1
  {
  }

  /** The first of the following month comes right after the last day of a month. */
  lemma MonthEndStep(y: int, m: int)
    requires 1 <= m <= 12
    ensures var ny := if m == 12 then y + 1 else y;
            var nm := if m == 12 then 1 else m + 1;
            DaysFromCivil(y, m, DaysInMonth(y, m)) + 1 == DaysFromCivil(ny, nm, 1)
  {
    var ny := if m == 12 then y + 1 else y;
    var nm := if m == 12 then 1 else m + 1;
    CivilAsBase(y, m, DaysInMonth(y, m));
    CivilAsBase(ny, nm, 1);
    if m == 2 {
      YearStep(y);
      assert MonthStart(11) == 337;
    } else {
      MonthLengths(if m > 2 then m - 3 else m + 9);
    }
  }

  /** A day number is the start of its March-based year, its month's offset and its day. */
  lemma CivilAsBase(y: int, m: int, d: int)
    requires 1 <= m <= 12
    ensures DaysFromCivil(y, m, d)
            == YearBase(if m <= 2 then y - 1 else y) + MonthStart(if m > 2 then m - 3 else m + 9) + d - 1 - 719468
  {
  }

  /**
   * `new Date(y, m0, d)` at local midnight, as a day number: years 0 to 99
   * stand for 1900 to 1999, and a month index outside 0..11 or a day
   * outside the month carries over into the neighbouring months and years.
   */
  function JsMakeDay(y: int, m0: int, d: int): int
  {
    var yy := if 0 <= y <= 99 then 1900 + y else y;
    DaysFromCivil(yy + m0 / 12, m0 % 12 + 1, 1) + d - 1
  }

  /** For a year outside 0..99, `new Date(y, m - 1, d)` is the day of (y, m, d). */
  lemma JsMakeDayOfCivil(y: int, m: int, d: int)
    requires 1 <= m <= 12 && !(0 <= y <= 99)
    ensures JsMakeDay(y, m - 1, d) == DaysFromCivil(y, m, d)
  {
    DivModUnique(m - 1, 12, 0, m - 1);
    CivilAsBase(y, m, 1);
    CivilAsBase(y, m, d);
  }

  /** Day 0 of the month after month index `m0` is the day before the first of that month. */
  lemma JsMakeDayZero(y: int, m0: int)
    requires 0 <= m0 <= 11 && !(0 <= y <= 99)
    ensures var ny := if m0 == 11 then y + 1 else y;
            var nm := if m0 == 11 then 1 else m0 + 2;
            JsMakeDay(y, m0 + 1, 0) == DaysFromCivil(ny, nm, 1) - 1
  {
    if m0 == 11 {
      assert (m0 + 1) / 12 == 1 && (m0 + 1) % 12 == 0;
    } else {
      assert (m0 + 1) / 12 == 0 && (m0 + 1) % 12 == m0 + 1;
    }
  }

  /** Day 0 of the following month is the last day of the month. */
  lemma LastDayOfMonth(y: int, m0: int)
    requires 0 <= m0 <= 11 && !(0 <= y <= 99)
    ensures CivilFromDays(JsMakeDay(y, m0 + 1, 0)) == Civil(y, m0 + 1, DaysInMonth(y, m0 + 1))
  {
    var dim := DaysInMonth(y, m0 + 1);
    JsMakeDayZero(y, m0);
    MonthEndStep(y, m0 + 1);
    assert JsMakeDay(y, m0 + 1, 0) == DaysFromCivil(y, m0 + 1, dim);
    DaysFromCivilInverse(y, m0 + 1, dim);
  }

  /** JavaScript `getDay()`: 0 = Sunday … 6 = Saturday. */
  function JsDay(n: int): (w: int)
    ensures 0 <= w < 7
  {
    (n + 4) % 7
  }

  /** Python `weekday()`: 0 = Monday … 6 = Sunday. */
  function PyWeekday(n: int): (w: int)
    ensures 0 <= w < 7
  {
    (n + 3) % 7
  }

  /** The two weekday numberings differ by one step. */
  lemma WeekdayNumberings(n: int)
    ensures PyWeekday(n) == (JsDay(n) + 6) % 7
    ensures JsDay(n) == (PyWeekday(n) + 1) % 7
  {
  }

  /** One day later is one weekday later. */
  lemma JsDayNext(n: int)
    ensures JsDay(n + 1) == (JsDay(n) + 1) % 7
  {
  }

  /** Day number of an instant (the date part of a `Date`). */
  function DayOf(ms: int): int
  {
    ms / DayMs
  }

  /** Midnight of the day containing the instant (`setHours(0, 0, 0, 0)`). */
  function StartOfDay(ms: int): (r: int)
    ensures r <= ms < r + DayMs
    ensures DayOf(r) == DayOf(ms)
  {
    DayOf(ms) * DayMs
  }
}
