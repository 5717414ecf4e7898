/**
 * Brazilian business-day arithmetic of frontend/src/lib/dateUtils.ts:
 * Easter by the Anonymous Gregorian computus, the fixed and movable
 * national holidays, weekends, and the total and business day counts of
 * an interval. Instants are milliseconds and dates are day numbers (see
 * module Calendar); `new Date()` is the parameter `now`.
 */
module DateUtils {
  import opened Common
  import opened Calendar

  /** The eight fixed holidays as (month, day). */
  const FixedHolidays: seq<(int, int)> :=
    [(1, 1), (4, 21), (5, 1), (9, 7), (10, 12), (11, 2), (11, 15), (12, 25)]

  /**
   * Easter Sunday of `ano` as (month, day), computed step by step with
   * JavaScript's truncating `%` and flooring `Math.floor`.
   */
  function Easter(ano: int): (md: (int, int))
  {
    var a := JsRem(ano, 19);
    var b := FloorDiv(ano, 100);
    var c := JsRem(ano, 100);
    var d := FloorDiv(b, 4);
    var e := JsRem(b, 4);
    var f := FloorDiv(b + 8, 25);
    var g := FloorDiv(b - f + 1, 3);
    var h := JsRem(19 * a + b - d - g + 15, 30);
    var i := FloorDiv(c, 4);
    var k := JsRem(c, 4);
    var l := JsRem(32 + 2 * e + 2 * i - h - k, 7);
    var m := FloorDiv(a + 11 * h + 22 * l, 451);
    var mes := FloorDiv(h + l - 7 * m + 114, 31);
    var dia := JsRem(h + l - 7 * m + 114, 31) + 1;
    (mes, dia)
  }

  /** For every year from 0 on, Easter falls between 22 March and 25 April. */
  lemma EasterInSpring(ano: int)
    requires ano >= 0
    ensures var (mes, dia) := Easter(ano);
            (mes == 3 && 22 <= dia <= 31) || (mes == 4 && 1 <= dia <= 25)
  {
    var b := ano / 100;
    var f := (b + 8) / 25;
    var d := b / 4;
    var g := (b - f + 1) / 3;
    assert 0 <= f && 4 * d <= b && 3 * g <= b - f + 1;
    var a := ano % 19;
    var hx := 19 * a + b - d - g + 15;
    assert hx >= 0;
    var h := hx % 30;
    var c := ano % 100;
    var lx := 32 + 2 * (b % 4) + 2 * (c / 4) - h - c % 4;
    assert lx >= 0;
    var l := lx % 7;
    EasterTail(a, h, l);
  }

  /** The last three steps of the computus, once `a`, `h` and `l` are in range. */
  lemma EasterTail(a: int, h: int, l: int)
    requires 0 <= a < 19 && 0 <= h < 30 && 0 <= l < 7
    ensures var m := (a + 11 * h + 22 * l) / 451;
            var x := h + l - 7 * m + 114;
            (x / 31 == 3 && 22 <= x % 31 + 1 <= 31) || (x / 31 == 4 && 1 <= x % 31 + 1 <= 25)
  {
    var m := (a + 11 * h + 22 * l) / 451;
    if a + 11 * h + 22 * l >= 451 {
      assert m == 1;
      assert l == 6 && h >= 28;
    } else {
      assert m == 0;
      assert h + l <= 34;
    }
  }

  /** Easter 2024 fell on 31 March. */
  lemma Easter2024()
    ensures Easter(2024) == (3, 31)
  {
    assert JsRem(2024, 19) == 10 && FloorDiv(2024, 100) == 20 && JsRem(2024, 100) == 24;
    assert FloorDiv(20, 4) == 5 && JsRem(20, 4) == 0 && FloorDiv(28, 25) == 1 && FloorDiv(20, 3) == 6;
    assert JsRem(214, 30) == 4 && FloorDiv(24, 4) == 6 && JsRem(24, 4) == 0 && JsRem(40, 7) == 5;
    assert FloorDiv(164, 451) == 0 && FloorDiv(123, 31) == 3 && JsRem(123, 31) == 30;
  }

  /** Easter 2025 fell on 20 April. */
  lemma Easter2025()
    ensures Easter(2025) == (4, 20)
  {
    assert JsRem(2025, 19) == 11 && FloorDiv(2025, 100) == 20 && JsRem(2025, 100) == 25;
    assert FloorDiv(20, 4) == 5 && JsRem(20, 4) == 0 && FloorDiv(28, 25) == 1 && FloorDiv(20, 3) == 6;
    assert JsRem(233, 30) == 23 && FloorDiv(25, 4) == 6 && JsRem(25, 4) == 1 && JsRem(20, 7) == 6;
    assert FloorDiv(396, 451) == 0 && FloorDiv(143, 31) == 4 && JsRem(143, 31) == 19;
  }

  /** Day number of Easter Sunday of `ano`. */
  function EasterDay(ano: int): int
  {
    var (mes, dia) := Easter(ano);
    if 1 <= mes <= 12 then DaysFromCivil(ano, mes, dia) else 0
  }

  /**
   * Movable holidays of `ano` as day numbers: Carnival Monday and Tuesday,
   * Good Friday and Corpus Christi.
   */
  function MovableHolidays(ano: int): (r: seq<int>)
    ensures |r| == 4
    ensures r[0] + 48 == EasterDay(ano) && r[1] + 47 == EasterDay(ano)
    ensures r[2] + 2 == EasterDay(ano) && r[3] == EasterDay(ano) + 60
  {
    var p := EasterDay(ano);
    var terca := p - 47;
    [terca - 1, terca, p - 2, p + 60]
  }

  /** `isFeriado` on the day number `n`. */
  function IsHoliday(n: int): (r: bool)
    ensures var c := CivilFromDays(n);
            r <==> (exists j :: 0 <= j < |FixedHolidays| && FixedHolidays[j] == (c.month, c.day))
                   || (exists j :: 0 <= j < 4 && MovableHolidays(c.year)[j] == n)
  {
    var c := CivilFromDays(n);
    FixedAt(c.month, c.day, 0) || MovableAt(n, MovableHolidays(c.year), 0)
  }

  /** The scan over the fixed holidays, from position `j` on. */
  function FixedAt(mes: int, dia: int, j: nat): (r: bool)
    requires j <= |FixedHolidays|
    ensures r <==> exists q :: j <= q < |FixedHolidays| && FixedHolidays[q] == (mes, dia)
    decreases |FixedHolidays| - j
  {
    if j == |FixedHolidays| then false
    else FixedHolidays[j] == (mes, dia) || FixedAt(mes, dia, j + 1)
  }

  /** The scan over the movable holidays, from position `j` on. */
  function MovableAt(n: int, hs: seq<int>, j: nat): (r: bool)
    requires j <= |hs|
    ensures r <==> exists q :: j <= q < |hs| && hs[q] == n
    decreases |hs| - j
  {
    if j == |hs| then false else hs[j] == n || MovableAt(n, hs, j + 1)
  }

  /** Christmas 2025 is a holiday. */
  lemma ChristmasIsHoliday()
    ensures IsHoliday(DaysFromCivil(2025, 12, 25))
  {
    assert DaysFromCivil(2025, 12, 25) == 20447;
    assert CivilFromDays(20447) == Civil(2025, 12, 25) by {
      assert 739915 / 146097 == 5;
      assert 739915 - 5 * 146097 == 9430;
      assert 9430 / 1460 == 6 && 9430 / 36524 == 0 && 9430 / 146096 == 0;
      assert 9424 / 365 == 25;
      assert 9430 - (365 * 25 + 25 / 4 - 25 / 100) == 299;
      assert (5 * 299 + 2) / 153 == 9;
      assert 299 - (153 * 9 + 2) / 5 + 1 == 25;
    }
    assert FixedHolidays[7] == (12, 25);
  }

  /** Easter Sunday 2025 is 20 April, day 20198. */
  lemma EasterDay2025()
    ensures EasterDay(2025) == 20198
  {
    Easter2025();
    assert DaysFromCivil(2025, 4, 20) == 20198;
  }

  lemma CivilOf20151()
    ensures CivilFromDays(20151) == Civil(2025, 3, 4)
  {
    assert 739619 / 146097 == 5;
    assert 739619 - 5 * 146097 == 9134;
    assert 9134 / 1460 == 6 && 9134 / 36524 == 0 && 9134 / 146096 == 0;
    assert 9128 / 365 == 25;
    assert 9134 - (365 * 25 + 25 / 4 - 25 / 100) == 3;
    assert (5 * 3 + 2) / 153 == 0;
    assert 3 - (153 * 0 + 2) / 5 + 1 == 4;
  }

  lemma CivilOf20152()
    ensures CivilFromDays(20152) == Civil(2025, 3, 5)
  {
    assert 739620 / 146097 == 5;
    assert 739620 - 5 * 146097 == 9135;
    assert 9135 / 1460 == 6 && 9135 / 36524 == 0 && 9135 / 146096 == 0;
    assert 9129 / 365 == 25;
    assert 9135 - (365 * 25 + 25 / 4 - 25 / 100) == 4;
    assert (5 * 4 + 2) / 153 == 0;
    assert 4 - (153 * 0 + 2) / 5 + 1 == 5;
  }

  /** Carnival Tuesday 2025 (4 March, Easter 20 April minus 47 days) is a holiday. */
  lemma CarnivalIsHoliday()
    ensures IsHoliday(DaysFromCivil(2025, 3, 4))
  {
    assert DaysFromCivil(2025, 3, 4) == 20151;
    CivilOf20151();
    EasterDay2025();
    assert MovableHolidays(2025)[1] == 20151;
  }

  /** The day after Carnival, 5 March 2025, is not. */
  lemma AshWednesdayIsNotHoliday()
    ensures !IsHoliday(DaysFromCivil(2025, 3, 5))
  {
    DayOf20250305();
    CivilOf20152();
    EasterDay2025();
    assert MovableHolidays(2025) == [20150, 20151, 20196, 20258];
    NotHolidayOf(20152, Civil(2025, 3, 5));
  }

  lemma DayOf20250305()
    ensures DaysFromCivil(2025, 3, 5) == 20152
  {
  }

  /** A day whose month and day are no fixed holiday and which is none of its year's movable holidays is no holiday. */
  lemma NotHolidayOf(n: int, c: Civil)
    requires CivilFromDays(n) == c && (c.month, c.day) !in FixedHolidays && n !in MovableHolidays(c.year)
    ensures !IsHoliday(n)
  {
  }

  /** `isFimDeSemana`: Sunday or Saturday. */
  predicate IsWeekend(n: int)
  {
    JsDay(n) == 0 || JsDay(n) == 6
  }

  predicate IsBusinessDay(n: int)
  {
    !IsWeekend(n) && !IsHoliday(n)
  }

  /** `calcularDiasTotais`: whole days rounded up, plus the first day. */
  function TotalDays(inicio: int, fim: int): (r: int)
    ensures fim == inicio ==> r == 1
    ensures fim >= inicio ==> r >= 1
  {
    CeilDiv(fim - inicio, DayMs) + 1
  }

  /** An interval of exactly `k` days counts `k + 1` days. */
  lemma TotalDaysWhole(inicio: int, k: int)
    ensures TotalDays(inicio, inicio + k * DayMs) == k + 1
  {
    assert -(k * DayMs) == (-k) * DayMs;
  }

  /** Business days among `cur`, `cur + 1 day`, … up to `fim` inclusive. */
  function BusinessDaysFrom(cur: int, fim: int): (r: nat)
    decreases fim - cur + DayMs
  {
    if cur > fim then 0
    else (if IsBusinessDay(DayOf(cur)) then 1 else 0) + BusinessDaysFrom(cur + DayMs, fim)
  }

  /** `calcularDiasUteis`: walks day by day from `inicio` while not past `fim`. */
  method CountBusinessDays(inicio: int, fim: int) returns (diasUteis: nat)
    ensures diasUteis == BusinessDaysFrom(inicio, fim)
  {
    diasUteis := 0;
    var dataAtual := inicio;
    while dataAtual <= fim
      invariant diasUteis + BusinessDaysFrom(dataAtual, fim) == BusinessDaysFrom(inicio, fim)
      decreases fim - dataAtual + DayMs
    {
      if !IsWeekend(DayOf(dataAtual)) && !IsHoliday(DayOf(dataAtual)) {
        diasUteis := diasUteis + 1;
      }
      dataAtual := dataAtual + DayMs;
    }
  }

  /** An interval ending before it starts has no business days. */
  lemma BusinessDaysEmpty(inicio: int, fim: int)
    requires fim < inicio
    ensures BusinessDaysFrom(inicio, fim) == 0
  {
  }

  /** Business days never exceed the inclusive day count. */
  lemma {:induction false} BusinessDaysBounded(cur: int, fim: int)
    ensures BusinessDaysFrom(cur, fim) <= Max(0, TotalDays(cur, fim))
    decreases fim - cur + DayMs
  {
    if cur <= fim {
      BusinessDaysBounded(cur + DayMs, fim);
      assert TotalDays(cur + DayMs, fim) == TotalDays(cur, fim) - 1 by {
        assert -(fim - cur) == -(fim - (cur + DayMs)) - DayMs;
        assert (-(fim - cur)) / DayMs == (-(fim - (cur + DayMs))) / DayMs - 1;
      }
    }
  }

  /** `isCardAtrasado`: in development with a deadline already in the past. */
  predicate IsCardLate(status: string, dataFim: Option<int>, now: int)
  {
    status == "em_desenvolvimento" && dataFim.Some? && dataFim.value < now
  }
}
