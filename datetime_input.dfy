/**
 * The DD/MM/YYYY HH:mm text field of
 * frontend/src/components/ui/datetime-input.tsx: conversion between the
 * `datetime-local` value 'YYYY-MM-DDTHH:mm' and the masked text the user
 * sees. The date half reuses the day/month/year conventions of DateInput.
 */
module DateTimeInput {
  import opened Common
  import DateInput

  /** 'YYYY-MM-DDTHH:mm' with digits where the pattern wants them. */
  predicate IsIsoDateTime(s: string)
  {
    |s| == 16 && AllDigits(s[..4]) && s[4] == '-' && AllDigits(s[5..7]) && s[7] == '-'
    && AllDigits(s[8..10]) && s[10] == 'T'
    && AllDigits(s[11..13]) && s[13] == ':' && AllDigits(s[14..])
  }

  lemma DatePartOf(s: string)
    requires IsIsoDateTime(s)
    ensures DateInput.IsIsoDate(s[..10])
    ensures s[..10][..4] == s[..4] && s[..10][5..7] == s[5..7] && s[..10][8..] == s[8..10]
  {
    assert s[..10][..4] == s[..4] && s[..10][5..7] == s[5..7] && s[..10][8..] == s[8..10];
  }

  // ------------------------------------------------------------------
  // JavaScript pieces: `split(/\s+/)`, `replace(/[^\d\s:]/g, '')`, `match`
  // ------------------------------------------------------------------

  /** `s.split(/\s+/)`: maximal runs of white space separate the pieces. */
  function WsSplit(s: string): (r: seq<string>)
    ensures |r| >= 1
    decreases |s|
  {
    if |s| == 0 then [""]
    else if JsIsSpace(s[0]) then [""] + WsSplit(s[LeadCount(s, JsIsSpace)..])
    else
      var rest := WsSplit(s[1..]);
      [[s[0]] + rest[0]] + rest[1..]
  }

  predicate KeptByClean(c: char)
  {
    IsDigit(c) || JsIsSpace(c) || c == ':'
  }

  /** `value.replace(/[^\d\s:]/g, '')`. */
  function Clean(s: string): string
  {
    Filter(s, KeptByClean)
  }

  predicate DigitOrColon(c: char)
  {
    IsDigit(c) || c == ':'
  }

  /** Result of `/(\d{1,2}):?(\d{0,2})/` on a time token: both groups, or no match. */
  function TimeMatch(t: string): (m: Option<(string, string)>)
    ensures m.Some? ==> 1 <= |m.value.0| <= 2 && AllDigits(m.value.0)
    ensures m.Some? ==> |m.value.1| <= 2 && AllDigits(m.value.1)
  {
    if |t| == 0 then None
    else if IsDigit(t[0]) then Some(MatchAt(t))
    else TimeMatch(t[1..])
  }

  /** The two groups of a match that starts at the first character (a digit). */
  function MatchAt(t: string): (g: (string, string))
    requires |t| > 0 && IsDigit(t[0])
    ensures 1 <= |g.0| <= 2 && AllDigits(g.0)
    ensures |g.1| <= 2 && AllDigits(g.1)
  {
    var g1 := if |t| >= 2 && IsDigit(t[1]) then t[..2] else t[..1];
    var rest := t[|g1|..];
    var rest2 := if |rest| > 0 && rest[0] == ':' then rest[1..] else rest;
    var g2 := rest2[..Min(2, LeadCount(rest2, IsDigit))];
    (g1, g2)
  }

  // ------------------------------------------------------------------
  // The three helpers
  // ------------------------------------------------------------------

  /** `formatToDisplay`: 'YYYY-MM-DDTHH:mm' becomes 'DD/MM/YYYY HH:mm'. */
  function FormatToDisplay(iso: string): string
  {
    if iso == "" then ""
    else
      var parts := Split(iso, 'T');
      var datePart := parts[0];
      if datePart == "" then ""
      else
        var ymd := Split(datePart, '-');
        var dateStr := JsPart(ymd, 2) + "/" + JsPart(ymd, 1) + "/" + JsPart(ymd, 0);
        if |parts| >= 2 && parts[1] != "" then
          var hm := Split(parts[1], ':');
          dateStr + " " + JsPart(hm, 0) + ":" + JsPart(hm, 1)
        else dateStr
  }

  /** The hours or minutes of a matched group, padded and clamped to `limit`. */
  function TimeField(g: string, limit: nat): (r: string)
    requires |g| <= 2 && AllDigits(g) && limit < 100
    ensures |r| == 2 && AllDigits(r) && DecimalValue(r) <= limit
  {
    var padded := PadStart2(g);
    DateInput.ParsedAboveDigits(padded, limit);
    Pad2Value(limit);
    if DateInput.ParsedAbove(padded, limit) then Pad2(limit) else padded
  }

  /** `formatToISO`: the date from the first token, the time (if any) from the second. */
  function FormatToIso(display: string): string
  {
    if display == "" then "" else IsoOfParts(WsSplit(Clean(display)))
  }

  /** The conversion once the cleaned text has been split into tokens. */
  function IsoOfParts(parts: seq<string>): string
    requires |parts| >= 1
  {
    var dateStr := DateInput.IsoOfDigits(DigitsOf(parts[0]));
    if dateStr == "" then ""
    else if |parts| > 1 && TimeMatch(parts[1]).Some? then
      dateStr + "T" + TimeOf(TimeMatch(parts[1]).value)
    else dateStr
  }

  /** 'HH:mm' from the two groups of the time match. */
  function TimeOf(g: (string, string)): (r: string)
    requires 1 <= |g.0| <= 2 && AllDigits(g.0) && |g.1| <= 2 && AllDigits(g.1)
    ensures |r| == 5 && r[2] == ':' && AllDigits(r[..2]) && AllDigits(r[3..])
    ensures DecimalValue(r[..2]) <= 23 && DecimalValue(r[3..]) <= 59
  {
    var hh := TimeField(g.0, 23);
    var mm := TimeField(if g.1 == "" then "00" else g.1, 59);
    assert (hh + ":" + mm)[..2] == hh && (hh + ":" + mm)[3..] == mm;
    hh + ":" + mm
  }

  /** The time mask after the colons have been removed, as the mask evidently intends. */
  function MaskTime(t: string): string
  {
    if |t| <= 2 then t else t[..2] + ":" + Substring(t, 2, 4)
  }

  /**
   * `applyMask` as written: the time token keeps its colons before the
   * ':' is inserted, so a typed '12:30' becomes '12::3'.
   */
  function ApplyMaskAsWritten(value: string): string
  {
    var parts := WsSplit(Clean(value));
    var datePart := DateInput.MaskDigits(DigitsOf(parts[0]));
    if |parts| > 1 then
      JsTrim(datePart + " " + MaskTime(Filter(parts[1], DigitOrColon)))
    else datePart
  }

  /** `applyMask` with the time token reduced to its digits before the ':' goes in. */
  function ApplyMask(value: string): string
  {
    var parts := WsSplit(Clean(value));
    var datePart := DateInput.MaskDigits(DigitsOf(parts[0]));
    if |parts| > 1 then JsTrim(datePart + " " + MaskTime(DigitsOf(parts[1])))
    else datePart
  }

  // ------------------------------------------------------------------
  // Lemmas on the pieces
  // ------------------------------------------------------------------

  lemma {:induction false} WsSplitNoSpace(a: string)
    requires forall i :: 0 <= i < |a| ==> !JsIsSpace(a[i])
    ensures WsSplit(a) == [a]
  {
    if |a| > 0 {
      WsSplitNoSpace(a[1..]);
      assert [a[0]] + a[1..] == a;
    }
  }

  /** Two space-free tokens separated by one space split into those two tokens. */
  lemma {:induction false} WsSplitTwo(a: string, b: string)
    requires forall i :: 0 <= i < |a| ==> !JsIsSpace(a[i])
    requires forall i :: 0 <= i < |b| ==> !JsIsSpace(b[i])
    ensures WsSplit(a + " " + b) == [a, b]
    decreases |a|
  {
    var s := a + " " + b;
    if |a| == 0 {
      assert s == " " + b;
      assert LeadCount(s, JsIsSpace) == 1 by {
        if |b| > 0 { assert s[1] == b[0]; }
      }
      assert s[1..] == b;
      WsSplitNoSpace(b);
    } else {
      assert s[1..] == a[1..] + " " + b;
      WsSplitTwo(a[1..], b);
      assert [a[0]] + a[1..] == a;
    }
  }

  lemma FilterOne(c: char, p: char -> bool)
    ensures Filter([c], p) == if p(c) then [c] else []
  {
    assert [c][1..] == [];
  }

  lemma CleanKeepsAll(s: string)
    requires forall i :: 0 <= i < |s| ==> DigitOrColon(s[i])
    ensures Clean(s) == s
  {
    FilterIdentity(s, KeptByClean);
  }

  lemma CleanDropsOne(s: string, c: char, t: string)
    requires !KeptByClean(c)
    ensures Clean(s + [c] + t) == Clean(s) + Clean(t)
  {
    FilterConcat(s + [c], t, KeptByClean);
    FilterConcat(s, [c], KeptByClean);
    FilterOne(c, KeptByClean);
  }

  /** Cleaning 'DD/MM/YYYY t' drops the slashes and keeps the time token. */
  lemma CleanDateTime(d: string, m: string, y: string, t: string)
    requires AllDigits(d) && AllDigits(m) && AllDigits(y)
    requires forall i :: 0 <= i < |t| ==> DigitOrColon(t[i])
    ensures Clean(d + "/" + m + "/" + y + " " + t) == d + m + y + " " + t
  {
    var yt := y + " " + t;
    assert forall i :: 0 <= i < |yt| ==> KeptByClean(yt[i]) by {
      forall i | 0 <= i < |yt|
        ensures KeptByClean(yt[i])
      {
        if i < |y| { assert yt[i] == y[i]; }
        else if i > |y| { assert yt[i] == t[i - |y| - 1]; }
      }
    }
    FilterIdentity(yt, KeptByClean);
    CleanKeepsAll(m);
    CleanKeepsAll(d);
    CleanDropsOne(d + "/" + m, '/', yt);
    CleanDropsOne(d, '/', m);
    assert d + "/" + m + "/" + y + " " + t == (d + "/" + m) + "/" + yt;
    assert d + m + y + " " + t == d + m + yt;
  }

  /** The match on 'HH:mm' yields exactly the hours and the minutes. */
  lemma TimeMatchOfHhMm(h: string, mi: string)
    requires |h| == 2 && AllDigits(h) && |mi| == 2 && AllDigits(mi)
    ensures TimeMatch(h + ":" + mi) == Some((h, mi))
  {
    var t := h + ":" + mi;
    assert IsDigit(t[0]) && IsDigit(t[1]) && t[..2] == h;
    var rest := t[2..];
    assert rest == ":" + mi && rest[1..] == mi;
    assert LeadCount(mi, IsDigit) == 2 by {
      assert IsDigit(mi[0]) && IsDigit(mi[1]);
    }
    assert mi[..2] == mi;
  }

  /** A well-formed value is shown as 'DD/MM/YYYY HH:mm'. */
  lemma DisplayOfIsoDateTime(x: string)
    requires IsIsoDateTime(x)
    ensures FormatToDisplay(x) ==
            (x[8..10] + "/" + x[5..7] + "/" + x[..4]) + " " + (x[11..13] + ":" + x[14..])
  {
    var y, mo, d, h, mi := x[..4], x[5..7], x[8..10], x[11..13], x[14..];
    IsoDateTimeParts(x);
    NoSeps(y);
    NoSeps(mo);
    NoSeps(d);
    NoSeps(h);
    NoSeps(mi);
    var dp := y + "-" + mo + "-" + d;
    var tp := h + ":" + mi;
    SplitTwo(dp, 'T', tp);
    SplitThree(y, '-', mo, d);
    SplitTwo(h, ':', mi);
    DisplayOfSplits(x, dp, tp, [y, mo, d], [h, mi]);
  }

  /** A well-formed value is its date fields joined by '-', a 'T', and its time fields joined by ':'. */
  lemma IsoDateTimeParts(x: string)
    requires IsIsoDateTime(x)
    ensures x == (x[..4] + "-" + x[5..7] + "-" + x[8..10]) + "T" + (x[11..13] + ":" + x[14..])
  {
  }

  /** A digit string holds none of the separators of a date and time. */
  lemma NoSeps(s: string)
    requires AllDigits(s)
    ensures '-' !in s && 'T' !in s && ':' !in s
  {
    DateInput.DigitsHaveNoSep(s, '-');
    DateInput.DigitsHaveNoSep(s, 'T');
    DateInput.DigitsHaveNoSep(s, ':');
  }

  /** `formatToDisplay` of a value whose splits on 'T', '-' and ':' are known. */
  lemma DisplayOfSplits(iso: string, date: string, clock: string, ymd: seq<string>, hm: seq<string>)
    requires iso != "" && date != "" && clock != ""
    requires Split(iso, 'T') == [date, clock] && Split(date, '-') == ymd && Split(clock, ':') == hm
    ensures FormatToDisplay(iso)
            == (JsPart(ymd, 2) + "/" + JsPart(ymd, 1) + "/" + JsPart(ymd, 0)) + " " + (JsPart(hm, 0) + ":" + JsPart(hm, 1))
  {
    var dateStr := JsPart(ymd, 2) + "/" + JsPart(ymd, 1) + "/" + JsPart(ymd, 0);
    assert dateStr + " " + JsPart(hm, 0) + ":" + JsPart(hm, 1) == dateStr + " " + (JsPart(hm, 0) + ":" + JsPart(hm, 1));
  }

  /** A value without 'T' is shown as its date alone, like DateInput does. */
  lemma DisplayOfDateOnly(x: string)
    requires 'T' !in x
    ensures FormatToDisplay(x) == DateInput.FormatToDisplay(x)
  {
    SplitNoSep(x, 'T');
  }

  /** The shown text splits into the date digits and the time token. */
  lemma TokensOfShown(d: string, m: string, y: string, t: string)
    requires AllDigits(d) && AllDigits(m) && AllDigits(y)
    requires forall i :: 0 <= i < |t| ==> DigitOrColon(t[i])
    ensures WsSplit(Clean(d + "/" + m + "/" + y + " " + t)) == [d + m + y, t]
  {
    CleanDateTime(d, m, y, t);
    assert d + m + y + " " + t == (d + m + y) + " " + t;
    WsSplitTwo(d + m + y, t);
  }

  /** The digits of a day, month and year in range give the ISO date 'YYYY-MM-DD'. */
  lemma DateOfTokens(d: string, m: string, y: string)
    requires |d| == 2 && |m| == 2 && |y| == 4
    requires AllDigits(d) && AllDigits(m) && AllDigits(y)
    requires DecimalValue(d) <= 31 && DecimalValue(m) <= 12
    ensures DateInput.IsoOfDigits(DigitsOf(d + m + y)) == y + "-" + m + "-" + d
  {
    var n := d + m + y;
    DateInput.DigitsOfDigits(n);
    assert n[0..2] == d && n[2..4] == m && n[4..8] == y;
    DateInput.ParsedAboveDigits(d, 31);
    DateInput.ParsedAboveDigits(m, 12);
  }

  /** A two-digit field within its limit is kept as it is. */
  lemma TimeFieldInRange(g: string, limit: nat)
    requires |g| == 2 && AllDigits(g) && limit < 100 && DecimalValue(g) <= limit
    ensures TimeField(g, limit) == g
  {
    DateInput.ParsedAboveDigits(g, limit);
  }

  /** Hours and minutes in range are kept as they are. */
  lemma TimeOfInRange(h: string, mi: string)
    requires |h| == 2 && |mi| == 2 && AllDigits(h) && AllDigits(mi)
    requires DecimalValue(h) <= 23 && DecimalValue(mi) <= 59
    ensures TimeMatch(h + ":" + mi) == Some((h, mi))
    ensures TimeOf((h, mi)) == h + ":" + mi
  {
    TimeMatchOfHhMm(h, mi);
    TimeFieldInRange(h, 23);
    TimeFieldInRange(mi, 59);
  }

  /** The tokens of 'DD/MM/YYYY HH:mm' convert to 'YYYY-MM-DDTHH:mm'. */
  lemma ConvertTokens(d: string, m: string, y: string, h: string, mi: string)
    requires |d| == 2 && |m| == 2 && |y| == 4 && |h| == 2 && |mi| == 2
    requires AllDigits(d) && AllDigits(m) && AllDigits(y) && AllDigits(h) && AllDigits(mi)
    requires DecimalValue(d) <= 31 && DecimalValue(m) <= 12
    requires DecimalValue(h) <= 23 && DecimalValue(mi) <= 59
    ensures IsoOfParts([d + m + y, h + ":" + mi]) == (y + "-" + m + "-" + d) + "T" + (h + ":" + mi)
  {
    DateOfTokens(d, m, y);
    TimeOfInRange(h, mi);
  }

  /** Converting 'DD/MM/YYYY HH:mm' with values in range gives 'YYYY-MM-DDTHH:mm'. */
  lemma ConvertShown(d: string, m: string, y: string, h: string, mi: string)
    requires |d| == 2 && |m| == 2 && |y| == 4 && |h| == 2 && |mi| == 2
    requires AllDigits(d) && AllDigits(m) && AllDigits(y) && AllDigits(h) && AllDigits(mi)
    requires DecimalValue(d) <= 31 && DecimalValue(m) <= 12
    requires DecimalValue(h) <= 23 && DecimalValue(mi) <= 59
    ensures FormatToIso((d + "/" + m + "/" + y) + " " + (h + ":" + mi))
            == (y + "-" + m + "-" + d) + "T" + (h + ":" + mi)
  {
    var t := h + ":" + mi;
    assert (d + "/" + m + "/" + y) + " " + t == d + "/" + m + "/" + y + " " + t;
    TokensOfShown(d, m, y, t);
    ConvertTokens(d, m, y, h, mi);
  }

  /**
   * Round trip: the display of a well-formed value converts back to it when
   * day, month, hours and minutes are within 31, 12, 23 and 59.
   */
  lemma DisplayRoundTrip(x: string)
    requires IsIsoDateTime(x)
    requires DecimalValue(x[8..10]) <= 31 && DecimalValue(x[5..7]) <= 12
    requires DecimalValue(x[11..13]) <= 23 && DecimalValue(x[14..]) <= 59
    ensures FormatToIso(FormatToDisplay(x)) == x
  {
    assert x == (x[..4] + "-" + x[5..7] + "-" + x[8..10]) + "T" + (x[11..13] + ":" + x[14..]);
    DisplayOfIsoDateTime(x);
    ConvertShown(x[8..10], x[5..7], x[..4], x[11..13], x[14..]);
  }

  /**
   * Whatever the text, the conversion gives '', a date, or a date and a
   * time whose hours are at most 23 and minutes at most 59.
   */
  lemma FormatToIsoWellFormed(display: string)
    ensures var r := FormatToIso(display);
            r == "" || DateInput.IsIsoDate(r) ||
            (IsIsoDateTime(r) && DecimalValue(r[11..13]) <= 23 && DecimalValue(r[14..]) <= 59)
  {
    if display != "" {
      var parts := WsSplit(Clean(display));
      var n := DigitsOf(parts[0]);
      DateInput.IsoOfDigitsWellFormed(n);
      var dateStr := DateInput.IsoOfDigits(n);
      if dateStr != "" && |parts| > 1 && TimeMatch(parts[1]).Some? {
        var tm := TimeOf(TimeMatch(parts[1]).value);
        IsoWithTime(dateStr, tm);
      }
    }
  }

  lemma IsoWithTime(dateStr: string, tm: string)
    requires DateInput.IsIsoDate(dateStr)
    requires |tm| == 5 && tm[2] == ':' && AllDigits(tm[..2]) && AllDigits(tm[3..])
    ensures var r := dateStr + "T" + tm;
            IsIsoDateTime(r) && r[11..13] == tm[..2] && r[14..] == tm[3..]
  {
    var r := dateStr + "T" + tm;
    assert r[..4] == dateStr[..4] && r[5..7] == dateStr[5..7] && r[8..10] == dateStr[8..];
    assert r[11..13] == tm[..2] && r[14..] == tm[3..];
  }

  // ------------------------------------------------------------------
  // The mask
  // ------------------------------------------------------------------

  lemma TrimNoSpaceEnds(s: string)
    requires |s| > 0 && !JsIsSpace(s[0]) && !JsIsSpace(s[|s| - 1])
    ensures JsTrim(s) == s
  {
    assert LeadCount(s, JsIsSpace) == 0;
    assert DropLeading(s, JsIsSpace) == s;
  }

  /** The corrected mask leaves the display of a well-formed value unchanged. */
  lemma MaskKeepsDisplay(x: string)
    requires IsIsoDateTime(x)
    ensures ApplyMask(FormatToDisplay(x)) == FormatToDisplay(x)
  {
    var d, m, y, h, mi := x[8..10], x[5..7], x[..4], x[11..13], x[14..];
    DisplayOfIsoDateTime(x);
    var t := h + ":" + mi;
    CleanDateTime(d, m, y, t);
    WsSplitTwo(d + m + y, t);
    MaskOfDateTokens(d, m, y);
    DateInput.DigitsOfSep(h, ':', mi);
    DateInput.DigitsOfDigits(h);
    DateInput.DigitsOfDigits(mi);
    assert (h + mi)[..2] == h && Substring(h + mi, 2, 4) == mi;
    var shown := d + "/" + m + "/" + y + " " + t;
    TrimNoSpaceEnds(shown);
  }

  /** Hence typing the display of a valid value and converting the mask gives the value back. */
  lemma MaskedDisplayRoundTrip(x: string)
    requires IsIsoDateTime(x)
    requires DecimalValue(x[8..10]) <= 31 && DecimalValue(x[5..7]) <= 12
    requires DecimalValue(x[11..13]) <= 23 && DecimalValue(x[14..]) <= 59
    ensures FormatToIso(ApplyMask(FormatToDisplay(x))) == x
  {
    MaskKeepsDisplay(x);
    DisplayRoundTrip(x);
  }

  /**
   * The mask as written turns a typed 'DD/MM/YYYY HH:mm' into
   * 'DD/MM/YYYY HH::m' (for instance '01/02/2024 12:30' into
   * '01/02/2024 12::3'): the colon already in the time token is kept and a
   * second one is inserted after two characters.
   */
  lemma MaskAsWrittenDoublesColon(d: string, m: string, y: string, h: string, mi: string)
    requires |d| == 2 && |m| == 2 && |y| == 4 && |h| == 2 && |mi| == 2
    requires AllDigits(d) && AllDigits(m) && AllDigits(y) && AllDigits(h) && AllDigits(mi)
    ensures ApplyMaskAsWritten((d + "/" + m + "/" + y) + " " + (h + ":" + mi))
            == (d + "/" + m + "/" + y) + " " + (h + "::" + mi[..1])
  {
    var t := h + ":" + mi;
    assert (d + "/" + m + "/" + y) + " " + t == d + "/" + m + "/" + y + " " + t;
    TokensOfShown(d, m, y, t);
    MaskOfDateTokens(d, m, y);
    MaskTimeKeepsColon(h, mi);
    var r := (d + "/" + m + "/" + y) + " " + (h + "::" + mi[..1]);
    assert r[0] == d[0] && r[|r| - 1] == mi[0];
    TrimNoSpaceEnds(r);
  }

  /** The date digits of 'DD/MM/YYYY' are masked back to 'DD/MM/YYYY'. */
  lemma MaskOfDateTokens(d: string, m: string, y: string)
    requires |d| == 2 && |m| == 2 && |y| == 4
    requires AllDigits(d) && AllDigits(m) && AllDigits(y)
    ensures DateInput.MaskDigits(DigitsOf(d + m + y)) == d + "/" + m + "/" + y
  {
    var n := d + m + y;
    DateInput.DigitsOfDigits(n);
    assert n[..2] == d && n[2..4] == m && Substring(n, 4, 8) == y;
  }

  /** The time mask as written keeps the typed colon and inserts a second one. */
  lemma MaskTimeKeepsColon(h: string, mi: string)
    requires |h| == 2 && |mi| == 2 && AllDigits(h) && AllDigits(mi)
    ensures MaskTime(Filter(h + ":" + mi, DigitOrColon)) == h + "::" + mi[..1]
  {
    var t := h + ":" + mi;
    FilterIdentity(t, DigitOrColon);
    assert t[..2] == h && Substring(t, 2, 4) == ":" + mi[..1];
  }

  /**
   * Converting 'DD/MM/YYYY HH::m' drops the minutes: the match stops at the
   * second colon, so the minutes default to '00'.
   */
  lemma DoubledColonLosesMinutes(d: string, m: string, y: string, h: string, c: char)
    requires |d| == 2 && |m| == 2 && |y| == 4 && |h| == 2 && IsDigit(c)
    requires AllDigits(d) && AllDigits(m) && AllDigits(y) && AllDigits(h)
    requires DecimalValue(d) <= 31 && DecimalValue(m) <= 12 && DecimalValue(h) <= 23
    ensures FormatToIso((d + "/" + m + "/" + y) + " " + (h + "::" + [c]))
            == (y + "-" + m + "-" + d) + "T" + (h + ":00")
  {
    var t := h + "::" + [c];
    assert (d + "/" + m + "/" + y) + " " + t == d + "/" + m + "/" + y + " " + t;
    TokensOfShown(d, m, y, t);
    DateOfTokens(d, m, y);
    MatchOfDoubledColon(h, c);
    TimeOfNoMinutes(h);
  }

  /** On 'HH::m' the match takes the hours and stops at the second colon. */
  lemma MatchOfDoubledColon(h: string, c: char)
    requires |h| == 2 && AllDigits(h) && IsDigit(c)
    ensures TimeMatch(h + "::" + [c]) == Some((h, ""))
  {
    var t := h + "::" + [c];
    assert IsDigit(t[0]) && IsDigit(t[1]) && t[..2] == h;
    assert t[2..] == "::" + [c] && t[2..][1..] == ":" + [c];
    assert LeadCount(":" + [c], IsDigit) == 0;
  }

  /** Hours in range with an empty minutes group give 'HH:00'. */
  lemma TimeOfNoMinutes(h: string)
    requires |h| == 2 && AllDigits(h) && DecimalValue(h) <= 23
    ensures TimeOf((h, "")) == h + ":00"
  {
    TimeFieldInRange(h, 23);
    ZeroMinutesField();
    assert TimeOf((h, "")) == h + ":" + "00";
    ColonZeros(h);
  }

  lemma ColonZeros(h: string)
    ensures h + ":" + "00" == h + ":00"
  {
    assert ":" + "00" == ":00";
  }

  /** The default minutes '00' are kept as they are. */
  lemma ZeroMinutesField()
    ensures TimeField("00", 59) == "00"
  {
    assert "00"[..1] == "0";
    assert AllDigits("00") && DecimalValue("00") == 0;
    TimeFieldInRange("00", 59);
  }
}
