/**
 * The DD/MM/YYYY text field of frontend/src/components/ui/date-input.tsx:
 * conversion between the ISO value 'YYYY-MM-DD' the form stores and the
 * masked text the user sees, and the decision of what `handleChange` and
 * `handleBlur` emit.
 */
module DateInput {
  import opened Common

  /** `formatToDisplay`: 'YYYY-MM-DD' becomes 'DD/MM/YYYY'. */
  function FormatToDisplay(iso: string): string
  {
    if iso == "" then ""
    else
      var parts := Split(iso, '-');
      JsPart(parts, 2) + "/" + JsPart(parts, 1) + "/" + JsPart(parts, 0)
  }

  /** The ISO date FormatToIso builds from a digit string, or '' when it refuses it. */
  function IsoOfDigits(numbers: string): string
    requires AllDigits(numbers)
  {
    if |numbers| < 8 then ""
    else
      var day := numbers[0..2];
      var month := numbers[2..4];
      var year := numbers[4..8];
      if ParsedAbove(day, 31) || ParsedAbove(month, 12) then ""
      else year + "-" + month + "-" + day
  }

  /** `parseInt(t) > limit`; a comparison with `NaN` is false. */
  predicate ParsedAbove(t: string, limit: int)
  {
    match JsParseInt(t)
    case None => false
    case Some(v) => v > limit
  }

  /** `formatToISO`: the first eight digits read as DDMMYYYY. */
  function FormatToIso(display: string): string
  {
    if display == "" then "" else IsoOfDigits(DigitsOf(display))
  }

  /** The mask applied to a digit string. */
  function MaskDigits(numbers: string): (r: string)
    ensures |r| <= 10
  {
    if |numbers| == 0 then ""
    else if |numbers| <= 2 then numbers
    else if |numbers| <= 4 then numbers[..2] + "/" + numbers[2..]
    else numbers[..2] + "/" + numbers[2..4] + "/" + Substring(numbers, 4, 8)
  }

  /** `applyMask`: keeps the digits and inserts '/' after the day and the month. */
  function ApplyMask(value: string): string
  {
    MaskDigits(DigitsOf(value))
  }

  /** 'YYYY-MM-DD' with digits where the pattern `^\d{4}-\d{2}-\d{2}$` wants them. */
  predicate IsIsoDate(s: string)
  {
    |s| == 10 && AllDigits(s[..4]) && s[4] == '-' && AllDigits(s[5..7])
    && s[7] == '-' && AllDigits(s[8..])
  }

  // ------------------------------------------------------------------
  // Display of an ISO date
  // ------------------------------------------------------------------

  lemma DigitsHaveNoSep(s: string, c: char)
    requires AllDigits(s) && !IsDigit(c)
    ensures c !in s
  {
  }

  /** A well-formed ISO date is shown as its day, month and year separated by '/'. */
  lemma DisplayOfIso(s: string)
    requires IsIsoDate(s)
    ensures FormatToDisplay(s) == s[8..] + "/" + s[5..7] + "/" + s[..4]
  {
    DigitsHaveNoSep(s[..4], '-');
    DigitsHaveNoSep(s[5..7], '-');
    DigitsHaveNoSep(s[8..], '-');
    assert s == s[..4] + ['-'] + s[5..];
    SplitAt(s[..4], '-', s[5..]);
    assert s[5..] == s[5..7] + ['-'] + s[8..];
    SplitAt(s[5..7], '-', s[8..]);
    SplitNoSep(s[8..], '-');
    assert Split(s, '-') == [s[..4], s[5..7], s[8..]];
  }

  // ------------------------------------------------------------------
  // Digits of the masked and displayed texts
  // ------------------------------------------------------------------

  lemma DigitsOfDigits(s: string)
    requires AllDigits(s)
    ensures DigitsOf(s) == s
  {
    FilterIdentity(s, IsDigit);
  }

  lemma DigitsOfSep(a: string, c: char, b: string)
    requires !IsDigit(c)
    ensures DigitsOf(a + [c] + b) == DigitsOf(a) + DigitsOf(b)
  {
    FilterConcat(a + [c], b, IsDigit);
    FilterConcat(a, [c], IsDigit);
    assert Filter([c], IsDigit) == "" by {
      assert [c][1..] == "";
    }
  }

  /** The digits of 'DD/MM/YYYY' built from digit strings. */
  lemma DigitsOfDisplay(d: string, m: string, y: string)
    requires AllDigits(d) && AllDigits(m) && AllDigits(y)
    ensures DigitsOf(d + "/" + m + "/" + y) == d + m + y
  {
    DigitsOfSep(d, '/', m);
    DigitsOfSep(d + "/" + m, '/', y);
    DigitsOfDigits(d);
    DigitsOfDigits(m);
    DigitsOfDigits(y);
  }

  /** Masking keeps the first eight digits and nothing else. */
  lemma DigitsOfMask(numbers: string)
    requires AllDigits(numbers)
    ensures DigitsOf(MaskDigits(numbers)) == numbers[..Min(8, |numbers|)]
  {
    var n := numbers;
    if |n| == 0 {
    } else if |n| <= 2 {
      DigitsOfDigits(n);
    } else if |n| <= 4 {
      DigitsOfSep(n[..2], '/', n[2..]);
      DigitsOfDigits(n[..2]);
      DigitsOfDigits(n[2..]);
      assert n[..2] + n[2..] == n;
    } else {
      var t := Substring(n, 4, 8);
      assert t == n[4..Min(8, |n|)];
      DigitsOfDisplay(n[..2], n[2..4], t);
      assert n[..2] + n[2..4] + t == n[..Min(8, |n|)];
    }
  }

  /** Masking the masked text again changes nothing. */
  lemma ApplyMaskIdempotent(value: string)
    ensures ApplyMask(ApplyMask(value)) == ApplyMask(value)
  {
    var n := DigitsOf(value);
    DigitsOfMask(n);
    MaskOfPrefix(n);
  }

  /** The mask reads only the first eight digits. */
  lemma MaskOfPrefix(n: string)
    requires AllDigits(n)
    ensures MaskDigits(n[..Min(8, |n|)]) == MaskDigits(n)
  {
    var p := n[..Min(8, |n|)];
    if |n| > 4 {
      assert p[..2] == n[..2] && p[2..4] == n[2..4];
      assert Substring(p, 4, 8) == Substring(n, 4, 8);
    } else {
      assert p == n;
    }
  }

  /** So does the conversion to ISO. */
  lemma IsoOfPrefix(n: string)
    requires AllDigits(n)
    ensures IsoOfDigits(n[..Min(8, |n|)]) == IsoOfDigits(n)
  {
    var p := n[..Min(8, |n|)];
    if |n| >= 8 {
      assert p[0..2] == n[0..2] && p[2..4] == n[2..4] && p[4..8] == n[4..8];
    }
  }

  /** Converting the masked text gives the same date as converting the raw text. */
  lemma IsoOfMask(value: string)
    ensures FormatToIso(ApplyMask(value)) == FormatToIso(value)
  {
    var n := DigitsOf(value);
    DigitsOfMask(n);
    IsoOfPrefix(n);
    if value != "" && n == "" {
      assert ApplyMask(value) == "";
    }
  }

  // ------------------------------------------------------------------
  // What FormatToIso produces
  // ------------------------------------------------------------------

  /** Two digits parse to their decimal value, so the guard reads the value. */
  lemma ParsedAboveDigits(t: string, limit: int)
    requires |t| > 0 && AllDigits(t)
    ensures ParsedAbove(t, limit) <==> DecimalValue(t) > limit
  {
    ParseIntOfDigits(t);
  }

  /** A non-empty result is a well-formed ISO date with day at most 31 and month at most 12. */
  lemma IsoOfDigitsWellFormed(n: string)
    requires AllDigits(n)
    ensures var r := IsoOfDigits(n);
            r != "" ==> IsIsoDate(r) && DecimalValue(r[8..]) <= 31 && DecimalValue(r[5..7]) <= 12
    ensures |n| >= 8 ==> (IsoOfDigits(n) != "" <==> DecimalValue(n[0..2]) <= 31 && DecimalValue(n[2..4]) <= 12)
  {
    if |n| >= 8 {
      var day := n[0..2];
      var month := n[2..4];
      var year := n[4..8];
      ParsedAboveDigits(day, 31);
      ParsedAboveDigits(month, 12);
      var r := year + "-" + month + "-" + day;
      assert r[..4] == year && r[5..7] == month && r[8..] == day;
    }
  }

  /**
   * The display of a stored date converts back to that date exactly when
   * its day is at most 31 and its month at most 12; otherwise to ''.
   */
  lemma DisplayRoundTrip(s: string)
    requires IsIsoDate(s)
    ensures FormatToIso(FormatToDisplay(s)) == s <==>
            DecimalValue(s[8..]) <= 31 && DecimalValue(s[5..7]) <= 12
    ensures FormatToIso(FormatToDisplay(s)) == s || FormatToIso(FormatToDisplay(s)) == ""
  {
    IsoDateParts(s);
    DisplayOfIso(s);
    RoundTripOfTokens(s, s[8..], s[5..7], s[..4]);
  }

  /** A well-formed ISO date is its year, month and day joined by '-'. */
  lemma IsoDateParts(s: string)
    requires IsIsoDate(s)
    ensures s == s[..4] + "-" + s[5..7] + "-" + s[8..]
  {
  }

  /** The round trip of an ISO date given by its three digit fields. */
  lemma RoundTripOfTokens(s: string, d: string, m: string, y: string)
    requires |d| == 2 && |m| == 2 && |y| == 4 && AllDigits(d) && AllDigits(m) && AllDigits(y)
    requires s == y + "-" + m + "-" + d && FormatToDisplay(s) == d + "/" + m + "/" + y
    ensures FormatToIso(FormatToDisplay(s)) == if DecimalValue(d) <= 31 && DecimalValue(m) <= 12 then s else ""
  {
    DigitsOfDisplay(d, m, y);
    IsoOfTokens(d, m, y);
  }

  /** The ISO date read from a day, a month and a year given as digit strings. */
  lemma IsoOfTokens(d: string, m: string, y: string)
    requires |d| == 2 && |m| == 2 && |y| == 4 && AllDigits(d) && AllDigits(m) && AllDigits(y)
    ensures IsoOfDigits(d + m + y) == if DecimalValue(d) <= 31 && DecimalValue(m) <= 12 then y + "-" + m + "-" + d else ""
  {
    var n := d + m + y;
    assert n[0..2] == d && n[2..4] == m && n[4..8] == y;
    ParsedAboveDigits(d, 31);
    ParsedAboveDigits(m, 12);
  }

  // ------------------------------------------------------------------
  // The change and blur handlers
  // ------------------------------------------------------------------

  /** What `handleChange` shows and what it passes to `onChange` (None: no event). */
  datatype Change = Change(display: string, emitted: Option<string>)

  /** `handleChange` on the text the user typed. */
  function HandleChange(input: string): (c: Change)
  {
    if IsIsoDate(input) then Change(FormatToDisplay(input), Some(input))
    else
      var masked := ApplyMask(input);
      var iso := FormatToIso(masked);
      Change(masked, if iso != "" || |masked| == 0 then Some(iso) else None)
  }

  /**
   * `handleChange` never emits anything but '' or a well-formed ISO date,
   * passes a pasted ISO date through unchanged, emits '' exactly when the field is emptied of digits, and never
   * shows more than ten characters unless an ISO date was pasted.
   */
  lemma HandleChangeEmits(input: string)
    ensures var c := HandleChange(input);
            c.emitted.Some? ==> c.emitted.value == "" || IsIsoDate(c.emitted.value)
    ensures IsIsoDate(input) ==> HandleChange(input).emitted == Some(input)
    ensures var c := HandleChange(input);
            !IsIsoDate(input) ==> (c.emitted == Some("") <==> DigitsOf(input) == "")
    ensures |HandleChange(input).display| <= 10
  {
    if !IsIsoDate(input) {
      var masked := ApplyMask(input);
      var n := DigitsOf(input);
      DigitsOfMask(n);
      IsoOfDigitsWellFormed(DigitsOf(masked));
      if n != "" {
        assert |masked| > 0;
      }
    } else {
      DisplayOfIso(input);
    }
  }

  /** Typing the display form of a valid date emits that date. */
  lemma TypingDisplayEmitsDate(s: string)
    requires IsIsoDate(s) && DecimalValue(s[8..]) <= 31 && DecimalValue(s[5..7]) <= 12
    ensures HandleChange(FormatToDisplay(s)) == Change(FormatToDisplay(s), Some(s))
  {
    DisplayRoundTrip(s);
    DisplayOfIso(s);
    var d := FormatToDisplay(s);
    assert !IsIsoDate(d) by {
      assert d[4] == s[6];
    }
    DigitsOfDisplay(s[8..], s[5..7], s[..4]);
    var n := s[8..] + s[5..7] + s[..4];
    assert DigitsOf(d) == n;
    assert n[..2] == s[8..] && n[2..4] == s[5..7] && Substring(n, 4, 8) == s[..4];
    assert ApplyMask(d) == d;
  }

  /** `handleBlur`: a complete ten-character text that converts is normalised. */
  function HandleBlur(display: string): string
  {
    if display != "" && |display| == 10 then
      var iso := FormatToIso(display);
      if iso != "" then FormatToDisplay(iso) else display
    else display
  }

  /** Blurring twice is blurring once. */
  lemma HandleBlurIdempotent(display: string)
    ensures HandleBlur(HandleBlur(display)) == HandleBlur(display)
  {
    if display != "" && |display| == 10 {
      var iso := FormatToIso(display);
      if iso != "" {
        IsoOfDigitsWellFormed(DigitsOf(display));
        DisplayRoundTrip(iso);
        DisplayOfIso(iso);
      }
    }
  }
}
