/**
 * Shared vocabulary of the model: optional values, the choice fields the
 * backend stores, and the string and integer helpers that several source
 * files rely on (Python `str.strip`/`str.split`, JavaScript `trim`,
 * `split`, `padStart`, `parseInt`, truncating `%`).
 */
module Common {

  datatype Option<T> = None | Some(value: T)

  /** A validator's outcome: the accepted value, or the `ValidationError` message. */
  datatype Validated<T> = Accepted(value: T) | Rejected(message: string)

  // ------------------------------------------------------------------
  // Choice fields (backend/apps/projects/models.py, accounts/models.py)
  // ------------------------------------------------------------------

  /** `CardStatus` choices of a card. */
  datatype CardStatus =
    | ADesenvolver | EmDesenvolvimento | ParadoPendencias
    | EmHomologacao | Finalizado | Inviabilizado

  function StatusCode(s: CardStatus): string
  {
    match s
    case ADesenvolver => "a_desenvolver"
    case EmDesenvolvimento => "em_desenvolvimento"
    case ParadoPendencias => "parado_pendencias"
    case EmHomologacao => "em_homologacao"
    case Finalizado => "finalizado"
    case Inviabilizado => "inviabilizado"
  }

  /** The two statuses that the backend treats as "delivered or dropped". */
  predicate IsClosed(s: CardStatus)
  {
    s == Finalizado || s == Inviabilizado
  }

  /** `User.Role` choices. */
  datatype Role = Admin | Supervisor | Gerente | Desenvolvedor | Dados | Processos

  function RoleCode(r: Role): string
  {
    match r
    case Admin => "admin"
    case Supervisor => "supervisor"
    case Gerente => "gerente"
    case Desenvolvedor => "desenvolvedor"
    case Dados => "dados"
    case Processos => "processos"
  }

  /** Supervisor or admin: the roles most management endpoints demand. */
  predicate IsSupervisorOrAdmin(r: Role)
  {
    r == Supervisor || r == Admin
  }

  // ------------------------------------------------------------------
  // Characters
  // ------------------------------------------------------------------

  predicate IsDigit(c: char)
  {
    '0' <= c <= '9'
  }

  function DigitValue(c: char): nat
    requires IsDigit(c)
  {
    (c as int) - ('0' as int)
  }

  function DigitChar(d: nat): char
    requires d < 10
  {
    (('0' as int) + d) as char
  }

  predicate AllDigits(s: string)
  {
    forall i :: 0 <= i < |s| ==> IsDigit(s[i])
  }

  /** The characters Python's `str.strip()` removes by default. */
  predicate PyIsSpace(c: char)
  {
    c == ' ' || ('\t' <= c <= '\r') || ('\U{1c}' <= c <= '\U{1f}')
    || c == '\U{85}' || c == '\U{a0}' || c == '\U{1680}'
    || ('\U{2000}' <= c <= '\U{200a}') || c == '\U{2028}' || c == '\U{2029}'
    || c == '\U{202f}' || c == '\U{205f}' || c == '\U{3000}'
  }

  /** The characters of JavaScript's `\s` class (also what `trim` removes). */
  predicate JsIsSpace(c: char)
  {
    c == ' ' || ('\t' <= c <= '\r') || c == '\U{a0}' || c == '\U{1680}'
    || ('\U{2000}' <= c <= '\U{200a}') || c == '\U{2028}' || c == '\U{2029}'
    || c == '\U{202f}' || c == '\U{205f}' || c == '\U{3000}' || c == '\U{feff}'
  }

  /**
   * `toUpperCase` on the Basic Latin and Latin-1 letters: a-z and à-þ (but
   * not ÷) move up by 32. Other scripts, and the Latin-1 letters whose
   * upper case lies outside the block (µ, ß, ÿ), are left unchanged.
   */
  function UpperChar(c: char): char
  {
    if 'a' <= c <= 'z' || ('\U{e0}' <= c <= '\U{fe}' && c != '\U{f7}') then ((c as int) - 32) as char else c
  }

  /** `toLowerCase` on the same letters: A-Z and À-Þ (but not ×) move down by 32. */
  function LowerChar(c: char): char
  {
    if 'A' <= c <= 'Z' || ('\U{c0}' <= c <= '\U{de}' && c != '\U{d7}') then ((c as int) + 32) as char else c
  }

  function Upper(s: string): (r: string)
    ensures |r| == |s|
    ensures forall i :: 0 <= i < |s| ==> r[i] == UpperChar(s[i])
  {
    seq(|s|, i requires 0 <= i < |s| => UpperChar(s[i]))
  }

  function Lower(s: string): (r: string)
    ensures |r| == |s|
    ensures forall i :: 0 <= i < |s| ==> r[i] == LowerChar(s[i])
  {
    seq(|s|, i requires 0 <= i < |s| => LowerChar(s[i]))
  }

  // ------------------------------------------------------------------
  // Strings
  // ------------------------------------------------------------------

  /** Number of leading characters satisfying `sp`. */
  function LeadCount(s: string, sp: char -> bool): (n: nat)
    ensures n <= |s|
    ensures forall i :: 0 <= i < n ==> sp(s[i])
    ensures n < |s| ==> !sp(s[n])
  {
    if |s| > 0 && sp(s[0]) then
      var m := LeadCount(s[1..], sp);
      assert forall i :: 1 <= i < m + 1 ==> s[i] == s[1..][i - 1];
      m + 1
    else 0
  }

  /** Number of trailing characters satisfying `sp`. */
  function TrailCount(s: string, sp: char -> bool): (n: nat)
    ensures n <= |s|
    ensures forall i :: |s| - n <= i < |s| ==> sp(s[i])
    ensures n < |s| ==> !sp(s[|s| - n - 1])
  {
    if |s| > 0 && sp(s[|s| - 1]) then
      var m := TrailCount(s[..|s| - 1], sp);
      m + 1
    else 0
  }

  function DropLeading(s: string, sp: char -> bool): string
  {
    s[LeadCount(s, sp)..]
  }

  function DropTrailing(s: string, sp: char -> bool): string
  {
    s[..|s| - TrailCount(s, sp)]
  }

  /** Removes the given characters from both ends. */
  function StripWith(s: string, sp: char -> bool): string
  {
    DropTrailing(DropLeading(s, sp), sp)
  }

  /** Python `s.strip()`. */
  function PyStrip(s: string): string
  {
    StripWith(s, PyIsSpace)
  }

  /** JavaScript `s.trim()`. */
  function JsTrim(s: string): string
  {
    StripWith(s, JsIsSpace)
  }

  /** Python `s.strip(c)` for a single character. */
  function StripChar(s: string, c: char): string
  {
    StripWith(s, x => x == c)
  }

  predicate StartsWith(s: string, p: string)
  {
    |p| <= |s| && s[..|p|] == p
  }

  predicate EndsWith(s: string, p: string)
  {
    |p| <= |s| && s[|s| - |p|..] == p
  }

  /** Python `t in s` / JavaScript `s.includes(t)` for strings. */
  predicate ContainsStr(s: string, t: string)
  {
    exists i :: 0 <= i <= |s| - |t| && OccursAt(s, t, i)
  }

  predicate OccursAt(s: string, t: string, i: int)
  {
    0 <= i <= |s| - |t| && s[i..i + |t|] == t
  }

  /** `s.split(c)` for a one-character separator; Python and JavaScript agree. */
  function Split(s: string, c: char): (r: seq<string>)
    ensures |r| >= 1
    ensures forall k :: 0 <= k < |r| ==> c !in r[k]
  {
    if |s| == 0 then [""]
    else
      var rest := Split(s[1..], c);
      if s[0] == c then [""] + rest
      else [[s[0]] + rest[0]] + rest[1..]
  }

  function Join(parts: seq<string>, c: char): string
  {
    if |parts| == 0 then ""
    else if |parts| == 1 then parts[0]
    else parts[0] + [c] + Join(parts[1..], c)
  }

  /** Splitting and joining again on the same separator gives the input back. */
  lemma {:induction false} JoinSplit(s: string, c: char)
    ensures Join(Split(s, c), c) == s
  {
    if |s| > 0 {
      JoinSplit(s[1..], c);
      var rest := Split(s[1..], c);
      if s[0] == c {
        JoinEmptyHead(rest, c);
      } else {
        JoinConsHead(s[0], rest, c);
      }
      assert s == [s[0]] + s[1..];
    }
  }

  /** Joining after an empty first part puts a separator in front. */
  lemma JoinEmptyHead(rest: seq<string>, c: char)
    requires |rest| >= 1
    ensures Join([""] + rest, c) == [c] + Join(rest, c)
  {
    assert ([""] + rest)[1..] == rest;
  }

  /** Joining after a character is put in front of the first part puts it in front of the whole. */
  lemma JoinConsHead(ch: char, rest: seq<string>, c: char)
    requires |rest| >= 1
    ensures Join([[ch] + rest[0]] + rest[1..], c) == [ch] + Join(rest, c)
  {
    var parts := [[ch] + rest[0]] + rest[1..];
    if |rest| > 1 {
      assert parts[1..] == rest[1..];
      assert ([ch] + rest[0]) + [c] + Join(rest[1..], c) == [ch] + (rest[0] + [c] + Join(rest[1..], c));
    }
  }

  /** A string without the separator splits into itself alone. */
  lemma {:induction false} SplitNoSep(s: string, c: char)
    requires c !in s
    ensures Split(s, c) == [s]
  {
    if |s| > 0 {
      SplitNoSep(s[1..], c);
      assert s == [s[0]] + s[1..];
    }
  }

  /** Splitting `a + [c] + b` where `a` has no separator. */
  lemma {:induction false} SplitAt(a: string, c: char, b: string)
    requires c !in a
    ensures Split(a + [c] + b, c) == [a] + Split(b, c)
  {
    if |a| == 0 {
      assert a + [c] + b == [c] + b;
      assert ([c] + b)[1..] == b;
    } else {
      assert (a + [c] + b)[1..] == a[1..] + [c] + b;
      SplitAt(a[1..], c, b);
      assert [a[0]] + a[1..] == a;
    }
  }
  /** Two pieces without the separator, joined by it, split back into the two pieces. */
  lemma SplitTwo(a: string, c: char, b: string)
    requires c !in a && c !in b
    ensures Split(a + [c] + b, c) == [a, b]
  {
    SplitAt(a, c, b);
    SplitNoSep(b, c);
  }


  /** Three pieces without the separator, joined by it, split back into the three pieces. */
  lemma SplitThree(a: string, c: char, b: string, d: string)
    requires c !in a && c !in b && c !in d
    ensures Split(a + [c] + b + [c] + d, c) == [a, b, d]
  {
    assert a + [c] + b + [c] + d == a + [c] + (b + [c] + d);
    SplitAt(a, c, b + [c] + d);
    SplitTwo(b, c, d);
  }

  /**
   * Element `i` of a JavaScript array destructuring such as
   * `const [a, b, c] = s.split('-')`, rendered by a template literal: a
   * missing element is `undefined` and prints as "undefined".
   */
  function JsPart(parts: seq<string>, i: nat): string
  {
    if i < |parts| then parts[i] else "undefined"
  }

  /** Python `s.replace(a, b)` for single characters. */
  function ReplaceChar(s: string, a: char, b: char): (r: string)
    ensures |r| == |s|
    ensures forall i :: 0 <= i < |s| ==> r[i] == (if s[i] == a then b else s[i])
  {
    seq(|s|, i requires 0 <= i < |s| => if s[i] == a then b else s[i])
  }

  /** Keeps the characters satisfying `p`, in order (`s.replace(/\D/g, '')`). */
  function Filter(s: string, p: char -> bool): (r: string)
    ensures |r| <= |s|
    ensures forall i :: 0 <= i < |r| ==> p(r[i])
  {
    if |s| == 0 then "" else (if p(s[0]) then [s[0]] else "") + Filter(s[1..], p)
  }

  lemma {:induction false} FilterIdentity(s: string, p: char -> bool)
    requires forall i :: 0 <= i < |s| ==> p(s[i])
    ensures Filter(s, p) == s
  {
    if |s| > 0 {
      FilterIdentity(s[1..], p);
      assert [s[0]] + s[1..] == s;
    }
  }

  lemma {:induction false} FilterConcat(a: string, b: string, p: char -> bool)
    ensures Filter(a + b, p) == Filter(a, p) + Filter(b, p)
  {
    if |a| > 0 {
      assert (a + b)[1..] == a[1..] + b;
      FilterConcat(a[1..], b, p);
    } else {
      assert a + b == b;
    }
  }

  /** `s.replace(/\D/g, '')`. */
  function DigitsOf(s: string): (r: string)
    ensures AllDigits(r)
  {
    Filter(s, IsDigit)
  }

  /** Python `s[:n]` for `n >= 0`: the first `n` characters, or all of a shorter string. */
  function Take(s: string, n: nat): (r: string)
    ensures |r| == Min(n, |s|)
    ensures r == s[..|r|]
  {
    if n < |s| then s[..n] else s
  }

  predicate IsAsciiLetter(c: char)
  {
    'a' <= c <= 'z' || 'A' <= c <= 'Z'
  }

  /**
   * Python `s.title()` on ASCII text: a letter that follows a non-letter
   * (or starts the string) is upper-cased, every other letter lower-cased.
   */
  function PyTitle(s: string): (r: string)
    ensures |r| == |s|
  {
    seq(|s|, i requires 0 <= i < |s| =>
      if i == 0 || !IsAsciiLetter(s[i - 1]) then UpperChar(s[i]) else LowerChar(s[i]))
  }

  /** JavaScript `str.substring(i, j)` with out-of-range ends clamped. */
  function Substring(s: string, i: int, j: int): (r: string)
    ensures |r| <= |s|
  {
    var a := if i < 0 then 0 else if i > |s| then |s| else i;
    var b := if j < 0 then 0 else if j > |s| then |s| else j;
    if a <= b then s[a..b] else s[b..a]
  }

  /** A word: non-empty, with no white space. */
  predicate IsWord(w: string)
  {
    |w| > 0 && forall i :: 0 <= i < |w| ==> !JsIsSpace(w[i])
  }

  /** `s.split(/\s+/).filter(Boolean)`: the maximal runs of non-space characters, in order. */
  function Words(s: string): seq<string>
    decreases |s|
  {
    if |s| == 0 then []
    else if JsIsSpace(s[0]) then Words(s[1..])
    else
      var n := LeadCount(s, c => !JsIsSpace(c));
      [s[..n]] + Words(s[n..])
  }

  lemma {:induction false} WordsAreWords(s: string)
    ensures forall w :: w in Words(s) ==> IsWord(w)
    decreases |s|
  {
    if |s| > 0 {
      if JsIsSpace(s[0]) {
        WordsAreWords(s[1..]);
      } else {
        var n := LeadCount(s, c => !JsIsSpace(c));
        WordsAreWords(s[n..]);
        assert IsWord(s[..n]);
      }
    }
  }

  /** A string whose ends are not white space is its own `trim()`. */
  lemma JsTrimKeeps(s: string)
    requires |s| > 0 && !JsIsSpace(s[0]) && !JsIsSpace(s[|s| - 1])
    ensures JsTrim(s) == s
  {
    assert LeadCount(s, JsIsSpace) == 0;
    assert DropLeading(s, JsIsSpace) == s;
    assert TrailCount(s, JsIsSpace) == 0;
  }

  /** `trim()` of a word with one space on either side. */
  lemma JsTrimSpaced(w: string)
    requires IsWord(w)
    ensures JsTrim(w + " ") == w && JsTrim(" " + w) == w
  {
    var a := w + " ";
    assert LeadCount(a, JsIsSpace) == 0;
    assert DropLeading(a, JsIsSpace) == a;
    assert TrailCount(a[..|a| - 1], JsIsSpace) == 0;
    assert TrailCount(a, JsIsSpace) == 1;
    assert a[..|a| - 1] == w;
    var b := " " + w;
    assert LeadCount(b[1..], JsIsSpace) == 0;
    assert LeadCount(b, JsIsSpace) == 1;
    assert b[1..] == w;
    assert TrailCount(w, JsIsSpace) == 0;
  }

  /** `trim()` of a lone space. */
  lemma JsTrimSpace()
    ensures JsTrim(" ") == ""
  {
    assert LeadCount(" "[1..], JsIsSpace) == 0;
    assert LeadCount(" ", JsIsSpace) == 1;
  }

  // ------------------------------------------------------------------
  // Numbers and their decimal text
  // ------------------------------------------------------------------

  /** Decimal value of a digit string. */
  function DecimalValue(s: string): nat
    requires AllDigits(s)
  {
    if |s| == 0 then 0 else DecimalValue(s[..|s| - 1]) * 10 + DigitValue(s[|s| - 1])
  }

  /** `String(n)` for a natural number. */
  function NatToString(n: nat): (r: string)
    ensures |r| >= 1 && AllDigits(r)
  {
    if n < 10 then [DigitChar(n)] else NatToString(n / 10) + [DigitChar(n % 10)]
  }

  lemma {:induction false} NatToStringValue(n: nat)
    ensures DecimalValue(NatToString(n)) == n
  {
    if n >= 10 {
      NatToStringValue(n / 10);
      var s := NatToString(n);
      assert s[..|s| - 1] == NatToString(n / 10);
    }
  }

  /** `str.padStart(2, '0')`. */
  function PadStart2(s: string): (r: string)
    ensures |s| >= 2 ==> r == s
    ensures |s| < 2 ==> |r| == 2 && r[2 - |s|..] == s
  {
    if |s| >= 2 then s else if |s| == 1 then "0" + s else "00"
  }

  /** `String(n).padStart(2, '0')`. */
  function Pad2(n: nat): (r: string)
    ensures |r| >= 2 && AllDigits(r)
  {
    PadStart2(NatToString(n))
  }

  /** Two-digit numbers are padded to exactly two digits that read back as the number. */
  lemma Pad2Value(n: nat)
    requires n < 100
    ensures |Pad2(n)| == 2 && DecimalValue(Pad2(n)) == n
  {
    NatToStringValue(n);
    var t := NatToString(n);
    if n < 10 {
      assert t == [DigitChar(n)];
      var r := Pad2(n);
      assert r == ['0', t[0]];
      assert r[..1] == "0";
      assert DecimalValue(r) == DecimalValue("0") * 10 + DigitValue(t[0]);
    } else {
      assert t == NatToString(n / 10) + [DigitChar(n % 10)];
      assert NatToString(n / 10) == [DigitChar(n / 10)];
    }
  }

  /** Every natural number is padded to digits that read back as the number. */
  lemma Pad2ValueAll(n: nat)
    ensures AllDigits(Pad2(n)) && DecimalValue(Pad2(n)) == n
  {
    if n < 100 {
      Pad2Value(n);
    } else {
      NatToStringValue(n);
    }
  }

  /** A digit string without a leading zero is at least its first digit. */
  lemma {:induction false} DecimalValueAtLeastLead(s: string)
    requires |s| >= 1 && AllDigits(s)
    ensures DecimalValue(s) >= DigitValue(s[0])
    decreases |s|
  {
    if |s| > 1 {
      DecimalValueAtLeastLead(s[..|s| - 1]);
    }
  }

  /** `String(n)` gives back a digit string without a leading zero. */
  lemma {:induction false} NatToStringOfDigits(s: string)
    requires |s| >= 1 && AllDigits(s) && s[0] != '0'
    ensures NatToString(DecimalValue(s)) == s
    decreases |s|
  {
    if |s| == 1 {
      NatToStringOfDigit(s);
    } else {
      var p := s[..|s| - 1];
      DecimalValueAtLeastLead(p);
      NatToStringOfDigits(p);
      NatToStringStep(p, s[|s| - 1]);
      assert p + [s[|s| - 1]] == s;
    }
  }

  lemma NatToStringOfDigit(s: string)
    requires |s| == 1 && AllDigits(s)
    ensures DecimalValue(s) == DigitValue(s[0]) && NatToString(DecimalValue(s)) == s
  {
    assert s[..0] == [];
    assert DigitChar(DigitValue(s[0])) == s[0];
  }

  /** Appending a digit to a number's decimal text is taking ten times it plus the digit. */
  lemma NatToStringStep(p: string, c: char)
    requires |p| >= 1 && AllDigits(p) && IsDigit(c) && DecimalValue(p) >= 1
    requires NatToString(DecimalValue(p)) == p
    ensures AllDigits(p + [c]) && DecimalValue(p + [c]) == DecimalValue(p) * 10 + DigitValue(c)
    ensures NatToString(DecimalValue(p + [c])) == p + [c]
  {
    var t := p + [c];
    assert t[..|t| - 1] == p;
    var v := DecimalValue(t);
    assert v / 10 == DecimalValue(p) && v % 10 == DigitValue(c);
    assert DigitChar(DigitValue(c)) == c;
  }

  /** A two-digit string is what padding its value gives. */
  lemma Pad2OfDigits(s: string)
    requires |s| == 2 && AllDigits(s)
    ensures Pad2(DecimalValue(s)) == s
  {
    assert s[..1][..0] == [];
    if s[0] == '0' {
      var v := DecimalValue(s);
      assert DecimalValue(s[..1]) == DigitValue(s[0]);
      assert v == DigitValue(s[1]);
      assert NatToString(v) == [s[1]];
      assert "0" + [s[1]] == s;
    } else {
      NatToStringOfDigits(s);
    }
  }

  /** `String(i)` for any integer. */
  function JsIntString(i: int): (r: string)
    ensures i >= 0 ==> r == NatToString(i)
    ensures |r| >= 1
  {
    if i < 0 then "-" + NatToString(-i) else NatToString(i)
  }

  /** `String(i).padStart(2, '0')` for any integer. */
  function PadInt2(i: int): (r: string)
    ensures i >= 0 ==> r == Pad2(i)
  {
    PadStart2(JsIntString(i))
  }

  /**
   * JavaScript `Number(s)` on plain decimal integers: surrounding white
   * space is ignored, an empty string is 0, and an optional sign followed
   * by digits is the integer; `None` stands for `NaN`.
   */
  function JsNumber(s: string): Option<int>
  {
    var t := JsTrim(s);
    if t == "" then Some(0)
    else
      var neg := t[0] == '-';
      var u := if t[0] == '+' || t[0] == '-' then t[1..] else t;
      if |u| > 0 && AllDigits(u) then Some(if neg then -(DecimalValue(u) as int) else DecimalValue(u) as int)
      else None
  }

  /** `Number` of a non-empty digit string is its decimal value. */
  lemma JsNumberOfDigits(s: string)
    requires |s| > 0 && AllDigits(s)
    ensures JsNumber(s) == Some(DecimalValue(s) as int)
  {
    JsTrimDigits(s);
    assert IsDigit(s[0]);
  }

  /** A string of digits has no white space to trim. */
  lemma JsTrimDigits(s: string)
    requires |s| > 0 && AllDigits(s)
    ensures JsTrim(s) == s
  {
    assert IsDigit(s[0]) && IsDigit(s[|s| - 1]);
    assert DropLeading(s, JsIsSpace) == s;
  }

  function JsParseIntDigits(s: string, acc: nat): nat
  {
    if |s| == 0 || !IsDigit(s[0]) then acc else JsParseIntDigits(s[1..], acc * 10 + DigitValue(s[0]))
  }

  /**
   * JavaScript `parseInt(s)` in base 10: leading white space, an optional
   * sign, then the longest run of digits; `None` stands for `NaN`.
   */
  function JsParseInt(s: string): Option<int>
  {
    var t := DropLeading(s, JsIsSpace);
    var neg := |t| > 0 && t[0] == '-';
    var u := if |t| > 0 && (t[0] == '+' || t[0] == '-') then t[1..] else t;
    if |u| == 0 || !IsDigit(u[0]) then None
    else
      var v := JsParseIntDigits(u, 0);
      Some(if neg then -(v as int) else v as int)
  }

  lemma {:induction false} ParseDigitsSnoc(s: string, c: char, acc: nat)
    requires AllDigits(s) && IsDigit(c)
    ensures JsParseIntDigits(s + [c], acc) == JsParseIntDigits(s, acc) * 10 + DigitValue(c)
    decreases |s|
  {
    if |s| == 0 {
      assert ([c] + [])[1..] == [];
      assert s + [c] == [c];
    } else {
      assert (s + [c])[1..] == s[1..] + [c];
      ParseDigitsSnoc(s[1..], c, acc * 10 + DigitValue(s[0]));
    }
  }

  /** Reading a run of digits from the left gives its decimal value. */
  lemma {:induction false} ParseDigitsValue(s: string)
    requires AllDigits(s)
    ensures JsParseIntDigits(s, 0) == DecimalValue(s)
    decreases |s|
  {
    if |s| == 0 {
    } else {
      var p := s[..|s| - 1];
      ParseDigitsValue(p);
      assert p + [s[|s| - 1]] == s;
      ParseDigitsSnoc(p, s[|s| - 1], 0);
    }
  }

  /** `parseInt` of a non-empty digit string is its decimal value. */
  lemma ParseIntOfDigits(s: string)
    requires |s| > 0 && AllDigits(s)
    ensures JsParseIntDigits(s, 0) == DecimalValue(s)
    ensures JsParseInt(s) == Some(DecimalValue(s) as int)
  {
    ParseDigitsValue(s);
    assert IsDigit(s[0]);
    assert LeadCount(s, JsIsSpace) == 0;
    assert DropLeading(s, JsIsSpace) == s;
  }

  /** `Math.max(lo, Math.min(hi, parseInt(text) || 0))`: NaN and 0 both give 0 first. */
  function ClampParsed(text: string, lo: int, hi: int): (r: int)
    requires lo <= 0 <= hi
    ensures lo <= r <= hi
    ensures JsParseInt(text).None? ==> r == 0
    ensures JsParseInt(text).Some? && lo <= JsParseInt(text).value <= hi ==> r == JsParseInt(text).value
    ensures JsParseInt(text).Some? && JsParseInt(text).value > hi ==> r == hi
    ensures JsParseInt(text).Some? && JsParseInt(text).value < lo ==> r == lo
  {
    var v := match JsParseInt(text) case None => 0 case Some(x) => x;
    if v < lo then lo else if v > hi then hi else v
  }

  /** JavaScript `%`: the remainder takes the sign of the dividend. */
  function JsRem(a: int, b: int): (r: int)
    requires b > 0
    ensures a >= 0 ==> r == a % b
    ensures -b < r < b
  {
    if a >= 0 then a % b else -((-a) % b)
  }

  /** `Math.floor(a / b)` for a positive divisor: Dafny's `/` already floors. */
  function FloorDiv(a: int, b: int): int
    requires b > 0
  {
    a / b
  }

  /** `Math.ceil(a / b)` for a positive divisor. */
  function CeilDiv(a: int, b: int): (r: int)
    requires b > 0
    ensures (r - 1) * b < a <= r * b
  {
    -((-a) / b)
  }

  function Max(a: int, b: int): int { if a >= b then a else b }
  function Min(a: int, b: int): int { if a <= b then a else b }

  // ------------------------------------------------------------------
  // Small sequence utilities
  // ------------------------------------------------------------------

  /** The zero or one values an option holds, as a list. */
  function OptionToSeq<T(!new)>(o: Option<T>): (r: seq<T>)
    ensures |r| <= 1
    ensures |r| == 1 <==> o.Some?
    ensures o.Some? ==> r[0] == o.value
  {
    if o.Some? then [o.value] else []
  }

  /** No value occurs twice. */
  predicate Distinct<T(==)>(s: seq<T>)
  {
    forall i, j :: 0 <= i < j < |s| ==> s[i] != s[j]
  }

  /** A new value keeps a list free of duplicates. */
  lemma DistinctSnoc<T>(s: seq<T>, x: T)
    requires Distinct(s) && x !in s
    ensures Distinct(s + [x])
  {
    var t := s + [x];
    forall i, j | 0 <= i < j < |t|
      ensures t[i] != t[j]
    {
      assert t[i] == s[i];
      if j == |s| {
        assert s[i] in s;
      } else {
        assert t[j] == s[j];
      }
    }
  }

  /** Removes duplicates, keeping the first occurrence of each value. */
  function Dedup<T(==,!new)>(s: seq<T>): (r: seq<T>)
    ensures forall x :: x in r <==> x in s
    ensures forall i, j :: 0 <= i < j < |r| ==> r[i] != r[j]
    ensures |r| <= |s|
  {
    if |s| == 0 then []
    else
      var rest := Dedup(s[..|s| - 1]);
      if s[|s| - 1] in rest then rest else rest + [s[|s| - 1]]
  }

  /** Appends `x` unless it is already present (`if x not in l: l.append(x)`). */
  function AppendNew<T(==)>(s: seq<T>, x: T): (r: seq<T>)
    ensures x in s ==> r == s
    ensures x !in s ==> r == s + [x]
  {
    if x in s then s else s + [x]
  }

  function Count<T>(s: seq<T>, p: T -> bool): (n: nat)
    ensures n <= |s|
  {
    if |s| == 0 then 0 else Count(s[..|s| - 1], p) + (if p(s[|s| - 1]) then 1 else 0)
  }

  /** Elements of `s` satisfying `p`, in order (`list.filter(p)`). */
  function FilterSeq<T(!new)>(s: seq<T>, p: T -> bool): (r: seq<T>)
    ensures |r| == Count(s, p)
    ensures forall x :: x in r ==> x in s && p(x)
    ensures forall x :: x in s && p(x) ==> x in r
  {
    if |s| == 0 then []
    else FilterSeq(s[..|s| - 1], p) + (if p(s[|s| - 1]) then [s[|s| - 1]] else [])
  }

  /** No element satisfies `p` exactly when the count is zero. */
  lemma {:induction false} CountZero<T>(s: seq<T>, p: T -> bool)
    ensures Count(s, p) == 0 <==> forall x :: x in s ==> !p(x)
  {
    if |s| > 0 {
      var q := s[..|s| - 1];
      CountZero(q, p);
      assert s == q + [s[|s| - 1]];
      assert s[|s| - 1] in s;
    }
  }
}
