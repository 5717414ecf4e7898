/**
 * The sign-up page: the client-side checks run before an account is
 * requested, the random password it can generate, the abbreviated name
 * shown in the preview card, the avatar initials, and the choice of error
 * message after a rejected request.
 */
module RegisterPage {
  import opened Common

  // ------------------------------------------------------------------
  // Validation
  // ------------------------------------------------------------------

  const EmailDomain: string := "@bwa.global"

  const DomainMessage: string := "O e-mail deve ser do domínio @bwa.global"
  const PasswordMessage: string :=
    "A senha deve ter no mínimo 8 caracteres, letra maiúscula, minúscula e um caractere especial."
  const MismatchMessage: string := "As senhas não coincidem."

  /** The characters a JavaScript `.` refuses to match without the `s` flag. */
  predicate IsLineTerminator(c: char)
  {
    c == '\n' || c == '\r' || c == '\U{2028}' || c == '\U{2029}'
  }

  predicate IsLowerAscii(c: char) { 'a' <= c <= 'z' }
  predicate IsUpperAscii(c: char) { 'A' <= c <= 'Z' }
  predicate IsDigitAscii(c: char) { '0' <= c <= '9' }

  /** `[\W_]`: anything that is not an ASCII letter or digit. */
  predicate IsSpecial(c: char)
  {
    !(IsLowerAscii(c) || IsUpperAscii(c) || IsDigitAscii(c))
  }

  /** The e-mail is in the company domain once trimmed and lower-cased. */
  predicate EmailOk(email: string)
  {
    EndsWith(Lower(JsTrim(email)), EmailDomain)
  }

  /**
   * `PASSWORD_REGEX.test`: at least eight characters, none a line
   * terminator, with a lower-case letter, an upper-case letter and a
   * character that is neither a letter nor a digit.
   */
  predicate PasswordOk(p: string)
  {
    |p| >= 8
    && (forall i :: 0 <= i < |p| ==> !IsLineTerminator(p[i]))
    && (exists i :: 0 <= i < |p| && IsLowerAscii(p[i]))
    && (exists i :: 0 <= i < |p| && IsUpperAscii(p[i]))
    && (exists i :: 0 <= i < |p| && IsSpecial(p[i]))
  }

  /** What the page sends to the registration endpoint. */
  datatype Payload = Payload(firstName: string, username: string, email: string, password: string)

  datatype SubmitStep = Blocked(message: string) | Send(payload: Payload)

  /** `handleSubmit` up to the request: the domain, then the password, then the confirmation. */
  function SubmitCheck(firstName: string, username: string, email: string,
                       password: string, confirm: string): (r: SubmitStep)
    ensures r.Send? ==> r.payload == Payload(JsTrim(firstName), username, email, password)
  {
    if !EmailOk(email) then Blocked(DomainMessage)
    else if !PasswordOk(password) then Blocked(PasswordMessage)
    else if password != confirm then Blocked(MismatchMessage)
    else Send(Payload(JsTrim(firstName), username, email, password))
  }

  /**
   * The request is sent exactly when all three checks pass; otherwise the
   * message is the one of the first check that fails, whatever the later
   * fields hold.
   */
  lemma SubmitOrder(firstName: string, username: string, email: string,
                    password: string, confirm: string)
    ensures var r := SubmitCheck(firstName, username, email, password, confirm);
            (r.Send? <==> EmailOk(email) && PasswordOk(password) && password == confirm)
            && (!EmailOk(email) ==> r == Blocked(DomainMessage))
            && (EmailOk(email) && !PasswordOk(password) ==> r == Blocked(PasswordMessage))
            && (EmailOk(email) && PasswordOk(password) && password != confirm ==>
                  r == Blocked(MismatchMessage))
  {
  }

  /** The first failing check alone decides the message: changing a later field changes nothing. */
  lemma FirstFailureStops(firstName: string, username: string, email: string,
                          password: string, confirm: string, password2: string, confirm2: string)
    requires !EmailOk(email) || (!PasswordOk(password) && password2 == password)
    ensures SubmitCheck(firstName, username, email, password, confirm)
            == SubmitCheck(firstName, username, email, password2, confirm2)
    ensures SubmitCheck(firstName, username, email, password, confirm).Blocked?
  {
  }

  /** An e-mail typed with surrounding spaces is judged as without them; the payload keeps it as typed. */
  lemma EmailSpaces(firstName: string, username: string, email: string, password: string, confirm: string)
    ensures EmailOk(" " + email + " ") <==> EmailOk(email)
    ensures SubmitCheck(firstName, username, " " + email + " ", password, confirm).Send? ==>
              SubmitCheck(firstName, username, " " + email + " ", password, confirm).payload.email == " " + email + " "
  {
    TrimPadded(email);
  }

  lemma TrimPadded(s: string)
    ensures JsTrim(" " + s + " ") == JsTrim(s)
  {
    StripPadded(s, JsIsSpace, ' ');
  }

  /** Stripping ignores one more stripped character at either end. */
  lemma StripPadded(s: string, sp: char -> bool, c: char)
    requires sp(c)
    ensures StripWith([c] + s + [c], sp) == StripWith(s, sp)
  {
    var p := [c] + s + [c];
    var q := s + [c];
    assert p[1..] == q;
    LeadCountShift(p, sp);
    var n := LeadCount(s, sp);
    if n < |s| {
      LeadCountPrefix(s, [c], sp);
      assert DropLeading(p, sp) == q[n..];
      assert q[n..] == s[n..] + [c];
      TrailCountSnoc(s[n..], sp, c);
    } else {
      LeadCountIs(q, sp, |q|);
      assert DropLeading(s, sp) == [];
    }
  }

  /** The leading run of `s` ends inside `s` whatever follows it. */
  lemma LeadCountPrefix(s: string, t: string, sp: char -> bool)
    requires LeadCount(s, sp) < |s|
    ensures LeadCount(s + t, sp) == LeadCount(s, sp)
  {
    var n := LeadCount(s, sp);
    assert forall i :: 0 <= i <= n ==> (s + t)[i] == s[i];
    LeadCountIs(s + t, sp, n);
  }

  /** One more stripped character at the end is one more in the trailing count. */
  lemma TrailCountSnoc(d: string, sp: char -> bool, c: char)
    requires sp(c)
    ensures DropTrailing(d + [c], sp) == DropTrailing(d, sp)
  {
    var e := d + [c];
    assert e[..|e| - 1] == d;
    assert TrailCount(e, sp) == 1 + TrailCount(d, sp);
  }

  lemma LeadCountShift(s: string, sp: char -> bool)
    requires |s| > 0 && sp(s[0])
    ensures LeadCount(s, sp) == 1 + LeadCount(s[1..], sp)
  {
  }

  /** `LeadCount` is the length of the leading run, wherever that is known. */
  lemma {:induction false} LeadCountIs(s: string, sp: char -> bool, k: nat)
    requires k <= |s|
    requires forall i :: 0 <= i < k ==> sp(s[i])
    requires k < |s| ==> !sp(s[k])
    ensures LeadCount(s, sp) == k
    decreases k
  {
    if k > 0 {
      assert sp(s[0]);
      assert forall i :: 0 <= i < k - 1 ==> s[1..][i] == s[i + 1];
      LeadCountIs(s[1..], sp, k - 1);
    }
  }

  // ------------------------------------------------------------------
  // The generated password
  // ------------------------------------------------------------------

  const UpperSet: string := "ABCDEFGHJKLMNPQRSTUVWXYZ"
  const LowerSet: string := "abcdefghjkmnpqrstuvwxyz"
  const DigitSet: string := "23456789"
  const SpecialSet: string := "!@#$%&*"

  /** The alphabet of the eight free characters. */
  function AllSet(): (r: string)
    ensures |r| == 62
  {
    UpperSet + LowerSet + DigitSet + SpecialSet
  }

  /** `pick(s)`: the character a draw selects. */
  function Pick(s: string, draw: nat): (c: char)
    requires |s| > 0
    ensures c in s
  {
    s[draw % |s|]
  }

  /** The loop's picks from the whole alphabet; `rand(4 + i)` is the draw of the i-th. */
  function FreePicks(rand: nat -> nat, n: nat): (p: string)
    ensures |p| == n
    ensures forall i :: 0 <= i < n ==> p[i] in AllSet()
  {
    if n == 0 then [] else FreePicks(rand, n - 1) + [Pick(AllSet(), rand(4 + n - 1))]
  }

  /**
   * The password before shuffling: one upper-case letter, one lower-case
   * letter, one digit, one special character, then eight characters of
   * the whole alphabet; `rand(i)` is the i-th random draw.
   */
  function Drafted(rand: nat -> nat): (p: string)
    ensures |p| == 12
  {
    [Pick(UpperSet, rand(0)), Pick(LowerSet, rand(1)), Pick(DigitSet, rand(2)), Pick(SpecialSet, rand(3))]
    + FreePicks(rand, 8)
  }

  /** Every generated character comes from the alphabet. */
  predicate FromAlphabet(p: string)
  {
    forall i :: 0 <= i < |p| ==> p[i] in AllSet()
  }

  /**
   * `generateRandomPassword`. The draws for the shuffle follow the twelve
   * picks; the random-comparator sort is modelled as the swaps of a
   * Fisher-Yates shuffle, which, like any sort, yields a permutation.
   */
  method GenerateRandomPassword(rand: nat -> nat) returns (r: string)
    ensures multiset(r) == multiset(Drafted(rand))
    ensures |r| == 12 && PasswordOk(r) && FromAlphabet(r)
    ensures exists i :: 0 <= i < |r| && IsDigitAscii(r[i])
  {
    var all := AllSet();
    var fixed := [Pick(UpperSet, rand(0)), Pick(LowerSet, rand(1)), Pick(DigitSet, rand(2)), Pick(SpecialSet, rand(3))];
    var p := fixed;
    for i := 0 to 8
      invariant p == fixed + FreePicks(rand, i)
    {
      p := p + [Pick(all, rand(4 + i))];
    }
    assert p == Drafted(rand);
    var a := new char[|p|](k requires 0 <= k < |p| => p[k]);
    assert a[..] == p;
    Shuffle(a, rand);
    r := a[..];
    DraftedPermutationOk(rand, r);
  }

  /** The shuffle, in place: a swap per position from the last down, as the draws after the picks choose. */
  method Shuffle(a: array<char>, rand: nat -> nat)
    modifies a
    ensures multiset(a[..]) == old(multiset(a[..]))
  {
    if a.Length == 0 {
      return;
    }
    var i := a.Length - 1;
    while i > 0
      invariant 0 <= i < a.Length
      invariant multiset(a[..]) == old(multiset(a[..]))
    {
      var j := rand(12 + i) % (i + 1);
      a[i], a[j] := a[j], a[i];
      i := i - 1;
    }
  }

  predicate Plain(c: char) { '!' <= c <= 'z' }

  lemma UpperSetChars()
    ensures forall j :: 0 <= j < |UpperSet| ==> IsUpperAscii(UpperSet[j])
  {
  }

  lemma LowerSetChars()
    ensures forall j :: 0 <= j < |LowerSet| ==> IsLowerAscii(LowerSet[j])
  {
  }

  lemma DigitSetChars()
    ensures forall j :: 0 <= j < |DigitSet| ==> IsDigitAscii(DigitSet[j])
  {
  }

  lemma SpecialSetChars()
    ensures forall j :: 0 <= j < |SpecialSet| ==> Plain(SpecialSet[j]) && IsSpecial(SpecialSet[j])
  {
  }

  /** Every character of the alphabet is printable ASCII, so none ends a line. */
  lemma AlphabetPlain(c: char)
    requires c in AllSet()
    ensures Plain(c) && !IsLineTerminator(c)
  {
    var a := AllSet();
    var m :| 0 <= m < 62 && a[m] == c;
    UpperSetChars();
    LowerSetChars();
    DigitSetChars();
    SpecialSetChars();
    if m < 24 {
      assert a[m] == UpperSet[m];
    } else if m < 47 {
      assert a[m] == LowerSet[m - 24];
    } else if m < 55 {
      assert a[m] == DigitSet[m - 47];
    } else {
      assert a[m] == SpecialSet[m - 55];
    }
  }

  /** The draft holds the four kinds in its first four places. */
  lemma DraftedKinds(rand: nat -> nat)
    ensures var d := Drafted(rand);
            IsUpperAscii(d[0]) && IsLowerAscii(d[1]) && IsDigitAscii(d[2]) && IsSpecial(d[3])
  {
    PickKinds(rand(0), rand(1), rand(2), rand(3));
    var a, b, c, e := Pick(UpperSet, rand(0)), Pick(LowerSet, rand(1)), Pick(DigitSet, rand(2)), Pick(SpecialSet, rand(3));
    HeadFour(a, b, c, e, FreePicks(rand, 8));
  }

  /** Each of the four fixed draws is of its kind. */
  lemma PickKinds(u: nat, l: nat, g: nat, x: nat)
    ensures IsUpperAscii(Pick(UpperSet, u)) && IsLowerAscii(Pick(LowerSet, l))
    ensures IsDigitAscii(Pick(DigitSet, g)) && IsSpecial(Pick(SpecialSet, x))
  {
    UpperSetChars();
    LowerSetChars();
    DigitSetChars();
    SpecialSetChars();
    PickHas(UpperSet, u, IsUpperAscii);
    PickHas(LowerSet, l, IsLowerAscii);
    PickHas(DigitSet, g, IsDigitAscii);
    PickHas(SpecialSet, x, IsSpecial);
  }

  lemma HeadFour(a: char, b: char, c: char, e: char, rest: string)
    ensures var d := [a, b, c, e] + rest;
            d[0] == a && d[1] == b && d[2] == c && d[3] == e
  {
  }

  /** A character drawn from a set shares what all of the set's characters have. */
  lemma PickHas(s: string, draw: nat, p: char -> bool)
    requires |s| > 0 && forall j :: 0 <= j < |s| ==> p(s[j])
    ensures p(Pick(s, draw))
  {
  }

  /** The draft holds only alphabet characters. */
  lemma DraftedFromAlphabet(rand: nat -> nat)
    ensures FromAlphabet(Drafted(rand))
  {
    var all := AllSet();
    var a, b, c, e := Pick(UpperSet, rand(0)), Pick(LowerSet, rand(1)), Pick(DigitSet, rand(2)), Pick(SpecialSet, rand(3));
    InFourParts(a, UpperSet, LowerSet, DigitSet, SpecialSet);
    InFourParts(b, UpperSet, LowerSet, DigitSet, SpecialSet);
    InFourParts(c, UpperSet, LowerSet, DigitSet, SpecialSet);
    InFourParts(e, UpperSet, LowerSet, DigitSet, SpecialSet);
    AllIn([a, b, c, e], FreePicks(rand, 8), all);
  }

  lemma AllIn(fixed: string, free: string, all: string)
    requires forall i :: 0 <= i < |fixed| ==> fixed[i] in all
    requires forall i :: 0 <= i < |free| ==> free[i] in all
    ensures forall i :: 0 <= i < |fixed + free| ==> (fixed + free)[i] in all
  {
  }

  lemma InFourParts(c: char, a: string, b: string, e: string, f: string)
    requires c in a || c in b || c in e || c in f
    ensures c in a + b + e + f
  {
  }

  /** Any arrangement of the draft passes the password check and keeps a digit. */
  lemma DraftedPermutationOk(rand: nat -> nat, r: string)
    requires multiset(r) == multiset(Drafted(rand))
    ensures |r| == 12 && PasswordOk(r) && FromAlphabet(r)
    ensures exists i :: 0 <= i < |r| && IsDigitAscii(r[i])
  {
    var d := Drafted(rand);
    assert |r| == |multiset(r)| == |d|;
    DraftedKinds(rand);
    DraftedFromAlphabet(rand);
    forall i | 0 <= i < |r|
      ensures r[i] in AllSet() && !IsLineTerminator(r[i])
    {
      assert r[i] in multiset(d);
      var k :| 0 <= k < |d| && d[k] == r[i];
      AlphabetPlain(r[i]);
    }
    InDraft(r, d[0]);
    InDraft(r, d[1]);
    InDraft(r, d[2]);
    InDraft(r, d[3]);
  }

  lemma InDraft(r: string, c: char)
    requires c in multiset(r)
    ensures exists i :: 0 <= i < |r| && r[i] == c
  {
    assert c in r;
  }

  /** The "generate" button fills both fields, so a valid e-mail is all the request still needs. */
  lemma GeneratedPasswordSubmits(rand: nat -> nat, r: string, firstName: string, username: string, email: string)
    requires multiset(r) == multiset(Drafted(rand))
    requires EmailOk(email)
    ensures SubmitCheck(firstName, username, email, r, r) == Send(Payload(JsTrim(firstName), username, email, r))
  {
    DraftedPermutationOk(rand, r);
  }

  // ------------------------------------------------------------------
  // Names in the preview card
  // ------------------------------------------------------------------

  /** `firstName.trim() || username`. */
  function DisplayName(firstName: string, username: string): string
  {
    if JsTrim(firstName) != "" then JsTrim(firstName) else username
  }

  /** `p[0] + '.'`; an empty token would print `undefined.`, though words are never empty. */
  function Abbreviation(p: string): string
  {
    if |p| > 0 then [p[0], '.'] else "undefined."
  }

  function Abbreviations(ps: seq<string>): (r: seq<string>)
    ensures |r| == |ps|
  {
    seq(|ps|, k requires 0 <= k < |ps| => Abbreviation(ps[k]))
  }

  /** `displayNameAbbreviated`: the first token in full, each later one as its initial and a dot. */
  function DisplayNameAbbreviated(firstName: string, username: string): string
  {
    var name := JsTrim(DisplayName(firstName, username));
    if name == "" then ""
    else
      var parts := Words(name);
      if |parts| <= 1 then name
      else parts[0] + " " + Join(Abbreviations(parts[1..]), ' ')
  }

  /**
   * A single token is shown unchanged; a name of several tokens becomes,
   * word for word, the first token and then one initial-and-dot per later
   * token, three characters each with its space.
   */
  lemma AbbreviatedMeaning(firstName: string, username: string)
    ensures var name := JsTrim(DisplayName(firstName, username));
            var parts := Words(name);
            var r := DisplayNameAbbreviated(firstName, username);
            (name == "" ==> r == "")
            && (name != "" && |parts| <= 1 ==> parts == [name] && r == name)
            && (|parts| >= 2 ==>
                  Words(r) == [parts[0]] + Abbreviations(parts[1..])
                  && (forall k :: 1 <= k < |parts| ==> |parts[k]| > 0 && Words(r)[k] == [parts[k][0], '.'])
                  && |r| == |parts[0]| + 3 * (|parts| - 1))
  {
    var name := JsTrim(DisplayName(firstName, username));
    var parts := Words(name);
    if name != "" {
      JsTrimEnds(DisplayName(firstName, username));
      if |parts| <= 1 {
        SingleWord(name);
      } else {
        SeveralWords(name, parts);
      }
    }
  }

  /** The abbreviated form of a name of several words, word by word. */
  lemma SeveralWords(name: string, parts: seq<string>)
    requires parts == Words(name) && |parts| >= 2
    ensures var r := parts[0] + " " + Join(Abbreviations(parts[1..]), ' ');
            Words(r) == [parts[0]] + Abbreviations(parts[1..])
            && (forall k :: 1 <= k < |parts| ==> |parts[k]| > 0 && Words(r)[k] == [parts[k][0], '.'])
            && |r| == |parts[0]| + 3 * (|parts| - 1)
  {
    var r := parts[0] + " " + Join(Abbreviations(parts[1..]), ' ');
    WordsAreWords(name);
    var ab := Abbreviations(parts[1..]);
    forall k | 0 <= k < |ab|
      ensures IsWord(ab[k]) && |ab[k]| == 2
    {
      assert parts[1..][k] == parts[k + 1];
      assert parts[k + 1] in parts;
    }
    assert IsWord(parts[0]) by { assert parts[0] in parts; }
    var ws := [parts[0]] + ab;
    WordsJoin(ws);
    assert Join(ws, ' ') == r by {
      assert ws[1..] == ab;
    }
    JoinPairsLength(ab);
    forall k | 1 <= k < |parts|
      ensures |parts[k]| > 0 && Words(r)[k] == [parts[k][0], '.']
    {
      assert parts[1..][k - 1] == parts[k];
      assert parts[k] in parts;
    }
  }

  /** A non-empty `trim()` result starts and ends with a non-space character. */
  lemma JsTrimEnds(s: string)
    requires JsTrim(s) != ""
    ensures var t := JsTrim(s); !JsIsSpace(t[0]) && !JsIsSpace(t[|t| - 1])
  {
    var d := DropLeading(s, JsIsSpace);
    var t := JsTrim(s);
    assert t == d[..|d| - TrailCount(d, JsIsSpace)];
    assert t[0] == d[0];
  }

  /** A trimmed string whose last character is not white space holds at least one word. */
  lemma {:induction false} LastNotSpaceWords(t: string)
    requires |t| > 0 && !JsIsSpace(t[|t| - 1])
    ensures Words(t) != []
    decreases |t|
  {
    if JsIsSpace(t[0]) {
      assert t[1..][|t| - 2] == t[|t| - 1];
      LastNotSpaceWords(t[1..]);
    }
  }

  /** A trimmed string with at most one word is that word. */
  lemma SingleWord(s: string)
    requires |s| > 0 && !JsIsSpace(s[0]) && !JsIsSpace(s[|s| - 1])
    requires |Words(s)| <= 1
    ensures Words(s) == [s]
  {
    var n := LeadCount(s, c => !JsIsSpace(c));
    assert Words(s) == [s[..n]] + Words(s[n..]);
    if n < |s| {
      assert s[n..][|s| - n - 1] == s[|s| - 1];
      LastNotSpaceWords(s[n..]);
    }
    assert s[..n] == s;
  }

  /** Joining words with single spaces and splitting again gives the words back. */
  lemma {:induction false} WordsJoin(ws: seq<string>)
    requires |ws| >= 1
    requires forall k :: 0 <= k < |ws| ==> IsWord(ws[k])
    ensures Words(Join(ws, ' ')) == ws
    decreases |ws|
  {
    var w := ws[0];
    if |ws| == 1 {
      WordThenSpace(w, "");
      assert w + "" == w;
    } else {
      var tail := " " + Join(ws[1..], ' ');
      WordsJoin(ws[1..]);
      SpaceThenWords(Join(ws[1..], ' '));
      JoinCons(ws);
      WordThenSpace(w, tail);
      assert [w] + ws[1..] == ws;
    }
  }

  /** A leading space adds no word. */
  lemma SpaceThenWords(t: string)
    ensures Words(" " + t) == Words(t)
  {
    assert (" " + t)[1..] == t;
  }

  /** `Join` of two or more pieces: the first, a space, then the rest joined. */
  lemma JoinCons(ws: seq<string>)
    requires |ws| >= 2
    ensures Join(ws, ' ') == ws[0] + (" " + Join(ws[1..], ' '))
  {
  }

  /** The first word of a word followed by white space (or nothing). */
  lemma WordThenSpace(w: string, t: string)
    requires IsWord(w)
    requires |t| == 0 || JsIsSpace(t[0])
    ensures Words(w + t) == [w] + Words(t)
  {
    var s := w + t;
    assert forall i :: 0 <= i < |w| ==> s[i] == w[i];
    assert |w| < |s| ==> s[|w|] == t[0];
    LeadCountIs(s, c => !JsIsSpace(c), |w|);
    var n := |w|;
    assert s[..n] == w;
    assert s[n..] == t;
  }

  /** Pieces of two characters joined by spaces take three characters each, less one. */
  lemma {:induction false} JoinPairsLength(ws: seq<string>)
    requires |ws| >= 1
    requires forall k :: 0 <= k < |ws| ==> |ws[k]| == 2
    ensures |Join(ws, ' ')| == 3 * |ws| - 1
    decreases |ws|
  {
    if |ws| > 1 {
      JoinPairsLength(ws[1..]);
    }
  }

  /** `getInitials`. */
  function GetInitials(firstName: string, username: string): (r: string)
    ensures 1 <= |r| <= 2
  {
    var t := JsTrim(firstName);
    if t != "" then
      var parts := Words(t);
      if |parts| >= 2 then
        WordsAreWords(t);
        assert parts[0] in parts && parts[1] in parts;
        Upper([parts[0][0], parts[1][0]])
      else Upper(Take(t, 2))
    else if username != "" then Upper(Take(username, 2))
    else "U"
  }

  /**
   * With a first name, the initials are the upper-cased first letters of
   * the first two words of the preview name, or its first two letters
   * when it is one word; they are "U" only in the place of an empty user.
   */
  lemma InitialsOfPreview(firstName: string, username: string)
    ensures var r := GetInitials(firstName, username);
            var a := DisplayNameAbbreviated(firstName, username);
            var w := Words(a);
            (JsTrim(firstName) != "" ==>
               |a| > 0 && r[0] == UpperChar(a[0])
               && (|w| >= 2 ==> |w[0]| > 0 && |w[1]| > 0 && r == Upper([w[0][0], w[1][0]]))
               && (|w| < 2 ==> r == Upper(Take(a, 2))))
            && (JsTrim(firstName) == "" && username == "" ==> r == "U" && a == "")
  {
    var t := JsTrim(firstName);
    var a := DisplayNameAbbreviated(firstName, username);
    AbbreviatedMeaning(firstName, username);
    if t != "" {
      assert JsTrim(t) == t by {
        JsTrimEnds(firstName);
        JsTrimKeeps(t);
      }
      assert DisplayName(firstName, username) == t;
      var parts := Words(t);
      WordsAreWords(t);
      if |parts| >= 2 {
        assert parts[0] in parts && parts[1] in parts;
        assert a[..|parts[0]|] == parts[0];
      }
    } else if username == "" {
      assert JsTrim("") == "";
    }
  }

  // ------------------------------------------------------------------
  // The message after a rejected request
  // ------------------------------------------------------------------

  /** A field of the error body: a string, a list of strings, or absent. */
  datatype FieldError = Text(text: string) | Messages(items: seq<string>)

  const DefaultError: string := "Erro ao criar conta. Tente novamente."

  /** The fields consulted, in order. */
  const ErrorFields: seq<string> := ["first_name", "username", "email", "password", "confirm_password"]

  /** `first(v)`: a list gives its first item, which an empty list lacks. */
  function FirstMessage(v: Option<FieldError>): Option<string>
  {
    match v
    case None => None
    case Some(Text(s)) => Some(s)
    case Some(Messages(items)) => if |items| > 0 then Some(items[0]) else None
  }

  function FieldMessage(data: map<string, FieldError>, field: string): Option<string>
  {
    FirstMessage(if field in data then Some(data[field]) else None)
  }

  /** The `??` chain over the fields, from index `k` on. */
  function FirstFieldMessage(data: map<string, FieldError>, k: nat): Option<string>
    decreases |ErrorFields| - k
  {
    if k >= |ErrorFields| then None
    else if FieldMessage(data, ErrorFields[k]).Some? then FieldMessage(data, ErrorFields[k])
    else FirstFieldMessage(data, k + 1)
  }

  /** The message shown when the request fails; `None` is a failure without a response body. */
  function ErrorMessage(data: Option<map<string, FieldError>>): string
  {
    match data
    case None => DefaultError
    case Some(d) =>
      match FirstFieldMessage(d, 0)
      case Some(m) => m
      case None => DefaultError
  }

  /**
   * The message is that of the first field, in the order first name,
   * username, e-mail, password, confirmation, that carries one (an empty
   * string counts); with none, the generic message.
   */
  lemma {:induction false} FirstFieldMessageMeaning(data: map<string, FieldError>, k: nat)
    ensures var r := FirstFieldMessage(data, k);
            (r.None? <==> forall j :: k <= j < |ErrorFields| ==> FieldMessage(data, ErrorFields[j]).None?)
            && (r.Some? ==> exists j :: k <= j < |ErrorFields| && FieldMessage(data, ErrorFields[j]) == r
                              && forall i :: k <= i < j ==> FieldMessage(data, ErrorFields[i]).None?)
    decreases |ErrorFields| - k
  {
    if k < |ErrorFields| {
      FirstFieldMessageMeaning(data, k + 1);
      if FieldMessage(data, ErrorFields[k]).None? {
        var r := FirstFieldMessage(data, k);
        if r.Some? {
          var j :| k + 1 <= j < |ErrorFields| && FieldMessage(data, ErrorFields[j]) == r
                   && forall i :: k + 1 <= i < j ==> FieldMessage(data, ErrorFields[i]).None?;
          assert forall i :: k <= i < j ==> FieldMessage(data, ErrorFields[i]).None?;
        }
      }
    }
  }

  lemma ErrorMessageMeaning(data: Option<map<string, FieldError>>)
    ensures data.None? ==> ErrorMessage(data) == DefaultError
    ensures (data.Some? && forall j :: 0 <= j < |ErrorFields| ==> FieldMessage(data.value, ErrorFields[j]).None?)
            ==> ErrorMessage(data) == DefaultError
    ensures (data.Some? && exists j :: 0 <= j < |ErrorFields| && FieldMessage(data.value, ErrorFields[j]).Some?)
            ==> exists j :: 0 <= j < |ErrorFields| && FieldMessage(data.value, ErrorFields[j]) == Some(ErrorMessage(data))
                    && forall i :: 0 <= i < j ==> FieldMessage(data.value, ErrorFields[i]).None?
  {
    if data.Some? {
      FirstFieldMessageMeaning(data.value, 0);
    }
  }

  /** An empty string is kept by `??`, so it hides the later fields; an empty list does not. */
  lemma EmptyMessages(rest: map<string, FieldError>)
    ensures ErrorMessage(Some(rest["first_name" := Text("")])) == ""
    ensures ("username" !in rest && "email" !in rest && "password" !in rest && "confirm_password" !in rest)
            ==> ErrorMessage(Some(rest["first_name" := Messages([])])) == DefaultError
  {
    var d := rest["first_name" := Text("")];
    assert FieldMessage(d, ErrorFields[0]) == Some("");
    var e := rest["first_name" := Messages([])];
    assert FieldMessage(e, ErrorFields[0]) == None;
  }
}
