/**
 * frontend/src/pages/Metrics.tsx: the delivery metrics page. From the
 * closed cards it counts deliveries per user, ranks a leaderboard, places
 * deliveries on the day of their sprint and tallies on-time deliveries.
 *
 * An instant is milliseconds since the epoch in the page's time zone; a
 * sprint's dates are day numbers (0 = 1970-01-01). `getSprintForCard` is
 * resolved beforehand: a card carries its sprint, when it has one.
 */
module Metrics {
  import opened Common
  import opened Calendar
  import Sorting

  // ------------------------------------------------------------------
  // Names
  // ------------------------------------------------------------------

  datatype MUser = MUser(id: string, firstName: Option<string>, lastName: Option<string>, username: string)

  /** `s?.trim() ?? ''`. */
  function TrimmedOrEmpty(s: Option<string>): string
  {
    match s
    case Some(x) => JsTrim(x)
    case None => ""
  }

  /** `getShortDisplayName`: first name and first surname (or second given name), else the username. */
  function ShortDisplayName(u: MUser): string
  {
    var firstParts := Words(TrimmedOrEmpty(u.firstName));
    var lastParts := Words(TrimmedOrEmpty(u.lastName));
    var firstName := if |firstParts| > 0 then firstParts[0] else "";
    var firstSurname := if |lastParts| > 0 then lastParts[0] else if |firstParts| > 1 then firstParts[1] else "";
    var name := JsTrim(firstName + " " + firstSurname);
    if name != "" then name else u.username
  }

  /** Joining two optional words with a space and trimming leaves the words present, one space apart. */
  lemma JoinTrimmed(a: string, b: string)
    requires a == "" || IsWord(a)
    requires b == "" || IsWord(b)
    ensures JsTrim(a + " " + b) == (if a == "" then b else if b == "" then a else a + " " + b)
  {
    if a == "" && b == "" {
      assert a + " " + b == " ";
      JsTrimSpace();
    } else if a == "" {
      assert a + " " + b == " " + b;
      JsTrimSpaced(b);
    } else if b == "" {
      assert a + " " + b == a + " ";
      JsTrimSpaced(a);
    } else {
      var s := a + " " + b;
      assert s[0] == a[0] && s[|s| - 1] == b[|b| - 1];
      JsTrimKeeps(s);
    }
  }

  /**
   * The short name is the first given name and the first surname; with
   * no surname, the first two given names; with a single name, that name;
   * with no name at all, the username.
   */
  lemma ShortDisplayNameMeaning(u: MUser)
    ensures var fp := Words(TrimmedOrEmpty(u.firstName));
            var lp := Words(TrimmedOrEmpty(u.lastName));
            var r := ShortDisplayName(u);
            (|fp| > 0 && |lp| > 0 ==> r == fp[0] + " " + lp[0])
            && (|fp| > 1 && |lp| == 0 ==> r == fp[0] + " " + fp[1])
            && (|fp| == 1 && |lp| == 0 ==> r == fp[0])
            && (|fp| == 0 && |lp| > 0 ==> r == lp[0])
            && (|fp| == 0 && |lp| == 0 ==> r == u.username)
  {
    var fp := Words(TrimmedOrEmpty(u.firstName));
    var lp := Words(TrimmedOrEmpty(u.lastName));
    WordsAreWords(TrimmedOrEmpty(u.firstName));
    WordsAreWords(TrimmedOrEmpty(u.lastName));
    var firstName := if |fp| > 0 then fp[0] else "";
    var firstSurname := if |lp| > 0 then lp[0] else if |fp| > 1 then fp[1] else "";
    assert firstName == "" || firstName in fp;
    assert firstSurname == "" || firstSurname in lp || firstSurname in fp;
    JoinTrimmed(firstName, firstSurname);
  }

  // ------------------------------------------------------------------
  // Closed cards and the day of the sprint
  // ------------------------------------------------------------------

  /** A sprint: key, first and last day, and its length in days. */
  datatype MSprint = MSprint(id: string, inicio: int, fim: int, duracao: int)

  /** The fields of a card the page reads; `dataFim` is the delivery instant. */
  datatype MCard = MCard(status: string, dataFim: Option<int>, responsavel: Option<string>, tipo: string, sprint: Option<MSprint>)

  const ClosedStatus := "finalizado"

  /** `closedCards`: delivered cards with a delivery date. */
  function ClosedCards(cards: seq<MCard>): (r: seq<MCard>)
    ensures forall c :: c in r <==> c in cards && c.status == ClosedStatus && c.dataFim.Some?
  {
    FilterSeq(cards, (c: MCard) => c.status == ClosedStatus && c.dataFim.Some?)
  }

  /** `setHours(0, 0, 0, 0)`: the start of the instant's day. */
  function DayStart(t: int): int
  {
    (t / DayMs) * DayMs
  }

  /** `getDayOfSprint`: the sprint day of the delivery, counted from 1, when it falls inside the sprint. */
  function DayOfSprint(c: MCard): Option<(MSprint, int)>
  {
    if c.sprint.None? || c.dataFim.None? then None
    else
      var s := c.sprint.value;
      var start := s.inicio * DayMs;
      var end := DayStart(c.dataFim.value);
      var day := (end - start) / DayMs + 1;
      if day < 1 || day > s.duracao then None else Some((s, day))
  }

  /**
   * A delivery gets a sprint day exactly when it falls on one of the
   * sprint's `duracao` days, and the day is its distance from the first
   * day plus one.
   */
  lemma DayOfSprintMeaning(c: MCard)
    requires c.sprint.Some? && c.dataFim.Some?
    ensures var s := c.sprint.value;
            var d := c.dataFim.value / DayMs;
            (DayOfSprint(c).Some? <==> s.inicio <= d < s.inicio + s.duracao)
            && (DayOfSprint(c).Some? ==> DayOfSprint(c).value == (s, d - s.inicio + 1))
  {
    var s := c.sprint.value;
    var d := c.dataFim.value / DayMs;
    assert DayStart(c.dataFim.value) - s.inicio * DayMs == (d - s.inicio) * DayMs;
    DivModUnique((d - s.inicio) * DayMs, DayMs, d - s.inicio, 0);
  }

  /** `setHours(23, 59, 59, 999)` on the sprint's last day. */
  function SprintEnd(s: MSprint): int
  {
    s.fim * DayMs + DayMs - 1
  }

  predicate OnTime(s: MSprint, delivery: int)
  {
    delivery <= SprintEnd(s)
  }

  /** On time means delivered on or before the sprint's last day. */
  lemma OnTimeMeansByLastDay(s: MSprint, delivery: int)
    ensures OnTime(s, delivery) <==> delivery / DayMs <= s.fim
  {
    var d := delivery / DayMs;
    DivModUnique(delivery, DayMs, d, delivery % DayMs);
    if d <= s.fim {
      assert d * DayMs <= s.fim * DayMs;
    } else {
      assert d * DayMs >= (s.fim + 1) * DayMs;
    }
  }

  // ------------------------------------------------------------------
  // Counting per user
  // ------------------------------------------------------------------

  const SemResponsavel := "sem_responsavel"

  /** `c.responsavel ?? 'sem_responsavel'`. */
  function UserKey(c: MCard): string
  {
    match c.responsavel
    case Some(r) => r
    case None => SemResponsavel
  }

  function UserKeys(list: seq<MCard>): (r: seq<string>)
    ensures |r| == |list| && forall i :: 0 <= i < |list| ==> r[i] == UserKey(list[i])
  {
    seq(|list|, i requires 0 <= i < |list| => UserKey(list[i]))
  }

  /** The number of cards of `list` under key `k`. */
  function CountKey(list: seq<MCard>, k: string): nat
  {
    if |list| == 0 then 0
    else CountKey(list[..|list| - 1], k) + (if UserKey(list[|list| - 1]) == k then 1 else 0)
  }

  lemma {:induction false} CountKeyAbsent(list: seq<MCard>, k: string)
    requires k !in UserKeys(list)
    ensures CountKey(list, k) == 0
  {
    if |list| > 0 {
      var front := list[..|list| - 1];
      assert forall i :: 0 <= i < |front| ==> UserKeys(front)[i] == UserKeys(list)[i];
      assert UserKeys(list)[|list| - 1] == UserKey(list[|list| - 1]);
      CountKeyAbsent(front, k);
    }
  }

  /** One row of a count table. */
  datatype Entry = Entry(userId: string, count: nat)

  /** `Array.from(byUser.entries())` for the keys `keys`. */
  function EntriesOf(list: seq<MCard>, keys: seq<string>): (r: seq<Entry>)
    ensures |r| == |keys| && forall j :: 0 <= j < |keys| ==> r[j] == Entry(keys[j], CountKey(list, keys[j]))
  {
    seq(|keys|, j requires 0 <= j < |keys| => Entry(keys[j], CountKey(list, keys[j])))
  }

  function EntrySum(s: seq<Entry>): nat
  {
    if |s| == 0 then 0 else s[0].count + EntrySum(s[1..])
  }

  lemma {:induction false} EntrySumConcat(a: seq<Entry>, b: seq<Entry>)
    ensures EntrySum(a + b) == EntrySum(a) + EntrySum(b)
  {
    if |a| > 0 {
      assert (a + b)[1..] == a[1..] + b;
      EntrySumConcat(a[1..], b);
    } else {
      assert a + b == b;
    }
  }

  /** A JavaScript `Map` from key to count: its keys in insertion order, and the counts. */
  ghost predicate Tallied(list: seq<MCard>, keys: seq<string>, counts: map<string, nat>)
  {
    keys == Dedup(UserKeys(list))
    && (forall k :: k in counts <==> k in keys)
    && (forall k :: k in counts ==> counts[k] == CountKey(list, k))
  }

  /** `byUser.set(uid, (byUser.get(uid) ?? 0) + 1)`. */
  function Bumped(counts: map<string, nat>, k: string): map<string, nat>
  {
    counts[k := (if k in counts then counts[k] else 0) + 1]
  }

  lemma TallyStep(list: seq<MCard>, i: nat, keys: seq<string>, counts: map<string, nat>)
    requires i < |list| && Tallied(list[..i], keys, counts)
    ensures Tallied(list[..i + 1], if UserKey(list[i]) in counts then keys else keys + [UserKey(list[i])],
                    Bumped(counts, UserKey(list[i])))
  {
    var front, now := list[..i], list[..i + 1];
    assert now[..i] == front;
    var k := UserKey(list[i]);
    assert UserKeys(now) == UserKeys(front) + [k];
    assert UserKeys(now)[..i] == UserKeys(front);
    forall j | j in Bumped(counts, k)
      ensures Bumped(counts, k)[j] == CountKey(now, j)
    {
      assert CountKey(now, j) == CountKey(front, j) + (if k == j then 1 else 0);
      if j !in counts {
        CountKeyAbsent(front, j);
      }
    }
  }

  /** The loop `for (const c of list) byUser.set(uid, (byUser.get(uid) ?? 0) + 1)`. */
  method Tally(list: seq<MCard>) returns (keys: seq<string>, counts: map<string, nat>)
    ensures keys == Dedup(UserKeys(list))
    ensures forall k :: k in counts <==> k in keys
    ensures forall k :: k in counts ==> counts[k] == CountKey(list, k)
  {
    keys, counts := [], map[];
    var i := 0;
    while i < |list|
      invariant 0 <= i <= |list| && Tallied(list[..i], keys, counts)
    {
      TallyStep(list, i, keys, counts);
      var uid := UserKey(list[i]);
      if uid !in counts {
        keys := keys + [uid];
      }
      counts := Bumped(counts, uid);
      i := i + 1;
    }
    assert list[..i] == list;
  }

  lemma UserKeysSnoc(front: seq<MCard>, c: MCard)
    ensures UserKeys(front + [c]) == UserKeys(front) + [UserKey(c)]
  {
  }

  lemma DedupSnoc(s: seq<string>, x: string)
    ensures Dedup(s + [x]) == if x in Dedup(s) then Dedup(s) else Dedup(s) + [x]
  {
    assert (s + [x])[..|s|] == s;
  }

  lemma EntriesSnocKey(list: seq<MCard>, keys: seq<string>, k: string)
    ensures EntrySum(EntriesOf(list, keys + [k])) == EntrySum(EntriesOf(list, keys)) + CountKey(list, k)
  {
    assert EntriesOf(list, keys + [k]) == EntriesOf(list, keys) + [Entry(k, CountKey(list, k))];
    EntrySumConcat(EntriesOf(list, keys), [Entry(k, CountKey(list, k))]);
  }

  /** The counts of distinct keys add up to the cards they count. */
  lemma {:induction false} EntriesSumToCards(list: seq<MCard>)
    ensures EntrySum(EntriesOf(list, Dedup(UserKeys(list)))) == |list|
  {
    if |list| > 0 {
      var front := list[..|list| - 1];
      var c := list[|list| - 1];
      assert list == front + [c];
      EntriesSumToCards(front);
      var keys := Dedup(UserKeys(front));
      UserKeysSnoc(front, c);
      DedupSnoc(UserKeys(front), UserKey(c));
      EntriesShift(front, c, keys);
      if UserKey(c) !in keys {
        EntriesSnocKey(list, keys, UserKey(c));
        CountKeyAbsent(front, UserKey(c));
        assert CountKey(list, UserKey(c)) == 1;
      }
    }
  }

  /** Counting one more card raises the sum over distinct keys by one when its key is among them. */
  lemma {:induction false} EntriesShift(front: seq<MCard>, c: MCard, keys: seq<string>)
    requires Distinct(keys)
    ensures EntrySum(EntriesOf(front + [c], keys)) == EntrySum(EntriesOf(front, keys)) + (if UserKey(c) in keys then 1 else 0)
  {
    assert (front + [c])[..|front|] == front;
    if |keys| > 0 {
      var rest := keys[1..];
      assert Distinct(rest) by {
        forall i, j | 0 <= i < j < |rest|
          ensures rest[i] != rest[j]
        {
          assert rest[i] == keys[i + 1] && rest[j] == keys[j + 1];
        }
      }
      EntriesShift(front, c, rest);
      assert EntriesOf(front + [c], keys)[1..] == EntriesOf(front + [c], rest);
      assert EntriesOf(front, keys)[1..] == EntriesOf(front, rest);
      assert UserKey(c) in keys <==> UserKey(c) == keys[0] || UserKey(c) in rest;
      if UserKey(c) == keys[0] {
        assert UserKey(c) !in rest by {
          forall j | 0 <= j < |rest|
            ensures rest[j] != keys[0]
          {
            assert rest[j] == keys[j + 1];
          }
        }
      }
    }
  }

  // ------------------------------------------------------------------
  // Deliveries per user (`cardsPerUserData`)
  // ------------------------------------------------------------------

  /** The sprint and type filters of the chart; an empty filter keeps everything. */
  function PerUserList(closed: seq<MCard>, sprintFilter: string, typeFilter: string): (r: seq<MCard>)
    ensures forall c :: c in r <==>
              (c in closed
               && (sprintFilter == "" || (c.sprint.Some? && c.sprint.value.id == sprintFilter))
               && (typeFilter == "" || c.tipo == typeFilter))
  {
    var bySprint := if sprintFilter == "" then closed
                    else FilterSeq(closed, (c: MCard) => c.sprint.Some? && c.sprint.value.id == sprintFilter);
    if typeFilter == "" then bySprint else FilterSeq(bySprint, (c: MCard) => c.tipo == typeFilter)
  }

  /** Users without a delivery in the chart, each with a count of 0 (`allUsersWithZero`). */
  function ZeroEntries(users: seq<MUser>, keys: seq<string>): (r: seq<Entry>)
    ensures forall e :: e in r ==> e.count == 0 && e.userId !in keys && exists u :: u in users && u.id == e.userId
    ensures forall u :: u in users && u.id !in keys ==> Entry(u.id, 0) in r
  {
    if |users| == 0 then []
    else
      var u := users[|users| - 1];
      ZeroEntries(users[..|users| - 1], keys) + (if u.id in keys then [] else [Entry(u.id, 0)])
  }

  /** `entries.find((e) => e.userId === id)`: the first entry for `id`. */
  function FindEntry(es: seq<Entry>, id: string): (r: Option<Entry>)
    ensures r.Some? ==> r.value in es && r.value.userId == id
    ensures r.None? ==> forall e :: e in es ==> e.userId != id
  {
    if |es| == 0 then None
    else
      match FindEntry(es[..|es| - 1], id)
      case Some(e) => Some(e)
      case None => if es[|es| - 1].userId == id then Some(es[|es| - 1]) else None
  }

  predicate NotSem(e: Entry)
  {
    e.userId != SemResponsavel
  }

  /** `b.count - a.count`: larger counts first. */
  function CountDesc(e: Entry): seq<int>
  {
    [-(e.count as int)]
  }

  /** The assigned rows and the zero rows, by count descending. */
  function PerUserSorted(list: seq<MCard>, users: seq<MUser>): seq<Entry>
  {
    var keys := Dedup(UserKeys(list));
    Sorting.SortBy(FilterSeq(EntriesOf(list, keys), NotSem) + ZeroEntries(users, keys), CountDesc)
  }

  /**
   * The chart's rows: every user id found on a card with its count and
   * every other user with 0, by count descending; the unassigned entry,
   * when there is one, goes last.
   */
  function PerUser(list: seq<MCard>, users: seq<MUser>): seq<Entry>
  {
    match FindEntry(EntriesOf(list, Dedup(UserKeys(list))), SemResponsavel)
    case Some(sem) => PerUserSorted(list, users) + [sem]
    case None => PerUserSorted(list, users)
  }

  /** `cardsPerUserData`, with its counting loop. */
  method CardsPerUser(closed: seq<MCard>, sprintFilter: string, typeFilter: string, users: seq<MUser>)
    returns (r: seq<Entry>)
    ensures r == PerUser(PerUserList(closed, sprintFilter, typeFilter), users)
  {
    var list := PerUserList(closed, sprintFilter, typeFilter);
    var keys, counts := Tally(list);
    var entries := seq(|keys|, j requires 0 <= j < |keys| => Entry(keys[j], counts[keys[j]]));
    assert entries == EntriesOf(list, keys);
    var sorted := Sorting.SortBy(FilterSeq(entries, NotSem) + ZeroEntries(users, keys), CountDesc);
    var sem := FindEntry(entries, SemResponsavel);
    if sem.Some? {
      r := sorted + [sem.value];
    } else {
      r := sorted;
    }
  }

  predicate IdsDistinct(es: seq<Entry>)
  {
    forall i, j :: 0 <= i < j < |es| ==> es[i].userId != es[j].userId
  }

  lemma {:induction false} EntrySumInsert(x: Entry, s: seq<Entry>)
    ensures EntrySum(Sorting.Insert(x, s, CountDesc)) == x.count + EntrySum(s)
  {
    if |s| == 0 {
    } else if Sorting.LexLe(CountDesc(x), CountDesc(s[0])) {
      assert ([x] + s)[1..] == s;
    } else {
      EntrySumInsert(x, s[1..]);
      var t := Sorting.Insert(x, s[1..], CountDesc);
      assert ([s[0]] + t)[1..] == t;
    }
  }

  /** Sorting the rows keeps their total. */
  lemma {:induction false} EntrySumSorted(s: seq<Entry>)
    ensures EntrySum(Sorting.SortBy(s, CountDesc)) == EntrySum(s)
  {
    if |s| > 0 {
      EntrySumSorted(s[1..]);
      EntrySumInsert(s[0], Sorting.SortBy(s[1..], CountDesc));
    }
  }

  lemma {:induction false} ZeroEntriesSum(users: seq<MUser>, keys: seq<string>)
    ensures EntrySum(ZeroEntries(users, keys)) == 0
  {
    if |users| > 0 {
      var u := users[|users| - 1];
      ZeroEntriesSum(users[..|users| - 1], keys);
      EntrySumConcat(ZeroEntries(users[..|users| - 1], keys), if u.id in keys then [] else [Entry(u.id, 0)]);
    }
  }

  lemma {:induction false} SumWithoutSem(es: seq<Entry>)
    requires IdsDistinct(es)
    ensures EntrySum(FilterSeq(es, NotSem))
            + (match FindEntry(es, SemResponsavel) case Some(e) => e.count case None => 0)
            == EntrySum(es)
  {
    if |es| > 0 {
      var front, x := es[..|es| - 1], es[|es| - 1];
      assert es == front + [x];
      assert IdsDistinct(front) by {
        forall i, j | 0 <= i < j < |front|
          ensures front[i].userId != front[j].userId
        {
          assert front[i] == es[i] && front[j] == es[j];
        }
      }
      SumWithoutSem(front);
      EntrySumConcat(front, [x]);
      EntrySumConcat(FilterSeq(front, NotSem), if NotSem(x) then [x] else []);
      forall e | e in front
        ensures e.userId != x.userId
      {
        var k :| 0 <= k < |front| && front[k] == e;
        assert es[k] == e;
      }
    }
  }

  /** The chart's counts add up to the cards it was given. */
  lemma PerUserSum(list: seq<MCard>, users: seq<MUser>)
    ensures EntrySum(PerUser(list, users)) == |list|
  {
    var keys := Dedup(UserKeys(list));
    var entries := EntriesOf(list, keys);
    var others := FilterSeq(entries, NotSem);
    var zeros := ZeroEntries(users, keys);
    EntrySumSorted(others + zeros);
    EntrySumConcat(others, zeros);
    ZeroEntriesSum(users, keys);
    assert IdsDistinct(entries);
    SumWithoutSem(entries);
    EntriesSumToCards(list);
    var sorted := Sorting.SortBy(others + zeros, CountDesc);
    match FindEntry(entries, SemResponsavel) {
      case Some(sem) => EntrySumConcat(sorted, [sem]);
      case None =>
    }
  }

  /** A key found on the cards appears with its count. */
  lemma KeyRow(list: seq<MCard>, users: seq<MUser>, k: string)
    requires k in UserKeys(list)
    ensures Entry(k, CountKey(list, k)) in PerUser(list, users)
  {
    PerUserShape(list, users);
    if k != SemResponsavel {
      KeySortedRow(list, users, k);
    }
  }

  /** A key other than the unassigned one is among the sorted rows. */
  lemma KeySortedRow(list: seq<MCard>, users: seq<MUser>, k: string)
    requires k in UserKeys(list) && k != SemResponsavel
    ensures Entry(k, CountKey(list, k)) in PerUserSorted(list, users)
  {
    var keys := Dedup(UserKeys(list));
    var entries := EntriesOf(list, keys);
    var j :| 0 <= j < |keys| && keys[j] == k;
    assert entries[j] == Entry(k, CountKey(list, k));
    var others := FilterSeq(entries, NotSem);
    assert Entry(k, CountKey(list, k)) in others;
    Sorting.SortByMembers(others + ZeroEntries(users, keys), CountDesc, Entry(k, CountKey(list, k)));
  }

  /** A user without deliveries appears with 0. */
  lemma ZeroRow(list: seq<MCard>, users: seq<MUser>, u: MUser)
    requires u in users && u.id !in UserKeys(list)
    ensures Entry(u.id, CountKey(list, u.id)) in PerUser(list, users)
  {
    var keys := Dedup(UserKeys(list));
    var others := FilterSeq(EntriesOf(list, keys), NotSem);
    CountKeyAbsent(list, u.id);
    Sorting.SortByMembers(others + ZeroEntries(users, keys), CountDesc, Entry(u.id, 0));
  }

  /** Every row carries its user's count, and names a user or a key found on the cards. */
  lemma RowMeaning(list: seq<MCard>, users: seq<MUser>, e: Entry)
    requires e in PerUser(list, users)
    ensures e.count == CountKey(list, e.userId)
    ensures e.userId in UserKeys(list) || exists u :: u in users && u.id == e.userId
  {
    var keys := Dedup(UserKeys(list));
    var entries := EntriesOf(list, keys);
    var others := FilterSeq(entries, NotSem);
    var zeros := ZeroEntries(users, keys);
    Sorting.SortByMembers(others + zeros, CountDesc, e);
    if e in entries {
      var j :| 0 <= j < |entries| && entries[j] == e;
    } else {
      assert e in zeros;
      CountKeyAbsent(list, e.userId);
    }
  }

  /**
   * Every user and every key found on the cards has a row with its
   * count, and every row is one of those.
   */
  lemma PerUserRows(list: seq<MCard>, users: seq<MUser>)
    ensures forall e :: e in PerUser(list, users) ==> e.count == CountKey(list, e.userId)
    ensures forall e :: e in PerUser(list, users) ==>
              e.userId in UserKeys(list) || exists u :: u in users && u.id == e.userId
    ensures forall u :: u in users ==> Entry(u.id, CountKey(list, u.id)) in PerUser(list, users)
    ensures forall k :: k in UserKeys(list) ==> Entry(k, CountKey(list, k)) in PerUser(list, users)
  {
    forall e | e in PerUser(list, users)
      ensures e.count == CountKey(list, e.userId)
      ensures e.userId in UserKeys(list) || exists u :: u in users && u.id == e.userId
    {
      RowMeaning(list, users, e);
    }
    forall u | u in users
      ensures Entry(u.id, CountKey(list, u.id)) in PerUser(list, users)
    {
      if u.id in UserKeys(list) {
        KeyRow(list, users, u.id);
      } else {
        ZeroRow(list, users, u);
      }
    }
    forall k | k in UserKeys(list)
      ensures Entry(k, CountKey(list, k)) in PerUser(list, users)
    {
      KeyRow(list, users, k);
    }
  }

  /** Rows sorted on `CountDesc` come by count descending. */
  lemma SortedCountsDesc(s: seq<Entry>, t: seq<Entry>)
    requires t == Sorting.SortBy(s, CountDesc)
    ensures forall i, j :: 0 <= i < j < |t| ==> t[i].count >= t[j].count
  {
    Sorting.SortBySorted(s, CountDesc);
    forall i, j | 0 <= i < j < |t|
      ensures t[i].count >= t[j].count
    {
      Sorting.LexLeSingleton(-(t[i].count as int), -(t[j].count as int));
    }
  }

  /** The rows are the sorted ones, then the unassigned entry when some card has no assignee. */
  lemma PerUserShape(list: seq<MCard>, users: seq<MUser>)
    ensures PerUser(list, users) == PerUserSorted(list, users)
              + (if SemResponsavel in UserKeys(list) then [Entry(SemResponsavel, CountKey(list, SemResponsavel))] else [])
  {
    var keys := Dedup(UserKeys(list));
    var entries := EntriesOf(list, keys);
    var f := FindEntry(entries, SemResponsavel);
    if SemResponsavel in keys {
      var j :| 0 <= j < |keys| && keys[j] == SemResponsavel;
      assert entries[j].userId == SemResponsavel;
      var i :| 0 <= i < |entries| && entries[i] == f.value;
    } else {
      assert forall e :: e in entries ==> e.userId in keys;
    }
  }

  /**
   * Rows come by count descending; when some card has no assignee, no
   * sorted row carries the unassigned key, so its entry is the only one
   * and comes last.
   */
  lemma PerUserOrder(list: seq<MCard>, users: seq<MUser>)
    ensures var t := PerUserSorted(list, users);
            forall i, j :: 0 <= i < j < |t| ==> t[i].count >= t[j].count
    ensures SemResponsavel in UserKeys(list) ==>
              forall e :: e in PerUserSorted(list, users) ==> e.userId != SemResponsavel
  {
    var keys := Dedup(UserKeys(list));
    var s := FilterSeq(EntriesOf(list, keys), NotSem) + ZeroEntries(users, keys);
    SortedCountsDesc(s, PerUserSorted(list, users));
    forall e | e in PerUserSorted(list, users)
      ensures SemResponsavel in keys ==> e.userId != SemResponsavel
    {
      Sorting.SortByMembers(s, CountDesc, e);
    }
  }

  // ------------------------------------------------------------------
  // Leaderboard (`leaderboardData`)
  // ------------------------------------------------------------------

  /**
   * The period a ranking covers. A sprint key of "" and an interval with
   * a missing end mean no restriction; interval ends are day numbers.
   */
  datatype Scope =
    | SprintScope(sprintId: string)
    | YearScope(year: int)
    | MonthScope(monthYear: int, month: int)
    | IntervalScope(startDay: Option<int>, endDay: Option<int>)
    | UsersScope(selected: seq<string>)

  datatype Limit = Top5 | Top3 | AllUsers

  /** `c.responsavel != null && c.responsavel !== ''`. */
  predicate Assigned(c: MCard)
  {
    c.responsavel.Some? && c.responsavel.value != ""
  }

  /** The calendar date of the delivery. */
  function DeliveryDate(c: MCard): Option<Civil>
  {
    if c.dataFim.Some? then Some(CivilFromDays(c.dataFim.value / DayMs)) else None
  }

  /** The period filters shared by the leaderboard and the on-time table. */
  predicate InPeriod(c: MCard, scope: Scope)
  {
    match scope
    case SprintScope(_) => true
    case YearScope(y) => DeliveryDate(c).Some? && DeliveryDate(c).value.year == y
    case MonthScope(y, m) => DeliveryDate(c).Some? && DeliveryDate(c).value.year == y && DeliveryDate(c).value.month == m
    case IntervalScope(start, end) =>
      start.None? || end.None?
      || (c.dataFim.Some? && start.value * DayMs <= c.dataFim.value <= end.value * DayMs + DayMs - 1)
    case UsersScope(_) => true
  }

  /** The leaderboard's filters: `getSprintForCard(c)?.id === leaderboardSprint` for a sprint. */
  predicate InLeaderboardScope(c: MCard, scope: Scope)
  {
    if scope.SprintScope? then scope.sprintId == "" || (c.sprint.Some? && c.sprint.value.id == scope.sprintId)
    else InPeriod(c, scope)
  }

  /** The assigned closed cards in the scope. */
  function LeaderboardList(closed: seq<MCard>, scope: Scope): (r: seq<MCard>)
    ensures forall c :: c in r <==> c in closed && Assigned(c) && InLeaderboardScope(c, scope)
  {
    FilterSeq(FilterSeq(closed, Assigned), (c: MCard) => InLeaderboardScope(c, scope))
  }

  /** At most 5 or 3 rows, except in the users scope and for `all`. */
  function LimitOf(scope: Scope, limit: Limit): Option<nat>
  {
    if scope.UsersScope? then None
    else
      match limit
      case Top5 => Some(5)
      case Top3 => Some(3)
      case AllUsers => None
  }

  function UserIds(users: seq<MUser>): (r: seq<string>)
    ensures |r| == |users| && forall i :: 0 <= i < |users| ==> r[i] == users[i].id
  {
    seq(|users|, i requires 0 <= i < |users| => users[i].id)
  }

  /** The ids ranked: the selection, every user for `all`, else the assignees found on the cards. */
  function LeaderboardIds(list: seq<MCard>, scope: Scope, limit: Limit, users: seq<MUser>): seq<string>
  {
    if scope.UsersScope? then scope.selected
    else if limit == AllUsers then UserIds(users)
    else Dedup(UserKeys(list))
  }

  function Prefix<T>(s: seq<T>, n: Option<nat>): (r: seq<T>)
    ensures n.Some? ==> r == s[..if n.value < |s| then n.value else |s|]
    ensures n.None? ==> r == s
  {
    match n
    case Some(k) => if k < |s| then s[..k] else s
    case None => s
  }

  /** Each ranked id with its count in the scope. */
  function LeaderboardRows(closed: seq<MCard>, scope: Scope, limit: Limit, users: seq<MUser>): seq<Entry>
  {
    var list := LeaderboardList(closed, scope);
    EntriesOf(list, LeaderboardIds(list, scope, limit, users))
  }

  /** `leaderboardData`: the ranked rows by count descending, sliced to the limit. */
  function Leaderboard(closed: seq<MCard>, scope: Scope, limit: Limit, users: seq<MUser>): seq<Entry>
  {
    if scope.UsersScope? && |scope.selected| == 0 then []
    else Prefix(Sorting.SortBy(LeaderboardRows(closed, scope, limit, users), CountDesc), LimitOf(scope, limit))
  }

  /** `byUser.get(id) ?? 0` on a finished tally is the count of `id`. */
  lemma TalliedGet(list: seq<MCard>, keys: seq<string>, counts: map<string, nat>, id: string)
    requires keys == Dedup(UserKeys(list))
    requires forall k :: k in counts <==> k in keys
    requires forall k :: k in counts ==> counts[k] == CountKey(list, k)
    ensures (if id in counts then counts[id] else 0) == CountKey(list, id)
  {
    if id !in counts {
      CountKeyAbsent(list, id);
    }
  }

  /** The leaderboard, with its counting loop. */
  method LeaderboardData(closed: seq<MCard>, scope: Scope, limit: Limit, users: seq<MUser>) returns (r: seq<Entry>)
    ensures r == Leaderboard(closed, scope, limit, users)
  {
    var list := LeaderboardList(closed, scope);
    var keys, counts := Tally(list);
    if scope.UsersScope? && |scope.selected| == 0 {
      return [];
    }
    var ids := if scope.UsersScope? then scope.selected else if limit == AllUsers then UserIds(users) else keys;
    assert ids == LeaderboardIds(list, scope, limit, users);
    var rows := seq(|ids|, j requires 0 <= j < |ids| => Entry(ids[j], if ids[j] in counts then counts[ids[j]] else 0));
    forall j | 0 <= j < |ids|
      ensures rows[j] == EntriesOf(list, ids)[j]
    {
      TalliedGet(list, keys, counts, ids[j]);
    }
    assert rows == LeaderboardRows(closed, scope, limit, users);
    r := Prefix(Sorting.SortBy(rows, CountDesc), LimitOf(scope, limit));
  }

  /**
   * The users scope without a selection ranks nobody; otherwise the
   * ranking has at most 5 or 3 rows, or one row per user for `all`, or
   * one per selected id in the users scope.
   */
  lemma LeaderboardSize(closed: seq<MCard>, scope: Scope, limit: Limit, users: seq<MUser>)
    ensures var r := Leaderboard(closed, scope, limit, users);
            (scope.UsersScope? ==> |r| == |scope.selected|)
            && (!scope.UsersScope? && limit == Top5 ==> |r| <= 5)
            && (!scope.UsersScope? && limit == Top3 ==> |r| <= 3)
            && (!scope.UsersScope? && limit == AllUsers ==> |r| == |users|)
  {
  }

  lemma PrefixSorted(s: seq<Entry>, n: Option<nat>)
    requires forall i, j :: 0 <= i < j < |s| ==> s[i].count >= s[j].count
    ensures var t := Prefix(s, n);
            (forall i, j :: 0 <= i < j < |t| ==> t[i].count >= t[j].count)
            && (forall x, e :: x in t && e in s && e !in t ==> x.count >= e.count)
  {
    var t := Prefix(s, n);
    forall x, e | x in t && e in s && e !in t
      ensures x.count >= e.count
    {
      var i :| 0 <= i < |t| && t[i] == x;
      var j :| 0 <= j < |s| && s[j] == e;
      assert t[i] == s[i];
      assert j >= |t|;
    }
  }

  /**
   * The ranking comes by count descending, and every ranked id that the
   * limit cuts off has a count no larger than any row kept.
   */
  lemma LeaderboardTop(closed: seq<MCard>, scope: Scope, limit: Limit, users: seq<MUser>)
    requires !(scope.UsersScope? && |scope.selected| == 0)
    ensures var all := LeaderboardRows(closed, scope, limit, users);
            var r := Leaderboard(closed, scope, limit, users);
            (forall i, j :: 0 <= i < j < |r| ==> r[i].count >= r[j].count)
            && (forall x, e :: x in r && e in all && e !in r ==> x.count >= e.count)
  {
    var all := LeaderboardRows(closed, scope, limit, users);
    var sorted := Sorting.SortBy(all, CountDesc);
    SortedCountsDesc(all, sorted);
    PrefixSorted(sorted, LimitOf(scope, limit));
    forall e | e in all
      ensures e in sorted
    {
      Sorting.SortByMembers(all, CountDesc, e);
    }
  }

  /** A row of the ranking is one of the ranked rows. */
  lemma LeaderboardRowIn(closed: seq<MCard>, scope: Scope, limit: Limit, users: seq<MUser>, e: Entry)
    requires e in Leaderboard(closed, scope, limit, users)
    ensures e in LeaderboardRows(closed, scope, limit, users)
  {
    Sorting.SortByMembers(LeaderboardRows(closed, scope, limit, users), CountDesc, e);
  }

  lemma LeaderboardRowMeaning(closed: seq<MCard>, scope: Scope, limit: Limit, users: seq<MUser>, e: Entry)
    requires e in LeaderboardRows(closed, scope, limit, users)
    ensures e.count == CountKey(LeaderboardList(closed, scope), e.userId)
    ensures !scope.UsersScope? && limit != AllUsers ==>
              exists c :: c in closed && Assigned(c) && InLeaderboardScope(c, scope) && c.responsavel.value == e.userId
  {
    var list := LeaderboardList(closed, scope);
    var all := LeaderboardRows(closed, scope, limit, users);
    var ids := LeaderboardIds(list, scope, limit, users);
    var j :| 0 <= j < |all| && all[j] == e;
    assert e.userId == ids[j];
    if !scope.UsersScope? && limit != AllUsers {
      assert e.userId in UserKeys(list);
      var k :| 0 <= k < |list| && UserKeys(list)[k] == e.userId;
      assert list[k] in list && UserKey(list[k]) == e.userId;
    }
  }

  /**
   * Every row counts the assigned cards of its id in the scope; outside
   * the users scope and `all`, every row names an assignee, so no
   * unassigned card is ever ranked.
   */
  lemma LeaderboardCounts(closed: seq<MCard>, scope: Scope, limit: Limit, users: seq<MUser>)
    ensures forall e :: e in Leaderboard(closed, scope, limit, users) ==>
              e.count == CountKey(LeaderboardList(closed, scope), e.userId)
    ensures !scope.UsersScope? && limit != AllUsers ==>
              forall e :: e in Leaderboard(closed, scope, limit, users) ==>
                exists c :: c in closed && Assigned(c) && InLeaderboardScope(c, scope) && c.responsavel.value == e.userId
  {
    forall e | e in Leaderboard(closed, scope, limit, users)
      ensures e.count == CountKey(LeaderboardList(closed, scope), e.userId)
      ensures !scope.UsersScope? && limit != AllUsers ==>
                exists c :: c in closed && Assigned(c) && InLeaderboardScope(c, scope) && c.responsavel.value == e.userId
    {
      LeaderboardRowIn(closed, scope, limit, users, e);
      LeaderboardRowMeaning(closed, scope, limit, users, e);
    }
  }

  // ------------------------------------------------------------------
  // On-time deliveries (`closedCardsForOnTime`, `onTimeTable`)
  // ------------------------------------------------------------------

  /** `String(getSprintForCard(c)?.id)`: a card without a sprint reads "undefined". */
  function SprintText(c: MCard): string
  {
    if c.sprint.Some? then c.sprint.value.id else "undefined"
  }

  /** The on-time table's filters; the users scope keeps the selected assignees. */
  predicate InOnTimeScope(c: MCard, scope: Scope)
  {
    match scope
    case SprintScope(id) => id == "" || SprintText(c) == id
    case UsersScope(selected) => c.responsavel.Some? && c.responsavel.value in selected
    case _ => InPeriod(c, scope)
  }

  /** The users scope with at least one selected id. */
  predicate WithSelection(scope: Scope)
  {
    scope.UsersScope? && |scope.selected| > 0
  }

  /** `closedCardsForOnTime`: nothing for the users scope without a selection. */
  function OnTimeList(closed: seq<MCard>, scope: Scope): (r: seq<MCard>)
    ensures forall c :: c in r <==>
              (c in closed && Assigned(c) && InOnTimeScope(c, scope) && (scope.UsersScope? ==> WithSelection(scope)))
  {
    if scope.UsersScope? && |scope.selected| == 0 then []
    else FilterSeq(FilterSeq(closed, Assigned), (c: MCard) => InOnTimeScope(c, scope))
  }

  /** A card the table counts: it has a sprint, a delivery date and an assignee. */
  predicate Counted(c: MCard)
  {
    c.sprint.Some? && c.dataFim.Some? && Assigned(c)
  }

  predicate DeliveredOnTime(c: MCard)
  {
    Counted(c) && OnTime(c.sprint.value, c.dataFim.value)
  }

  /** One user's tally: deliveries and deliveries on time. */
  datatype Stat = Stat(total: nat, onTime: nat)

  /** `cur.total += 1; if (onTime) cur.onTime += 1`. */
  function Add(st: Stat, c: MCard): Stat
  {
    Stat(st.total + 1, st.onTime + if DeliveredOnTime(c) then 1 else 0)
  }

  /** The tally of `uid` over the counted cards of `list`. */
  function StatOf(list: seq<MCard>, uid: string): Stat
  {
    if |list| == 0 then Stat(0, 0)
    else
      var c := list[|list| - 1];
      var st := StatOf(list[..|list| - 1], uid);
      if Counted(c) && c.responsavel.value == uid then Add(st, c) else st
  }

  /** The assignees of the counted cards, in order. */
  function CountedUids(list: seq<MCard>): seq<string>
  {
    if |list| == 0 then []
    else
      var c := list[|list| - 1];
      CountedUids(list[..|list| - 1]) + if Counted(c) then [c.responsavel.value] else []
  }

  lemma {:induction false} StatAbsent(list: seq<MCard>, uid: string)
    requires uid !in CountedUids(list)
    ensures StatOf(list, uid) == Stat(0, 0)
  {
    if |list| > 0 {
      StatAbsent(list[..|list| - 1], uid);
    }
  }

  ghost predicate StatsOf(list: seq<MCard>, keys: seq<string>, stats: map<string, Stat>)
  {
    keys == Dedup(CountedUids(list))
    && (forall k :: k in stats <==> k in keys)
    && (forall k :: k in stats ==> stats[k] == StatOf(list, k))
  }

  /** `byUser.set(uid, cur)` after counting `c` into `cur`. */
  function Added(stats: map<string, Stat>, k: string, c: MCard): map<string, Stat>
  {
    stats[k := Add(if k in stats then stats[k] else Stat(0, 0), c)]
  }

  lemma StatStep(list: seq<MCard>, i: nat, keys: seq<string>, stats: map<string, Stat>)
    requires i < |list| && StatsOf(list[..i], keys, stats) && Counted(list[i])
    ensures var k := list[i].responsavel.value;
            StatsOf(list[..i + 1], if k in stats then keys else keys + [k], Added(stats, k, list[i]))
  {
    var front, now := list[..i], list[..i + 1];
    assert now[..i] == front;
    var c := list[i];
    assert now[i] == c;
    var k := c.responsavel.value;
    assert CountedUids(now) == CountedUids(front) + [k];
    DedupSnoc(CountedUids(front), k);
    forall j | j in Added(stats, k, c)
      ensures Added(stats, k, c)[j] == StatOf(now, j)
    {
      assert StatOf(now, j) == if j == k then Add(StatOf(front, j), c) else StatOf(front, j);
      if j !in stats {
        StatAbsent(front, j);
      }
    }
  }

  lemma StatSkip(list: seq<MCard>, i: nat, keys: seq<string>, stats: map<string, Stat>)
    requires i < |list| && StatsOf(list[..i], keys, stats) && !Counted(list[i])
    ensures StatsOf(list[..i + 1], keys, stats)
  {
    var front, now := list[..i], list[..i + 1];
    assert now[..i] == front;
    assert CountedUids(now) == CountedUids(front);
    forall j | j in stats
      ensures stats[j] == StatOf(now, j)
    {
    }
  }

  /** The loop over `closedCardsForOnTime` that fills `byUser`. */
  method TallyOnTime(list: seq<MCard>) returns (keys: seq<string>, stats: map<string, Stat>)
    ensures keys == Dedup(CountedUids(list))
    ensures forall k :: k in stats <==> k in keys
    ensures forall k :: k in stats ==> stats[k] == StatOf(list, k)
  {
    keys, stats := [], map[];
    var i := 0;
    while i < |list|
      invariant 0 <= i <= |list| && StatsOf(list[..i], keys, stats)
    {
      var card := list[i];
      if Counted(card) {
        StatStep(list, i, keys, stats);
        var uid := card.responsavel.value;
        if uid !in stats {
          keys := keys + [uid];
        }
        stats := Added(stats, uid, card);
      } else {
        StatSkip(list, i, keys, stats);
      }
      i := i + 1;
    }
    assert list[..i] == list;
  }

  /** A row of the on-time table. */
  datatype Row = Row(userId: string, name: string, total: nat, onTime: nat, late: int, pct: int)

  /** `total ? Math.round((onTime / total) * 100) : 0`, on exact fractions. */
  function Pct(onTime: nat, total: nat): int
  {
    if total == 0 then 0 else (200 * onTime + total) / (2 * total)
  }

  /** `users.find((u) => u.id === id)`. */
  function FindUser(users: seq<MUser>, id: string): (r: Option<MUser>)
    ensures r.Some? ==> r.value in users && r.value.id == id
    ensures r.None? ==> forall u :: u in users ==> u.id != id
  {
    if |users| == 0 then None
    else if users[0].id == id then Some(users[0])
    else FindUser(users[1..], id)
  }

  /** The row's user, or a stand-in whose username is the id. */
  function RowUser(users: seq<MUser>, id: string): MUser
  {
    match FindUser(users, id)
    case Some(u) => u
    case None => MUser(id, Some(""), Some(""), id)
  }

  function RowOf(users: seq<MUser>, id: string, st: Stat): Row
  {
    Row(id, ShortDisplayName(RowUser(users, id)), st.total, st.onTime, st.total - st.onTime, Pct(st.onTime, st.total))
  }

  function OnTimeRows(list: seq<MCard>, users: seq<MUser>, ids: seq<string>): (r: seq<Row>)
    ensures |r| == |ids| && forall j :: 0 <= j < |ids| ==> r[j] == RowOf(users, ids[j], StatOf(list, ids[j]))
  {
    seq(|ids|, j requires 0 <= j < |ids| => RowOf(users, ids[j], StatOf(list, ids[j])))
  }

  predicate HasDeliveries(r: Row)
  {
    r.total > 0
  }

  /** `b.pct - a.pct`. */
  function PctDesc(r: Row): seq<int>
  {
    [-r.pct]
  }

  function CodePoints(s: string): seq<int>
  {
    seq(|s|, i requires 0 <= i < |s| => s[i] as int)
  }

  /** The users-scope comparator: rows with deliveries first, then by percentage descending, then by name. */
  function UsersOrder(r: Row): seq<int>
  {
    [if r.total == 0 then 1 else 0, -r.pct] + CodePoints(r.name)
  }

  /**
   * `onTimeTable`: the selected ids in the users scope, ordered by
   * `UsersOrder`; otherwise the assignees with a counted delivery, by
   * percentage descending.
   */
  function OnTimeTable(closed: seq<MCard>, scope: Scope, users: seq<MUser>): seq<Row>
  {
    var list := OnTimeList(closed, scope);
    if WithSelection(scope) then Sorting.SortBy(OnTimeRows(list, users, scope.selected), UsersOrder)
    else Sorting.SortBy(FilterSeq(OnTimeRows(list, users, Dedup(CountedUids(list))), HasDeliveries), PctDesc)
  }

  /** The on-time table, with its counting loop. */
  method OnTimeTableData(closed: seq<MCard>, scope: Scope, users: seq<MUser>) returns (r: seq<Row>)
    ensures r == OnTimeTable(closed, scope, users)
  {
    var list := OnTimeList(closed, scope);
    var keys, stats := TallyOnTime(list);
    var ids := if WithSelection(scope) then scope.selected else keys;
    var rows := seq(|ids|, j requires 0 <= j < |ids| =>
                      RowOf(users, ids[j], if ids[j] in stats then stats[ids[j]] else Stat(0, 0)));
    forall j | 0 <= j < |ids|
      ensures rows[j] == OnTimeRows(list, users, ids)[j]
    {
      if ids[j] !in stats {
        StatAbsent(list, ids[j]);
      }
    }
    assert rows == OnTimeRows(list, users, ids);
    if WithSelection(scope) {
      r := Sorting.SortBy(rows, UsersOrder);
    } else {
      r := Sorting.SortBy(FilterSeq(rows, HasDeliveries), PctDesc);
    }
  }

  /** A user's on-time tally never exceeds the deliveries. */
  lemma {:induction false} StatBound(list: seq<MCard>, uid: string)
    ensures StatOf(list, uid).onTime <= StatOf(list, uid).total
  {
    if |list| > 0 {
      StatBound(list[..|list| - 1], uid);
    }
  }

  /** An assignee of a counted card has at least one delivery. */
  lemma {:induction false} StatPresent(list: seq<MCard>, uid: string)
    requires uid in CountedUids(list)
    ensures StatOf(list, uid).total > 0
  {
    var front := list[..|list| - 1];
    if uid in CountedUids(front) {
      StatPresent(front, uid);
    }
  }

  /** The percentage is the nearest integer to `100 * onTime / total`, halves up, between 0 and 100. */
  lemma PctMeaning(onTime: nat, total: nat)
    requires 0 < total && onTime <= total
    ensures 0 <= Pct(onTime, total) <= 100
    ensures 2 * total * Pct(onTime, total) <= 200 * onTime + total < 2 * total * (Pct(onTime, total) + 1)
  {
    var m := 2 * total;
    var n := 200 * onTime + total;
    var p := n / m;
    var r := n % m;
    assert n == p * m + r && 0 <= r < m;
    assert m * (p + 1) == m * p + m;
    assert (p - 100) * m == p * m - 100 * m;
    if p > 100 {
      MulAtLeast(p - 100, m);
    }
  }

  /** Every row's counts are its user's tally: late = total - onTime, never negative. */
  lemma OnTimeRowMeaning(closed: seq<MCard>, scope: Scope, users: seq<MUser>, r: Row)
    requires r in OnTimeTable(closed, scope, users)
    ensures var st := StatOf(OnTimeList(closed, scope), r.userId);
            r.total == st.total && r.onTime == st.onTime && r.onTime <= r.total
            && r.late == r.total - r.onTime >= 0 && r.pct == Pct(r.onTime, r.total)
  {
    var list := OnTimeList(closed, scope);
    var ids := if WithSelection(scope) then scope.selected else Dedup(CountedUids(list));
    var rows := OnTimeRows(list, users, ids);
    TableRowIn(closed, scope, users, r);
    var j :| 0 <= j < |rows| && rows[j] == r;
    RowFacts(users, ids[j], list, r);
  }

  lemma RowFacts(users: seq<MUser>, id: string, list: seq<MCard>, r: Row)
    requires r == RowOf(users, id, StatOf(list, id))
    ensures var st := StatOf(list, r.userId);
            r.total == st.total && r.onTime == st.onTime && r.onTime <= r.total
            && r.late == r.total - r.onTime >= 0 && r.pct == Pct(r.onTime, r.total)
  {
    StatBound(list, id);
  }

  /** A row of the table is the row of one of the listed ids. */
  lemma TableRowIn(closed: seq<MCard>, scope: Scope, users: seq<MUser>, r: Row)
    requires r in OnTimeTable(closed, scope, users)
    ensures var list := OnTimeList(closed, scope);
            var ids := if WithSelection(scope) then scope.selected else Dedup(CountedUids(list));
            r in OnTimeRows(list, users, ids)
  {
    var list := OnTimeList(closed, scope);
    if WithSelection(scope) {
      RowAt(OnTimeRows(list, users, scope.selected), UsersOrder, r);
    } else {
      var rows := OnTimeRows(list, users, Dedup(CountedUids(list)));
      assert r in Sorting.SortBy(FilterSeq(rows, HasDeliveries), PctDesc);
      RowAt(FilterSeq(rows, HasDeliveries), PctDesc, r);
    }
  }

  /** A row of a sorted table is a row before sorting. */
  lemma RowAt(rows: seq<Row>, key: Row -> seq<int>, r: Row)
    requires r in Sorting.SortBy(rows, key)
    ensures r in rows
  {
    Sorting.SortByMembers(rows, key, r);
  }

  lemma SortedPctDesc(s: seq<Row>, t: seq<Row>)
    requires t == Sorting.SortBy(s, PctDesc)
    ensures forall i, j :: 0 <= i < j < |t| ==> t[i].pct >= t[j].pct
  {
    Sorting.SortBySorted(s, PctDesc);
    forall i, j | 0 <= i < j < |t|
      ensures t[i].pct >= t[j].pct
    {
      Sorting.LexLeSingleton(-t[i].pct, -t[j].pct);
    }
  }

  /** Two-field keys followed by a tail compare on the fields first. */
  lemma LexLeHead2(a: int, b: int, s: seq<int>, c: int, d: int, u: seq<int>)
    requires Sorting.LexLe([a, b] + s, [c, d] + u)
    ensures a < c || (a == c && b <= d)
  {
    assert ([a, b] + s)[1..] == [b] + s;
    assert ([c, d] + u)[1..] == [d] + u;
  }

  lemma SortedUsersOrder(s: seq<Row>, t: seq<Row>)
    requires t == Sorting.SortBy(s, UsersOrder)
    ensures forall i, j :: 0 <= i < j < |t| && t[i].total == 0 ==> t[j].total == 0
    ensures forall i, j :: 0 <= i < j < |t| && t[j].total > 0 ==> t[i].pct >= t[j].pct
  {
    Sorting.SortBySorted(s, UsersOrder);
    forall i, j | 0 <= i < j < |t|
      ensures t[i].total == 0 ==> t[j].total == 0
      ensures t[j].total > 0 ==> t[i].pct >= t[j].pct
    {
      assert Sorting.LexLe(UsersOrder(t[i]), UsersOrder(t[j]));
      UsersOrderHead(t[i], t[j]);
    }
  }

  /** Two rows in `UsersOrder`: delivered before undelivered, then the higher percentage first. */
  lemma UsersOrderHead(x: Row, y: Row)
    requires Sorting.LexLe(UsersOrder(x), UsersOrder(y))
    ensures x.total == 0 ==> y.total == 0
    ensures y.total > 0 ==> x.pct >= y.pct
  {
    LexLeHead2(if x.total == 0 then 1 else 0, -x.pct, CodePoints(x.name),
               if y.total == 0 then 1 else 0, -y.pct, CodePoints(y.name));
  }

  /** Outside the users scope, every row has a counted delivery. */
  lemma OutsideRowIn(closed: seq<MCard>, scope: Scope, users: seq<MUser>, r: Row)
    requires !WithSelection(scope) && r in OnTimeTable(closed, scope, users)
    ensures r.total > 0 && r.userId in CountedUids(OnTimeList(closed, scope))
  {
    var list := OnTimeList(closed, scope);
    var rows := OnTimeRows(list, users, Dedup(CountedUids(list)));
    Sorting.SortByMembers(FilterSeq(rows, HasDeliveries), PctDesc, r);
    var j :| 0 <= j < |rows| && rows[j] == r;
  }

  /** Outside the users scope, every assignee with a counted delivery has a row. */
  lemma OutsideKeyRow(closed: seq<MCard>, scope: Scope, users: seq<MUser>, k: string)
    requires !WithSelection(scope) && k in CountedUids(OnTimeList(closed, scope))
    ensures exists r :: r in OnTimeTable(closed, scope, users) && r.userId == k
  {
    var list := OnTimeList(closed, scope);
    var ids := Dedup(CountedUids(list));
    var rows := OnTimeRows(list, users, ids);
    var j :| 0 <= j < |ids| && ids[j] == k;
    StatPresent(list, k);
    var r := rows[j];
    assert r.userId == k && HasDeliveries(r);
    assert r in FilterSeq(rows, HasDeliveries);
    Sorting.SortByMembers(FilterSeq(rows, HasDeliveries), PctDesc, r);
    assert OnTimeTable(closed, scope, users) == Sorting.SortBy(FilterSeq(rows, HasDeliveries), PctDesc);
  }

  /**
   * Outside the users scope, the rows are exactly the assignees with a
   * counted delivery, every row has one, and percentages descend.
   */
  lemma OnTimeOutsideUsers(closed: seq<MCard>, scope: Scope, users: seq<MUser>)
    requires !WithSelection(scope)
    ensures forall r :: r in OnTimeTable(closed, scope, users) ==>
              r.total > 0 && r.userId in CountedUids(OnTimeList(closed, scope))
    ensures forall k :: k in CountedUids(OnTimeList(closed, scope)) ==>
              exists r :: r in OnTimeTable(closed, scope, users) && r.userId == k
    ensures var t := OnTimeTable(closed, scope, users);
            forall i, j :: 0 <= i < j < |t| ==> t[i].pct >= t[j].pct
  {
    var list := OnTimeList(closed, scope);
    forall r | r in OnTimeTable(closed, scope, users)
      ensures r.total > 0 && r.userId in CountedUids(list)
    {
      OutsideRowIn(closed, scope, users, r);
    }
    forall k | k in CountedUids(list)
      ensures exists r :: r in OnTimeTable(closed, scope, users) && r.userId == k
    {
      OutsideKeyRow(closed, scope, users, k);
    }
    var rows := OnTimeRows(list, users, Dedup(CountedUids(list)));
    SortedPctDesc(FilterSeq(rows, HasDeliveries), OnTimeTable(closed, scope, users));
  }

  lemma UsersRowIn(closed: seq<MCard>, scope: Scope, users: seq<MUser>, r: Row)
    requires WithSelection(scope) && r in OnTimeTable(closed, scope, users)
    ensures r.userId in scope.selected
  {
    var rows := OnTimeRows(OnTimeList(closed, scope), users, scope.selected);
    Sorting.SortByMembers(rows, UsersOrder, r);
    var j :| 0 <= j < |rows| && rows[j] == r;
  }

  lemma UsersKeyRow(closed: seq<MCard>, scope: Scope, users: seq<MUser>, k: string)
    requires WithSelection(scope) && k in scope.selected
    ensures exists r :: r in OnTimeTable(closed, scope, users) && r.userId == k
  {
    var rows := OnTimeRows(OnTimeList(closed, scope), users, scope.selected);
    var j :| 0 <= j < |scope.selected| && scope.selected[j] == k;
    Sorting.SortByMembers(rows, UsersOrder, rows[j]);
  }

  /**
   * In the users scope with a selection, there is one row per selected
   * id, rows without deliveries come after all others, and the rows
   * with deliveries come by percentage descending.
   */
  lemma OnTimeUsersScope(closed: seq<MCard>, scope: Scope, users: seq<MUser>)
    requires WithSelection(scope)
    ensures |OnTimeTable(closed, scope, users)| == |scope.selected|
    ensures forall r :: r in OnTimeTable(closed, scope, users) ==> r.userId in scope.selected
    ensures forall k :: k in scope.selected ==> exists r :: r in OnTimeTable(closed, scope, users) && r.userId == k
    ensures var t := OnTimeTable(closed, scope, users);
            (forall i, j :: 0 <= i < j < |t| && t[i].total == 0 ==> t[j].total == 0)
            && (forall i, j :: 0 <= i < j < |t| && t[j].total > 0 ==> t[i].pct >= t[j].pct)
  {
    forall r | r in OnTimeTable(closed, scope, users)
      ensures r.userId in scope.selected
    {
      UsersRowIn(closed, scope, users, r);
    }
    forall k | k in scope.selected
      ensures exists r :: r in OnTimeTable(closed, scope, users) && r.userId == k
    {
      UsersKeyRow(closed, scope, users, k);
    }
    SortedUsersOrder(OnTimeRows(OnTimeList(closed, scope), users, scope.selected), OnTimeTable(closed, scope, users));
  }

  // ------------------------------------------------------------------
  // The on-time user filter (`onTimeFilterUserIds`); None means everyone
  // ------------------------------------------------------------------

  function RowIds(rows: seq<Row>): (r: seq<string>)
    ensures |r| == |rows| && forall i :: 0 <= i < |rows| ==> r[i] == rows[i].userId
  {
    seq(|rows|, i requires 0 <= i < |rows| => rows[i].userId)
  }

  /** `onTimeTableUserList`: the first row of each user id, in table order. */
  function FirstRows(rows: seq<Row>): (r: seq<Row>)
    ensures forall x :: x in r ==> x in rows
    ensures forall x :: x in rows ==> x.userId in RowIds(r)
    ensures Distinct(RowIds(r))
  {
    if |rows| == 0 then []
    else
      var front := FirstRows(rows[..|rows| - 1]);
      var last := rows[|rows| - 1];
      if last.userId in RowIds(front) then front
      else
        assert RowIds(front + [last]) == RowIds(front) + [last.userId];
        front + [last]
  }

  /** `handleToggleOnTimeUser`: checking or unchecking `userId` in the filter. */
  function ToggleOnTimeUser(prev: Option<seq<string>>, table: seq<Row>, userId: string, checked: bool): Option<seq<string>>
  {
    if checked then
      match prev
      case None => None
      case Some(p) => if userId in p then prev else Some(p + [userId])
    else
      match prev
      case None => Some(FilterSeq(RowIds(FirstRows(table)), (id: string) => id != userId))
      case Some(p) =>
        var next := FilterSeq(p, (id: string) => id != userId);
        if |next| == 0 then None else Some(next)
  }

  /** `onTimeTableFiltered`: no filter, or an empty one, shows every row. */
  function OnTimeFiltered(table: seq<Row>, filter: Option<seq<string>>): (r: seq<Row>)
    ensures filter.None? || |filter.value| == 0 ==> r == table
    ensures filter.Some? && |filter.value| > 0 ==>
              forall x :: x in r <==> x in table && x.userId in filter.value
  {
    if filter.None? || |filter.value| == 0 then table
    else FilterSeq(table, (x: Row) => x.userId in filter.value)
  }

  /**
   * Checking keeps "everyone" as it is, and adds the id to a selection
   * once; a selection without repeats stays without repeats.
   */
  lemma ToggleCheck(prev: Option<seq<string>>, table: seq<Row>, u: string)
    ensures prev.None? ==> ToggleOnTimeUser(prev, table, u, true).None?
    ensures prev.Some? ==>
              var next := ToggleOnTimeUser(prev, table, u, true);
              next.Some? && (forall x :: x in next.value <==> x in prev.value || x == u)
              && (Distinct(prev.value) ==> Distinct(next.value))
  {
    if prev.Some? && u !in prev.value {
      var p := prev.value;
      forall i, j | 0 <= i < j < |p + [u]| && Distinct(p)
        ensures (p + [u])[i] != (p + [u])[j]
      {
        if j == |p| {
          assert (p + [u])[i] == p[i];
        }
      }
    }
  }

  /**
   * Unchecking from "everyone" selects every listed user but `u`;
   * unchecking from a selection removes `u`, and removing the last id
   * returns to "everyone".
   */
  lemma ToggleUncheck(prev: Option<seq<string>>, table: seq<Row>, u: string)
    ensures var next := ToggleOnTimeUser(prev, table, u, false);
            (prev.None? ==> next.Some? && forall x :: x in next.value <==> x in RowIds(table) && x != u)
            && (prev.Some? ==> (next.None? <==> forall x :: x in prev.value ==> x == u))
            && (prev.Some? && next.Some? ==> forall x :: x in next.value <==> x in prev.value && x != u)
  {
    var list := RowIds(FirstRows(table));
    forall x | x in RowIds(table)
      ensures x in list
    {
      var i :| 0 <= i < |table| && table[i].userId == x;
      assert table[i] in table;
    }
    forall x | x in list
      ensures x in RowIds(table)
    {
      var i :| 0 <= i < |list| && list[i] == x;
      assert FirstRows(table)[i] in table;
      var k :| 0 <= k < |table| && table[k] == FirstRows(table)[i];
    }
    if prev.Some? {
      var next := FilterSeq(prev.value, (id: string) => id != u);
      if |next| > 0 {
        assert next[0] in next;
      }
    }
  }

  /** After unchecking `u`, the filtered table shows no row of `u` unless the filter fell back to everyone. */
  lemma UncheckHides(prev: Option<seq<string>>, table: seq<Row>, u: string)
    requires var next := ToggleOnTimeUser(prev, table, u, false); next.Some? && |next.value| > 0
    ensures forall x :: x in OnTimeFiltered(table, ToggleOnTimeUser(prev, table, u, false)) ==>
              x.userId != u && x in table
  {
  }

  /**
   * With `u` the only user of the table, unchecking it from "everyone"
   * leaves an empty selection, which shows every row again.
   */
  lemma UncheckOnlyUserShowsAll(table: seq<Row>, u: string)
    requires forall x :: x in table ==> x.userId == u
    ensures ToggleOnTimeUser(None, table, u, false) == Some([])
    ensures OnTimeFiltered(table, ToggleOnTimeUser(None, table, u, false)) == table
  {
    var list := RowIds(FirstRows(table));
    var next := FilterSeq(list, (id: string) => id != u);
    forall x | x in list
      ensures x == u
    {
      var i :| 0 <= i < |list| && list[i] == x;
      assert FirstRows(table)[i] in table;
    }
  }
}
