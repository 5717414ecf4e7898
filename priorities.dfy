/**
 * frontend/src/pages/Priorities.tsx: the supervisor's page that sets a
 * user's weekly priorities. It finds the current week, offers the user's
 * open cards with the ones already prioritised preselected, and on save
 * reconciles the chosen cards with the week's priorities: it creates
 * what is missing and deletes what was dropped.
 *
 * Days are day numbers (0 = 1970-01-01). Ids as the page receives them
 * are numbers or strings; `String(x)` turns either into text.
 */
module Priorities {
  import opened Common
  import opened Calendar
  import Models

  /** `isCompleted`. */
  predicate IsCompleted(status: string)
  {
    status == "finalizado"
  }

  /** On a stored status the page agrees with `WeeklyPriority.is_concluido`. */
  lemma IsCompletedAgrees(s: CardStatus)
    ensures IsCompleted(StatusCode(s)) <==> Models.IsConcluido(s)
  {
    match s
    case Finalizado =>
    case ADesenvolver =>
    case EmDesenvolvimento =>
    case ParadoPendencias =>
    case EmHomologacao =>
    case Inviabilizado =>
  }

  // ------------------------------------------------------------------
  // The current week
  // ------------------------------------------------------------------

  /** `diasAteSegunda`: 6 on a Sunday, else `getDay() - 1`. */
  function DaysToMonday(jsDay: int): int
  {
    if jsDay == 0 then 6 else jsDay - 1
  }

  /** `semanaInicio`: the Monday of the week of `today`. */
  function WeekMonday(today: int): int
  {
    today - DaysToMonday(JsDay(today))
  }

  /** `semanaFim`: that Monday plus four days. */
  function WeekFriday(today: int): int
  {
    WeekMonday(today) + 4
  }

  /**
   * The page's week is the server's: its Monday is a Monday at most six
   * days back (a Sunday belongs to the week before), it equals
   * `WeeklyPriority`'s week start, and its end is that week's Friday.
   */
  lemma WeekMatchesServer(today: int)
    ensures JsDay(WeekMonday(today)) == 1 && JsDay(WeekFriday(today)) == 5
    ensures WeekMonday(today) <= today < WeekMonday(today) + 7
    ensures WeekMonday(today) == Models.WeekStart(today)
  {
    var m := WeekMonday(today);
    assert JsDay(m) == 1 by {
      DivModUnique(m + 4, 7, (today + 4) / 7 - (if JsDay(today) == 0 then 1 else 0), 1);
    }
    assert PyWeekday(m) == 0 by {
      WeekdayNumberings(m);
    }
    DivModUnique(m + 8, 7, (m + 4) / 7, 5);
    Models.WeekStartOfWeek(m, today - m);
  }

  // ------------------------------------------------------------------
  // Ids, cards and priorities
  // ------------------------------------------------------------------

  /** An id as a JavaScript value: a number or a string. */
  datatype JsId = Num(n: nat) | Text(s: string)

  /** `String(id)`. */
  function Str(id: JsId): string
  {
    match id
    case Num(n) => NatToString(n)
    case Text(s) => s
  }

  datatype Card = Card(id: JsId, responsavel: JsId, status: string)

  /** A `WeeklyPriority` row: its key, the user, the card and the week's Monday. */
  datatype Priority = Priority(id: nat, usuario: JsId, card: JsId, semana: int)

  /** `weeklyPriorityService.getAll({ semana })`. */
  function OfWeek(rows: seq<Priority>, week: int): seq<Priority>
  {
    FilterSeq(rows, (p: Priority) => p.semana == week)
  }

  /** The user's rows, comparing `String(p.usuario)` with `String(user.id)`. */
  function ForUser(rows: seq<Priority>, u: JsId): seq<Priority>
  {
    FilterSeq(rows, (p: Priority) => Str(p.usuario) == Str(u))
  }

  /** The user's rows of the empty-selection branch, compared with `===`. */
  function ForUserStrict(rows: seq<Priority>, u: JsId): seq<Priority>
  {
    FilterSeq(rows, (p: Priority) => p.usuario == u)
  }

  /** `.map(p => String(p.card))`. */
  function CardIds(rows: seq<Priority>): (r: seq<string>)
    ensures |r| == |rows| && forall k :: 0 <= k < |rows| ==> r[k] == Str(rows[k].card)
  {
    seq(|rows|, k requires 0 <= k < |rows| => Str(rows[k].card))
  }

  /** `.map(c => String(c.id))`. */
  function StrIds(ids: seq<JsId>): (r: seq<string>)
    ensures |r| == |ids| && forall k :: 0 <= k < |ids| ==> r[k] == Str(ids[k])
  {
    seq(|ids|, k requires 0 <= k < |ids| => Str(ids[k]))
  }

  // ------------------------------------------------------------------
  // handleDefinePriority: candidates and preselection
  // ------------------------------------------------------------------

  /** The user's cards that are neither delivered nor dropped (`responsavel` compared with `===`). */
  function Candidates(cards: seq<Card>, u: JsId): seq<Card>
  {
    FilterSeq(cards, (c: Card) => c.responsavel == u && c.status != "finalizado" && c.status != "inviabilizado")
  }

  /** A stored status is offered exactly when the card is still open. */
  lemma CandidateStatuses(cards: seq<Card>, u: JsId, c: Card, s: CardStatus)
    requires c in cards && c.status == StatusCode(s)
    ensures c in Candidates(cards, u) <==> c.responsavel == u && !IsClosed(s)
  {
    match s
    case Finalizado =>
    case Inviabilizado =>
    case ADesenvolver =>
    case EmDesenvolvimento =>
    case ParadoPendencias =>
    case EmHomologacao =>
  }

  /** `userCards.find(c => String(c.id) === text)`. */
  function FindCard(cards: seq<Card>, text: string): (r: Option<Card>)
    ensures r.Some? ==> r.value in cards && Str(r.value.id) == text
    ensures r.None? ==> forall c :: c in cards ==> Str(c.id) != text
  {
    if |cards| == 0 then None
    else if Str(cards[0].id) == text then Some(cards[0])
    else FindCard(cards[1..], text)
  }

  /** The preselected cards: for each existing priority, in order, its card among the candidates, when there is one. */
  function Preselect(existing: seq<Priority>, userCards: seq<Card>): seq<Card>
  {
    if |existing| == 0 then []
    else
      var last := existing[|existing| - 1];
      Preselect(existing[..|existing| - 1], userCards)
        + (match FindCard(userCards, Str(last.card)) case Some(c) => [c] case None => [])
  }

  /** `handleDefinePriority`: the candidates and the cards preselected among them. */
  function DefinePriority(cards: seq<Card>, weekRows: seq<Priority>, u: JsId): (seq<Card>, seq<Card>)
  {
    var userCards := Candidates(cards, u);
    var existing := ForUser(weekRows, u);
    (userCards, if |existing| > 0 then Preselect(existing, userCards) else [])
  }

  /**
   * A preselected card is a candidate that some existing priority of the
   * user names; conversely, every priority that names a candidate brings
   * a card with that id into the preselection.
   */
  lemma {:induction false} PreselectMeaning(existing: seq<Priority>, userCards: seq<Card>)
    ensures forall c :: c in Preselect(existing, userCards) ==>
              c in userCards && exists p :: p in existing && Str(p.card) == Str(c.id)
    ensures forall p :: p in existing && (exists c :: c in userCards && Str(c.id) == Str(p.card)) ==>
              exists c :: c in Preselect(existing, userCards) && Str(c.id) == Str(p.card)
  {
    if |existing| > 0 {
      var front := existing[..|existing| - 1];
      var last := existing[|existing| - 1];
      PreselectMeaning(front, userCards);
      assert existing == front + [last];
      assert forall p :: p in existing ==> p in front || p == last;
    }
  }

  lemma DefinePriorityMeaning(cards: seq<Card>, weekRows: seq<Priority>, u: JsId, c: Card)
    ensures c in DefinePriority(cards, weekRows, u).0 <==>
              c in cards && c.responsavel == u && !IsCompleted(c.status) && c.status != "inviabilizado"
    ensures c in DefinePriority(cards, weekRows, u).1 ==>
              c in DefinePriority(cards, weekRows, u).0
              && exists p :: p in weekRows && Str(p.usuario) == Str(u) && Str(p.card) == Str(c.id)
  {
    PreselectMeaning(ForUser(weekRows, u), Candidates(cards, u));
  }

  // ------------------------------------------------------------------
  // handleSavePriority: the set differences
  // ------------------------------------------------------------------

  /** `cardsToCreate`: selected ids with no priority yet. */
  function ToCreate(selected: seq<JsId>, existing: seq<Priority>): seq<string>
  {
    FilterSeq(StrIds(selected), (id: string) => id !in CardIds(existing))
  }

  /** `cardsToDelete`: existing priorities whose card is no longer selected. */
  function ToDelete(selected: seq<JsId>, existing: seq<Priority>): seq<Priority>
  {
    FilterSeq(existing, (p: Priority) => Str(p.card) !in StrIds(selected))
  }

  /** The keys of some rows. */
  function Keys(rows: seq<Priority>): set<nat>
  {
    set p | p in rows :: p.id
  }

  /** The rows whose key is not in `ids`, in order. */
  function Without(rows: seq<Priority>, ids: set<nat>): seq<Priority>
  {
    if |rows| == 0 then []
    else
      Without(rows[..|rows| - 1], ids) + (if rows[|rows| - 1].id in ids then [] else [rows[|rows| - 1]])
  }

  lemma {:induction false} WithoutMembers(rows: seq<Priority>, ids: set<nat>)
    ensures forall p :: p in Without(rows, ids) <==> p in rows && p.id !in ids
  {
    if |rows| > 0 {
      WithoutMembers(rows[..|rows| - 1], ids);
      assert rows == rows[..|rows| - 1] + [rows[|rows| - 1]];
    }
  }

  /** Deleting one key after others is deleting them all. */
  lemma {:induction false} WithoutTwice(rows: seq<Priority>, a: set<nat>, b: set<nat>)
    ensures Without(Without(rows, a), b) == Without(rows, a + b)
  {
    if |rows| > 0 {
      var front := rows[..|rows| - 1];
      var last := rows[|rows| - 1];
      WithoutTwice(front, a, b);
      var w := Without(front, a);
      if last.id in a {
        assert Without(rows, a) == w;
      } else {
        assert Without(rows, a) == w + [last];
        assert (w + [last])[..|w|] == w;
      }
    }
  }

  lemma {:induction false} WithoutNothing(rows: seq<Priority>)
    ensures Without(rows, {}) == rows
  {
    if |rows| > 0 {
      WithoutNothing(rows[..|rows| - 1]);
      assert rows == rows[..|rows| - 1] + [rows[|rows| - 1]];
    }
  }

  /** Rows `start`, `start + 1`, … for the card ids `cs`, created for user `u` and week `week`. */
  function NewRows(cs: seq<string>, start: nat, u: JsId, week: int): (r: seq<Priority>)
    ensures |r| == |cs|
    ensures forall k :: 0 <= k < |cs| ==> r[k] == Priority(start + k, u, Text(cs[k]), week)
  {
    seq(|cs|, k requires 0 <= k < |cs| => Priority(start + k, u, Text(cs[k]), week))
  }

  /** Every key below `next`, each key on one row: the table's auto-increment key. */
  ghost predicate KeysBelow(rows: seq<Priority>, next: nat)
  {
    (forall k :: 0 <= k < |rows| ==> rows[k].id < next)
    && (forall i, j :: 0 <= i < j < |rows| ==> rows[i].id != rows[j].id)
  }

  /** Two different rows of such a table have different keys. */
  lemma KeyDistinct(rows: seq<Priority>, next: nat, p: Priority, q: Priority)
    requires KeysBelow(rows, next) && p in rows && q in rows && p != q
    ensures p.id != q.id
  {
    var i :| 0 <= i < |rows| && rows[i] == p;
    var j :| 0 <= j < |rows| && rows[j] == q;
    assert i < j ==> rows[i].id != rows[j].id;
    assert j < i ==> rows[j].id != rows[i].id;
  }

  /** A row not among the deleted rows keeps its place: its key is not deleted. */
  lemma NotDeleted(rows: seq<Priority>, next: nat, dels: seq<Priority>, p: Priority)
    requires KeysBelow(rows, next) && (forall q :: q in dels ==> q in rows)
    requires p in rows && p !in dels
    ensures p.id !in Keys(dels)
  {
    forall q | q in dels
      ensures q.id != p.id
    {
      KeyDistinct(rows, next, p, q);
    }
  }

  /** The card ids whose create does not fail, in order. */
  function Kept(cs: seq<string>, rejected: set<string>): seq<string>
  {
    if |cs| == 0 then []
    else Kept(cs[..|cs| - 1], rejected) + (if cs[|cs| - 1] in rejected then [] else [cs[|cs| - 1]])
  }

  lemma {:induction false} KeptAll(cs: seq<string>, rejected: set<string>)
    requires forall c :: c in cs ==> c !in rejected
    ensures Kept(cs, rejected) == cs
  {
    if |cs| > 0 {
      var front := cs[..|cs| - 1];
      assert forall c :: c in front ==> c in cs;
      KeptAll(front, rejected);
      assert cs == front + [cs[|cs| - 1]];
    }
  }

  lemma NewRowsSnoc(cs: seq<string>, c: string, start: nat, u: JsId, week: int)
    ensures NewRows(cs + [c], start, u, week) == NewRows(cs, start, u, week) + [Priority(start + |cs|, u, Text(c), week)]
  {
  }

  lemma KeysSnoc(rows: seq<Priority>, p: Priority)
    ensures Keys(rows + [p]) == Keys(rows) + {p.id}
  {
    assert forall q :: q in rows + [p] <==> q in rows || q == p;
  }

  /** The empty-selection branch: delete the week rows of the user, compared with `===`. */
  function ClearResult(rows: seq<Priority>, u: JsId, today: int): seq<Priority>
  {
    Without(rows, Keys(ForUserStrict(OfWeek(rows, WeekMonday(today)), u)))
  }

  /**
   * The rows after a save with a non-empty selection: every create that
   * is not rejected adds a row in order; when none is rejected, the
   * dropped priorities are then deleted, and otherwise the save stops
   * before deleting.
   */
  function SaveResult(rows: seq<Priority>, next: nat, u: JsId, selected: seq<JsId>, today: int, rejected: set<string>): seq<Priority>
  {
    var week := WeekMonday(today);
    var existing := ForUser(OfWeek(rows, week), u);
    var creates := ToCreate(selected, existing);
    if exists c :: c in creates && c in rejected then
      rows + NewRows(Kept(creates, rejected), next, u, week)
    else
      Without(rows + NewRows(creates, next, u, week), Keys(ToDelete(selected, existing)))
  }

  /** The card ids of user `u`'s rows for the week, as text. */
  function WeekCards(rows: seq<Priority>, u: JsId, week: int): set<string>
  {
    set p | p in rows && p.semana == week && Str(p.usuario) == Str(u) :: Str(p.card)
  }

  lemma ExistingMembers(rows: seq<Priority>, week: int, u: JsId, p: Priority)
    ensures p in ForUser(OfWeek(rows, week), u) <==> p in rows && p.semana == week && Str(p.usuario) == Str(u)
  {
  }

  /**
   * A save that went through leaves the user exactly the selected cards
   * for the week: every selected card has a priority, every other
   * priority of theirs is gone, and rows of other users and weeks stay.
   */
  lemma SaveReconciles(rows: seq<Priority>, next: nat, u: JsId, selected: seq<JsId>, today: int, rejected: set<string>)
    requires KeysBelow(rows, next)
    requires forall c :: c in ToCreate(selected, ForUser(OfWeek(rows, WeekMonday(today)), u)) ==> c !in rejected
    ensures WeekCards(SaveResult(rows, next, u, selected, today, rejected), u, WeekMonday(today))
            == set id | id in StrIds(selected)
    ensures forall p :: p in rows && (p.semana != WeekMonday(today) || Str(p.usuario) != Str(u)) ==>
              p in SaveResult(rows, next, u, selected, today, rejected)
  {
    var week := WeekMonday(today);
    var existing := ForUser(OfWeek(rows, week), u);
    var creates := ToCreate(selected, existing);
    var created := NewRows(creates, next, u, week);
    var dels := ToDelete(selected, existing);
    var result := SaveResult(rows, next, u, selected, today, rejected);
    assert result == Without(rows + created, Keys(dels));
    WithoutMembers(rows + created, Keys(dels));
    SaveKeepsOthers(rows, next, u, week, created, existing, dels, result);
    SavedCardsSelected(rows, next, u, selected, week, existing, creates, created, dels, result);
    SelectedCardsSaved(rows, next, u, selected, week, existing, creates, created, dels, result);
  }

  lemma SaveKeepsOthers(rows: seq<Priority>, next: nat, u: JsId, week: int, created: seq<Priority>,
                        existing: seq<Priority>, dels: seq<Priority>, result: seq<Priority>)
    requires KeysBelow(rows, next)
    requires existing == ForUser(OfWeek(rows, week), u)
    requires forall p :: p in dels ==> p in existing
    requires forall p :: p in result <==> p in rows + created && p.id !in Keys(dels)
    ensures forall p :: p in rows && (p.semana != week || Str(p.usuario) != Str(u)) ==> p in result
  {
    forall p | p in rows && (p.semana != week || Str(p.usuario) != Str(u))
      ensures p in result
    {
      ExistingMembers(rows, week, u, p);
      NotDeleted(rows, next, dels, p);
    }
  }

  lemma SavedCardsSelected(rows: seq<Priority>, next: nat, u: JsId, selected: seq<JsId>, week: int,
                           existing: seq<Priority>, creates: seq<string>, created: seq<Priority>,
                           dels: seq<Priority>, result: seq<Priority>)
    requires existing == ForUser(OfWeek(rows, week), u)
    requires creates == ToCreate(selected, existing) && created == NewRows(creates, next, u, week)
    requires dels == ToDelete(selected, existing)
    requires forall p :: p in result <==> p in rows + created && p.id !in Keys(dels)
    ensures WeekCards(result, u, week) <= set id | id in StrIds(selected)
  {
    forall s | s in WeekCards(result, u, week)
      ensures s in StrIds(selected)
    {
      var p :| p in result && p.semana == week && Str(p.usuario) == Str(u) && Str(p.card) == s;
      if p in rows {
        ExistingMembers(rows, week, u, p);
        assert p !in dels;
      } else {
        var k :| 0 <= k < |created| && created[k] == p;
        assert creates[k] in creates;
      }
    }
  }

  lemma SelectedCardsSaved(rows: seq<Priority>, next: nat, u: JsId, selected: seq<JsId>, week: int,
                           existing: seq<Priority>, creates: seq<string>, created: seq<Priority>,
                           dels: seq<Priority>, result: seq<Priority>)
    requires KeysBelow(rows, next)
    requires existing == ForUser(OfWeek(rows, week), u)
    requires creates == ToCreate(selected, existing) && created == NewRows(creates, next, u, week)
    requires dels == ToDelete(selected, existing)
    requires forall p :: p in result <==> p in rows + created && p.id !in Keys(dels)
    ensures (set id | id in StrIds(selected)) <= WeekCards(result, u, week)
  {
    forall s | s in StrIds(selected)
      ensures s in WeekCards(result, u, week)
    {
      if s in CardIds(existing) {
        KeptPriority(rows, next, u, selected, week, existing, created, dels, result, s);
      } else {
        CreatedPriority(rows, next, u, selected, week, existing, creates, created, dels, result, s);
      }
    }
  }

  /** A selected card that already had a priority keeps it. */
  lemma KeptPriority(rows: seq<Priority>, next: nat, u: JsId, selected: seq<JsId>, week: int,
                     existing: seq<Priority>, created: seq<Priority>,
                     dels: seq<Priority>, result: seq<Priority>, s: string)
    requires KeysBelow(rows, next)
    requires existing == ForUser(OfWeek(rows, week), u)
    requires dels == ToDelete(selected, existing)
    requires forall p :: p in result <==> p in rows + created && p.id !in Keys(dels)
    requires s in StrIds(selected) && s in CardIds(existing)
    ensures s in WeekCards(result, u, week)
  {
    var k :| 0 <= k < |existing| && CardIds(existing)[k] == s;
    var p := existing[k];
    ExistingMembers(rows, week, u, p);
    assert p !in dels;
    NotDeleted(rows, next, dels, p);
    assert p in result;
  }

  /** A selected card without a priority gets the one created for it. */
  lemma CreatedPriority(rows: seq<Priority>, next: nat, u: JsId, selected: seq<JsId>, week: int,
                        existing: seq<Priority>, creates: seq<string>, created: seq<Priority>,
                        dels: seq<Priority>, result: seq<Priority>, s: string)
    requires KeysBelow(rows, next)
    requires existing == ForUser(OfWeek(rows, week), u)
    requires creates == ToCreate(selected, existing) && created == NewRows(creates, next, u, week)
    requires dels == ToDelete(selected, existing)
    requires forall p :: p in result <==> p in rows + created && p.id !in Keys(dels)
    requires s in StrIds(selected) && s !in CardIds(existing)
    ensures s in WeekCards(result, u, week)
  {
    assert s in creates;
    var k :| 0 <= k < |creates| && creates[k] == s;
    var p := created[k];
    assert p.id !in Keys(dels) by {
      forall q | q in dels
        ensures q.id != p.id
      {
        var i :| 0 <= i < |rows| && rows[i] == q;
      }
    }
    assert p in result;
  }

  /** `===` on ids finds a subset of what `String` comparison finds, and the same rows when both ids are numbers or both strings. */
  lemma StrictFindsLess(rows: seq<Priority>, u: JsId, p: Priority)
    ensures p in ForUserStrict(rows, u) ==> p in ForUser(rows, u)
    ensures p.usuario.Num? == u.Num? ==> (p in ForUserStrict(rows, u) <==> p in ForUser(rows, u))
  {
    if p.usuario.Num? && u.Num? {
      NatToStringValue(p.usuario.n);
      NatToStringValue(u.n);
    }
  }

  /**
   * The empty selection deletes the week rows whose `usuario` is the
   * user's id by `===`: a row held as a number while the user's id is
   * held as the same number in a string survives, though the save of a
   * non-empty selection counts it as the user's.
   */
  lemma EmptySelectionStrictCompare(n: nat, id: nat, card: JsId, today: int)
    ensures var rows := [Priority(id, Num(n), card, WeekMonday(today))];
            var u := Text(NatToString(n));
            ForUser(OfWeek(rows, WeekMonday(today)), u) == rows
            && WeekCards(ClearResult(rows, u, today), u, WeekMonday(today)) == {Str(card)}
  {
    var rows := [Priority(id, Num(n), card, WeekMonday(today))];
    var u := Text(NatToString(n));
    assert rows[..0] == [];
    assert OfWeek(rows, WeekMonday(today)) == rows;
    assert ForUserStrict(rows, u) == [];
    assert Keys([]) == {};
    WithoutNothing(rows);
    assert ClearResult(rows, u, today) == rows;
  }

  /** When every row's `usuario` has the same kind as the user's id, clearing removes all the user's week priorities and nothing else. */
  lemma ClearEmpties(rows: seq<Priority>, next: nat, u: JsId, today: int)
    requires KeysBelow(rows, next)
    requires forall p :: p in rows ==> p.usuario.Num? == u.Num?
    ensures WeekCards(ClearResult(rows, u, today), u, WeekMonday(today)) == {}
    ensures forall p :: p in rows && (p.semana != WeekMonday(today) || Str(p.usuario) != Str(u)) ==>
              p in ClearResult(rows, u, today)
  {
    var week := WeekMonday(today);
    var dels := ForUserStrict(OfWeek(rows, week), u);
    WithoutMembers(rows, Keys(dels));
    forall p | p in ClearResult(rows, u, today) && p.semana == week
      ensures Str(p.usuario) != Str(u)
    {
      StrictFindsLess(OfWeek(rows, week), u, p);
    }
    forall p | p in rows && (p.semana != week || Str(p.usuario) != Str(u))
      ensures p in ClearResult(rows, u, today)
    {
      StrictFindsLess(OfWeek(rows, week), u, p);
      NotDeleted(rows, next, dels, p);
    }
  }

  // ------------------------------------------------------------------
  // The priority table and handleSavePriority
  // ------------------------------------------------------------------

  /** The `WeeklyPriority` table as the save sees it, with its next key. */
  class PriorityStore {
    var rows: seq<Priority>
    var next: nat

    ghost predicate Valid()
      reads this
    {
      KeysBelow(rows, next)
    }

    constructor ()
      ensures rows == [] && next == 0 && Valid()
    {
      rows := [];
      next := 0;
    }

    /** `weeklyPriorityService.create`: a row under the next key. */
    method Create(u: JsId, card: string, week: int)
      requires Valid()
      modifies this
      ensures rows == old(rows) + [Priority(old(next), u, Text(card), week)] && next == old(next) + 1
      ensures Valid()
    {
      rows := rows + [Priority(next, u, Text(card), week)];
      next := next + 1;
    }

    /** `weeklyPriorityService.delete`. */
    method Delete(id: nat)
      requires Valid()
      modifies this
      ensures rows == Without(old(rows), {id}) && next == old(next)
      ensures Valid()
    {
      WithoutMembers(rows, {id});
      WithoutKeepsKeys(rows, {id}, next);
      rows := Without(rows, {id});
    }
  }

  lemma {:induction false} WithoutKeepsKeys(rows: seq<Priority>, ids: set<nat>, next: nat)
    requires KeysBelow(rows, next)
    ensures KeysBelow(Without(rows, ids), next)
  {
    if |rows| > 0 {
      var front := rows[..|rows| - 1];
      assert KeysBelow(front, next);
      WithoutKeepsKeys(front, ids, next);
      WithoutMembers(front, ids);
      var w := Without(front, ids);
      var last := rows[|rows| - 1];
      forall q | q in w
        ensures q.id != last.id
      {
        KeyDistinct(rows, next, q, last);
      }
    }
  }

  /** `for (const priority of list) await weeklyPriorityService.delete(priority.id)`. */
  method DeleteAll(store: PriorityStore, list: seq<Priority>)
    requires store.Valid()
    modifies store
    ensures store.rows == Without(old(store.rows), Keys(list)) && store.next == old(store.next)
    ensures store.Valid()
  {
    WithoutNothing(store.rows);
    ghost var start := store.rows;
    assert Keys(list[..0]) == {} by {
      assert list[..0] == [];
    }
    var i := 0;
    while i < |list|
      invariant 0 <= i <= |list| && store.Valid() && store.next == old(store.next)
      invariant store.rows == Without(start, Keys(list[..i]))
    {
      WithoutTwice(start, Keys(list[..i]), {list[i].id});
      assert list[..i + 1] == list[..i] + [list[i]];
      KeysSnoc(list[..i], list[i]);
      store.Delete(list[i].id);
      i := i + 1;
    }
    assert list[..i] == list;
  }

  lemma CreateStep(cards: seq<string>, i: nat, rejected: set<string>)
    requires i < |cards|
    ensures Kept(cards[..i + 1], rejected)
            == Kept(cards[..i], rejected) + (if cards[i] in rejected then [] else [cards[i]])
  {
    assert cards[..i + 1][..i] == cards[..i];
  }

  /**
   * The creates of `Promise.all(createPromises)`: each card id not in
   * `rejected` becomes a row; `failed` reports whether any create was
   * rejected with an error other than the duplicate 400.
   */
  method CreateAll(store: PriorityStore, u: JsId, cards: seq<string>, week: int, rejected: set<string>)
    returns (failed: bool)
    requires store.Valid()
    modifies store
    ensures failed <==> exists c :: c in cards && c in rejected
    ensures store.rows == old(store.rows) + NewRows(Kept(cards, rejected), old(store.next), u, week)
    ensures store.next == old(store.next) + |Kept(cards, rejected)|
    ensures store.Valid()
  {
    failed := false;
    ghost var start, next0 := store.rows, store.next;
    ghost var kept: seq<string> := [];
    var i := 0;
    while i < |cards|
      invariant 0 <= i <= |cards| && store.Valid()
      invariant failed <==> exists k :: 0 <= k < i && cards[k] in rejected
      invariant kept == Kept(cards[..i], rejected)
      invariant store.rows == start + NewRows(kept, next0, u, week) && store.next == next0 + |kept|
    {
      CreateStep(cards, i, rejected);
      NewRowsSnoc(kept, cards[i], next0, u, week);
      if cards[i] in rejected {
        failed := true;
        assert kept + [] == kept;
      } else {
        store.Create(u, cards[i], week);
        kept := kept + [cards[i]];
      }
      assert kept == Kept(cards[..i + 1], rejected);
      i := i + 1;
    }
    assert failed <==> exists c :: c in cards && c in rejected;
    assert cards[..i] == cards;
  }

  /**
   * `handleSavePriority` for the user `u` on day `today`; `rejected` are
   * the card ids whose create fails with an error other than the
   * duplicate 400. An empty selection clears the user's week; otherwise
   * the missing priorities are created and, when no create failed, the
   * dropped ones are deleted. `ok` is false when the save threw.
   */
  method HandleSavePriority(store: PriorityStore, u: JsId, selected: seq<JsId>, today: int, rejected: set<string>)
    returns (ok: bool)
    requires store.Valid()
    modifies store
    ensures store.Valid()
    ensures |selected| == 0 ==> ok && store.rows == ClearResult(old(store.rows), u, today)
    ensures |selected| > 0 ==> store.rows == SaveResult(old(store.rows), old(store.next), u, selected, today, rejected)
    ensures |selected| > 0 ==>
              (ok <==> forall c :: c in ToCreate(selected, ForUser(OfWeek(old(store.rows), WeekMonday(today)), u)) ==> c !in rejected)
  {
    var week := WeekMonday(today);
    var weekRows := OfWeek(store.rows, week);
    if |selected| == 0 {
      DeleteAll(store, ForUserStrict(weekRows, u));
      return true;
    }
    var existing := ForUser(weekRows, u);
    var creates := ToCreate(selected, existing);
    var dels := ToDelete(selected, existing);
    var failed := CreateAll(store, u, creates, week, rejected);
    if failed {
      return false;
    }
    assert Kept(creates, rejected) == creates by {
      KeptAll(creates, rejected);
    }
    DeleteAll(store, dels);
    ok := true;
  }
}
