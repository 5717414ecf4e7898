/**
 * frontend/src/pages/MyTasks.tsx: the developer's task page. It cycles a
 * TODO's status, counts the days left to a delivery date, adds TODOs, and
 * in the overview filters, sorts and groups the cards.
 *
 * Instants are milliseconds since the epoch (`getTime()`), with the
 * current instant a parameter; a date field that is present is given as
 * its instant.
 */
module MyTasks {
  import opened Common
  import opened Calendar
  import opened Models
  import ProjectViews
  import Sorting

  // ------------------------------------------------------------------
  // TODO status cycle
  // ------------------------------------------------------------------

  /** `getNextStatus` on the four statuses. */
  function NextStatus(s: TodoStatus): TodoStatus
  {
    match s
    case Pending => Completed
    case Completed => Blocked
    case Blocked => Warning
    case Warning => Pending
  }

  /** `getNextStatus` on the stored text: an unknown status restarts at 'pending'. */
  function NextStatusOfText(s: string): TodoStatus
  {
    match ProjectViews.ParseTodoStatus(s)
    case Some(t) => NextStatus(t)
    case None => Pending
  }

  /**
   * Clicking cycles through all four statuses: four clicks come back to
   * the start and no fewer do, and every status is reached from 'pending'.
   */
  lemma NextStatusCycle(s: TodoStatus)
    ensures NextStatus(NextStatus(NextStatus(NextStatus(s)))) == s
    ensures NextStatus(s) != s && NextStatus(NextStatus(s)) != s && NextStatus(NextStatus(NextStatus(s))) != s
    ensures s == Pending || s == NextStatus(Pending) || s == NextStatus(NextStatus(Pending))
            || s == NextStatus(NextStatus(NextStatus(Pending)))
  {
  }

  /** The text of a status steps like the status; any other text steps to 'pending'. */
  lemma NextStatusOfTextMeaning(s: string)
    ensures ProjectViews.ParseTodoStatus(s).None? ==> NextStatusOfText(s) == Pending
    ensures forall t: TodoStatus :: s == TodoStatusCode(t) ==> NextStatusOfText(s) == NextStatus(t)
  {
    forall t: TodoStatus | s == TodoStatusCode(t)
      ensures NextStatusOfText(s) == NextStatus(t)
    {
      ProjectViews.ParseTodoStatusCode(t);
    }
  }

  // ------------------------------------------------------------------
  // Days remaining
  // ------------------------------------------------------------------

  datatype DaysLeft = DaysLeft(days: int, isOverdue: bool)

  /** `calculateDaysRemaining`: whole days to the date, rounded up; overdue when that is negative. */
  function CalculateDaysRemaining(date: Option<int>, now: int): (r: DaysLeft)
    ensures date.None? ==> r == DaysLeft(0, false)
    ensures date.Some? ==> (r.days - 1) * DayMs < date.value - now <= r.days * DayMs
    ensures date.Some? ==> (r.isOverdue <==> r.days < 0)
  {
    match date
    case None => DaysLeft(0, false)
    case Some(t) =>
      var d := CeilDiv(t - now, DayMs);
      DaysLeft(d, d < 0)
  }

  /** A date is overdue exactly when it lies a whole day or more before now. */
  lemma OverdueMeansADayLate(t: int, now: int)
    ensures CalculateDaysRemaining(Some(t), now).isOverdue <==> t + DayMs <= now
  {
    var d := CalculateDaysRemaining(Some(t), now).days;
    if d < 0 {
      assert d * DayMs <= -DayMs;
    } else {
      assert (d - 1) * DayMs >= -DayMs;
    }
  }

  // ------------------------------------------------------------------
  // TODOs of a card
  // ------------------------------------------------------------------

  /** A TODO as the page holds it. */
  datatype PageTodo = PageTodo(id: string, text: string, isOriginal: bool, status: string, order: int)

  /** `canDelete` of a TODO row: only added TODOs, and only when the card may be edited. */
  predicate CanDeleteTodo(todo: PageTodo, canEdit: bool)
  {
    !todo.isOriginal && canEdit
  }

  /** The body of the create request `handleTodoAdd` sends. */
  datatype TodoRequest = TodoRequest(card: string, text: string, isOriginal: bool, status: string, order: int)

  /** `handleTodoAdd`: an added TODO is not original, starts pending, and goes after the card's current TODOs. */
  function NewTodoRequest(todos: seq<PageTodo>, cardId: string, text: string): (r: TodoRequest)
    ensures r.card == cardId && r.text == text
    ensures !r.isOriginal && r.status == "pending" && r.order == |todos|
  {
    TodoRequest(cardId, text, false, "pending", |todos|)
  }

  /** The TODO the server returns for a request, under the id it assigns. */
  function Created(req: TodoRequest, id: string): PageTodo
  {
    PageTodo(id, req.text, req.isOriginal, req.status, req.order)
  }

  /** Orders that number the list from 0. */
  predicate NumberedFromZero(todos: seq<PageTodo>)
  {
    forall k :: 0 <= k < |todos| ==> todos[k].order == k
  }

  /**
   * Adding keeps a card's TODOs numbered 0, 1, 2, … in list order, and the
   * new row may be deleted exactly when the card may be edited.
   */
  lemma AddedTodoKeepsNumbering(todos: seq<PageTodo>, cardId: string, text: string, id: string, canEdit: bool)
    requires NumberedFromZero(todos)
    ensures NumberedFromZero(todos + [Created(NewTodoRequest(todos, cardId, text), id)])
    ensures CanDeleteTodo(Created(NewTodoRequest(todos, cardId, text), id), canEdit) <==> canEdit
  {
    var t := todos + [Created(NewTodoRequest(todos, cardId, text), id)];
    forall k | 0 <= k < |t|
      ensures t[k].order == k
    {
      if k < |todos| {
        assert t[k] == todos[k];
      }
    }
  }

  // ------------------------------------------------------------------
  // The overview: filters
  // ------------------------------------------------------------------

  /**
   * The fields of a card the overview reads; an empty string is missing.
   * `dataFim` is the instant of `data_fim` when it is set.
   */
  datatype TaskCard = TaskCard(
    id: string, nome: string, status: string, responsavel: string, dataFim: Option<int>,
    projeto: string, projectName: string, sprintId: string, sprintName: string)

  /** The cards of a tab: 'concluidas' shows the delivered ones, every other tab the rest. */
  function TabCards(cards: seq<TaskCard>, periodo: string): (r: seq<TaskCard>)
  {
    if periodo == "concluidas" then FilterSeq(cards, (c: TaskCard) => c.status == "finalizado")
    else FilterSeq(cards, (c: TaskCard) => c.status != "finalizado")
  }

  /** Each card shows in the 'concluidas' tab or in the other tabs, never in both. */
  lemma TabsPartition(cards: seq<TaskCard>, periodo: string, c: TaskCard)
    requires c in cards && periodo != "concluidas"
    ensures c in TabCards(cards, "concluidas") <==> c !in TabCards(cards, periodo)
    ensures c in TabCards(cards, "concluidas") <==> c.status == "finalizado"
  {
  }

  function ByUser(cards: seq<TaskCard>, user: string): seq<TaskCard>
  {
    if user == "all" then cards else FilterSeq(cards, (c: TaskCard) => c.responsavel == user)
  }

  function BySearch(cards: seq<TaskCard>, search: string): seq<TaskCard>
  {
    if JsTrim(search) == "" then cards
    else FilterSeq(cards, (c: TaskCard) => ContainsStr(Lower(c.nome), Lower(search)))
  }

  /** 'atrasados': a delivery date before now on a card not delivered. */
  predicate IsLate(c: TaskCard, now: int)
  {
    c.dataFim.Some? && c.dataFim.value < now && c.status != "finalizado"
  }

  /** The stage filter; an unknown choice, like 'todos_com_entregues', keeps everything. */
  function ByEtapa(cards: seq<TaskCard>, etapa: string, now: int): seq<TaskCard>
  {
    if etapa == "em_desenvolvimento" then FilterSeq(cards, (c: TaskCard) => c.status == "em_desenvolvimento")
    else if etapa == "a_desenvolver" then FilterSeq(cards, (c: TaskCard) => c.status == "a_desenvolver")
    else if etapa == "atrasados" then FilterSeq(cards, (c: TaskCard) => IsLate(c, now))
    else if etapa == "entregues" then FilterSeq(cards, (c: TaskCard) => c.status == "finalizado")
    else if etapa == "todos_sem_entregues" then FilterSeq(cards, (c: TaskCard) => c.status != "finalizado")
    else cards
  }

  /** The three filters, applied in the page's order. */
  function Filtered(cards: seq<TaskCard>, user: string, search: string, etapa: string, now: int): seq<TaskCard>
  {
    ByEtapa(BySearch(ByUser(cards, user), search), etapa, now)
  }

  /** What passes the user and search filters. */
  predicate PassesUserAndSearch(c: TaskCard, user: string, search: string)
  {
    (user == "all" || c.responsavel == user)
    && (JsTrim(search) == "" || ContainsStr(Lower(c.nome), Lower(search)))
  }

  lemma UserAndSearchMembers(cards: seq<TaskCard>, user: string, search: string, c: TaskCard)
    ensures c in BySearch(ByUser(cards, user), search) <==> c in cards && PassesUserAndSearch(c, user, search)
  {
  }

  /** The 'atrasados' view holds exactly the late cards that pass the other two filters. */
  lemma LateViewMembers(cards: seq<TaskCard>, user: string, search: string, now: int, c: TaskCard)
    ensures c in Filtered(cards, user, search, "atrasados", now) <==>
              c in cards && PassesUserAndSearch(c, user, search) && IsLate(c, now)
  {
    UserAndSearchMembers(cards, user, search, c);
  }

  /** The stage filter only drops cards. */
  lemma ByEtapaSubset(cards: seq<TaskCard>, etapa: string, now: int, c: TaskCard)
    requires c in ByEtapa(cards, etapa, now)
    ensures c in cards
  {
  }

  /** The filters only ever drop cards: the overview never shows more than it was given. */
  lemma FilteredIsSubset(cards: seq<TaskCard>, user: string, search: string, etapa: string, now: int, c: TaskCard)
    requires c in Filtered(cards, user, search, etapa, now)
    ensures c in cards && PassesUserAndSearch(c, user, search)
  {
    ByEtapaSubset(BySearch(ByUser(cards, user), search), etapa, now, c);
    UserAndSearchMembers(cards, user, search, c);
  }

  // ------------------------------------------------------------------
  // The overview: sorting by delivery date
  // ------------------------------------------------------------------

  /** `a.data_fim ? getTime() : 0`. */
  function DateKey(c: TaskCard): int
  {
    if c.dataFim.Some? then c.dataFim.value else 0
  }

  /** The comparator of the sort: undated cards (key 0) last, the others by date. */
  function Compare(a: TaskCard, b: TaskCard, asc: bool): int
  {
    var dateA := DateKey(a);
    var dateB := DateKey(b);
    if dateA == 0 && dateB == 0 then 0
    else if dateA == 0 then 1
    else if dateB == 0 then -1
    else if asc then dateA - dateB
    else dateB - dateA
  }

  /** A sort key that orders the cards as the comparator does. */
  function SortKey(asc: bool): TaskCard -> seq<int>
  {
    (c: TaskCard) =>
      if DateKey(c) == 0 then [1, 0]
      else [0, if asc then DateKey(c) else -DateKey(c)]
  }

  /** The key agrees with the comparator: one card's key is at most another's exactly when the comparator does not put it after. */
  lemma SortKeyAgrees(a: TaskCard, b: TaskCard, asc: bool)
    ensures Sorting.LexLe(SortKey(asc)(a), SortKey(asc)(b)) <==> Compare(a, b, asc) <= 0
  {
    var ka := SortKey(asc)(a);
    var kb := SortKey(asc)(b);
    assert ka[1..] == [ka[1]] && kb[1..] == [kb[1]];
    Sorting.LexLeSingleton(ka[1], kb[1]);
  }

  /** The overview after sorting: the filtered cards, stably sorted by the comparator. */
  function SortedCards(cards: seq<TaskCard>, sort: Option<bool>): seq<TaskCard>
  {
    if sort.Some? then Sorting.SortBy(cards, SortKey(sort.value)) else cards
  }

  /**
   * The sort keeps the cards, orders every pair as the comparator asks,
   * and puts the cards without a delivery date after all the others, in
   * both directions.
   */
  lemma SortedCardsMeaning(cards: seq<TaskCard>, asc: bool, i: nat, j: nat)
    requires i < j < |cards|
    ensures multiset(SortedCards(cards, Some(asc))) == multiset(cards)
    ensures Compare(SortedCards(cards, Some(asc))[i], SortedCards(cards, Some(asc))[j], asc) <= 0
    ensures DateKey(SortedCards(cards, Some(asc))[i]) == 0 ==> DateKey(SortedCards(cards, Some(asc))[j]) == 0
  {
    var s := SortedCards(cards, Some(asc));
    Sorting.SortBySorted(cards, SortKey(asc));
    assert Sorting.LexLe(SortKey(asc)(s[i]), SortKey(asc)(s[j]));
    SortKeyAgrees(s[i], s[j], asc);
  }

  // ------------------------------------------------------------------
  // The overview: grouping
  // ------------------------------------------------------------------

  datatype GroupBy = ByResponsavel | BySprint | ByProjeto | NoGrouping

  /** The group key of a card. */
  function GroupKey(grouping: GroupBy, c: TaskCard): string
  {
    match grouping
    case ByResponsavel => if c.responsavel != "" then c.responsavel else "sem_responsavel"
    case BySprint =>
      (if c.sprintId != "" then c.sprintId else "sem_sprint") + "|" + (if c.sprintName != "" then c.sprintName else "Sem Sprint")
    case ByProjeto =>
      (if c.projeto != "" then c.projeto else "sem_projeto") + "|" + (if c.projectName != "" then c.projectName else "Sem Projeto")
    case NoGrouping => ""
  }

  /** The cards of group `k`, in list order. */
  function GroupOf(cards: seq<TaskCard>, grouping: GroupBy, k: string): seq<TaskCard>
  {
    FilterSeq(cards, (c: TaskCard) => GroupKey(grouping, c) == k)
  }

  /** The keys the cards fall under. */
  function KeysOf(cards: seq<TaskCard>, grouping: GroupBy): set<string>
  {
    set c | c in cards :: GroupKey(grouping, c)
  }

  lemma GroupOfSnoc(cards: seq<TaskCard>, c: TaskCard, grouping: GroupBy, k: string)
    ensures GroupOf(cards + [c], grouping, k) == GroupOf(cards, grouping, k) + (if GroupKey(grouping, c) == k then [c] else [])
  {
    assert (cards + [c])[..|cards|] == cards;
  }

  lemma KeysOfSnoc(cards: seq<TaskCard>, c: TaskCard, grouping: GroupBy)
    ensures KeysOf(cards + [c], grouping) == KeysOf(cards, grouping) + {GroupKey(grouping, c)}
  {
    assert forall x :: x in cards + [c] <==> x in cards || x == c;
  }

  /** The record after grouping `done` cards. */
  ghost predicate GroupsOf(grouped: map<string, seq<TaskCard>>, done: seq<TaskCard>, grouping: GroupBy)
  {
    grouped.Keys == KeysOf(done, grouping)
    && forall k :: k in grouped ==> grouped[k] == GroupOf(done, grouping, k)
  }

  /** A key no card falls under has an empty group. */
  lemma GroupOfAbsent(cards: seq<TaskCard>, grouping: GroupBy, k: string)
    requires k !in KeysOf(cards, grouping)
    ensures GroupOf(cards, grouping, k) == []
  {
    CountZero(cards, (x: TaskCard) => GroupKey(grouping, x) == k);
  }

  /** `grouped[key] = grouped[key] || []; grouped[key].push(card)`. */
  function Push(grouped: map<string, seq<TaskCard>>, k: string, c: TaskCard): map<string, seq<TaskCard>>
  {
    grouped[k := (if k in grouped then grouped[k] else []) + [c]]
  }

  lemma GroupStepValues(grouped: map<string, seq<TaskCard>>, done: seq<TaskCard>, c: TaskCard, grouping: GroupBy, j: string)
    requires forall k :: k in grouped ==> grouped[k] == GroupOf(done, grouping, k)
    requires GroupKey(grouping, c) !in grouped ==> GroupOf(done, grouping, GroupKey(grouping, c)) == []
    requires j in Push(grouped, GroupKey(grouping, c), c)
    ensures Push(grouped, GroupKey(grouping, c), c)[j] == GroupOf(done + [c], grouping, j)
  {
    GroupOfSnoc(done, c, grouping, j);
  }

  lemma GroupStep(grouped: map<string, seq<TaskCard>>, done: seq<TaskCard>, c: TaskCard, grouping: GroupBy)
    requires GroupsOf(grouped, done, grouping)
    ensures GroupsOf(Push(grouped, GroupKey(grouping, c), c), done + [c], grouping)
  {
    var k := GroupKey(grouping, c);
    KeysOfSnoc(done, c, grouping);
    if k !in grouped {
      GroupOfAbsent(done, grouping, k);
    }
    forall j | j in Push(grouped, k, c)
      ensures Push(grouped, k, c)[j] == GroupOf(done + [c], grouping, j)
    {
      GroupStepValues(grouped, done, c, grouping, j);
    }
  }

  lemma TakeSnoc<T>(s: seq<T>, i: nat)
    requires i < |s|
    ensures s[..i + 1] == s[..i] + [s[i]]
  {
  }

  /**
   * `grouped` fills one list per key in a loop over the cards; the three
   * groupings differ only in the key.
   */
  method GroupCards(cards: seq<TaskCard>, grouping: GroupBy) returns (grouped: map<string, seq<TaskCard>>)
    requires grouping != NoGrouping
    ensures grouped.Keys == KeysOf(cards, grouping)
    ensures forall k :: k in grouped ==> grouped[k] == GroupOf(cards, grouping, k)
  {
    grouped := map[];
    var i := 0;
    while i < |cards|
      invariant 0 <= i <= |cards|
      invariant GroupsOf(grouped, cards[..i], grouping)
    {
      var card := cards[i];
      GroupStep(grouped, cards[..i], card, grouping);
      TakeSnoc(cards, i);
      grouped := Push(grouped, GroupKey(grouping, card), card);
      i := i + 1;
    }
    assert cards[..i] == cards;
  }

  /**
   * Every card lands in exactly one group, the one of its key; a group
   * holds only cards of its key, each in list order.
   */
  lemma GroupsPartition(cards: seq<TaskCard>, grouping: GroupBy, c: TaskCard, k: string)
    requires c in cards
    ensures GroupKey(grouping, c) in KeysOf(cards, grouping)
    ensures k in KeysOf(cards, grouping) ==> (c in GroupOf(cards, grouping, k) <==> GroupKey(grouping, c) == k)
  {
  }

  /**
   * `getFilteredAndGroupedCards`: filter by user, by name and by stage,
   * sort when asked, then group; an unknown grouping yields no groups.
   */
  method GetFilteredAndGroupedCards(allCards: seq<TaskCard>, filterUser: string, filterSearch: string,
                                   filterEtapa: string, now: int, sort: Option<bool>, grouping: GroupBy)
    returns (grouped: map<string, seq<TaskCard>>)
    ensures var shown := SortedCards(Filtered(allCards, filterUser, filterSearch, filterEtapa, now), sort);
            (grouping == NoGrouping ==> grouped == map[])
            && (grouping != NoGrouping ==>
                  grouped.Keys == KeysOf(shown, grouping)
                  && forall k :: k in grouped ==> grouped[k] == GroupOf(shown, grouping, k))
  {
    var filtered := allCards;
    if filterUser != "all" {
      filtered := FilterSeq(filtered, (c: TaskCard) => c.responsavel == filterUser);
    }
    if JsTrim(filterSearch) != "" {
      filtered := FilterSeq(filtered, (c: TaskCard) => ContainsStr(Lower(c.nome), Lower(filterSearch)));
    }
    filtered := ByEtapa(filtered, filterEtapa, now);
    if sort.Some? {
      filtered := Sorting.SortBy(filtered, SortKey(sort.value));
    }
    if grouping == NoGrouping {
      return map[];
    }
    grouped := GroupCards(filtered, grouping);
  }
}
