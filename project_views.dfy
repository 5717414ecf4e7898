/**
 * backend/apps/projects/views.py: the decisions the REST views take
 * themselves — the guard on demands, the TODO status action, the order
 * of the daily priorities view, closing a week and clearing its
 * priorities, and the duplicate check on new weekly priorities.
 * (`SprintViewSet.finalizar` is `Rollover.Store.Finalizar`.)
 *
 * "Today" is a day number; a request's user is its id and role.
 */
module ProjectViews {
  import opened Common
  import opened Calendar
  import opened Models
  import opened Sorting
  import opened NotificationUtils
  import opened Signals
  import opened Serializers

  // ------------------------------------------------------------------
  // CardViewSet.update / destroy: demands
  // ------------------------------------------------------------------

  /** The project whose cards are demands. */
  const SuggestionsProject := "Sugestões"

  datatype Verb = Edit | Delete

  /** Who may change a card: anyone outside the demands project; there, a supervisor, an admin or its creator. */
  predicate MayChange(projectName: string, role: Role, criadoPor: Option<UserId>, user: UserId)
  {
    projectName != SuggestionsProject || IsSupervisorOrAdmin(role) || criadoPor == Some(user)
  }

  function RefusalText(v: Verb): string
  {
    match v
    case Edit => "Você só pode editar demandas que você mesmo criou."
    case Delete => "Você só pode deletar demandas que você mesmo criou."
  }

  /**
   * The check `update` and `destroy` make before handing over to the
   * default handler: `Some(detail)` is the 403 response, `None` lets the
   * request through.
   */
  function DemandGuard(v: Verb, projectName: string, role: Role, criadoPor: Option<UserId>, user: UserId)
    : (r: Option<string>)
    ensures r.None? <==> MayChange(projectName, role, criadoPor, user)
    ensures r.Some? ==> r.value == RefusalText(v)
  {
    var isDemanda := projectName == SuggestionsProject;
    if isDemanda && !IsSupervisorOrAdmin(role) then
      if criadoPor != Some(user) then Some(RefusalText(v)) else None
    else None
  }

  /** Editing and deleting follow one rule, and a demand without a creator is closed to everyone below supervisor. */
  lemma DemandGuardRule(projectName: string, role: Role, criadoPor: Option<UserId>, user: UserId)
    ensures DemandGuard(Edit, projectName, role, criadoPor, user).None?
            == DemandGuard(Delete, projectName, role, criadoPor, user).None?
    ensures projectName == SuggestionsProject && criadoPor.None? ==>
              (DemandGuard(Edit, projectName, role, criadoPor, user).None? <==> IsSupervisorOrAdmin(role))
  {
  }

  // ------------------------------------------------------------------
  // CardTodoViewSet.update_status
  // ------------------------------------------------------------------

  /** The status codes `update_status` accepts, each as its status. */
  function ParseTodoStatus(s: string): (r: Option<TodoStatus>)
    ensures r.Some? ==> TodoStatusCode(r.value) == s
    ensures r.None? <==> s != "pending" && s != "completed" && s != "blocked" && s != "warning"
  {
    if s == "pending" then Some(Pending)
    else if s == "completed" then Some(Completed)
    else if s == "blocked" then Some(Blocked)
    else if s == "warning" then Some(Warning)
    else None
  }

  /** Every status's code is accepted as that status. */
  lemma ParseTodoStatusCode(x: TodoStatus)
    ensures ParseTodoStatus(TodoStatusCode(x)) == Some(x)
  {
    match x
    case Pending =>
    case Completed =>
    case Blocked =>
    case Warning =>
  }

  const InvalidStatusText := "Status inválido. Deve ser: pending, completed, blocked ou warning"

  /**
   * `update_status` on TODO `id`: an unknown code is a validation error
   * and changes nothing; a known one is stored, and the update signal runs
   * with the row's previous status and comment.
   */
  method UpdateStatus(center: NotificationCenter, t: Tables, cards: seq<Card>, table: TodoTable, id: nat,
                      newStatus: string, now: int)
    returns (r: Validated<CardTodo>)
    requires center.Valid() && center.users == t.users.Keys && CardsValid(cards, t.projects)
    requires id < |table.todos|
    modifies center, table
    ensures center.Valid() && center.users == old(center.users)
    ensures r.Rejected? <==> ParseTodoStatus(newStatus).None?
    ensures r.Rejected? ==>
              r.message == InvalidStatusText && table.todos == old(table.todos) && center.rows == old(center.rows)
    ensures r.Accepted? ==>
              r.value == old(table.todos[id]).(status := ParseTodoStatus(newStatus).value)
              && table.todos == old(table.todos)[id := r.value]
              && center.rows == old(center.rows)
                 + TodoNotifications(t, cards, id, r.value, false, CardTodoPreSave(Some(old(table.todos[id]))), now)
  {
    var parsed := ParseTodoStatus(newStatus);
    if parsed.None? {
      return Rejected(InvalidStatusText);
    }
    var todo := table.todos[id];
    // `card_todo_pre_save` re-reads the stored row before the save
    var pre := CardTodoPreSave(Some(todo));
    todo := todo.(status := parsed.value);
    table.todos := table.todos[id := todo];
    CardTodoUpdatedSignal(center, t, cards, id, todo, false, pre, now);
    r := Accepted(todo);
  }

  /**
   * What the signal then reports: setting the status a TODO already has
   * sends nothing, and setting another reports the status change alone.
   */
  lemma UpdateStatusReport(todo: CardTodo, s: TodoStatus)
    ensures var pre := CardTodoPreSave(Some(todo));
            TodoReportOf(false, pre, todo.(status := s)) == if s == todo.status then Silent else StatusOnly
  {
  }

  // ------------------------------------------------------------------
  // CardViewSet.priorities_view: ordering
  // ------------------------------------------------------------------

  /** `prioridade_order.get(p, 99)`. */
  function PriorityRank(p: string): (r: int)
    ensures r < 99 <==> p == "absoluta" || p == "alta" || p == "media" || p == "baixa"
    ensures p == "absoluta" ==> r == 0
    ensures p == "alta" ==> r == 1
    ensures p == "media" ==> r == 2
    ensures p == "baixa" ==> r == 3
  {
    if p == "absoluta" then 0
    else if p == "alta" then 1
    else if p == "media" then 2
    else if p == "baixa" then 3
    else 99
  }

  /** A card the view has selected, with its creation instant. */
  datatype Listed = Listed(card: Card, createdAt: int)

  /** `c.data_fim or c.data_inicio or c.created_at`. */
  function DateKey(x: Listed): int
  {
    if x.card.dataFim.Some? then x.card.dataFim.value
    else if x.card.dataInicio.Some? then x.card.dataInicio.value
    else x.createdAt
  }

  function CardKey(x: Listed): seq<int>
  {
    [PriorityRank(x.card.prioridade), DateKey(x)]
  }

  predicate AssignedTo(x: Listed, u: UserId)
  {
    x.card.responsavel == Some(u)
  }

  /** The selected cards of user `u`, in selection order. */
  function CardsOf(listed: seq<Listed>, u: UserId): seq<Listed>
  {
    FilterSeq(listed, x => AssignedTo(x, u))
  }

  /** User `u`'s list in the view: their cards, by rank and then by date. */
  function UserCards(listed: seq<Listed>, u: UserId): seq<Listed>
  {
    SortBy(CardsOf(listed, u), CardKey)
  }

  lemma UserCardsMeaning(listed: seq<Listed>, u: UserId)
    ensures SortedBy(UserCards(listed, u), CardKey)
    ensures multiset(UserCards(listed, u)) == multiset(CardsOf(listed, u))
    ensures forall x :: x in UserCards(listed, u) <==> x in listed && AssignedTo(x, u)
  {
    SortBySorted(CardsOf(listed, u), CardKey);
    forall x
      ensures x in UserCards(listed, u) <==> x in listed && AssignedTo(x, u)
    {
      SortByMembers(CardsOf(listed, u), CardKey, x);
    }
  }

  /** In a user's list a card of a better rank comes first; among equal ranks the earlier date does. */
  lemma UserCardsOrder(listed: seq<Listed>, u: UserId, i: nat, j: nat)
    requires i < j < |UserCards(listed, u)|
    ensures var s := UserCards(listed, u);
            PriorityRank(s[i].card.prioridade) <= PriorityRank(s[j].card.prioridade)
            && (PriorityRank(s[i].card.prioridade) == PriorityRank(s[j].card.prioridade) ==> DateKey(s[i]) <= DateKey(s[j]))
  {
    UserCardsMeaning(listed, u);
    var s := UserCards(listed, u);
    assert LexLe(CardKey(s[i]), CardKey(s[j]));
    assert CardKey(s[i])[1..] == [DateKey(s[i])] && CardKey(s[j])[1..] == [DateKey(s[j])];
    LexLeSingleton(DateKey(s[i]), DateKey(s[j]));
  }

  datatype UserRow = UserRow(user: UserId, cards: seq<Listed>)

  /** One row per active user, in the order the users are listed. */
  function UserRows(users: seq<UserId>, listed: seq<Listed>): (r: seq<UserRow>)
    ensures |r| == |users|
  {
    seq(|users|, k requires 0 <= k < |users| => UserRow(users[k], UserCards(listed, users[k])))
  }

  /** `(0 if cards else 1, rank of the first card if cards else 99)`. */
  function RowKey(r: UserRow): seq<int>
  {
    if |r.cards| > 0 then [0, PriorityRank(r.cards[0].card.prioridade)] else [1, 99]
  }

  /** The view's answer for the selected cards. */
  function PrioritiesView(users: seq<UserId>, listed: seq<Listed>): seq<UserRow>
  {
    SortBy(UserRows(users, listed), RowKey)
  }

  /** Every active user has exactly one row, holding their list of cards. */
  lemma PrioritiesViewRows(users: seq<UserId>, listed: seq<Listed>, u: UserId)
    ensures UserRow(u, UserCards(listed, u)) in PrioritiesView(users, listed) <==> u in users
    ensures forall r :: r in PrioritiesView(users, listed) ==> r.user in users && r.cards == UserCards(listed, r.user)
    ensures |PrioritiesView(users, listed)| == |users|
  {
    var rows := UserRows(users, listed);
    SortByMembers(rows, RowKey, UserRow(u, UserCards(listed, u)));
    if u in users {
      var k :| 0 <= k < |users| && users[k] == u;
      assert rows[k] == UserRow(u, UserCards(listed, u));
    }
    forall r | r in PrioritiesView(users, listed)
      ensures r.user in users && r.cards == UserCards(listed, r.user)
    {
      SortByMembers(rows, RowKey, r);
      var k :| 0 <= k < |rows| && rows[k] == r;
    }
  }

  /** Users with cards come first, and among them the better first rank comes first. */
  lemma PrioritiesViewOrder(users: seq<UserId>, listed: seq<Listed>, i: nat, j: nat)
    requires i < j < |PrioritiesView(users, listed)|
    ensures var v := PrioritiesView(users, listed);
            (|v[j].cards| > 0 ==> |v[i].cards| > 0)
            && (|v[i].cards| > 0 && |v[j].cards| > 0 ==>
                  PriorityRank(v[i].cards[0].card.prioridade) <= PriorityRank(v[j].cards[0].card.prioridade))
  {
    var rows := UserRows(users, listed);
    SortBySorted(rows, RowKey);
    var v := PrioritiesView(users, listed);
    assert LexLe(RowKey(v[i]), RowKey(v[j]));
    if |v[i].cards| > 0 && |v[j].cards| > 0 {
      assert RowKey(v[i])[1..] == [PriorityRank(v[i].cards[0].card.prioridade)];
      assert RowKey(v[j])[1..] == [PriorityRank(v[j].cards[0].card.prioridade)];
      LexLeSingleton(PriorityRank(v[i].cards[0].card.prioridade), PriorityRank(v[j].cards[0].card.prioridade));
    }
  }

  // ------------------------------------------------------------------
  // Weekly priorities
  // ------------------------------------------------------------------

  /** A `WeeklyPriority` row. */
  datatype WeeklyPriority = WeeklyPriority(
    usuario: UserId,
    card: nat,
    semanaInicio: int,
    semanaFim: int,
    definidoPor: Option<UserId>)

  /** The `unique_together` key `(usuario, card, semana_inicio)`. */
  predicate SameSlot(a: WeeklyPriority, b: WeeklyPriority)
  {
    a.usuario == b.usuario && a.card == b.card && a.semanaInicio == b.semanaInicio
  }

  predicate UniqueSlots(rows: seq<WeeklyPriority>)
  {
    forall i, j :: 0 <= i < j < |rows| ==> !SameSlot(rows[i], rows[j])
  }

  predicate SlotTaken(rows: seq<WeeklyPriority>, p: WeeklyPriority)
  {
    exists k :: 0 <= k < |rows| && SameSlot(rows[k], p)
  }

  /** The rows of weeks other than `week`, in order. */
  function OutsideWeek(rows: seq<WeeklyPriority>, week: int): (r: seq<WeeklyPriority>)
    ensures |r| <= |rows|
  {
    if |rows| == 0 then []
    else OutsideWeek(rows[..|rows| - 1], week) + (if rows[|rows| - 1].semanaInicio == week then [] else [rows[|rows| - 1]])
  }

  /** How many rows belong to `week`. */
  function InWeekCount(rows: seq<WeeklyPriority>, week: int): nat
  {
    if |rows| == 0 then 0
    else InWeekCount(rows[..|rows| - 1], week) + (if rows[|rows| - 1].semanaInicio == week then 1 else 0)
  }

  /** Clearing keeps exactly the rows of other weeks, and removes as many rows as it counts. */
  lemma {:induction false} OutsideWeekMeaning(rows: seq<WeeklyPriority>, week: int, p: WeeklyPriority)
    ensures p in OutsideWeek(rows, week) <==> p in rows && p.semanaInicio != week
    ensures |OutsideWeek(rows, week)| + InWeekCount(rows, week) == |rows|
  {
    if |rows| > 0 {
      var init := rows[..|rows| - 1];
      OutsideWeekMeaning(init, week, p);
      assert rows == init + [rows[|rows| - 1]];
    }
  }

  /** Deleting rows keeps the keys unique. */
  lemma {:induction false} OutsideWeekUnique(rows: seq<WeeklyPriority>, week: int)
    requires UniqueSlots(rows)
    ensures UniqueSlots(OutsideWeek(rows, week))
  {
    if |rows| > 0 {
      var init := rows[..|rows| - 1];
      var last := rows[|rows| - 1];
      OutsideWeekUnique(init, week);
      var kept := OutsideWeek(init, week);
      if last.semanaInicio != week {
        forall i | 0 <= i < |kept|
          ensures !SameSlot(kept[i], last)
        {
          OutsideWeekMeaning(init, week, kept[i]);
          var k :| 0 <= k < |init| && init[k] == kept[i];
          assert rows[k] == kept[i];
        }
      }
    }
  }

  /** The priority table: its rows never repeat a key. */
  class PriorityTable {
    var rows: seq<WeeklyPriority>

    ghost predicate Valid()
      reads this
    {
      UniqueSlots(rows)
    }

    constructor()
      ensures rows == [] && Valid()
    {
      rows := [];
    }

    /**
     * `WeeklyPriorityViewSet.perform_create`: 403 below supervisor, 400
     * when the key is taken, otherwise 201 and the row is stored with the
     * requester as `definido_por`.
     */
    method Create(role: Role, user: UserId, p: WeeklyPriority) returns (status: int)
      requires Valid()
      modifies this
      ensures Valid()
      ensures !IsSupervisorOrAdmin(role) ==> status == 403 && rows == old(rows)
      ensures IsSupervisorOrAdmin(role) && SlotTaken(old(rows), p) ==> status == 400 && rows == old(rows)
      ensures IsSupervisorOrAdmin(role) && !SlotTaken(old(rows), p) ==>
                status == 201 && rows == old(rows) + [p.(definidoPor := Some(user))]
    {
      if !IsSupervisorOrAdmin(role) {
        return 403;
      }
      if SlotTaken(rows, p) {
        return 400;
      }
      var row := p.(definidoPor := Some(user));
      forall i | 0 <= i < |rows|
        ensures !SameSlot(rows[i], row)
      {
      }
      rows := rows + [row];
      status := 201;
    }

    /** Deletes the rows of `week` and returns how many there were. */
    method DeleteWeek(week: int) returns (count: nat)
      requires Valid()
      modifies this
      ensures Valid()
      ensures rows == OutsideWeek(old(rows), week)
      ensures count == InWeekCount(old(rows), week)
    {
      count := InWeekCount(rows, week);
      OutsideWeekUnique(rows, week);
      rows := OutsideWeek(rows, week);
    }
  }

  /** The closed-weeks map `get_config` hands back: the stored one, or the empty default. */
  function StoredWeeks(present: bool, m: WeekMap): WeekMap
  {
    if present then m else map[]
  }

  /**
   * `close_week`: a supervisor or admin closes the week of today (its
   * Monday); anyone else gets an error and nothing changes.
   */
  method CloseCurrentWeek(role: Role, today: int, config: PriorityConfig) returns (week: Option<int>)
    modifies config
    ensures !IsSupervisorOrAdmin(role) ==>
              week.None? && config.present == old(config.present) && config.semanaFechada == old(config.semanaFechada)
    ensures IsSupervisorOrAdmin(role) ==>
              week == Some(WeekStart(today)) && config.present
              && config.semanaFechada == CloseWeek(StoredWeeks(old(config.present), old(config.semanaFechada)), WeekStart(today))
              && config.IsSemanaFechada(WeekStart(today))
  {
    if !IsSupervisorOrAdmin(role) {
      return None;
    }
    var semanaInicio := today - PyWeekday(today);
    config.GetConfig();
    config.FecharSemana(semanaInicio);
    week := Some(semanaInicio);
  }

  /**
   * `clear_priorities`: a supervisor or admin whose current week is
   * closed deletes that week's priorities, learns how many, and reopens
   * the week. An open week is an error that leaves the rows alone.
   */
  method ClearPriorities(role: Role, today: int, config: PriorityConfig, table: PriorityTable)
    returns (count: Option<nat>)
    requires table.Valid()
    modifies config, table
    ensures table.Valid()
    ensures !IsSupervisorOrAdmin(role) ==>
              count.None? && table.rows == old(table.rows)
              && config.present == old(config.present) && config.semanaFechada == old(config.semanaFechada)
    ensures IsSupervisorOrAdmin(role) ==> config.present
    ensures var stored := StoredWeeks(old(config.present), old(config.semanaFechada));
            IsSupervisorOrAdmin(role) && !WeekClosed(stored, WeekStart(today)) ==>
              count.None? && table.rows == old(table.rows) && config.semanaFechada == stored
    ensures var stored := StoredWeeks(old(config.present), old(config.semanaFechada));
            IsSupervisorOrAdmin(role) && WeekClosed(stored, WeekStart(today)) ==>
              count == Some(InWeekCount(old(table.rows), WeekStart(today)))
              && table.rows == OutsideWeek(old(table.rows), WeekStart(today))
              && config.semanaFechada == OpenWeek(stored, WeekStart(today))
              && !config.IsSemanaFechada(WeekStart(today))
  {
    if !IsSupervisorOrAdmin(role) {
      return None;
    }
    var semanaInicio := today - PyWeekday(today);
    config.GetConfig();
    if !config.IsSemanaFechada(semanaInicio) {
      return None;
    }
    var n := table.DeleteWeek(semanaInicio);
    config.AbrirSemana(semanaInicio);
    count := Some(n);
  }

  /** After clearing, the week holds no priority and other weeks lose none. */
  lemma ClearedWeekEmpty(rows: seq<WeeklyPriority>, week: int, p: WeeklyPriority)
    ensures p in OutsideWeek(rows, week) ==> p.semanaInicio != week
    ensures p in rows && p.semanaInicio != week ==> p in OutsideWeek(rows, week)
  {
    OutsideWeekMeaning(rows, week, p);
  }
}
