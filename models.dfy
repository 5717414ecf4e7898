/**
 * The relational model of backend/apps/projects/models.py: sprints,
 * projects, cards, TODOs, logs and notifications as values, and the
 * singleton `WeeklyPriorityConfig` row as an object whose map of closed
 * weeks the methods update in place.
 *
 * Rows are identified by their position in the store that holds them, so a
 * foreign key is a `nat` index. Dates (`DateField`) are day numbers and
 * datetimes (`DateTimeField`) are whole seconds, both counted from
 * 1970-01-01; a time of day (`TimeField`) is the number of seconds after
 * midnight.
 */
module Models {
  import opened Common
  import opened Calendar

  type UserId = nat

  const DaySeconds := 86400

  // ------------------------------------------------------------------
  // Sprint, Project, Card
  // ------------------------------------------------------------------

  datatype Sprint = Sprint(
    nome: string,
    dataInicio: int,
    dataFim: int,
    duracaoDias: int,
    finalizada: bool)

  /** The field constraint `MinValueValidator(1)` on `duracao_dias`. */
  predicate SprintFieldsValid(s: Sprint)
  {
    s.duracaoDias >= 1
  }

  /** A sprint as `Sprint.objects.create` stores it: `finalizada` takes its default. */
  function NewSprint(nome: string, inicio: int, fim: int, duracao: int): (s: Sprint)
    ensures !s.finalizada
    ensures s.nome == nome && s.dataInicio == inicio && s.dataFim == fim
    ensures duracao >= 1 <==> SprintFieldsValid(s)
  {
    Sprint(nome, inicio, fim, duracao, false)
  }

  datatype ProjectStatus =
    | Criado | EmAvaliacao | Aprovado | ProjEmDesenvolvimento | Entregue | Homologado | Adiado

  /** The stored value of a project status. */
  function ProjectStatusCode(s: ProjectStatus): string
  {
    match s
    case Criado => "criado"
    case EmAvaliacao => "em_avaliacao"
    case Aprovado => "aprovado"
    case ProjEmDesenvolvimento => "em_desenvolvimento"
    case Entregue => "entregue"
    case Homologado => "homologado"
    case Adiado => "adiado"
  }

  datatype Project = Project(
    nome: string,
    descricao: string,
    sprint: nat,
    gerente: Option<UserId>,
    desenvolvedor: Option<UserId>,
    status: ProjectStatus)

  /** One entry of `complexidade_custom_items`: `{id, label, hours}`. */
  datatype CustomItem = CustomItem(id: string, text: string, hours: int)

  /**
   * A card. The two JSON lists are `None` when the column holds JSON `null`;
   * `descricao` is a non-null text column.
   */
  datatype Card = Card(
    nome: string,
    descricao: string,
    scriptUrl: Option<string>,
    projeto: nat,
    area: string,
    tipo: string,
    responsavel: Option<UserId>,
    criadoPor: Option<UserId>,
    status: CardStatus,
    prioridade: string,
    dataInicio: Option<int>,
    dataFim: Option<int>,
    selectedItems: Option<seq<string>>,
    selectedDevelopment: Option<string>,
    customItems: Option<seq<CustomItem>>,
    comment: Option<string>)

  /** Every card points at an existing project. */
  predicate CardsValid(cards: seq<Card>, projects: seq<Project>)
  {
    forall i :: 0 <= i < |cards| ==> cards[i].projeto < |projects|
  }

  /**
   * The people a card concerns: its responsible user, then the manager of
   * its project, each when set. The same user may appear twice.
   */
  function Assignees(c: Card, p: Project): (r: seq<UserId>)
    ensures |r| <= 2
  {
    OptionToSeq(c.responsavel) + OptionToSeq(p.gerente)
  }

  /** Exactly the responsible user and the manager are assignees. */
  lemma AssigneesMembers(c: Card, p: Project, u: UserId)
    ensures u in Assignees(c, p) <==> c.responsavel == Some(u) || p.gerente == Some(u)
  {
  }

  /** Python's `x or []` on a JSON list column. */
  function ListOrEmpty<T>(x: Option<seq<T>>): (r: seq<T>)
    ensures x.Some? ==> r == x.value
    ensures x.None? ==> r == []
  {
    if x.Some? then x.value else []
  }

  /** Python's `x or ''` on a nullable text column. */
  function TextOrEmpty(x: Option<string>): (r: string)
    ensures x.Some? ==> r == x.value
    ensures x.None? ==> r == ""
  {
    if x.Some? then x.value else ""
  }

  /**
   * The renderings of a stored instant the backend's texts use:
   * `strftime("%d/%m/%Y %H:%M")`, `strftime("%d/%m/%Y")` and
   * `isoformat()`. They are library formatting, taken as given.
   */
  datatype Formats = Formats(dayMonthYearTime: int -> string, dayMonthYear: int -> string, isoformat: int -> string)

  // ------------------------------------------------------------------
  // TODOs, logs, notifications
  // ------------------------------------------------------------------

  datatype TodoStatus = Pending | Completed | Blocked | Warning

  function TodoStatusCode(s: TodoStatus): string
  {
    match s
    case Pending => "pending"
    case Completed => "completed"
    case Blocked => "blocked"
    case Warning => "warning"
  }

  datatype CardTodo = CardTodo(
    card: nat,
    text: string,
    isOriginal: bool,
    status: TodoStatus,
    comment: Option<string>,
    order: int)

  datatype CardLogEventType =
    | LogCriado | LogMovimentado | LogPendencia | LogAtualizado | LogAlteracao | LogResponsavelAlterado

  datatype CardLog = CardLog(card: nat, tipoEvento: CardLogEventType, descricao: string, usuario: Option<UserId>)

  datatype NotificationType =
    | CardCreated | CardUpdated | CardDeleted | CardMoved | CardTodoUpdated
    | SprintCreated | ProjectCreated | RoleChanged
    | CardOverdue | CardDue24h | CardDue1h | CardDue10min | LogCreated

  /** The JSON values a notification's `metadata` holds. */
  datatype Json = JNull | JBool(b: bool) | JInt(i: int) | JStr(s: string) | JStrList(items: seq<string>)

  datatype Notification = Notification(
    usuario: UserId,
    tipo: NotificationType,
    titulo: string,
    mensagem: string,
    lida: bool,
    dataCriacao: int,
    cardId: Option<nat>,
    sprintId: Option<nat>,
    projectId: Option<nat>,
    metadata: map<string, Json>)

  // ------------------------------------------------------------------
  // WeeklyPriority: concluded and late
  // ------------------------------------------------------------------

  /** `WeeklyPriority.is_concluido`. */
  predicate IsConcluido(status: CardStatus)
  {
    status == Finalizado
  }

  /**
   * The instant `datetime.combine(semana_fim, horario_limite)`: the limit
   * time on the Friday that closes the week.
   */
  function LimitInstant(semanaFim: int, horarioLimite: int): int
  {
    semanaFim * DaySeconds + horarioLimite
  }

  /** `WeeklyPriority.is_atrasado`: not concluded and already past the Friday limit. */
  predicate IsAtrasado(status: CardStatus, semanaFim: int, horarioLimite: int, now: int)
  {
    !IsConcluido(status) && now > LimitInstant(semanaFim, horarioLimite)
  }

  /** A priority that is late stays late as time passes, and a concluded one never is. */
  lemma AtrasadoPersists(status: CardStatus, semanaFim: int, limite: int, now: int, later: int)
    requires IsAtrasado(status, semanaFim, limite, now) && now <= later
    ensures IsAtrasado(status, semanaFim, limite, later)
    ensures status != Finalizado
  {
  }

  // ------------------------------------------------------------------
  // WeeklyPriorityConfig: the map of closed weeks
  // ------------------------------------------------------------------

  /** `date - timedelta(days=date.weekday())`: the Monday that starts the week of `day`. */
  function WeekStart(day: int): (m: int)
    ensures PyWeekday(m) == 0
    ensures m <= day < m + 7
  {
    day - PyWeekday(day)
  }

  /** Every day of a Monday-to-Sunday week has the same week start. */
  lemma WeekStartOfWeek(monday: int, k: int)
    requires PyWeekday(monday) == 0 && 0 <= k < 7
    ensures WeekStart(monday + k) == monday
  {
  }

  /** `horario_limite` default: 09:00:00. */
  const DefaultHorarioLimite := 9 * 3600

  /**
   * `semana_fechada` is a JSON object keyed by the ISO date of a Monday; the
   * key is modelled as that Monday's day number (`isoformat` is injective).
   */
  type WeekMap = map<int, bool>

  /** `is_semana_fechada` on a map value. */
  predicate WeekClosed(m: WeekMap, week: int)
  {
    if |m| == 0 then false
    else if week in m then m[week]
    else false
  }

  /** `fechar_semana` on a map value. */
  function CloseWeek(m: WeekMap, week: int): WeekMap
  {
    m[week := true]
  }

  /** `abrir_semana` on a map value: the key is removed when present. */
  function OpenWeek(m: WeekMap, week: int): WeekMap
  {
    if |m| == 0 then m
    else if week in m then m - {week}
    else m
  }

  /** A week reads as closed exactly when its key is stored with value true. */
  lemma WeekClosedMeaning(m: WeekMap, week: int)
    ensures WeekClosed(m, week) <==> week in m && m[week]
  {
    if week in m {
      assert |m| > 0 by {
        assert week in m.Keys;
      }
    }
  }

  /** After closing, the week is closed and every other key is untouched. */
  lemma CloseWeekEffect(m: WeekMap, week: int, other: int)
    requires other != week
    ensures WeekClosed(CloseWeek(m, week), week)
    ensures (other in CloseWeek(m, week)) == (other in m)
    ensures other in m ==> CloseWeek(m, week)[other] == m[other]
    ensures WeekClosed(CloseWeek(m, week), other) == WeekClosed(m, other)
  {
    WeekClosedMeaning(CloseWeek(m, week), week);
    WeekClosedMeaning(CloseWeek(m, week), other);
    WeekClosedMeaning(m, other);
  }

  /** After opening, the week reads as open and every other key is untouched. */
  lemma OpenWeekEffect(m: WeekMap, week: int, other: int)
    requires other != week
    ensures !WeekClosed(OpenWeek(m, week), week)
    ensures week !in OpenWeek(m, week)
    ensures (other in OpenWeek(m, week)) == (other in m)
    ensures other in m ==> OpenWeek(m, week)[other] == m[other]
    ensures WeekClosed(OpenWeek(m, week), other) == WeekClosed(m, other)
  {
    if week in m {
      assert week in m.Keys;
    }
    WeekClosedMeaning(OpenWeek(m, week), week);
    WeekClosedMeaning(OpenWeek(m, week), other);
    WeekClosedMeaning(m, other);
  }

  /** Opening a week that is not in the map changes nothing; opening twice is opening once. */
  lemma OpenWeekIdempotent(m: WeekMap, week: int)
    ensures week !in m ==> OpenWeek(m, week) == m
    ensures OpenWeek(OpenWeek(m, week), week) == OpenWeek(m, week)
  {
    if |m| != 0 && week in m {
      var m1 := m - {week};
      assert week !in m1;
    }
  }

  /** Closing then opening a week that was not stored restores the original map. */
  lemma CloseThenOpen(m: WeekMap, week: int)
    requires week !in m
    ensures OpenWeek(CloseWeek(m, week), week) == m
  {
    var c := CloseWeek(m, week);
    assert week in c;
    assert |c| > 0 by {
      assert week in c.Keys;
    }
    assert c - {week} == m;
  }

  /**
   * The configuration table. `present` says whether the row with pk = 1
   * exists; the other fields are that row's columns.
   */
  class PriorityConfig {
    var present: bool
    var horarioLimite: int
    var fechamentoAutomatico: bool
    var semanaFechada: WeekMap

    constructor()
      ensures !present
    {
      present := false;
      horarioLimite := DefaultHorarioLimite;
      fechamentoAutomatico := true;
      semanaFechada := map[];
    }

    /**
     * `get_config`: `get_or_create(pk=1)`. An existing row is returned as
     * stored; a missing one is created with the column defaults.
     */
    method GetConfig()
      modifies this
      ensures present
      ensures old(present) ==>
                horarioLimite == old(horarioLimite)
                && fechamentoAutomatico == old(fechamentoAutomatico)
                && semanaFechada == old(semanaFechada)
      ensures !old(present) ==>
                horarioLimite == DefaultHorarioLimite
                && fechamentoAutomatico && semanaFechada == map[]
    {
      if !present {
        present := true;
        horarioLimite := DefaultHorarioLimite;
        fechamentoAutomatico := true;
        semanaFechada := map[];
      }
    }

    predicate IsSemanaFechada(week: int)
      reads this
    {
      WeekClosed(semanaFechada, week)
    }

    /** `fechar_semana`: stores `week: True`, keeping every other key. */
    method FecharSemana(week: int)
      modifies this
      ensures semanaFechada == CloseWeek(old(semanaFechada), week)
      ensures IsSemanaFechada(week)
      ensures present == old(present) && horarioLimite == old(horarioLimite)
      ensures fechamentoAutomatico == old(fechamentoAutomatico)
    {
      semanaFechada := semanaFechada[week := true];
      WeekClosedMeaning(semanaFechada, week);
    }

    /** `abrir_semana`: deletes the key when it is present; otherwise a no-op. */
    method AbrirSemana(week: int)
      modifies this
      ensures semanaFechada == OpenWeek(old(semanaFechada), week)
      ensures !IsSemanaFechada(week)
      ensures present == old(present) && horarioLimite == old(horarioLimite)
      ensures fechamentoAutomatico == old(fechamentoAutomatico)
    {
      if |semanaFechada| == 0 {
        return;
      }
      if week in semanaFechada {
        semanaFechada := semanaFechada - {week};
      }
      WeekClosedMeaning(semanaFechada, week);
    }
  }
}
