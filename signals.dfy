/**
 * backend/apps/projects/signals.py: the model signals that keep a card's
 * history and tell people about it.
 *
 * Before a card is saved, its stored version is snapshotted. After the
 * save, the handler classifies it as a creation, a move (the status
 * changed) or an update. It then writes the card log and fans the
 * notifications out. TODO saves and deletions, and card deletions, notify
 * too.
 *
 * The handlers read the user table and two user listings the database
 * returns (`Tables`). The log table is a `CardLogBook`. Notifications go
 * through `NotificationUtils.NotificationCenter`. The requesting user that
 * the views attach to the instance is the parameter `actor`.
 */
module Signals {
  import opened Common
  import opened Models
  import opened Accounts
  import opened NotificationUtils

  // ------------------------------------------------------------------
  // What the handlers read
  // ------------------------------------------------------------------

  /**
   * The user table, the projects, and the results of the two user queries
   * the handlers run, in the order the database returns them:
   * `watchers` are the active supervisors, managers and admins, and
   * `reviewers` the active supervisors and admins.
   */
  datatype Tables = Tables(
    users: map<UserId, User>,
    projects: seq<Project>,
    watchers: seq<UserId>,
    reviewers: seq<UserId>)

  /** `role__in=['supervisor', 'gerente', 'admin'], is_active=True`. */
  predicate IsWatcher(u: User)
  {
    u.isActive && (u.role == Supervisor || u.role == Gerente || u.role == Admin)
  }

  /** `role__in=['supervisor', 'admin'], is_active=True`. */
  predicate IsReviewer(u: User)
  {
    u.isActive && IsSupervisorOrAdmin(u.role)
  }

  /** The two listings hold exactly the matching users, once each. */
  ghost predicate ListingsValid(t: Tables)
  {
    Distinct(t.watchers) && Distinct(t.reviewers)
    && (forall u :: u in t.watchers <==> u in t.users && IsWatcher(t.users[u]))
    && (forall u :: u in t.reviewers <==> u in t.users && IsReviewer(t.users[u]))
  }

  /** The card's foreign keys point at existing rows, as the database guarantees. */
  predicate CardRefsValid(t: Tables, c: Card)
  {
    c.projeto < |t.projects|
    && (c.responsavel.Some? ==> c.responsavel.value in t.users)
    && (c.criadoPor.Some? ==> c.criadoPor.value in t.users)
    && (t.projects[c.projeto].gerente.Some? ==> t.projects[c.projeto].gerente.value in t.users)
  }

  /** The display name of an existing user. */
  function NameOf(users: map<UserId, User>, u: UserId): string
    requires u in users
  {
    FormatUserName(Some(users[u])).value
  }

  /** `format_user_name(instance.criado_por) if instance.criado_por else 'Usuário desconhecido'`. */
  function CreatorName(users: map<UserId, User>, c: Card): string
    requires c.criadoPor.Some? ==> c.criadoPor.value in users
  {
    if c.criadoPor.Some? then NameOf(users, c.criadoPor.value) else "Usuário desconhecido"
  }

  // ------------------------------------------------------------------
  // card_pre_save
  // ------------------------------------------------------------------

  /** The 13 columns `card_pre_save` copies; the list columns read `x or []`. */
  datatype Snapshot = Snapshot(
    nome: string,
    descricao: string,
    status: CardStatus,
    prioridade: string,
    area: string,
    tipo: string,
    responsavel: Option<UserId>,
    dataInicio: Option<int>,
    dataFim: Option<int>,
    selectedItems: seq<string>,
    selectedDevelopment: Option<string>,
    customItems: seq<CustomItem>,
    comment: Option<string>)

  function SnapshotOf(c: Card): Snapshot
  {
    Snapshot(c.nome, c.descricao, c.status, c.prioridade, c.area, c.tipo, c.responsavel,
             c.dataInicio, c.dataFim, ListOrEmpty(c.selectedItems), c.selectedDevelopment,
             ListOrEmpty(c.customItems), c.comment)
  }

  /** The attributes `card_pre_save` leaves on the instance. */
  datatype PreSave = PreSave(previousStatus: Option<CardStatus>, previousData: Option<Snapshot>)

  /**
   * `card_pre_save`. `stored` is the row with the instance's primary key:
   * `None` when the instance has no key yet or the row does not exist.
   */
  function CardPreSave(stored: Option<Card>): (p: PreSave)
    ensures stored.None? ==> p == PreSave(None, None)
    ensures stored.Some? ==>
              p.previousStatus == Some(stored.value.status) && p.previousData == Some(SnapshotOf(stored.value))
  {
    if stored.None? then PreSave(None, None)
    else PreSave(Some(stored.value.status), Some(SnapshotOf(stored.value)))
  }

  // ------------------------------------------------------------------
  // Classifying a save
  // ------------------------------------------------------------------

  datatype SaveKind = Created | Moved(from: CardStatus, to: CardStatus) | Updated

  /**
   * A save is a creation when Django says so, a move when the status
   * recorded before the save is set and differs from the new one, and an
   * update otherwise.
   */
  function Classify(created: bool, previousStatus: Option<CardStatus>, status: CardStatus): (k: SaveKind)
    ensures k.Created? <==> created
    ensures k.Moved? <==> !created && previousStatus.Some? && previousStatus.value != status
    ensures k.Moved? ==> k.from == previousStatus.value && k.to == status
  {
    if created then Created
    else if previousStatus.Some? && previousStatus.value != status then Moved(previousStatus.value, status)
    else Updated
  }

  /** Saving an unchanged status, or saving a card whose row was not found, is never a move. */
  lemma NoMoveWithoutStatusChange(previousStatus: Option<CardStatus>, status: CardStatus)
    requires previousStatus.None? || previousStatus == Some(status)
    ensures Classify(false, previousStatus, status) == Updated
  {
  }

  // ------------------------------------------------------------------
  // Labels
  // ------------------------------------------------------------------

  /** `status_labels`; every status has a label, so the raw-code fallback never applies. */
  function StatusLabel(s: CardStatus): string
  {
    match s
    case ADesenvolver => "A Desenvolver"
    case EmDesenvolvimento => "Em Desenvolvimento"
    case ParadoPendencias => "Parado por Pendências"
    case EmHomologacao => "Em Homologação"
    case Finalizado => "Concluído"
    case Inviabilizado => "Inviabilizado"
  }

  const PrioridadeLabels: map<string, string> :=
    map["baixa" := "Baixa", "media" := "Média", "alta" := "Alta", "absoluta" := "Absoluta"]

  const AreaLabels: map<string, string> :=
    map["rpa" := "RPA", "frontend" := "Frontend", "backend" := "Backend", "script" := "Script",
        "sistema" := "Sistema"]

  const TipoLabels: map<string, string> :=
    map["nova_robotizacao" := "Nova Robotização", "feature" := "Feature", "bug" := "Bug",
        "refact_completo" := "Refact Completo", "refact_pontual" := "Refact Pontual",
        "otimizacao_processo" := "Otimização de Processo", "melhoria_fluxo" := "Melhoria de Fluxo",
        "novo_script" := "Novo Script", "ferramenta" := "Ferramenta", "qualidade" := "Qualidade",
        "teste_software" := "Teste de Software", "raspagem_dados" := "Raspagem de Dados",
        "novo_painel" := "Novo Painel", "ia" := "IA", "auditoria" := "Auditoria"]

  /** `labels.get(code, code)`: the label, or the raw code when there is none. */
  function LabelOr(labels: map<string, string>, code: string): string
  {
    if code in labels then labels[code] else code
  }

  /** The complexity catalogue: label and hours of each known item id. */
  const Catalogue: map<string, (string, nat)> :=
    map["ler_script" := ("Ler script e conferir informações do video", 1),
        "solicitar_usuario" := ("Solicitar criação de usuário / vm", 1),
        "testes_iniciais" := ("Testes iniciais na maquina", 3),
        "configurar_projeto" := ("Configurar projeto na vm", 1),
        "desenvolvimento_basico" := ("Desenvolvimento básico", 8),
        "desenvolvimento_medio" := ("Desenvolvimento médio", 24),
        "desenvolvimento_dificil" := ("Desenvolvimento difícil", 40)]

  /** A catalogue item as `label: Nh`; an unknown id as its words in title case. */
  function ItemText(id: string): string
  {
    if id in Catalogue then Catalogue[id].0 + ": " + NatToString(Catalogue[id].1) + "h"
    else PyTitle(ReplaceChar(id, '_', ' '))
  }

  function ItemTexts(ids: seq<string>): (r: seq<string>)
    ensures |r| == |ids|
  {
    if |ids| == 0 then [] else ItemTexts(ids[..|ids| - 1]) + [ItemText(ids[|ids| - 1])]
  }

  /** A custom item as `label: hoursh`. */
  function CustomTexts(items: seq<CustomItem>): (r: seq<string>)
    ensures |r| == |items|
  {
    if |items| == 0 then []
    else CustomTexts(items[..|items| - 1]) + [items[|items| - 1].text + ": " + JsIntString(items[|items| - 1].hours) + "h"]
  }

  /** Python truthiness of an optional text column. */
  predicate IsSet(x: Option<string>)
  {
    x.Some? && x.value != ""
  }

  /** Prefixes every entry with `prefix`. */
  function Bullets(prefix: string, entries: seq<string>): (r: seq<string>)
    ensures |r| == |entries|
  {
    if |entries| == 0 then [] else Bullets(prefix, entries[..|entries| - 1]) + [prefix + entries[|entries| - 1]]
  }

  // ------------------------------------------------------------------
  // The creation log
  // ------------------------------------------------------------------

  /** `"%d/%m/%Y %H:%M"` of a set datetime column, as one line of the creation log. */
  function DateLine(fmt: Formats, caption: string, d: Option<int>): seq<string>
  {
    if d.Some? then ["• " + caption + ": " + fmt.dayMonthYearTime(d.value)] else []
  }

  /**
   * The complexity lines of the creation log: every selected item, then the
   * selected development whenever it is set (even if it is also among the
   * items), then the custom items.
   */
  function CreationComplexity(c: Card): seq<string>
  {
    var items := ListOrEmpty(c.selectedItems);
    var custom := ListOrEmpty(c.customItems);
    if |items| == 0 && !IsSet(c.selectedDevelopment) && |custom| == 0 then []
    else
      ["• Complexidade do projeto:"]
      + Bullets("  - ", ItemTexts(items)
                        + (if IsSet(c.selectedDevelopment) then [ItemText(c.selectedDevelopment.value)] else [])
                        + CustomTexts(custom))
  }

  /** The `descricao` of the CRIADO log: one line per field, joined by newlines. */
  function CreationText(fmt: Formats, users: map<UserId, User>, c: Card): string
    requires c.responsavel.Some? ==> c.responsavel.value in users
  {
    var head := ["Card \"" + c.nome + "\" criado com os seguintes dados:", "• Nome: " + c.nome];
    var desc := if c.descricao != "" then
                  ["• Descrição: " + Take(c.descricao, 100) + (if |c.descricao| > 100 then "..." else "")]
                else [];
    var fields := ["• Status: " + StatusLabel(c.status),
                   "• Prioridade: " + LabelOr(PrioridadeLabels, c.prioridade),
                   "• Área: " + LabelOr(AreaLabels, c.area),
                   "• Tipo: " + LabelOr(TipoLabels, c.tipo),
                   if c.responsavel.Some? then "• Responsável: " + NameOf(users, c.responsavel.value)
                   else "• Responsável: Não atribuído"];
    var url := if IsSet(c.scriptUrl) then ["• Script URL: " + c.scriptUrl.value] else [];
    Join(head + desc + fields + DateLine(fmt, "Data de Início", c.dataInicio)
         + DateLine(fmt, "Data de Fim", c.dataFim) + url + CreationComplexity(c), '\n')
  }

  // ------------------------------------------------------------------
  // The change list of an update
  // ------------------------------------------------------------------

  /** The fields an update can report, numbered in the order they are checked. */
  datatype Field =
    | FNome | FDescricao | FPrioridade | FArea | FTipo
    | FResponsavel | FDataInicio | FDataFim | FComplexidade

  function FieldIndex(f: Field): nat
  {
    match f
    case FNome => 0
    case FDescricao => 1
    case FPrioridade => 2
    case FArea => 3
    case FTipo => 4
    case FResponsavel => 5
    case FDataInicio => 6
    case FDataFim => 7
    case FComplexidade => 8
  }

  /** Whether the update changed a field, judged against the snapshot. */
  predicate Differs(f: Field, s: Snapshot, c: Card)
  {
    match f
    case FNome => s.nome != c.nome
    case FDescricao => s.descricao != c.descricao
    case FPrioridade => s.prioridade != c.prioridade
    case FArea => s.area != c.area
    case FTipo => s.tipo != c.tipo
    case FResponsavel => s.responsavel != c.responsavel
    case FDataInicio => s.dataInicio != c.dataInicio
    case FDataFim => s.dataFim != c.dataFim
    case FComplexidade =>
      s.selectedItems != ListOrEmpty(c.selectedItems) || s.selectedDevelopment != c.selectedDevelopment
      || s.customItems != ListOrEmpty(c.customItems)
  }

  /** The order in which the handler checks the fields. */
  const FieldOrder: seq<Field> :=
    [FNome, FDescricao, FPrioridade, FArea, FTipo, FResponsavel, FDataInicio, FDataFim, FComplexidade]

  /** Fields listed in strictly increasing checking order. */
  predicate Increasing(fs: seq<Field>)
  {
    forall i, j :: 0 <= i < j < |fs| ==> FieldIndex(fs[i]) < FieldIndex(fs[j])
  }

  /** The fields of `fs` that differ, in the order of `fs`. */
  function ChangedAmong(fs: seq<Field>, s: Snapshot, c: Card): (r: seq<Field>)
    ensures |r| <= |fs|
  {
    if |fs| == 0 then []
    else ChangedAmong(fs[..|fs| - 1], s, c) + (if Differs(fs[|fs| - 1], s, c) then [fs[|fs| - 1]] else [])
  }

  /** The fields reported on an update, in the order the handler checks them. */
  function ChangedFields(s: Snapshot, c: Card): seq<Field>
  {
    ChangedAmong(FieldOrder, s, c)
  }

  /** Filtering keeps exactly the differing fields. */
  lemma {:induction false} ChangedAmongMembers(fs: seq<Field>, s: Snapshot, c: Card)
    ensures forall f :: f in ChangedAmong(fs, s, c) <==> f in fs && Differs(f, s, c)
  {
    if |fs| > 0 {
      var init := fs[..|fs| - 1];
      ChangedAmongMembers(init, s, c);
      assert fs == init + [fs[|fs| - 1]];
    }
  }

  /** Filtering keeps the order of the fields. */
  lemma {:induction false} ChangedAmongIncreasing(fs: seq<Field>, s: Snapshot, c: Card)
    requires Increasing(fs)
    ensures Increasing(ChangedAmong(fs, s, c))
  {
    if |fs| > 0 {
      var init := fs[..|fs| - 1];
      var last := fs[|fs| - 1];
      assert Increasing(init);
      ChangedAmongIncreasing(init, s, c);
      ChangedAmongMembers(init, s, c);
      var prev := ChangedAmong(init, s, c);
      forall f | f in prev
        ensures FieldIndex(f) < FieldIndex(last)
      {
        var i :| 0 <= i < |init| && init[i] == f;
        assert fs[i] == f;
      }
      IncreasingSnoc(prev, last);
    }
  }

  /** A field checked after all of an increasing list extends it increasingly. */
  lemma IncreasingSnoc(fs: seq<Field>, g: Field)
    requires Increasing(fs) && forall f :: f in fs ==> FieldIndex(f) < FieldIndex(g)
    ensures Increasing(fs + [g]) && Increasing(fs + [])
  {
    assert fs + [] == fs;
    forall i, j | 0 <= i < j < |fs + [g]|
      ensures FieldIndex((fs + [g])[i]) < FieldIndex((fs + [g])[j])
    {
      assert (fs + [g])[i] == fs[i];
      if j < |fs| {
        assert (fs + [g])[j] == fs[j];
      }
    }
  }

  /** Two cards that differ from the snapshot on the same fields of `fs` report the same list. */
  lemma {:induction false} ChangedAmongSame(fs: seq<Field>, s: Snapshot, c: Card, d: Card)
    requires forall k :: 0 <= k < |fs| ==> (Differs(fs[k], s, c) <==> Differs(fs[k], s, d))
    ensures ChangedAmong(fs, s, c) == ChangedAmong(fs, s, d)
  {
    if |fs| > 0 {
      ChangedAmongSame(fs[..|fs| - 1], s, c, d);
    }
  }

  /** Every field is checked, each once, in index order. */
  lemma FieldOrderFacts(f: Field)
    ensures Increasing(FieldOrder)
    ensures f in FieldOrder
  {
    assert FieldOrder[FieldIndex(f)] == f;
  }

  /**
   * A field is reported exactly when it changed, and the report lists the
   * fields in checking order, so each at most once. Status, script URL,
   * project, creator and comment are no fields: they are never reported.
   */
  lemma ChangedFieldsExact(s: Snapshot, c: Card)
    ensures forall f :: f in ChangedFields(s, c) <==> Differs(f, s, c)
    ensures Increasing(ChangedFields(s, c))
    ensures |ChangedFields(s, c)| <= 9
  {
    FieldOrderFacts(FNome);
    ChangedAmongMembers(FieldOrder, s, c);
    ChangedAmongIncreasing(FieldOrder, s, c);
    forall f | Differs(f, s, c)
      ensures f in ChangedFields(s, c)
    {
      FieldOrderFacts(f);
    }
  }

  /** Status, script URL and comment play no part in the change list. */
  lemma ChangedFieldsIgnore(s: Snapshot, c: Card, status: CardStatus, url: Option<string>, comment: Option<string>)
    ensures ChangedFields(s, c.(status := status, scriptUrl := url, comment := comment)) == ChangedFields(s, c)
  {
    ChangedAmongSame(FieldOrder, s, c.(status := status, scriptUrl := url, comment := comment), c);
  }

  /** Nothing is reported when none of the fields differs. */
  lemma {:induction false} ChangedAmongNone(fs: seq<Field>, s: Snapshot, c: Card)
    requires forall k :: 0 <= k < |fs| ==> !Differs(fs[k], s, c)
    ensures ChangedAmong(fs, s, c) == []
  {
    if |fs| > 0 {
      ChangedAmongNone(fs[..|fs| - 1], s, c);
    }
  }

  /** A card compared with its own snapshot reports no change and no comment change. */
  lemma SnapshotQuiet(c: Card)
    ensures ChangedFields(SnapshotOf(c), c) == []
    ensures !CommentChanged(SnapshotOf(c).comment, c.comment)
  {
    ChangedAmongNone(FieldOrder, SnapshotOf(c), c);
  }

  /** The changes of an update: none without a snapshot. */
  function UpdateFields(pre: PreSave, c: Card): seq<Field>
  {
    if pre.previousData.Some? then ChangedFields(pre.previousData.value, c) else []
  }

  /** `old or '(vazio)'`, cut to 50 characters. */
  function DescPreview(d: string): string
  {
    Take(if d == "" then "(vazio)" else d, 50)
  }

  /** `"%d/%m/%Y"` of a date column, or `Não definida`. */
  function DateOrUndefined(fmt: Formats, d: Option<int>): string
  {
    if d.Some? then fmt.dayMonthYear(d.value) else "Não definida"
  }

  /** The old responsible user's name; `N/A` when that user no longer exists. */
  function OldResponsavel(users: map<UserId, User>, u: Option<UserId>): string
  {
    if u.None? then "Ninguém" else if u.value in users then NameOf(users, u.value) else "N/A"
  }

  /**
   * The complexity entry: only the new state is listed (selected items, the
   * development when set and not among them, the custom items), or
   * `  - Nenhum`.
   */
  function ComplexityEntries(c: Card): (r: seq<string>)
    ensures |r| == |ListOrEmpty(c.selectedItems)| + |ListOrEmpty(c.customItems)|
                   + (if IsSet(c.selectedDevelopment) && c.selectedDevelopment.value !in ListOrEmpty(c.selectedItems)
                      then 1 else 0)
  {
    var items := ListOrEmpty(c.selectedItems);
    ItemTexts(items)
    + (if IsSet(c.selectedDevelopment) && c.selectedDevelopment.value !in items
       then [ItemText(c.selectedDevelopment.value)] else [])
    + CustomTexts(ListOrEmpty(c.customItems))
  }

  function ComplexityText(c: Card): string
  {
    var entries := ComplexityEntries(c);
    Join(["Complexidade do projeto:"] + (if |entries| == 0 then ["  - Nenhum"] else Bullets("  - ", entries)), '\n')
  }

  /** The entry of one changed field. */
  function ChangeText(fmt: Formats, users: map<UserId, User>, s: Snapshot, c: Card, f: Field): string
    requires c.responsavel.Some? ==> c.responsavel.value in users
  {
    match f
    case FNome => "Nome: \"" + s.nome + "\" → \"" + c.nome + "\""
    case FDescricao => "Descrição: \"" + DescPreview(s.descricao) + "...\" → \"" + DescPreview(c.descricao) + "...\""
    case FPrioridade => "Prioridade: " + LabelOr(PrioridadeLabels, s.prioridade) + " → " + LabelOr(PrioridadeLabels, c.prioridade)
    case FArea => "Área: " + LabelOr(AreaLabels, s.area) + " → " + LabelOr(AreaLabels, c.area)
    case FTipo => "Tipo: " + LabelOr(TipoLabels, s.tipo) + " → " + LabelOr(TipoLabels, c.tipo)
    case FResponsavel =>
      "Responsável: " + OldResponsavel(users, s.responsavel) + " → "
      + (if c.responsavel.Some? then NameOf(users, c.responsavel.value) else "Ninguém")
    case FDataInicio => "Data de Início: " + DateOrUndefined(fmt, s.dataInicio) + " → " + DateOrUndefined(fmt, c.dataInicio)
    case FDataFim => "Data de Fim: " + DateOrUndefined(fmt, s.dataFim) + " → " + DateOrUndefined(fmt, c.dataFim)
    case FComplexidade => ComplexityText(c)
  }

  function ChangeTexts(fmt: Formats, users: map<UserId, User>, s: Snapshot, c: Card, fs: seq<Field>): (r: seq<string>)
    requires c.responsavel.Some? ==> c.responsavel.value in users
    ensures |r| == |fs|
  {
    if |fs| == 0 then [] else ChangeTexts(fmt, users, s, c, fs[..|fs| - 1]) + [ChangeText(fmt, users, s, c, fs[|fs| - 1])]
  }

  /** The `changes` list of an update. */
  function Changes(fmt: Formats, users: map<UserId, User>, pre: PreSave, c: Card): (r: seq<string>)
    requires c.responsavel.Some? ==> c.responsavel.value in users
    ensures |r| == |UpdateFields(pre, c)|
  {
    if pre.previousData.Some? then ChangeTexts(fmt, users, pre.previousData.value, c, UpdateFields(pre, c)) else []
  }

  /** The update message: the bullet list of changes, or the generic sentence. */
  function UpdateText(nome: string, changes: seq<string>): string
  {
    if |changes| > 0 then "O card \"" + nome + "\" foi atualizado:\n" + Join(Bullets("• ", changes), '\n')
    else "O card \"" + nome + "\" foi atualizado."
  }

  // ------------------------------------------------------------------
  // Comments and recipients
  // ------------------------------------------------------------------

  /** `str(x) if x else ''`, then `strip()`, on both sides: `None` and blank text are the same. */
  predicate CommentChanged(before: Option<string>, after: Option<string>)
  {
    PyStrip(TextOrEmpty(before)) != PyStrip(TextOrEmpty(after))
  }

  /** Appends the value an option holds unless it is already listed. */
  function AddIfAbsent(s: seq<UserId>, o: Option<UserId>): (r: seq<UserId>)
  {
    if o.Some? then AppendNew(s, o.value) else s
  }

  /**
   * The watchers, then the card's responsible user and the project
   * manager, each added only when not yet listed.
   */
  function WatcherRecipients(watchers: seq<UserId>, c: Card, p: Project): seq<UserId>
  {
    AddIfAbsent(AddIfAbsent(watchers, c.responsavel), p.gerente)
  }

  lemma AddIfAbsentFacts(s: seq<UserId>, o: Option<UserId>)
    requires Distinct(s)
    ensures Distinct(AddIfAbsent(s, o))
    ensures forall u :: u in AddIfAbsent(s, o) <==> u in s || o == Some(u)
    ensures s <= AddIfAbsent(s, o)
  {
  }

  /**
   * The recipient list lists the watchers first and holds each of them,
   * the responsible user and the manager exactly once.
   */
  lemma WatcherRecipientsExact(watchers: seq<UserId>, c: Card, p: Project)
    requires Distinct(watchers)
    ensures Distinct(WatcherRecipients(watchers, c, p))
    ensures watchers <= WatcherRecipients(watchers, c, p)
    ensures forall u :: u in WatcherRecipients(watchers, c, p) <==>
              u in watchers || c.responsavel == Some(u) || p.gerente == Some(u)
  {
    AddIfAbsentFacts(watchers, c.responsavel);
    AddIfAbsentFacts(AddIfAbsent(watchers, c.responsavel), p.gerente);
  }

  /** A value listed once occurs once. */
  lemma {:induction false} OccurrencesDistinct(ids: seq<UserId>, u: UserId)
    requires Distinct(ids)
    ensures Occurrences(ids, u) == if u in ids then 1 else 0
  {
    if |ids| > 0 {
      var init := ids[..|ids| - 1];
      assert Distinct(init);
      OccurrencesDistinct(init, u);
      if ids[|ids| - 1] == u {
        assert u !in init;
      }
    }
  }

  /** Every known user on the list receives the message. */
  lemma {:induction false} SentReaches(users: set<UserId>, ids: seq<UserId>, m: Message, now: int, u: UserId)
    requires u in users && u in ids
    ensures NewNotification(u, m, now) in Sent(users, ids, m, now)
  {
    var init := ids[..|ids| - 1];
    if ids[|ids| - 1] != u {
      assert u in init;
      SentReaches(users, init, m, now, u);
    }
  }

  // ------------------------------------------------------------------
  // card_created_or_updated: the messages
  // ------------------------------------------------------------------

  function CardMeta(c: Card, p: Project): map<string, Json>
  {
    map["card_nome" := JStr(c.nome), "project_nome" := JStr(p.nome)]
  }

  function CreatedForResponsavel(id: nat, c: Card, p: Project): Message
  {
    Message(CardCreated, "Novo Card Atribuído",
            "Um novo card \"" + c.nome + "\" foi criado e atribuído a você.",
            Some(id), None, Some(c.projeto), Some(CardMeta(c, p)))
  }

  function CreatedForGerente(id: nat, c: Card, p: Project): Message
  {
    Message(CardCreated, "Novo Card Criado",
            "Um novo card \"" + c.nome + "\" foi criado no projeto \"" + p.nome + "\".",
            Some(id), None, Some(c.projeto), Some(CardMeta(c, p)))
  }

  function DemandCreated(id: nat, c: Card, criador: string): Message
  {
    Message(CardCreated, "Nova Demanda Criada",
            "Uma nova demanda \"" + c.nome + "\" foi criada por " + criador + " e aguarda avaliação.",
            Some(id), None, Some(c.projeto),
            Some(map["card_nome" := JStr(c.nome), "criador" := JStr(criador)]))
  }

  function MovedMessage(id: nat, c: Card, p: Project, from: CardStatus, to: CardStatus): Message
  {
    Message(CardMoved, "Card Movido",
            "O card \"" + c.nome + "\" foi movido de \"" + StatusLabel(from) + "\" para \"" + StatusLabel(to) + "\".",
            Some(id), None, Some(c.projeto),
            Some(CardMeta(c, p)["old_status" := JStr(StatusCode(from))]["new_status" := JStr(StatusCode(to))]))
  }

  function CommentMessage(id: nat, c: Card): Message
  {
    Message(CardUpdated, "Comentário do Card Atualizado",
            "O comentário do card \"" + c.nome + "\" foi atualizado.",
            Some(id), None, Some(c.projeto),
            Some(map["card_nome" := JStr(c.nome), "comment_changed" := JBool(true)]))
  }

  function UpdatedMessage(id: nat, c: Card, p: Project, changes: seq<string>): Message
  {
    Message(CardUpdated, "Card Atualizado", UpdateText(c.nome, changes),
            Some(id), None, Some(c.projeto), Some(CardMeta(c, p)["changes" := JStrList(changes)]))
  }

  function DemandUpdated(id: nat, c: Card, criador: string, changes: seq<string>): Message
  {
    Message(CardUpdated, "Demanda Atualizada",
            "A demanda \"" + c.nome + "\" criada por " + criador + " foi atualizada.",
            Some(id), None, Some(c.projeto),
            Some(map["card_nome" := JStr(c.nome), "criador" := JStr(criador), "changes" := JStrList(changes)]))
  }

  /** The project whose cards are demands awaiting review. */
  const DemandProject := "Sugestões"

  // ------------------------------------------------------------------
  // card_created_or_updated: what it writes
  // ------------------------------------------------------------------

  /** Whether the log already holds a CRIADO entry for card `id`. */
  predicate HasCriadoLog(logs: seq<CardLog>, id: nat)
  {
    exists k :: 0 <= k < |logs| && logs[k].card == id && logs[k].tipoEvento == LogCriado
  }

  /** The CRIADO entry of a creation, unless the card already has one. */
  function CreatedLogs(fmt: Formats, t: Tables, logs: seq<CardLog>, id: nat, c: Card, actor: Option<UserId>)
    : seq<CardLog>
    requires CardRefsValid(t, c)
  {
    if HasCriadoLog(logs, id) then [] else [CardLog(id, LogCriado, CreationText(fmt, t.users, c), actor)]
  }

  /** The ALTERACAO entry of an update, when something changed. */
  function UpdatedLogs(fmt: Formats, t: Tables, id: nat, c: Card, pre: PreSave, actor: Option<UserId>): seq<CardLog>
    requires CardRefsValid(t, c)
  {
    var changes := Changes(fmt, t.users, pre, c);
    if |changes| > 0 then [CardLog(id, LogAlteracao, UpdateText(c.nome, changes), actor)] else []
  }

  /**
   * The log entries the handler writes for the save of card `id`: the
   * CRIADO entry on creation unless one exists, an ALTERACAO entry on an
   * update with changes, nothing on a move.
   */
  function LogsWritten(fmt: Formats, t: Tables, logs: seq<CardLog>, id: nat, c: Card, created: bool,
                       pre: PreSave, actor: Option<UserId>): seq<CardLog>
    requires CardRefsValid(t, c)
  {
    match Classify(created, pre.previousStatus, c.status)
    case Created => CreatedLogs(fmt, t, logs, id, c, actor)
    case Moved(_, _) => []
    case Updated => UpdatedLogs(fmt, t, id, c, pre, actor)
  }

  /** The comment notification of an update, when the snapshot shows the comment changed. */
  function CommentNotifications(t: Tables, id: nat, c: Card, pre: PreSave, now: int): seq<Notification>
    requires c.projeto < |t.projects|
  {
    if pre.previousData.Some? && CommentChanged(pre.previousData.value.comment, c.comment) then
      Sent(t.users.Keys, WatcherRecipients(t.watchers, c, t.projects[c.projeto]), CommentMessage(id, c), now)
    else []
  }

  /** The demand notifications: every reviewer, when the card is in the demand project. */
  function DemandNotifications(t: Tables, c: Card, m: Message, now: int): seq<Notification>
    requires c.projeto < |t.projects|
  {
    if t.projects[c.projeto].nome == DemandProject then Sent(t.users.Keys, t.reviewers, m, now) else []
  }

  /** The notifications of a creation that was not logged before. */
  function CreationSends(t: Tables, id: nat, c: Card, now: int): seq<Notification>
    requires CardRefsValid(t, c)
  {
    var p := t.projects[c.projeto];
    Sent(t.users.Keys, OptionToSeq(c.responsavel), CreatedForResponsavel(id, c, p), now)
    + Sent(t.users.Keys, OptionToSeq(p.gerente), CreatedForGerente(id, c, p), now)
    + DemandNotifications(t, c, DemandCreated(id, c, CreatorName(t.users, c)), now)
  }

  /** The notifications of a creation: none when a CRIADO entry exists. */
  function CreatedNotifications(t: Tables, logs: seq<CardLog>, id: nat, c: Card, now: int): seq<Notification>
    requires CardRefsValid(t, c)
  {
    if HasCriadoLog(logs, id) then [] else CreationSends(t, id, c, now)
  }

  /** The notifications of a move. */
  function MovedNotifications(t: Tables, id: nat, c: Card, from: CardStatus, to: CardStatus, now: int)
    : seq<Notification>
    requires c.projeto < |t.projects|
  {
    var p := t.projects[c.projeto];
    Sent(t.users.Keys, Assignees(c, p), MovedMessage(id, c, p, from, to), now)
  }

  /** The notifications of an update. */
  function UpdatedNotifications(fmt: Formats, t: Tables, id: nat, c: Card, pre: PreSave, now: int)
    : seq<Notification>
    requires CardRefsValid(t, c)
  {
    var p := t.projects[c.projeto];
    var changes := Changes(fmt, t.users, pre, c);
    CommentNotifications(t, id, c, pre, now)
    + Sent(t.users.Keys, Assignees(c, p), UpdatedMessage(id, c, p, changes), now)
    + DemandNotifications(t, c, DemandUpdated(id, c, CreatorName(t.users, c), changes), now)
  }

  /** The notifications the handler creates, in the order it creates them. */
  function NotificationsSent(fmt: Formats, t: Tables, logs: seq<CardLog>, id: nat, c: Card, created: bool,
                             pre: PreSave, now: int): seq<Notification>
    requires CardRefsValid(t, c)
  {
    match Classify(created, pre.previousStatus, c.status)
    case Created => CreatedNotifications(t, logs, id, c, now)
    case Moved(from, to) => MovedNotifications(t, id, c, from, to, now)
    case Updated => UpdatedNotifications(fmt, t, id, c, pre, now)
  }

  /**
   * The creation guard: when a CRIADO entry exists the handler returns
   * early, writing neither a log nor any notification; otherwise it writes
   * exactly one CRIADO entry.
   */
  lemma CreationGuard(fmt: Formats, t: Tables, logs: seq<CardLog>, id: nat, c: Card, pre: PreSave,
                      actor: Option<UserId>, now: int)
    requires CardRefsValid(t, c)
    ensures HasCriadoLog(logs, id) ==>
              LogsWritten(fmt, t, logs, id, c, true, pre, actor) == []
              && NotificationsSent(fmt, t, logs, id, c, true, pre, now) == []
    ensures !HasCriadoLog(logs, id) ==>
              |LogsWritten(fmt, t, logs, id, c, true, pre, actor)| == 1
              && LogsWritten(fmt, t, logs, id, c, true, pre, actor)[0].tipoEvento == LogCriado
              && LogsWritten(fmt, t, logs, id, c, true, pre, actor)[0].card == id
  {
  }

  /** A freshly created card has no log entries yet, so its creation is always logged. */
  lemma FreshCardLogged(fmt: Formats, t: Tables, logs: seq<CardLog>, id: nat, c: Card, pre: PreSave,
                        actor: Option<UserId>)
    requires CardRefsValid(t, c)
    requires forall k :: 0 <= k < |logs| ==> logs[k].card < id
    ensures LogsWritten(fmt, t, logs, id, c, true, pre, actor)
            == [CardLog(id, LogCriado, CreationText(fmt, t.users, c), actor)]
  {
    assert !HasCriadoLog(logs, id);
  }

  /**
   * An update is logged exactly when its change list is non-empty, and then
   * as ALTERACAO with the update message.
   */
  lemma AlteracaoRule(fmt: Formats, t: Tables, logs: seq<CardLog>, id: nat, c: Card, pre: PreSave,
                      actor: Option<UserId>)
    requires CardRefsValid(t, c) && Classify(false, pre.previousStatus, c.status) == Updated
    ensures |LogsWritten(fmt, t, logs, id, c, false, pre, actor)| == if |UpdateFields(pre, c)| > 0 then 1 else 0
    ensures |UpdateFields(pre, c)| > 0 ==>
              LogsWritten(fmt, t, logs, id, c, false, pre, actor)[0].tipoEvento == LogAlteracao
  {
  }

  /**
   * Whatever the change list, an update tells the responsible user and
   * the project manager, with the generic message when nothing changed.
   */
  lemma UpdateNotifiesAssignees(fmt: Formats, t: Tables, logs: seq<CardLog>, id: nat, c: Card, pre: PreSave,
                                now: int, u: UserId)
    requires CardRefsValid(t, c) && Classify(false, pre.previousStatus, c.status) == Updated
    requires u in t.users && u in Assignees(c, t.projects[c.projeto])
    ensures NewNotification(u, UpdatedMessage(id, c, t.projects[c.projeto], Changes(fmt, t.users, pre, c)), now)
            in NotificationsSent(fmt, t, logs, id, c, false, pre, now)
    ensures |UpdateFields(pre, c)| == 0 ==>
              UpdatedMessage(id, c, t.projects[c.projeto], Changes(fmt, t.users, pre, c)).mensagem
              == "O card \"" + c.nome + "\" foi atualizado."
  {
    var p := t.projects[c.projeto];
    var m := UpdatedMessage(id, c, p, Changes(fmt, t.users, pre, c));
    SentReaches(t.users.Keys, Assignees(c, p), m, now, u);
  }

  /** A move writes no log entry and sends the move notifications. */
  lemma MoveOutput(fmt: Formats, t: Tables, logs: seq<CardLog>, id: nat, c: Card, pre: PreSave,
                   actor: Option<UserId>, now: int)
    requires CardRefsValid(t, c) && Classify(false, pre.previousStatus, c.status).Moved?
    ensures LogsWritten(fmt, t, logs, id, c, false, pre, actor) == []
    ensures NotificationsSent(fmt, t, logs, id, c, false, pre, now)
            == MovedNotifications(t, id, c, pre.previousStatus.value, c.status, now)
  {
  }

  /**
   * The move notifications are CARD_MOVED rows, one per assignee entry
   * that exists: a user who is both responsible and manager is told twice.
   */
  lemma MovedRows(t: Tables, id: nat, c: Card, from: CardStatus, to: CardStatus, now: int, u: UserId)
    requires c.projeto < |t.projects|
    ensures forall k :: 0 <= k < |MovedNotifications(t, id, c, from, to, now)| ==>
              MovedNotifications(t, id, c, from, to, now)[k].tipo == CardMoved
    ensures u in t.users && c.responsavel == Some(u) && t.projects[c.projeto].gerente == Some(u) ==>
              CountFor(MovedNotifications(t, id, c, from, to, now), u) == 2
  {
    var p := t.projects[c.projeto];
    var m := MovedMessage(id, c, p, from, to);
    SentShape(t.users.Keys, Assignees(c, p), m, now);
    SentCount(t.users.Keys, Assignees(c, p), m, now, u);
    if c.responsavel == Some(u) && p.gerente == Some(u) {
      assert Assignees(c, p) == [u, u];
      assert [u, u][..1] == [u];
      assert [u][..0] == [];
      assert Occurrences([u], u) == 1;
    }
  }

  /**
   * A move notifies only through CARD_MOVED rows, one per assignee entry:
   * a user who is both responsible and manager is told twice, and no log
   * entry or change list is produced even if other fields changed too.
   */
  lemma MoveNotifies(fmt: Formats, t: Tables, logs: seq<CardLog>, id: nat, c: Card, pre: PreSave,
                     actor: Option<UserId>, now: int, u: UserId)
    requires CardRefsValid(t, c) && Classify(false, pre.previousStatus, c.status).Moved?
    ensures LogsWritten(fmt, t, logs, id, c, false, pre, actor) == []
    ensures forall k :: 0 <= k < |NotificationsSent(fmt, t, logs, id, c, false, pre, now)| ==>
              NotificationsSent(fmt, t, logs, id, c, false, pre, now)[k].tipo == CardMoved
    ensures u in t.users && c.responsavel == Some(u) && t.projects[c.projeto].gerente == Some(u) ==>
              CountFor(NotificationsSent(fmt, t, logs, id, c, false, pre, now), u) == 2
  {
    MoveOutput(fmt, t, logs, id, c, pre, actor, now);
    MovedRows(t, id, c, pre.previousStatus.value, c.status, now, u);
  }

  /**
   * The comment notification reaches each watcher, the responsible user
   * and the manager once, even when one person holds several of these
   * roles.
   */
  lemma CommentNotifiedOnce(t: Tables, id: nat, c: Card, pre: PreSave, now: int, u: UserId)
    requires ListingsValid(t) && CardRefsValid(t, c)
    requires pre.previousData.Some? && CommentChanged(pre.previousData.value.comment, c.comment)
    requires u in t.users
    ensures CountFor(CommentNotifications(t, id, c, pre, now), u)
            == if IsWatcher(t.users[u]) || c.responsavel == Some(u) || t.projects[c.projeto].gerente == Some(u)
               then 1 else 0
  {
    var p := t.projects[c.projeto];
    var ids := WatcherRecipients(t.watchers, c, p);
    WatcherRecipientsExact(t.watchers, c, p);
    OccurrencesDistinct(ids, u);
    SentCount(t.users.Keys, ids, CommentMessage(id, c), now, u);
  }

  /** On a demand's creation every active supervisor and admin is told. */
  lemma DemandReviewersNotified(fmt: Formats, t: Tables, logs: seq<CardLog>, id: nat, c: Card, pre: PreSave,
                                now: int, u: UserId)
    requires ListingsValid(t) && CardRefsValid(t, c) && !HasCriadoLog(logs, id)
    requires t.projects[c.projeto].nome == DemandProject
    requires u in t.users && IsReviewer(t.users[u])
    ensures NewNotification(u, DemandCreated(id, c, CreatorName(t.users, c)), now)
            in NotificationsSent(fmt, t, logs, id, c, true, pre, now)
  {
    SentReaches(t.users.Keys, t.reviewers, DemandCreated(id, c, CreatorName(t.users, c)), now, u);
  }

  // ------------------------------------------------------------------
  // TODO signals and card deletion
  // ------------------------------------------------------------------

  /** `status_labels` of a TODO. */
  function TodoStatusLabel(s: TodoStatus): string
  {
    match s
    case Pending => "Pendente"
    case Completed => "Concluído"
    case Blocked => "Bloqueado"
    case Warning => "Aviso"
  }

  /** The attributes `card_todo_pre_save` leaves on a TODO. */
  datatype TodoPreSave = TodoPreSave(previousStatus: Option<TodoStatus>, previousComment: Option<string>)

  /** `card_todo_pre_save`: the stored row's status and comment, or nothing. */
  function CardTodoPreSave(stored: Option<CardTodo>): (p: TodoPreSave)
    ensures stored.None? ==> p == TodoPreSave(None, None)
    ensures stored.Some? ==> p == TodoPreSave(Some(stored.value.status), stored.value.comment)
  {
    if stored.None? then TodoPreSave(None, None) else TodoPreSave(Some(stored.value.status), stored.value.comment)
  }

  predicate TodoStatusChanged(pre: TodoPreSave, todo: CardTodo)
  {
    pre.previousStatus.Some? && pre.previousStatus.value != todo.status
  }

  /** What a TODO save reports: a new TODO, or which of status and comment changed. */
  datatype TodoReport = NewTodo | StatusAndComment | StatusOnly | CommentOnly | Silent

  function TodoReportOf(created: bool, pre: TodoPreSave, todo: CardTodo): (r: TodoReport)
    ensures r == Silent <==> !created && !TodoStatusChanged(pre, todo) && !CommentChanged(pre.previousComment, todo.comment)
  {
    var s := TodoStatusChanged(pre, todo);
    var k := CommentChanged(pre.previousComment, todo.comment);
    if created then NewTodo
    else if s && k then StatusAndComment
    else if s then StatusOnly
    else if k then CommentOnly
    else Silent
  }

  function TodoMessage(r: TodoReport, todoId: nat, todo: CardTodo, card: Card, pre: TodoPreSave): Message
  {
    var about := "O TODO \"" + todo.text + "\" do card \"" + card.nome + "\"";
    var changed := r == StatusAndComment || r == StatusOnly;
    var from := if pre.previousStatus.Some? then TodoStatusLabel(pre.previousStatus.value) else "";
    var oldCode := if pre.previousStatus.Some? then JStr(TodoStatusCode(pre.previousStatus.value)) else JNull;
    var moved := " foi alterado de \"" + from + "\" para \"" + TodoStatusLabel(todo.status) + "\"";
    if r == NewTodo then
      Message(CardTodoUpdated, "Novo TODO Adicionado",
              "Um novo TODO \"" + todo.text + "\" foi adicionado ao card \"" + card.nome + "\".",
              Some(todo.card), None, Some(card.projeto),
              Some(map["card_nome" := JStr(card.nome), "todo_label" := JStr(todo.text), "todo_id" := JInt(todoId),
                       "is_new" := JBool(true)]))
    else
      Message(CardTodoUpdated, "TODO Atualizado",
              if r == StatusAndComment then about + moved + " e o comentário foi atualizado."
              else if r == StatusOnly then about + moved + "."
              else "O comentário do TODO \"" + todo.text + "\" do card \"" + card.nome + "\" foi atualizado.",
              Some(todo.card), None, Some(card.projeto),
              Some(map["card_nome" := JStr(card.nome), "todo_label" := JStr(todo.text),
                       "old_status" := (if changed then oldCode else JNull),
                       "new_status" := (if changed then JStr(TodoStatusCode(todo.status)) else JNull),
                       "comment_changed" := JBool(r == StatusAndComment || r == CommentOnly),
                       "todo_id" := JInt(todoId)]))
  }

  /**
   * `card_todo_updated`: nothing when the card is gone, when nobody is to
   * be told, or when an existing TODO changed neither status nor comment.
   */
  function TodoNotifications(t: Tables, cards: seq<Card>, todoId: nat, todo: CardTodo, created: bool,
                             pre: TodoPreSave, now: int): seq<Notification>
    requires CardsValid(cards, t.projects)
  {
    if todo.card >= |cards| then []
    else
      var card := cards[todo.card];
      var ids := WatcherRecipients(t.watchers, card, t.projects[card.projeto]);
      var r := TodoReportOf(created, pre, todo);
      if |ids| == 0 || r == Silent then []
      else Sent(t.users.Keys, ids, TodoMessage(r, todoId, todo, card, pre), now)
  }

  /**
   * A TODO save notifies only when the card exists, someone is listed and
   * the TODO is new or its status or trimmed comment changed; then every
   * listed user who exists is told exactly once.
   */
  lemma TodoNotifyRule(t: Tables, cards: seq<Card>, todoId: nat, todo: CardTodo, created: bool,
                       pre: TodoPreSave, now: int, u: UserId)
    requires CardsValid(cards, t.projects) && ListingsValid(t)
    ensures TodoNotifications(t, cards, todoId, todo, created, pre, now) != [] ==>
              todo.card < |cards|
              && (created || TodoStatusChanged(pre, todo) || CommentChanged(pre.previousComment, todo.comment))
    ensures todo.card < |cards| && u in t.users
            && (created || TodoStatusChanged(pre, todo) || CommentChanged(pre.previousComment, todo.comment)) ==>
              CountFor(TodoNotifications(t, cards, todoId, todo, created, pre, now), u)
              == if u in WatcherRecipients(t.watchers, cards[todo.card], t.projects[cards[todo.card].projeto])
                 then 1 else 0
  {
    if todo.card < |cards| {
      var card := cards[todo.card];
      var ids := WatcherRecipients(t.watchers, card, t.projects[card.projeto]);
      WatcherRecipientsExact(t.watchers, card, t.projects[card.projeto]);
      OccurrencesDistinct(ids, u);
      var r := TodoReportOf(created, pre, todo);
      if r != Silent {
        SentCount(t.users.Keys, ids, TodoMessage(r, todoId, todo, card, pre), now, u);
      }
    }
  }

  function TodoDeletedMessage(todoId: nat, todo: CardTodo, card: Card): Message
  {
    Message(CardTodoUpdated, "TODO Removido",
            "O TODO \"" + todo.text + "\" foi removido do card \"" + card.nome + "\".",
            Some(todo.card), None, Some(card.projeto),
            Some(map["card_nome" := JStr(card.nome), "todo_label" := JStr(todo.text), "todo_id" := JInt(todoId),
                     "is_deleted" := JBool(true)]))
  }

  /** `card_todo_deleted`: the watchers and assignees of the card, when it still exists. */
  function TodoDeletedNotifications(t: Tables, cards: seq<Card>, todoId: nat, todo: CardTodo, now: int)
    : seq<Notification>
    requires CardsValid(cards, t.projects)
  {
    if todo.card >= |cards| then []
    else
      var card := cards[todo.card];
      var ids := WatcherRecipients(t.watchers, card, t.projects[card.projeto]);
      if |ids| == 0 then [] else Sent(t.users.Keys, ids, TodoDeletedMessage(todoId, todo, card), now)
  }

  /** Removing a TODO of an existing card tells each watcher and assignee once. */
  lemma TodoDeletedOnce(t: Tables, cards: seq<Card>, todoId: nat, todo: CardTodo, now: int, u: UserId)
    requires CardsValid(cards, t.projects) && ListingsValid(t) && todo.card < |cards| && u in t.users
    ensures CountFor(TodoDeletedNotifications(t, cards, todoId, todo, now), u)
            == if u in WatcherRecipients(t.watchers, cards[todo.card], t.projects[cards[todo.card].projeto])
               then 1 else 0
  {
    var card := cards[todo.card];
    var ids := WatcherRecipients(t.watchers, card, t.projects[card.projeto]);
    WatcherRecipientsExact(t.watchers, card, t.projects[card.projeto]);
    OccurrencesDistinct(ids, u);
    SentCount(t.users.Keys, ids, TodoDeletedMessage(todoId, todo, card), now, u);
  }

  /** `card_deleted`: no card id (the card is gone), the project and the card's name. */
  function CardDeletedMessage(c: Card, p: Project): Message
  {
    Message(CardDeleted, "Card Deletado", "O card \"" + c.nome + "\" foi deletado.",
            None, None, Some(c.projeto), Some(CardMeta(c, p)))
  }

  /** A deleted card's assignees are told without de-duplication, and the rows name no card. */
  lemma CardDeletedRows(t: Tables, c: Card, now: int, u: UserId)
    requires c.projeto < |t.projects|
    ensures forall k :: 0 <= k < |Sent(t.users.Keys, Assignees(c, t.projects[c.projeto]),
                                       CardDeletedMessage(c, t.projects[c.projeto]), now)| ==>
              Sent(t.users.Keys, Assignees(c, t.projects[c.projeto]), CardDeletedMessage(c, t.projects[c.projeto]), now)[k]
                .cardId.None?
    ensures CountFor(Sent(t.users.Keys, Assignees(c, t.projects[c.projeto]), CardDeletedMessage(c, t.projects[c.projeto]), now), u)
            == if u in t.users then Occurrences(Assignees(c, t.projects[c.projeto]), u) else 0
  {
    var p := t.projects[c.projeto];
    SentShape(t.users.Keys, Assignees(c, p), CardDeletedMessage(c, p), now);
    SentCount(t.users.Keys, Assignees(c, p), CardDeletedMessage(c, p), now, u);
  }

  // ------------------------------------------------------------------
  // The handlers, run against the stores
  // ------------------------------------------------------------------

  /** The card log table. */
  class CardLogBook {
    var logs: seq<CardLog>

    constructor()
      ensures logs == []
    {
      logs := [];
    }

    method Append(entry: CardLog)
      modifies this
      ensures logs == old(logs) + [entry]
    {
      logs := logs + [entry];
    }
  }

  /** One `send_notification` per id of a list whose entries all carry the same message. */
  method SendAll(center: NotificationCenter, ids: seq<UserId>, m: Message, now: int)
    requires center.Valid()
    modifies center
    ensures center.Valid() && center.users == old(center.users)
    ensures center.rows == old(center.rows) + Sent(old(center.users), ids, m, now)
  {
    var ns := center.SendToMany(ids, m, now);
  }

  /** Appending three batches one after another appends their concatenation. */
  lemma RowsAppend(a: seq<Notification>, b: seq<Notification>, c: seq<Notification>, d: seq<Notification>)
    ensures a + b + c + d == a + (b + c + d)
  {
  }

  /** The creation notifications, sent in order. */
  method NotifyCreated(center: NotificationCenter, t: Tables, id: nat, c: Card, now: int)
    requires center.Valid() && center.users == t.users.Keys && CardRefsValid(t, c)
    modifies center
    ensures center.Valid() && center.users == old(center.users)
    ensures center.rows == old(center.rows) + CreationSends(t, id, c, now)
  {
    var p := t.projects[c.projeto];
    SendAll(center, OptionToSeq(c.responsavel), CreatedForResponsavel(id, c, p), now);
    SendAll(center, OptionToSeq(p.gerente), CreatedForGerente(id, c, p), now);
    NotifyDemand(center, t, c, DemandCreated(id, c, CreatorName(t.users, c)), now);
  }

  /** The creation branch of `card_created_or_updated`. */
  method OnCreated(fmt: Formats, center: NotificationCenter, book: CardLogBook, t: Tables,
                   id: nat, c: Card, actor: Option<UserId>, now: int)
    requires center.Valid() && center.users == t.users.Keys && CardRefsValid(t, c)
    modifies center, book
    ensures center.Valid() && center.users == old(center.users)
    ensures book.logs == old(book.logs) + CreatedLogs(fmt, t, old(book.logs), id, c, actor)
    ensures center.rows == old(center.rows) + CreatedNotifications(t, old(book.logs), id, c, now)
  {
    if HasCriadoLog(book.logs, id) {
      return;
    }
    book.Append(CardLog(id, LogCriado, CreationText(fmt, t.users, c), actor));
    NotifyCreated(center, t, id, c, now);
  }

  /** The update notifications, sent in order. */
  method NotifyUpdated(fmt: Formats, center: NotificationCenter, t: Tables, id: nat, c: Card, pre: PreSave, now: int)
    requires center.Valid() && center.users == t.users.Keys && CardRefsValid(t, c)
    modifies center
    ensures center.Valid() && center.users == old(center.users)
    ensures center.rows == old(center.rows) + UpdatedNotifications(fmt, t, id, c, pre, now)
  {
    var p := t.projects[c.projeto];
    var changes := Changes(fmt, t.users, pre, c);
    var m := UpdatedMessage(id, c, p, changes);
    var d := DemandUpdated(id, c, CreatorName(t.users, c), changes);
    NotifyComment(center, t, id, c, pre, now);
    SendAll(center, Assignees(c, p), m, now);
    NotifyDemand(center, t, c, d, now);
    RowsAppend(old(center.rows), CommentNotifications(t, id, c, pre, now), Sent(t.users.Keys, Assignees(c, p), m, now),
               DemandNotifications(t, c, d, now));
  }

  /** The comment notification of an update. */
  method NotifyComment(center: NotificationCenter, t: Tables, id: nat, c: Card, pre: PreSave, now: int)
    requires center.Valid() && center.users == t.users.Keys && c.projeto < |t.projects|
    modifies center
    ensures center.Valid() && center.users == old(center.users)
    ensures center.rows == old(center.rows) + CommentNotifications(t, id, c, pre, now)
  {
    if pre.previousData.Some? && CommentChanged(pre.previousData.value.comment, c.comment) {
      SendAll(center, WatcherRecipients(t.watchers, c, t.projects[c.projeto]), CommentMessage(id, c), now);
    }
  }

  /** The demand notifications of a creation or an update. */
  method NotifyDemand(center: NotificationCenter, t: Tables, c: Card, m: Message, now: int)
    requires center.Valid() && center.users == t.users.Keys && c.projeto < |t.projects|
    modifies center
    ensures center.Valid() && center.users == old(center.users)
    ensures center.rows == old(center.rows) + DemandNotifications(t, c, m, now)
  {
    if t.projects[c.projeto].nome == DemandProject {
      SendAll(center, t.reviewers, m, now);
    }
  }

  /**
   * The update branch of `card_created_or_updated`. The log entry is
   * written between the comment notification and the others; the two
   * tables are independent, so the order in which they are filled does not
   * show.
   */
  method OnUpdated(fmt: Formats, center: NotificationCenter, book: CardLogBook, t: Tables,
                   id: nat, c: Card, pre: PreSave, actor: Option<UserId>, now: int)
    requires center.Valid() && center.users == t.users.Keys && CardRefsValid(t, c)
    modifies center, book
    ensures center.Valid() && center.users == old(center.users)
    ensures book.logs == old(book.logs) + UpdatedLogs(fmt, t, id, c, pre, actor)
    ensures center.rows == old(center.rows) + UpdatedNotifications(fmt, t, id, c, pre, now)
  {
    LogUpdate(fmt, book, t, id, c, pre, actor);
    NotifyUpdated(fmt, center, t, id, c, pre, now);
  }

  /** The ALTERACAO entry of an update, written when something changed. */
  method LogUpdate(fmt: Formats, book: CardLogBook, t: Tables, id: nat, c: Card, pre: PreSave, actor: Option<UserId>)
    requires CardRefsValid(t, c)
    modifies book
    ensures book.logs == old(book.logs) + UpdatedLogs(fmt, t, id, c, pre, actor)
  {
    var changes := Changes(fmt, t.users, pre, c);
    if |changes| > 0 {
      book.Append(CardLog(id, LogAlteracao, UpdateText(c.nome, changes), actor));
    }
  }

  /**
   * `card_created_or_updated` for the save of card `id`, `pre` being what
   * `card_pre_save` recorded.
   */
  method CardSaved(fmt: Formats, center: NotificationCenter, book: CardLogBook, t: Tables,
                   id: nat, c: Card, created: bool, pre: PreSave, actor: Option<UserId>, now: int)
    requires center.Valid() && center.users == t.users.Keys && CardRefsValid(t, c)
    modifies center, book
    ensures center.Valid() && center.users == old(center.users)
    ensures book.logs == old(book.logs) + LogsWritten(fmt, t, old(book.logs), id, c, created, pre, actor)
    ensures center.rows == old(center.rows) + NotificationsSent(fmt, t, old(book.logs), id, c, created, pre, now)
  {
    var kind := Classify(created, pre.previousStatus, c.status);
    if kind.Created? {
      OnCreated(fmt, center, book, t, id, c, actor, now);
    } else if kind.Moved? {
      var p := t.projects[c.projeto];
      SendAll(center, Assignees(c, p), MovedMessage(id, c, p, kind.from, kind.to), now);
    } else {
      OnUpdated(fmt, center, book, t, id, c, pre, actor, now);
    }
  }

  /** `card_todo_updated` for the save of a TODO. */
  method CardTodoUpdatedSignal(center: NotificationCenter, t: Tables, cards: seq<Card>, todoId: nat, todo: CardTodo,
                         created: bool, pre: TodoPreSave, now: int)
    requires center.Valid() && center.users == t.users.Keys && CardsValid(cards, t.projects)
    modifies center
    ensures center.Valid() && center.users == old(center.users)
    ensures center.rows == old(center.rows) + TodoNotifications(t, cards, todoId, todo, created, pre, now)
  {
    if todo.card >= |cards| {
      return;
    }
    var card := cards[todo.card];
    var ids := WatcherRecipients(t.watchers, card, t.projects[card.projeto]);
    if |ids| == 0 {
      return;
    }
    var r := TodoReportOf(created, pre, todo);
    if r != Silent {
      SendAll(center, ids, TodoMessage(r, todoId, todo, card, pre), now);
    }
  }

  /** `card_todo_deleted` after a TODO row is removed. */
  method CardTodoDeletedSignal(center: NotificationCenter, t: Tables, cards: seq<Card>, todoId: nat, todo: CardTodo, now: int)
    requires center.Valid() && center.users == t.users.Keys && CardsValid(cards, t.projects)
    modifies center
    ensures center.Valid() && center.users == old(center.users)
    ensures center.rows == old(center.rows) + TodoDeletedNotifications(t, cards, todoId, todo, now)
  {
    if todo.card >= |cards| {
      return;
    }
    var card := cards[todo.card];
    var ids := WatcherRecipients(t.watchers, card, t.projects[card.projeto]);
    if |ids| > 0 {
      SendAll(center, ids, TodoDeletedMessage(todoId, todo, card), now);
    }
  }

  /** `card_deleted` after a card row is removed. */
  method CardDeletedSignal(center: NotificationCenter, t: Tables, c: Card, now: int)
    requires center.Valid() && center.users == t.users.Keys && c.projeto < |t.projects|
    modifies center
    ensures center.Valid() && center.users == old(center.users)
    ensures center.rows == old(center.rows)
                           + Sent(t.users.Keys, Assignees(c, t.projects[c.projeto]), CardDeletedMessage(c, t.projects[c.projeto]), now)
  {
    var p := t.projects[c.projeto];
    var ids := Assignees(c, p);
    if |ids| > 0 {
      SendAll(center, ids, CardDeletedMessage(c, p), now);
    }
  }
}
