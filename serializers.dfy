/**
 * backend/apps/projects/serializers.py: the field validators of projects
 * and cards, and what `CardSerializer.create` does after the row is
 * stored: the fallback creation log and the original TODOs of the card's
 * area checklist.
 *
 * The TODO table is a `TodoTable` whose rows the instantiation appends.
 * Database queries over projects and cards become quantifiers over the
 * stores passed in; a row's id is its position in its store.
 */
module Serializers {
  import opened Common
  import opened Models
  import opened NotificationUtils
  import opened Signals

  // ------------------------------------------------------------------
  // ProjectSerializer.validate_nome
  // ------------------------------------------------------------------

  /** A project other than `self` with this name in sprint `s`. */
  predicate ProjectNameTaken(projects: seq<Project>, self: Option<nat>, s: nat, value: string, k: int)
  {
    0 <= k < |projects| && Some(k) != self && projects[k].nome == value && projects[k].sprint == s
  }

  /** The first project that makes the name collide, if any. */
  function FirstProjectNamesake(projects: seq<Project>, self: Option<nat>, s: nat, value: string, from: nat)
    : (r: Option<nat>)
    requires from <= |projects|
    ensures r.Some? ==> from <= r.value && ProjectNameTaken(projects, self, s, value, r.value)
    ensures r.None? ==> forall k :: from <= k < |projects| ==> !ProjectNameTaken(projects, self, s, value, k)
    decreases |projects| - from
  {
    if from == |projects| then None
    else if ProjectNameTaken(projects, self, s, value, from) then Some(from)
    else FirstProjectNamesake(projects, self, s, value, from + 1)
  }

  /**
   * `ProjectSerializer.validate_nome`. `self` is the project being edited
   * (`None` on creation) and `sprint` the `sprint` of the request data,
   * `None` when it is absent or falsy.
   */
  function ValidateProjectName(projects: seq<Project>, self: Option<nat>, sprint: Option<nat>, value: string)
    : (r: Validated<string>)
    ensures r.Accepted? <==>
              sprint.None? || forall k :: 0 <= k < |projects| ==> !ProjectNameTaken(projects, self, sprint.value, value, k)
    ensures r.Accepted? ==> r.value == value
    ensures r.Rejected? ==> r.message == "Já existe um projeto com o nome '" + value + "' nesta sprint."
  {
    if sprint.Some? && FirstProjectNamesake(projects, self, sprint.value, value, 0).Some? then
      Rejected("Já existe um projeto com o nome '" + value + "' nesta sprint.")
    else Accepted(value)
  }

  /** A request that does not name a sprint is never checked, whatever names already exist. */
  lemma ProjectNameUncheckedWithoutSprint(projects: seq<Project>, self: Option<nat>, value: string)
    ensures ValidateProjectName(projects, self, None, value) == Accepted(value)
  {
  }

  /** Editing a project never collides with the project itself. */
  lemma ProjectNameIgnoresSelf(projects: seq<Project>, self: nat, s: nat, value: string)
    requires self < |projects|
    requires forall k :: 0 <= k < |projects| && k != self ==> projects[k].nome != value
    ensures ValidateProjectName(projects, Some(self), Some(s), value) == Accepted(value)
  {
  }

  // ------------------------------------------------------------------
  // CardSerializer.validate_nome
  // ------------------------------------------------------------------

  /** A card other than `self` with this name that is neither finished nor dropped. */
  predicate OpenNamesake(cards: seq<Card>, self: Option<nat>, value: string, k: int)
  {
    0 <= k < |cards| && Some(k) != self && cards[k].nome == value && !IsClosed(cards[k].status)
  }

  /** The first card that makes the name collide, if any. */
  function FirstOpenNamesake(cards: seq<Card>, self: Option<nat>, value: string, from: nat): (r: Option<nat>)
    requires from <= |cards|
    ensures r.Some? ==> from <= r.value && OpenNamesake(cards, self, value, r.value)
    ensures r.None? ==> forall k :: from <= k < |cards| ==> !OpenNamesake(cards, self, value, k)
    decreases |cards| - from
  {
    if from == |cards| then None
    else if OpenNamesake(cards, self, value, from) then Some(from)
    else FirstOpenNamesake(cards, self, value, from + 1)
  }

  /**
   * `CardSerializer.validate_nome`: a name may repeat only the names of
   * cards that are finished or dropped. `self` is the card being edited,
   * `None` on creation.
   */
  function ValidateCardName(cards: seq<Card>, self: Option<nat>, value: string): (r: Validated<string>)
    ensures r.Accepted? <==> forall k :: 0 <= k < |cards| ==> !OpenNamesake(cards, self, value, k)
    ensures r.Accepted? ==> r.value == value
    ensures r.Rejected? ==>
              r.message == "Já existe um card com o nome '" + value + "' que ainda não foi concluído. "
                           + "Apenas cards concluídos podem ter nomes duplicados."
  {
    if FirstOpenNamesake(cards, self, value, 0).Some? then
      Rejected("Já existe um card com o nome '" + value + "' que ainda não foi concluído. "
               + "Apenas cards concluídos podem ter nomes duplicados.")
    else Accepted(value)
  }

  /**
   * Closing a card frees its name: once every namesake is finished or
   * dropped, the name is accepted again.
   */
  lemma CardNameFreedByClosing(cards: seq<Card>, self: Option<nat>, value: string, k: nat, s: CardStatus)
    requires k < |cards| && IsClosed(s)
    requires forall j :: 0 <= j < |cards| && j != k ==> !OpenNamesake(cards, self, value, j)
    ensures ValidateCardName(cards[k := cards[k].(status := s)], self, value) == Accepted(value)
  {
    var after := cards[k := cards[k].(status := s)];
    forall j | 0 <= j < |after|
      ensures !OpenNamesake(after, self, value, j)
    {
      if j != k {
        assert after[j] == cards[j];
        assert !OpenNamesake(cards, self, value, j);
      }
    }
  }

  // ------------------------------------------------------------------
  // validate_area, validate_complexidade_*
  // ------------------------------------------------------------------

  /** The `area` column's default, `CardArea.BACKEND`. */
  const DefaultArea := "backend"

  /**
   * `validate_area`: an empty or blank area becomes the default. Through
   * `CardSerializer` the blank branch is never reached: the choice check of
   * `AreaField` refuses a blank area before this validator runs
   * (`AreaFieldSkipsBlankBranch`).
   */
  function ValidateArea(value: string): (r: string)
    ensures PyStrip(value) != "" ==> r == value
    ensures PyStrip(value) == "" ==> r == DefaultArea
  {
    if value == "" || PyStrip(value) == "" then DefaultArea else value
  }

  lemma DefaultAreaNotBlank()
    ensures PyStrip(DefaultArea) == DefaultArea
  {
    assert LeadCount(DefaultArea, PyIsSpace) == 0;
    assert TrailCount(DefaultArea, PyIsSpace) == 0;
  }

  /** The five values of `CardArea`, the choices of the `area` column. */
  predicate IsAreaChoice(value: string)
  {
    value == "rpa" || value == "frontend" || value == "backend" || value == "script" || value == "sistema"
  }

  /** A text with no white space at either end is its own strip. */
  lemma StripOfUnpadded(value: string)
    requires value != "" && !PyIsSpace(value[0]) && !PyIsSpace(value[|value| - 1])
    ensures PyStrip(value) == value
  {
    assert LeadCount(value, PyIsSpace) == 0;
    assert DropLeading(value, PyIsSpace) == value;
    assert TrailCount(value, PyIsSpace) == 0;
  }

  lemma ChoiceNotBlank(value: string)
    requires IsAreaChoice(value)
    ensures PyStrip(value) == value
  {
    assert value[0] in "rfbs" && value[|value| - 1] in "adt";
    StripOfUnpadded(value);
  }

  /**
   * The `area` field of `CardSerializer`. The model field has choices and
   * no `blank=True`, so the serializer builds a choice field: a sent value
   * outside the five areas, the empty and the blank text included, is
   * refused with `invalid_choice` before `validate_area` runs; a sent
   * choice then goes through `validate_area`; an omitted area is not
   * validated and the column default applies.
   */
  function AreaField(sent: Option<string>): (r: Validated<string>)
    ensures sent.None? ==> r == Accepted(DefaultArea)
    ensures sent.Some? ==> (r.Accepted? <==> IsAreaChoice(sent.value))
    ensures sent.Some? && r.Accepted? ==> r.value == sent.value
    ensures r.Rejected? ==> r.message == "invalid_choice"
    ensures r.Accepted? ==> IsAreaChoice(r.value) && ValidateArea(r.value) == r.value
  {
    match sent
    case None => DefaultAreaNotBlank(); Accepted(DefaultArea)
    case Some(v) =>
      if IsAreaChoice(v) then ChoiceNotBlank(v); Accepted(ValidateArea(v))
      else Rejected("invalid_choice")
  }

  /**
   * Whatever area a request sends, `validate_area` either never runs or
   * returns it unchanged: its blank-to-default branch is dead code behind
   * the choice check.
   */
  lemma AreaFieldSkipsBlankBranch(value: string)
    ensures AreaField(Some(value)).Accepted? ==> PyStrip(value) != "" && ValidateArea(value) == value
    ensures PyStrip(value) == "" ==> AreaField(Some(value)) == Rejected("invalid_choice")
  {
    if IsAreaChoice(value) {
      ChoiceNotBlank(value);
      assert value != "";
    }
  }

  /** A validated area is never blank, and validating it again keeps it. */
  lemma ValidateAreaIdempotent(value: string)
    ensures PyStrip(ValidateArea(value)) != ""
    ensures ValidateArea(ValidateArea(value)) == ValidateArea(value)
  {
    DefaultAreaNotBlank();
  }

  /**
   * The card as `create` stores it: the complexity lists hold `[]` for a
   * missing or null value, and the area has been validated.
   */
  function Normalized(c: Card): (r: Card)
    ensures r.selectedItems == Some(ListOrEmpty(c.selectedItems))
    ensures r.customItems == Some(ListOrEmpty(c.customItems))
    ensures r.area == ValidateArea(c.area)
    ensures r.projeto == c.projeto && r.responsavel == c.responsavel && r.criadoPor == c.criadoPor
    ensures r.(selectedItems := c.selectedItems, customItems := c.customItems, area := c.area) == c
  {
    c.(selectedItems := Some(ListOrEmpty(c.selectedItems)),
       customItems := Some(ListOrEmpty(c.customItems)),
       area := ValidateArea(c.area))
  }

  /** Normalizing a stored card changes nothing more. */
  lemma NormalizedIdempotent(c: Card)
    ensures Normalized(Normalized(c)) == Normalized(c)
  {
    ValidateAreaIdempotent(c.area);
  }

  // ------------------------------------------------------------------
  // The area checklists
  // ------------------------------------------------------------------

  /** One entry of a checklist: the item id and the label its TODO gets. */
  datatype TemplateItem = TemplateItem(id: string, text: string)

  /** The backend checklist: building the layers, then delivering them (14 items). */
  const BackendLayers: seq<TemplateItem> := [
    TemplateItem("modelagem_banco", "Modelagem Do Banco De Dados (Models)"),
    TemplateItem("criacao_interfaces_repositories", "Criação De Interfaces E Implementação De Repositories"),
    TemplateItem("criacao_use_cases", "Criação De Use Cases"),
    TemplateItem("registro_dependencias", "Registro De Dependências Em Containers (Di)"),
    TemplateItem("criacao_serializers", "Criação De Serializers"),
    TemplateItem("criacao_views_urls", "Criação De Views E Urls"),
    TemplateItem("criacao_permissoes", "Criação E Aplicação De Permissões")]

  const BackendDelivery: seq<TemplateItem> := [
    TemplateItem("testes_unitarios", "Testes Unitários E De Cobertura"),
    TemplateItem("testes_manuais", "Testes Manuais (Postman / Insomnia)"),
    TemplateItem("atualizacao_documentacao", "Atualização Da Documentação Da Api"),
    TemplateItem("criacao_pr_code_review", "Criação De Pr E Ajustes De Code Review"),
    TemplateItem("build_deploy_testes", "Build E Deploy Em Ambiente De Testes"),
    TemplateItem("build_deploy_producao", "Build E Deploy Em Produção"),
    TemplateItem("pull_aplicacao_vm", "Pull Da Aplicação Na Vm")]

  const BackendTemplate: seq<TemplateItem> := BackendLayers + BackendDelivery

  /** The frontend checklist: the use-case layer, then the screen and its delivery (18 items). */
  const FrontendDomain: seq<TemplateItem> := [
    TemplateItem("definicao_validacao_contratos", "Definição E Validação De Contratos - Interfaces"),
    TemplateItem("construcao_repository_service", "Construção Do Repository / Service"),
    TemplateItem("construcao_usecases", "Construção Dos Usecases"),
    TemplateItem("garantir_independencia_ui", "Garantir Independência Da Ui Em Relação Aos Usecases"),
    TemplateItem("implementacao_testes_unitarios",
                 "Implementação De Testes Unitários (Usecases / Services / Repositories)"),
    TemplateItem("ajustes_contratos_regras", "Ajustes De Contratos E Regras De Negócio (Se Necessário)"),
    TemplateItem("construcao_componentes_complementares",
                 "Construção De Componentes Complementares (Shared / Design System)")]

  const FrontendDelivery: seq<TemplateItem> := [
    TemplateItem("construcao_tela", "Construção Da Tela"),
    TemplateItem("tratamento_estados", "Tratamento De Estados (Loading, Erro, Empty)"),
    TemplateItem("ajustes_responsividade", "Ajustes De Responsividade"),
    TemplateItem("integracao_backend", "Integração Com O Backend"),
    TemplateItem("mapeamento_dto_adapter", "Mapeamento Dto, Via Adapter"),
    TemplateItem("testar_funcionalidades", "Testar Funcionalidades (Fluxos Principais E Edge Cases)"),
    TemplateItem("validacao_visual_ux", "Validação Visual E De Ux"),
    TemplateItem("code_review", "Code Review"),
    TemplateItem("aplicar_correcoes_code_review", "Aplicar Correções Do Code Review"),
    TemplateItem("build_deploy_producao", "Build E Deploy Em Produção"),
    TemplateItem("pull_aplicacao_vm", "Pull Da Aplicação Na Vm")]

  const FrontendTemplate: seq<TemplateItem> := FrontendDomain + FrontendDelivery

  /**
   * The checklist shared by the `rpa`, `sistema` and `script` areas:
   * setting up, the three development sizes, wrapping up (10 items).
   */
  const AutomationSetup: seq<TemplateItem> := [
    TemplateItem("ler_script_conferir", "Ler Script E Conferir Informações Do Vídeo"),
    TemplateItem("solicitar_usuario_vm", "Solicitar Usuário Para Acessar A Vm"),
    TemplateItem("testes_iniciais_local", "Testes Iniciais Na Máquina Local"),
    TemplateItem("configurar_projeto_vm", "Configurar Projeto Na Vm")]

  const DevelopmentSizes: seq<TemplateItem> := [
    TemplateItem("desenvolvimento_basico", "Desenvolvimento (Básico)"),
    TemplateItem("desenvolvimento_medio", "Desenvolvimento (Médio)"),
    TemplateItem("desenvolvimento_dificil", "Desenvolvimento (Dificl)")]

  const AutomationWrapUp: seq<TemplateItem> := [
    TemplateItem("testes_homologacao_mapeamento", "Testes/Homologação E Mapeamento De Erros"),
    TemplateItem("documentacao", "Documentação"),
    TemplateItem("correcoes_code_review", "Correções Code Review")]

  const AutomationTemplate: seq<TemplateItem> := AutomationSetup + DevelopmentSizes + AutomationWrapUp

  /** `todos_by_area.get(area, [])`. */
  function TemplateFor(area: string): (r: seq<TemplateItem>)
    ensures area == "backend" ==> |r| == 14
    ensures area == "frontend" ==> |r| == 18
    ensures area == "rpa" || area == "sistema" || area == "script" ==> |r| == 10
    ensures r != [] <==> area in {"backend", "frontend", "rpa", "sistema", "script"}
  {
    if area == "backend" then BackendTemplate
    else if area == "frontend" then FrontendTemplate
    else if area == "rpa" || area == "sistema" || area == "script" then AutomationTemplate
    else []
  }

  /** The checklist items that stand for a development size. */
  const DevelopmentIds: seq<string> := ["desenvolvimento_basico", "desenvolvimento_medio", "desenvolvimento_dificil"]

  /**
   * Whether an item becomes a TODO: every item that is not a development
   * size does, and a development size only when it was selected, either as
   * one of the complexity items or as the selected development.
   */
  predicate ShouldCreate(item: TemplateItem, selected: seq<string>, development: Option<string>)
  {
    item.id !in DevelopmentIds || item.id in selected || development == Some(item.id)
  }

  /** The items of a checklist that become TODOs, in checklist order. */
  function Kept(template: seq<TemplateItem>, selected: seq<string>, development: Option<string>)
    : (r: seq<TemplateItem>)
    ensures |r| <= |template|
  {
    if |template| == 0 then []
    else
      Kept(template[..|template| - 1], selected, development)
      + (if ShouldCreate(template[|template| - 1], selected, development) then [template[|template| - 1]] else [])
  }

  /** An item is kept exactly when it is in the checklist and passes the filter. */
  lemma {:induction false} KeptMembers(template: seq<TemplateItem>, selected: seq<string>,
                                      development: Option<string>, x: TemplateItem)
    ensures x in Kept(template, selected, development) <==> x in template && ShouldCreate(x, selected, development)
  {
    if |template| > 0 {
      var init := template[..|template| - 1];
      KeptMembers(init, selected, development, x);
      assert template == init + [template[|template| - 1]];
    }
  }

  /** `Kept` over one more item. */
  lemma KeptSnoc(template: seq<TemplateItem>, i: nat, selected: seq<string>, development: Option<string>)
    requires i < |template|
    ensures Kept(template[..i + 1], selected, development)
            == Kept(template[..i], selected, development)
               + (if ShouldCreate(template[i], selected, development) then [template[i]] else [])
  {
    assert template[..i + 1][..i] == template[..i];
  }

  /** Filtering a concatenation filters each part. */
  lemma {:induction false} KeptConcat(a: seq<TemplateItem>, b: seq<TemplateItem>, selected: seq<string>,
                                      development: Option<string>)
    ensures Kept(a + b, selected, development) == Kept(a, selected, development) + Kept(b, selected, development)
    decreases |b|
  {
    if |b| == 0 {
      assert a + b == a;
    } else {
      assert (a + b)[..|a + b| - 1] == a + b[..|b| - 1];
      KeptConcat(a, b[..|b| - 1], selected, development);
    }
  }

  /** A checklist without development sizes is kept whole. */
  lemma {:induction false} KeptAll(template: seq<TemplateItem>, selected: seq<string>, development: Option<string>)
    requires NoSizes(template)
    ensures Kept(template, selected, development) == template
  {
    if |template| > 0 {
      KeptAll(template[..|template| - 1], selected, development);
    }
  }

  /** No item of the list is a development size. */
  predicate NoSizes(items: seq<TemplateItem>)
  {
    forall k :: 0 <= k < |items| ==> items[k].id !in DevelopmentIds
  }

  lemma BackendNoSizes() ensures NoSizes(BackendLayers) && NoSizes(BackendDelivery) {}
  lemma FrontendNoSizes() ensures NoSizes(FrontendDomain) && NoSizes(FrontendDelivery) {}
  lemma AutomationNoSizes() ensures NoSizes(AutomationSetup) && NoSizes(AutomationWrapUp) {}

  /** The backend and frontend checklists ignore the selected complexity. */
  lemma KeptBackendFrontend(area: string, selected: seq<string>, development: Option<string>)
    requires area == "backend" || area == "frontend"
    ensures Kept(TemplateFor(area), selected, development) == TemplateFor(area)
  {
    if area == "backend" {
      BackendNoSizes();
      KeptConcat(BackendLayers, BackendDelivery, selected, development);
      KeptAll(BackendLayers, selected, development);
      KeptAll(BackendDelivery, selected, development);
    } else {
      FrontendNoSizes();
      KeptConcat(FrontendDomain, FrontendDelivery, selected, development);
      KeptAll(FrontendDomain, selected, development);
      KeptAll(FrontendDelivery, selected, development);
    }
  }

  /** Whether development size `id` was selected. */
  predicate Chosen(id: string, selected: seq<string>, development: Option<string>)
  {
    id in selected || development == Some(id)
  }

  /** Of the three development sizes, exactly the selected ones are kept, smallest first. */
  lemma KeptSizes(selected: seq<string>, development: Option<string>)
    ensures Kept(DevelopmentSizes, selected, development)
            == (if Chosen("desenvolvimento_basico", selected, development) then [DevelopmentSizes[0]] else [])
               + (if Chosen("desenvolvimento_medio", selected, development) then [DevelopmentSizes[1]] else [])
               + (if Chosen("desenvolvimento_dificil", selected, development) then [DevelopmentSizes[2]] else [])
  {
    var t := DevelopmentSizes;
    KeptSnoc(t, 0, selected, development);
    KeptSnoc(t, 1, selected, development);
    KeptSnoc(t, 2, selected, development);
    assert t[..3] == t;
  }

  /**
   * The automation checklist keeps its seven fixed items and, in between,
   * exactly the development sizes that were selected.
   */
  lemma KeptAutomation(selected: seq<string>, development: Option<string>)
    ensures Kept(AutomationTemplate, selected, development)
            == AutomationSetup + Kept(DevelopmentSizes, selected, development) + AutomationWrapUp
  {
    KeptConcat(AutomationSetup + DevelopmentSizes, AutomationWrapUp, selected, development);
    KeptConcat(AutomationSetup, DevelopmentSizes, selected, development);
    AutomationNoSizes();
    KeptAll(AutomationSetup, selected, development);
    KeptAll(AutomationWrapUp, selected, development);
  }

  // ------------------------------------------------------------------
  // TODO instantiation
  // ------------------------------------------------------------------

  /** The row `CardTodo.objects.create` stores for an item: original, pending, no comment. */
  function OriginalTodo(card: nat, name: string, order: int): (t: CardTodo)
    ensures t.isOriginal && t.status == Pending && t.comment.None?
  {
    CardTodo(card, name, true, Pending, None, order)
  }

  /** Whether card `card` already has an original TODO with this label. */
  predicate HasOriginal(todos: seq<CardTodo>, card: nat, name: string)
  {
    exists k :: 0 <= k < |todos| && todos[k].card == card && todos[k].text == name && todos[k].isOriginal
  }

  /**
   * The rows the instantiation loop inserts for the kept items of a
   * checklist. The `k`-th kept item has order slot `k`; it is skipped, and
   * its slot left unused, when an original TODO with its label exists in
   * the table, rows inserted earlier in the loop included.
   */
  function Rows(todos: seq<CardTodo>, card: nat, kept: seq<TemplateItem>): (r: seq<CardTodo>)
    ensures |r| <= |kept|
  {
    if |kept| == 0 then []
    else
      var prev := Rows(todos, card, kept[..|kept| - 1]);
      var item := kept[|kept| - 1];
      if HasOriginal(todos + prev, card, item.text) then prev
      else prev + [OriginalTodo(card, item.text, |kept| - 1)]
  }

  /** `Rows` over one more kept item. */
  lemma RowsSnoc(todos: seq<CardTodo>, card: nat, kept: seq<TemplateItem>, item: TemplateItem)
    ensures Rows(todos, card, kept + [item])
            == var prev := Rows(todos, card, kept);
               if HasOriginal(todos + prev, card, item.text) then prev
               else prev + [OriginalTodo(card, item.text, |kept|)]
  {
    assert (kept + [item])[..|kept|] == kept;
  }

  /** One more checklist item: the kept prefix and its rows grow by at most that item. */
  lemma RowsStep(todos: seq<CardTodo>, card: nat, template: seq<TemplateItem>, i: nat,
                 selected: seq<string>, development: Option<string>, kept: seq<TemplateItem>, rows: seq<CardTodo>)
    requires i < |template| && kept == Kept(template[..i], selected, development)
    requires rows == Rows(todos, card, kept)
    ensures ShouldCreate(template[i], selected, development) ==>
              Kept(template[..i + 1], selected, development) == kept + [template[i]]
    ensures !ShouldCreate(template[i], selected, development) ==>
              Kept(template[..i + 1], selected, development) == kept
    ensures Rows(todos, card, kept + [template[i]])
            == if HasOriginal(todos + rows, card, template[i].text) then rows
               else rows + [OriginalTodo(card, template[i].text, |kept|)]
  {
    KeptSnoc(template, i, selected, development);
    RowsSnoc(todos, card, kept, template[i]);
  }

  /**
   * Every inserted row is an original, pending TODO of the card whose
   * order is the slot of a kept item with the row's label.
   */
  lemma {:induction false} RowsShape(todos: seq<CardTodo>, card: nat, kept: seq<TemplateItem>)
    ensures forall i :: 0 <= i < |Rows(todos, card, kept)| ==>
              var r := Rows(todos, card, kept)[i];
              r == OriginalTodo(card, r.text, r.order) && 0 <= r.order < |kept| && kept[r.order].text == r.text
  {
    if |kept| > 0 {
      var init := kept[..|kept| - 1];
      RowsShape(todos, card, init);
      var prev := Rows(todos, card, init);
      var rs := Rows(todos, card, kept);
      forall i | 0 <= i < |rs|
        ensures rs[i] == OriginalTodo(card, rs[i].text, rs[i].order) && 0 <= rs[i].order < |kept|
                && kept[rs[i].order].text == rs[i].text
      {
        if i < |prev| {
          assert rs[i] == prev[i];
          assert kept[prev[i].order] == init[prev[i].order];
        }
      }
    }
  }

  /** The orders of the inserted rows strictly increase, so no two rows share a slot. */
  lemma {:induction false} RowsOrdered(todos: seq<CardTodo>, card: nat, kept: seq<TemplateItem>)
    ensures forall i, j :: 0 <= i < j < |Rows(todos, card, kept)| ==>
              Rows(todos, card, kept)[i].order < Rows(todos, card, kept)[j].order
  {
    if |kept| > 0 {
      var init := kept[..|kept| - 1];
      RowsOrdered(todos, card, init);
      RowsShape(todos, card, init);
      var prev := Rows(todos, card, init);
      var rs := Rows(todos, card, kept);
      forall i, j | 0 <= i < j < |rs|
        ensures rs[i].order < rs[j].order
      {
        assert rs[i] == prev[i];
        if j < |prev| {
          assert rs[j] == prev[j];
        } else {
          assert prev[i].order < |init|;
        }
      }
    }
  }

  /** The checked table grows by the inserted rows, and a label once present stays present. */
  lemma HasOriginalGrows(todos: seq<CardTodo>, more: seq<CardTodo>, card: nat, name: string)
    requires HasOriginal(todos, card, name)
    ensures HasOriginal(todos + more, card, name)
  {
    var k :| 0 <= k < |todos| && todos[k].card == card && todos[k].text == name && todos[k].isOriginal;
    assert (todos + more)[k] == todos[k];
  }

  /**
   * No duplicates: an inserted row's label had no original TODO of the
   * card before, and no two inserted rows share a label.
   */
  lemma {:induction false} RowsFresh(todos: seq<CardTodo>, card: nat, kept: seq<TemplateItem>)
    ensures forall i :: 0 <= i < |Rows(todos, card, kept)| ==>
              !HasOriginal(todos, card, Rows(todos, card, kept)[i].text)
    ensures forall i, j :: 0 <= i < j < |Rows(todos, card, kept)| ==>
              Rows(todos, card, kept)[i].text != Rows(todos, card, kept)[j].text
  {
    if |kept| > 0 {
      var init := kept[..|kept| - 1];
      RowsFresh(todos, card, init);
      var prev := Rows(todos, card, init);
      var rs := Rows(todos, card, kept);
      var item := kept[|kept| - 1];
      if !HasOriginal(todos + prev, card, item.text) {
        assert rs == prev + [OriginalTodo(card, item.text, |kept| - 1)];
        if HasOriginal(todos, card, item.text) {
          HasOriginalGrows(todos, prev, card, item.text);
        }
        forall i | 0 <= i < |prev|
          ensures prev[i].text != item.text
        {
          RowsShape(todos, card, init);
          assert (todos + prev)[|todos| + i] == prev[i];
        }
      }
    }
  }

  /** Afterwards every kept item's label has an original TODO of the card. */
  lemma {:induction false} RowsCover(todos: seq<CardTodo>, card: nat, kept: seq<TemplateItem>, k: nat)
    requires k < |kept|
    ensures HasOriginal(todos + Rows(todos, card, kept), card, kept[k].text)
  {
    var init := kept[..|kept| - 1];
    var prev := Rows(todos, card, init);
    var rs := Rows(todos, card, kept);
    var item := kept[|kept| - 1];
    assert todos + rs == (todos + prev) + (rs[|prev|..]) by {
      assert rs == prev + rs[|prev|..];
    }
    if k < |kept| - 1 {
      RowsCover(todos, card, init, k);
      assert kept[k] == init[k];
      HasOriginalGrows(todos + prev, rs[|prev|..], card, kept[k].text);
    } else if HasOriginal(todos + prev, card, item.text) {
      HasOriginalGrows(todos + prev, rs[|prev|..], card, item.text);
    } else {
      assert (todos + rs)[|todos| + |prev|] == OriginalTodo(card, item.text, |kept| - 1);
    }
  }

  /** No original TODO of a card in the table. */
  predicate NoOriginals(todos: seq<CardTodo>, card: nat)
  {
    forall k :: 0 <= k < |todos| && todos[k].card == card ==> !todos[k].isOriginal
  }

  /** The labels of a list of items are pairwise different. */
  predicate DistinctLabels(items: seq<TemplateItem>)
  {
    forall i, j :: 0 <= i < j < |items| ==> items[i].text != items[j].text
  }

  /**
   * For a card without original TODOs and a checklist without repeated
   * labels, every kept item becomes a TODO and the orders run 0, 1, 2, …
   * in checklist order.
   */
  lemma {:induction false} RowsOfFreshCard(todos: seq<CardTodo>, card: nat, kept: seq<TemplateItem>)
    requires NoOriginals(todos, card) && DistinctLabels(kept)
    ensures |Rows(todos, card, kept)| == |kept|
    ensures forall k :: 0 <= k < |kept| ==> Rows(todos, card, kept)[k] == OriginalTodo(card, kept[k].text, k)
  {
    if |kept| > 0 {
      var init := kept[..|kept| - 1];
      var item := kept[|kept| - 1];
      RowsOfFreshCard(todos, card, init);
    }
  }

  /** No label of `a` is a label of `b`. */
  predicate LabelsApart(a: seq<TemplateItem>, b: seq<TemplateItem>)
  {
    forall i, j :: 0 <= i < |a| && 0 <= j < |b| ==> a[i].text != b[j].text
  }

  lemma DistinctLabelsConcat(a: seq<TemplateItem>, b: seq<TemplateItem>)
    requires DistinctLabels(a) && DistinctLabels(b) && LabelsApart(a, b)
    ensures DistinctLabels(a + b)
  {
    forall i, j | 0 <= i < j < |a + b|
      ensures (a + b)[i].text != (a + b)[j].text
    {
      if j < |a| {
        assert (a + b)[i] == a[i] && (a + b)[j] == a[j];
      } else if i >= |a| {
        assert (a + b)[i] == b[i - |a|] && (a + b)[j] == b[j - |a|];
      } else {
        assert (a + b)[i] == a[i] && (a + b)[j] == b[j - |a|];
      }
    }
  }

  lemma BackendLayersDistinct() ensures DistinctLabels(BackendLayers) {}
  lemma BackendDeliveryDistinct() ensures DistinctLabels(BackendDelivery) {}
  lemma BackendApart() ensures LabelsApart(BackendLayers, BackendDelivery) {}
  lemma FrontendDomainDistinct() ensures DistinctLabels(FrontendDomain) {}
  lemma FrontendDeliveryDistinct() ensures DistinctLabels(FrontendDelivery) {}
  lemma FrontendApart() ensures LabelsApart(FrontendDomain, FrontendDelivery) {}
  lemma AutomationPartsDistinct()
    ensures DistinctLabels(AutomationSetup) && DistinctLabels(DevelopmentSizes) && DistinctLabels(AutomationWrapUp)
  {
  }
  lemma AutomationApart()
    ensures LabelsApart(AutomationSetup, DevelopmentSizes)
    ensures LabelsApart(AutomationSetup + DevelopmentSizes, AutomationWrapUp)
  {
  }

  /** No two items of one area's checklist share a label. */
  lemma TemplatesDistinct(area: string)
    ensures DistinctLabels(TemplateFor(area))
  {
    if area == "backend" {
      BackendLayersDistinct();
      BackendDeliveryDistinct();
      BackendApart();
      DistinctLabelsConcat(BackendLayers, BackendDelivery);
    } else if area == "frontend" {
      FrontendDomainDistinct();
      FrontendDeliveryDistinct();
      FrontendApart();
      DistinctLabelsConcat(FrontendDomain, FrontendDelivery);
    } else if area == "rpa" || area == "sistema" || area == "script" {
      AutomationPartsDistinct();
      AutomationApart();
      DistinctLabelsConcat(AutomationSetup, DevelopmentSizes);
      DistinctLabelsConcat(AutomationSetup + DevelopmentSizes, AutomationWrapUp);
    }
  }

  /**
   * A filtered checklist keeps the labels distinct: any two kept items
   * are two different positions of the checklist.
   */
  lemma {:induction false} KeptDistinct(template: seq<TemplateItem>, selected: seq<string>, development: Option<string>)
    requires DistinctLabels(template)
    ensures DistinctLabels(Kept(template, selected, development))
  {
    if |template| > 0 {
      var init := template[..|template| - 1];
      var last := template[|template| - 1];
      assert DistinctLabels(init);
      KeptDistinct(init, selected, development);
      var prev := Kept(init, selected, development);
      forall i | 0 <= i < |prev|
        ensures prev[i].text != last.text
      {
        KeptMembers(init, selected, development, prev[i]);
        var j :| 0 <= j < |init| && init[j] == prev[i];
      }
    }
  }

  /** The TODO table. */
  class TodoTable {
    var todos: seq<CardTodo>

    constructor(todos0: seq<CardTodo>)
      ensures todos == todos0
    {
      todos := todos0;
    }

    /** Whether card `card` already has an original TODO with this label (the `exists()` query). */
    method Exists(card: nat, name: string) returns (b: bool)
      ensures b <==> HasOriginal(todos, card, name)
    {
      var k := 0;
      while k < |todos|
        invariant 0 <= k <= |todos|
        invariant forall j :: 0 <= j < k ==> !(todos[j].card == card && todos[j].text == name && todos[j].isOriginal)
      {
        if todos[k].card == card && todos[k].text == name && todos[k].isOriginal {
          return true;
        }
        k := k + 1;
      }
      return false;
    }

    /** Inserts the original TODO unless one with its label exists; `added` tells which. */
    method AddIfMissing(card: nat, name: string, order: int) returns (added: bool)
      modifies this
      ensures added <==> !HasOriginal(old(todos), card, name)
      ensures todos == old(todos) + (if added then [OriginalTodo(card, name, order)] else [])
    {
      var present := Exists(card, name);
      if !present {
        todos := todos + [OriginalTodo(card, name, order)];
      }
      return !present;
    }

    /**
     * The loop of `create` over the area checklist: each item that passes
     * the filter takes the next order slot and is inserted unless an
     * original TODO with its label exists. `created` counts the inserts.
     */
    method Instantiate(card: nat, template: seq<TemplateItem>, selected: seq<string>, development: Option<string>)
      returns (created: nat)
      modifies this
      ensures todos == old(todos) + Rows(old(todos), card, Kept(template, selected, development))
      ensures created == |todos| - |old(todos)|
    {
      ghost var todos0 := todos;
      var order := 0;
      created := 0;
      var i := 0;
      ghost var kept: seq<TemplateItem> := [];
      ghost var rows: seq<CardTodo> := [];
      while i < |template|
        invariant 0 <= i <= |template|
        invariant kept == Kept(template[..i], selected, development)
        invariant rows == Rows(todos0, card, kept)
        invariant order == |kept|
        invariant todos == todos0 + rows
        invariant created == |rows|
      {
        var item := template[i];
        if ShouldCreate(item, selected, development) {
          var added := AddIfMissing(card, item.text, order);
          ghost var next := if added then rows + [OriginalTodo(card, item.text, order)] else rows;
          assert todos == todos0 + next;
          assert kept + [item] == Kept(template[..i + 1], selected, development)
                 && next == Rows(todos0, card, kept + [item]) by {
            RowsStep(todos0, card, template, i, selected, development, kept, rows);
          }
          if added {
            created := created + 1;
          }
          rows := next;
          order := order + 1;
          kept := kept + [item];
        } else {
          assert kept == Kept(template[..i + 1], selected, development) by {
            KeptSnoc(template, i, selected, development);
          }
        }
        i := i + 1;
      }
      assert template[..i] == template;
    }
  }

  /** The rows `create` inserts for a stored card. */
  function CreatedTodos(todos: seq<CardTodo>, id: nat, c: Card): seq<CardTodo>
  {
    Rows(todos, id, Kept(TemplateFor(c.area), ListOrEmpty(c.selectedItems), c.selectedDevelopment))
  }

  /**
   * A new card of a known area gets one pending original TODO per kept
   * checklist item, with orders 0, 1, 2, … in checklist order.
   */
  lemma CreatedTodosOfNewCard(todos: seq<CardTodo>, id: nat, c: Card)
    requires NoOriginals(todos, id)
    ensures var kept := Kept(TemplateFor(c.area), ListOrEmpty(c.selectedItems), c.selectedDevelopment);
            |CreatedTodos(todos, id, c)| == |kept|
            && forall k :: 0 <= k < |kept| ==> CreatedTodos(todos, id, c)[k] == OriginalTodo(id, kept[k].text, k)
  {
    TemplatesDistinct(c.area);
    KeptDistinct(TemplateFor(c.area), ListOrEmpty(c.selectedItems), c.selectedDevelopment);
    RowsOfFreshCard(todos, id, Kept(TemplateFor(c.area), ListOrEmpty(c.selectedItems), c.selectedDevelopment));
  }

  // ------------------------------------------------------------------
  // CardSerializer.create
  // ------------------------------------------------------------------

  /** After the post-save handler, the card has a CRIADO entry, so the fallback log adds none. */
  lemma CriadoAfterSignal(fmt: Formats, t: Tables, logs: seq<CardLog>, id: nat, c: Card, actor: Option<UserId>)
    requires CardRefsValid(t, c)
    ensures HasCriadoLog(logs + CreatedLogs(fmt, t, logs, id, c, actor), id)
  {
    var w := CreatedLogs(fmt, t, logs, id, c, actor);
    if HasCriadoLog(logs, id) {
      var k :| 0 <= k < |logs| && logs[k].card == id && logs[k].tipoEvento == LogCriado;
      assert (logs + w)[k] == logs[k];
    } else {
      assert w == [CardLog(id, LogCriado, CreationText(fmt, t.users, c), actor)];
      assert (logs + w)[|logs|] == w[0];
    }
  }

  /**
   * Storing the new card: the post-save handler runs its creation branch,
   * then `create` writes the creation log itself unless one exists.
   */
  method SaveNewCard(fmt: Formats, center: NotificationCenter, book: CardLogBook, t: Tables,
                     id: nat, c: Card, actor: Option<UserId>, now: int)
    requires center.Valid() && center.users == t.users.Keys && CardRefsValid(t, c)
    modifies center, book
    ensures center.Valid() && center.users == old(center.users)
    ensures book.logs == old(book.logs) + CreatedLogs(fmt, t, old(book.logs), id, c, actor)
    ensures center.rows == old(center.rows) + CreatedNotifications(t, old(book.logs), id, c, now)
  {
    OnCreated(fmt, center, book, t, id, c, actor, now);
    CriadoAfterSignal(fmt, t, old(book.logs), id, c, actor);
    if !HasCriadoLog(book.logs, id) {
      // the handler has just written the entry, so the fallback never fires
      assert false;
    }
  }

  /**
   * Creating a card through `CardSerializer`: `is_valid` checks the area
   * field, answering 400 with nothing written for an area outside the
   * choices; otherwise `create` stores the normalized card and
   * instantiates the checklist of its area. `areaSent` says whether the
   * request carries `area`; when it does not, `input.area` is not read.
   */
  method CreateCard(fmt: Formats, center: NotificationCenter, book: CardLogBook, table: TodoTable, t: Tables,
                    id: nat, input: Card, areaSent: bool, actor: Option<UserId>, now: int)
    returns (r: Validated<Card>)
    requires center.Valid() && center.users == t.users.Keys && CardRefsValid(t, input)
    modifies center, book, table
    ensures var field := AreaField(if areaSent then Some(input.area) else None);
      && (field.Rejected? ==> r == Rejected(field.message))
      && (field.Accepted? ==> r == Accepted(Normalized(input.(area := field.value))))
    ensures areaSent && !IsAreaChoice(input.area) ==> r.Rejected?
    ensures r.Rejected? ==> unchanged(center, book, table)
    ensures r.Accepted? ==> IsAreaChoice(r.value.area) && TemplateFor(r.value.area) != []
    ensures center.Valid() && center.users == old(center.users)
    ensures r.Accepted? ==>
      && book.logs == old(book.logs) + CreatedLogs(fmt, t, old(book.logs), id, r.value, actor)
      && center.rows == old(center.rows) + CreatedNotifications(t, old(book.logs), id, r.value, now)
      && table.todos == old(table.todos) + CreatedTodos(old(table.todos), id, r.value)
  {
    var field := AreaField(if areaSent then Some(input.area) else None);
    if field.Rejected? {
      return Rejected(field.message);
    }
    var c := Normalized(input.(area := field.value));
    SaveNewCard(fmt, center, book, t, id, c, actor, now);
    var created := table.Instantiate(id, TemplateFor(c.area), ListOrEmpty(c.selectedItems), c.selectedDevelopment);
    r := Accepted(c);
  }
}
