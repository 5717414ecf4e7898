/**
 * frontend/src/pages/ProjectDetails.tsx: the Kanban board of one project.
 * Dropping a card on a column (or on another card) moves it to that
 * stage, asking first for a reason, for missing data or for confirmation
 * where the stage demands it; the page also suggests a delivery date from
 * an estimate and guards deletions.
 *
 * Card and project ids are the strings the API returns; a status string is
 * read once into a `StageId` (one of the six columns, or any other text
 * kept verbatim). The formatted local time "now" is a parameter; request
 * failures, which only reload the page, are left out.
 */
module ProjectDetails {
  import opened Common
  import opened Calendar
  import opened DateUtils
  import opened Models
  import DateRangePicker
  import SprintDetails

  // ------------------------------------------------------------------
  // Stages and the movement message
  // ------------------------------------------------------------------

  datatype Stage = Stage(id: string, text: string)

  /** `PROJECT_STAGES`: the board's columns in display order. */
  const ProjectStages: seq<Stage> := [
    Stage("a_desenvolver", "A Desenvolver"),
    Stage("em_desenvolvimento", "Em Desenvolvimento"),
    Stage("parado_pendencias", "Parado por Pendências"),
    Stage("em_homologacao", "Homologação"),
    Stage("finalizado", "Concluído"),
    Stage("inviabilizado", "Inviabilizado")]

  /** `PROJECT_STAGES.map(s => s.id)`. */
  const StageIds: seq<string> := ["a_desenvolver", "em_desenvolvimento", "parado_pendencias",
                                  "em_homologacao", "finalizado", "inviabilizado"]

  /** The first stage with that id. */
  function FindStage(stages: seq<Stage>, id: string): (r: Option<Stage>)
    ensures r.Some? ==> r.value in stages && r.value.id == id
    ensures r.None? ==> forall s :: s in stages ==> s.id != id
  {
    if |stages| == 0 then None
    else if stages[0].id == id then Some(stages[0])
    else FindStage(stages[1..], id)
  }

  /** A status or drop id as the board reads it: one of its columns, or other text. */
  datatype StageId = Column(status: CardStatus) | Other(text: string)

  /** The text a stage id stands for. */
  function IdText(t: StageId): string
  {
    match t
    case Column(s) => StatusCode(s)
    case Other(x) => x
  }

  /** Reading a status string: a column's id becomes that column. */
  function ParseStage(id: string): (r: StageId)
    ensures IdText(r) == id
    ensures r.Other? <==> id !in StageIds
  {
    if id == "a_desenvolver" then Column(ADesenvolver)
    else if id == "em_desenvolvimento" then Column(EmDesenvolvimento)
    else if id == "parado_pendencias" then Column(ParadoPendencias)
    else if id == "em_homologacao" then Column(EmHomologacao)
    else if id == "finalizado" then Column(Finalizado)
    else if id == "inviabilizado" then Column(Inviabilizado)
    else Other(id)
  }

  /** Every column reads back as itself, so reading loses nothing. */
  lemma ParseStageOfColumn(s: CardStatus)
    ensures ParseStage(StatusCode(s)) == Column(s)
  {
  }

  /** The label of each column. */
  function LabelOfStatus(s: CardStatus): string
  {
    match s
    case ADesenvolver => "A Desenvolver"
    case EmDesenvolvimento => "Em Desenvolvimento"
    case ParadoPendencias => "Parado por Pendências"
    case EmHomologacao => "Homologação"
    case Finalizado => "Concluído"
    case Inviabilizado => "Inviabilizado"
  }

  /** `getStageLabel`: a column's label; any other id is echoed. */
  function StageLabel(t: StageId): string
  {
    match t
    case Column(s) => LabelOfStatus(s)
    case Other(x) => x
  }

  lemma FindStageOfColumn(s: CardStatus)
    ensures FindStage(ProjectStages, StatusCode(s)) == Some(Stage(StatusCode(s), LabelOfStatus(s)))
  {
  }

  /** The labels are those of `PROJECT_STAGES`, and an id no column has is its own label. */
  lemma StageLabelMatchesTable(id: string)
    ensures FindStage(ProjectStages, id).Some? <==> ParseStage(id).Column?
    ensures StageLabel(ParseStage(id)) == match FindStage(ProjectStages, id) case Some(s) => s.text case None => id
  {
    match ParseStage(id)
    case Column(s) =>
      FindStageOfColumn(s);
    case Other(_) =>
      assert forall s :: s in ProjectStages ==> s.id in StageIds;
  }

  const Arrow := " → "

  /** `getMovementMessage`: "<old label> → <new label>"; the user's name is not used. */
  function MovementMessage(oldStage: StageId, newStage: StageId, userName: string): string
  {
    StageLabel(oldStage) + Arrow + StageLabel(newStage)
  }

  predicate NoArrow(s: string)
  {
    '→' !in s
  }

  lemma LabelsHaveNoArrow(s: CardStatus)
    ensures NoArrow(LabelOfStatus(s))
  {
  }

  /** Two labels without an arrow are read back from the message that joins them. */
  lemma ArrowJoinInjective(a: string, b: string, c: string, d: string)
    requires NoArrow(a) && NoArrow(b) && NoArrow(c) && NoArrow(d)
    requires a + Arrow + b == c + Arrow + d
    ensures a == c && b == d
  {
    assert a + Arrow + b == (a + " ") + ['→'] + (" " + b);
    assert c + Arrow + d == (c + " ") + ['→'] + (" " + d);
    SplitTwo(a + " ", '→', " " + b);
    SplitTwo(c + " ", '→', " " + d);
    assert a + " " == c + " " && " " + b == " " + d;
    assert a == (a + " ")[..|a|];
    assert c == (c + " ")[..|c|];
    assert b == (" " + b)[1..];
    assert d == (" " + d)[1..];
  }

  lemma LabelOfStatusInjective(s: CardStatus, t: CardStatus)
    requires LabelOfStatus(s) == LabelOfStatus(t)
    ensures s == t
  {
    assert |LabelOfStatus(s)| == |LabelOfStatus(t)|;
  }

  /**
   * The movement message names both columns unambiguously: two moves
   * between columns give the same message exactly when they go from the
   * same column to the same column, whoever moves the card.
   */
  lemma MovementMessageNamesStages(a: CardStatus, b: CardStatus, c: CardStatus, d: CardStatus, u1: string, u2: string)
    ensures MovementMessage(Column(a), Column(b), u1) == MovementMessage(Column(c), Column(d), u2)
            <==> a == c && b == d
  {
    LabelsHaveNoArrow(a); LabelsHaveNoArrow(b); LabelsHaveNoArrow(c); LabelsHaveNoArrow(d);
    if MovementMessage(Column(a), Column(b), u1) == MovementMessage(Column(c), Column(d), u2) {
      ArrowJoinInjective(LabelOfStatus(a), LabelOfStatus(b), LabelOfStatus(c), LabelOfStatus(d));
      LabelOfStatusInjective(a, c);
      LabelOfStatusInjective(b, d);
    }
  }

  const ReasonSeparator := "\n\nMotivo: "

  /** The description of the 'pendencia' log: the move into "Parado por Pendências" and the reason given. */
  function PendenciaText(oldStage: StageId, motivo: string, userName: string): string
  {
    MovementMessage(oldStage, Column(ParadoPendencias), userName) + ReasonSeparator + motivo
  }

  /** The pendência log starts with the move into "Parado por Pendências" and ends with the reason, verbatim. */
  lemma PendenciaTextParts(from: StageId, motivo: string, userName: string)
    ensures var t := PendenciaText(from, motivo, userName);
            var m := StageLabel(from) + Arrow + "Parado por Pendências";
            |t| == |m| + |ReasonSeparator| + |motivo|
            && t[..|m|] == m && t[|t| - |motivo|..] == motivo
  {
    var m := StageLabel(from) + Arrow + "Parado por Pendências";
    var t := m + ReasonSeparator + motivo;
    assert t == m + (ReasonSeparator + motivo);
    assert t == (m + ReasonSeparator) + motivo;
  }

  // ------------------------------------------------------------------
  // Cards on the board
  // ------------------------------------------------------------------

  /** The fields of a card the board reads; an empty string is a missing value. */
  datatype KCard = KCard(id: string, nome: string, status: StageId,
                         responsavel: string, dataInicio: string, dataFim: string)

  /** `cards.find(c => c.id === id)`: the first card with that id. */
  function FindCard(cards: seq<KCard>, id: string): (r: Option<KCard>)
    ensures r.Some? ==> r.value in cards && r.value.id == id
  {
    if |cards| == 0 then None
    else if cards[0].id == id then Some(cards[0])
    else FindCard(cards[1..], id)
  }

  lemma {:induction false} FindCardNone(cards: seq<KCard>, id: string)
    ensures FindCard(cards, id).None? <==> forall c :: c in cards ==> c.id != id
  {
    if |cards| > 0 {
      FindCardNone(cards[1..], id);
      assert forall c :: c in cards <==> c == cards[0] || c in cards[1..];
    }
  }

  /** What a move writes: the new status and, where the page fills one, a start or end date. */
  datatype StatusUpdate = StatusUpdate(status: StageId, dataInicio: Option<string>, dataFim: Option<string>)

  /** `{ ...c, status, ...updateData }`. */
  function Updated(c: KCard, u: StatusUpdate): KCard
  {
    c.(status := u.status,
       dataInicio := if u.dataInicio.Some? then u.dataInicio.value else c.dataInicio,
       dataFim := if u.dataFim.Some? then u.dataFim.value else c.dataFim)
  }

  /** `prevCards.map(c => c.id === id ? updated : c)`. */
  function ApplyUpdate(cards: seq<KCard>, id: string, u: StatusUpdate): (r: seq<KCard>)
    ensures |r| == |cards|
    ensures forall k :: 0 <= k < |r| ==> r[k] == if cards[k].id == id then Updated(cards[k], u) else cards[k]
  {
    seq(|cards|, k requires 0 <= k < |cards| => if cards[k].id == id then Updated(cards[k], u) else cards[k])
  }

  /**
   * Applying a move keeps the board's ids and order, gives the moved card
   * its new status, leaves every other card alone, and is idempotent.
   */
  lemma ApplyUpdateMeaning(cards: seq<KCard>, id: string, u: StatusUpdate, k: nat)
    requires k < |cards|
    ensures ApplyUpdate(cards, id, u)[k].id == cards[k].id
    ensures cards[k].id == id ==> ApplyUpdate(cards, id, u)[k].status == u.status
    ensures cards[k].id != id ==> ApplyUpdate(cards, id, u)[k] == cards[k]
    ensures ApplyUpdate(ApplyUpdate(cards, id, u), id, u)[k] == ApplyUpdate(cards, id, u)[k]
  {
  }

  // ------------------------------------------------------------------
  // handleDragEnd
  // ------------------------------------------------------------------

  /** `validateCardRequiredData` of a board card. */
  function Validation(card: KCard): SprintDetails.RequiredCheck
  {
    SprintDetails.ValidateCardRequiredData(SprintDetails.CardForm(card.responsavel, card.dataInicio, card.dataFim))
  }

  /** `requiresRequiredData` on a read stage id. */
  predicate NeedsDataAt(t: StageId)
  {
    t.Column? && (t.status.EmDesenvolvimento? || t.status.ParadoPendencias? || t.status.EmHomologacao? || t.status.Finalizado?)
  }

  /** On an id read from a string, the same stages as the sprint page's `requiresRequiredData`. */
  lemma NeedsDataAtAgrees(t: StageId)
    requires t.Other? ==> t.text !in StageIds
    ensures NeedsDataAt(t) <==> SprintDetails.RequiresRequiredData(IdText(t))
  {
    if t.Other? {
      forall s: CardStatus
        ensures t.text != StatusCode(s)
      {
        assert StatusCode(s) in StageIds;
      }
      SprintDetails.UnknownStageNeedsNoData(t.text);
    }
  }

  /** The stage a drop aims at: a column id, else the status of the card dropped onto. */
  function ResolveTarget(cards: seq<KCard>, overId: string): (r: Option<StageId>)
    ensures overId in StageIds ==> r == Some(ParseStage(overId))
    ensures overId !in StageIds ==> r == (match FindCard(cards, overId) case None => None case Some(c) => Some(c.status))
  {
    if ParseStage(overId).Column? then Some(ParseStage(overId))
    else match FindCard(cards, overId)
      case None => None
      case Some(c) => Some(c.status)
  }

  /** What a drop does. */
  datatype Drop =
    | NoOp
      /** The pendência dialog opens; nothing is written yet. */
    | AskReason(cardId: string, nome: string, newStatus: StageId)
      /** An alert lists the missing data and the edit dialog opens, remembering the move. */
    | NeedsData(card: KCard, newStatus: StageId, missing: seq<string>)
      /** The conclusion dialog opens with the update it will send. */
    | ConfirmConclusion(card: KCard, update: StatusUpdate)
      /** The card moves on the board and the update is sent. */
    | Move(card: KCard, update: StatusUpdate)

  predicate IsClosedStage(t: StageId)
  {
    t == Column(Finalizado) || t == Column(Inviabilizado)
  }

  /**
   * `handleDragEnd`'s decision: `now` is the local time as the page
   * formats it, used where a date is missing.
   */
  function DecideDrop(sprintFinished: bool, cards: seq<KCard>, activeId: string, over: Option<string>, now: string): Drop
  {
    if sprintFinished || over.None? then NoOp
    else match FindCard(cards, activeId)
      case None => NoOp
      case Some(card) =>
        if IsClosedStage(card.status) then NoOp
        else match ResolveTarget(cards, over.value)
          case None => NoOp
          case Some(target) =>
            if card.status == target then NoOp
            else if target == Column(ParadoPendencias) then AskReason(card.id, card.nome, target)
            else if target == Column(Finalizado) then
              if !Validation(card).valid then NeedsData(card, target, Validation(card).missing)
              else ConfirmConclusion(card, StatusUpdate(target,
                                                        if card.dataInicio == "" then Some(now) else None,
                                                        if card.dataFim == "" then Some(now) else None))
            else if NeedsDataAt(target) then
              if !Validation(card).valid then NeedsData(card, target, Validation(card).missing)
              else Move(card, StatusUpdate(target,
                                           if target == Column(EmDesenvolvimento) && card.dataInicio == "" then Some(now) else None,
                                           None))
            else Move(card, StatusUpdate(target, None, None))
  }

  /**
   * A drop does nothing exactly when the sprint is finished, nothing is
   * under the pointer, the dragged card is unknown or closed, the target
   * cannot be resolved, or the card already is at that stage.
   */
  lemma DropNoOp(sprintFinished: bool, cards: seq<KCard>, activeId: string, over: Option<string>, now: string)
    ensures DecideDrop(sprintFinished, cards, activeId, over, now).NoOp? <==>
              sprintFinished || over.None? || FindCard(cards, activeId).None?
              || IsClosedStage(FindCard(cards, activeId).value.status)
              || ResolveTarget(cards, over.value).None?
              || ResolveTarget(cards, over.value).value == FindCard(cards, activeId).value.status
  {
  }

  /** The conditions under which a drop acts at all. */
  predicate Acts(sprintFinished: bool, cards: seq<KCard>, activeId: string, over: Option<string>)
  {
    !sprintFinished && over.Some? && FindCard(cards, activeId).Some?
    && !IsClosedStage(FindCard(cards, activeId).value.status)
    && ResolveTarget(cards, over.value).Some?
    && ResolveTarget(cards, over.value).value != FindCard(cards, activeId).value.status
  }

  /**
   * Where an acting drop goes: a move to "parado_pendencias" waits for a
   * reason; "finalizado" and the other stages that demand data stop at
   * the missing list when something is missing; a complete card goes to
   * the conclusion dialog or moves; any other stage moves at once.
   */
  lemma DropBranches(sprintFinished: bool, cards: seq<KCard>, activeId: string, over: Option<string>, now: string)
    requires Acts(sprintFinished, cards, activeId, over)
    ensures var card := FindCard(cards, activeId).value;
            var target := ResolveTarget(cards, over.value).value;
            var d := DecideDrop(sprintFinished, cards, activeId, over, now);
            (target == Column(ParadoPendencias) ==> d == AskReason(activeId, card.nome, target))
            && (target != Column(ParadoPendencias) && NeedsDataAt(target) ==>
                  (d.NeedsData? <==> !Validation(card).valid))
            && (d.NeedsData? ==> d == NeedsData(card, target, Validation(card).missing))
            && (d.ConfirmConclusion? <==> target == Column(Finalizado) && Validation(card).valid)
            && (!NeedsDataAt(target) ==> d.Move?)
  {
  }

  /**
   * The date-filling branches of a drop never fire: the data check runs
   * first, so a card that reaches them already has both dates. A move or
   * a conclusion writes the new status and nothing else.
   */
  lemma DropFillsNoDate(sprintFinished: bool, cards: seq<KCard>, activeId: string, over: Option<string>, now: string)
    ensures var d := DecideDrop(sprintFinished, cards, activeId, over, now);
            (d.Move? || d.ConfirmConclusion?) ==>
              d.update == StatusUpdate(ResolveTarget(cards, over.value).value, None, None)
              && d.card == FindCard(cards, activeId).value
  {
  }

  /** A finished sprint's board, and a closed card, never move. */
  lemma DropKeepsClosedCards(sprintFinished: bool, cards: seq<KCard>, activeId: string, over: Option<string>, now: string)
    requires sprintFinished || (FindCard(cards, activeId).Some? && IsClosedStage(FindCard(cards, activeId).value.status))
    ensures DecideDrop(sprintFinished, cards, activeId, over, now) == NoOp
  {
  }

  /** A requested call to the API. */
  datatype Call =
    | UpdateCard(cardId: string, update: StatusUpdate)
    | CreateLog(cardId: string, tipo: string, text: string)

  /** The edit form `openEditCardDialog` opens with: its status and start date. */
  datatype EditForm = EditForm(status: StageId, dataInicio: string)

  /** The form takes the waiting move's status and fills a missing start date for "em_desenvolvimento" with now. */
  function EditFormFor(card: KCard, pending: Option<(string, StageId)>, now: string): (r: EditForm)
    ensures r.status == if pending.Some? && pending.value.0 == card.id then pending.value.1 else card.status
    ensures r.dataInicio == if r.status == Column(EmDesenvolvimento) && card.dataInicio == "" then now else card.dataInicio
  {
    var target := if pending.Some? && pending.value.0 == card.id then pending.value.1 else card.status;
    EditForm(target, if target == Column(EmDesenvolvimento) && card.dataInicio == "" then now else card.dataInicio)
  }

  /**
   * As written, the form opened by a drop that stops for missing data reads
   * the waiting move held before the drop: `openEditCardDialog` is the
   * closure of the render in which `setPendingStatusChange` was only
   * scheduled. Unless an earlier drop of the same card is still waiting, a
   * drop onto "em_desenvolvimento" opens the form at the card's stored
   * status, and a missing start date stays empty.
   */
  lemma DropFormMissesNewMove(sprintFinished: bool, cards: seq<KCard>, activeId: string, over: Option<string>,
                              now: string, held: Option<(string, StageId)>)
    requires DecideDrop(sprintFinished, cards, activeId, over, now).NeedsData?
    requires DecideDrop(sprintFinished, cards, activeId, over, now).newStatus == Column(EmDesenvolvimento)
    requires held.None? || held.value.0 != activeId
    ensures var card := DecideDrop(sprintFinished, cards, activeId, over, now).card;
            card.status != Column(EmDesenvolvimento)
            && EditFormFor(card, held, now) == EditForm(card.status, card.dataInicio)
  {
  }

  /**
   * As intended, a drop onto "em_desenvolvimento" that stops for missing
   * data opens the edit form at that stage, with a missing start date
   * already set to now: this, not the drop itself, is where a start date
   * gets filled.
   */
  lemma MissingDataOpensFilledForm(sprintFinished: bool, cards: seq<KCard>, activeId: string, over: Option<string>, now: string)
    requires DecideDrop(sprintFinished, cards, activeId, over, now).NeedsData?
    requires DecideDrop(sprintFinished, cards, activeId, over, now).newStatus == Column(EmDesenvolvimento)
    ensures var card := FindCard(cards, activeId).value;
            EditFormFor(card, Some((activeId, Column(EmDesenvolvimento))), now)
              == EditForm(Column(EmDesenvolvimento), if card.dataInicio == "" then now else card.dataInicio)
  {
  }

  /**
   * The board: its cards, and the moves waiting in a dialog (the pendência
   * dialog, the conclusion dialog, and a move waiting for missing data).
   */
  class Board {
    var cards: seq<KCard>
    var pendencia: Option<(string, StageId)>
    var conclusao: Option<(KCard, StatusUpdate)>
    var pendingChange: Option<(string, StageId)>

    constructor(initial: seq<KCard>)
      ensures cards == initial && pendencia.None? && conclusao.None? && pendingChange.None?
    {
      cards := initial;
      pendencia := None;
      conclusao := None;
      pendingChange := None;
    }

    /**
     * `handleDragEnd`: a move updates the board at once and sends the
     * update followed by the 'movimentado' log; every other outcome only
     * records what its dialog waits for. A drop stopped for missing data
     * also opens the edit form, built from the waiting move held before
     * the drop (see `DropFormMissesNewMove`).
     */
    method DragEnd(sprintFinished: bool, activeId: string, over: Option<string>, now: string, userName: string)
      returns (calls: seq<Call>, form: Option<EditForm>)
      modifies this
      ensures var d := DecideDrop(sprintFinished, old(cards), activeId, over, now);
              (d.Move? ==> cards == ApplyUpdate(old(cards), activeId, d.update)
                           && calls == [UpdateCard(activeId, d.update),
                                        CreateLog(activeId, "movimentado", MovementMessage(d.card.status, d.update.status, userName))])
              && (!d.Move? ==> cards == old(cards) && calls == [])
              && pendencia == (if d.AskReason? then Some((d.cardId, d.newStatus)) else old(pendencia))
              && conclusao == (if d.ConfirmConclusion? then Some((d.card, d.update)) else old(conclusao))
              && pendingChange == (if d.NeedsData? then Some((activeId, d.newStatus)) else old(pendingChange))
              && form == (if d.NeedsData? then Some(EditFormFor(d.card, old(pendingChange), now)) else None)
    {
      var d := DecideDrop(sprintFinished, cards, activeId, over, now);
      calls, form := [], None;
      match d
      case NoOp =>
      case AskReason(id, _, status) =>
        pendencia := Some((id, status));
      case NeedsData(card, status, _) =>
        form := Some(EditFormFor(card, pendingChange, now));
        pendingChange := Some((activeId, status));
      case ConfirmConclusion(card, update) =>
        conclusao := Some((card, update));
      case Move(card, update) =>
        var oldStage := card.status;
        cards := ApplyUpdate(cards, activeId, update);
        calls := [UpdateCard(activeId, update),
                  CreateLog(activeId, "movimentado", MovementMessage(oldStage, update.status, userName))];
    }

    /**
     * `handlePendenciaConfirm`: the waiting card moves to the waiting
     * status, then the update and the 'pendencia' log carrying the reason
     * are sent; without a waiting card, or when it left the board, nothing
     * happens.
     */
    method PendenciaConfirm(motivo: string, userName: string) returns (calls: seq<Call>)
      modifies this
      ensures old(pendencia).None? || FindCard(old(cards), old(pendencia).value.0).None? ==>
                cards == old(cards) && pendencia == old(pendencia) && calls == []
      ensures old(pendencia).Some? && FindCard(old(cards), old(pendencia).value.0).Some? ==>
                var id := old(pendencia).value.0;
                var u := StatusUpdate(old(pendencia).value.1, None, None);
                cards == ApplyUpdate(old(cards), id, u) && pendencia.None?
                && calls == [UpdateCard(id, u),
                             CreateLog(id, "pendencia", PendenciaText(FindCard(old(cards), id).value.status, motivo, userName))]
      ensures conclusao == old(conclusao) && pendingChange == old(pendingChange)
    {
      calls := [];
      if pendencia.None? {
        return;
      }
      var id := pendencia.value.0;
      var u := StatusUpdate(pendencia.value.1, None, None);
      var card := FindCard(cards, id);
      if card.None? {
        return;
      }
      cards := ApplyUpdate(cards, id, u);
      calls := [UpdateCard(id, u), CreateLog(id, "pendencia", PendenciaText(card.value.status, motivo, userName))];
      pendencia := None;
    }

    /**
     * `handleConclusaoConfirm` after a drop: the waiting update is sent,
     * then the 'movimentado' log into "finalizado", and the board shows the
     * card concluded.
     */
    method ConclusaoConfirm(userName: string) returns (calls: seq<Call>)
      modifies this
      ensures old(conclusao).None? ==> cards == old(cards) && calls == []
      ensures old(conclusao).Some? ==>
                var (card, u) := old(conclusao).value;
                cards == ApplyUpdate(old(cards), card.id, u.(status := Column(Finalizado)))
                && calls == [UpdateCard(card.id, u),
                             CreateLog(card.id, "movimentado", MovementMessage(card.status, Column(Finalizado), userName))]
                && conclusao.None?
      ensures pendencia == old(pendencia) && pendingChange == old(pendingChange)
    {
      calls := [];
      if conclusao.None? {
        return;
      }
      var (card, u) := conclusao.value;
      calls := [UpdateCard(card.id, u), CreateLog(card.id, "movimentado", MovementMessage(card.status, Column(Finalizado), userName))];
      cards := ApplyUpdate(cards, card.id, u.(status := Column(Finalizado)));
      conclusao := None;
    }
  }


  // ------------------------------------------------------------------
  // The suggested delivery date
  // ------------------------------------------------------------------

  /** The first day the loop looks at: Monday after a weekend, else tomorrow. */
  function StartDay(today: int): int
  {
    if JsDay(today) == 0 then today + 1 else if JsDay(today) == 6 then today + 2 else today + 1
  }

  /**
   * Where the loop ends from day `d` with `rem > 0` hours left: one
   * weekday per started block of 8 hours, and one further day (weekend or
   * not) when the last block is a full one.
   */
  function Rest(d: int, rem: int): int
    requires rem > 0
  {
    if rem % 8 != 0 then SprintDetails.NthWeekday(d, rem / 8 + 1)
    else SprintDetails.NthWeekday(d, rem / 8) + 1
  }

  /** The day `calculateSuggestedEndDate` of this page arrives at. */
  function SuggestedDayAsWritten(hours: int, today: int): int
  {
    if hours <= 0 then StartDay(today) else Rest(today + 1, hours)
  }

  lemma RestSkip(d: int, rem: int)
    requires rem > 0 && IsWeekend(d)
    ensures Rest(d + 1, rem) == Rest(d, rem)
  {
  }

  lemma RestStep(d: int, rem: int)
    requires rem > 8 && !IsWeekend(d)
    ensures Rest(d + 1, rem - 8) == Rest(d, rem)
  {
    var q := rem / 8;
    var m := rem % 8;
    DivModUnique(rem - 8, 8, q - 1, m);
    if m == 0 {
      assert q >= 2;
    }
  }

  lemma RestLast(d: int, rem: int)
    requires 0 < rem <= 8 && !IsWeekend(d)
    ensures rem == 8 ==> Rest(d, rem) == d + 1
    ensures rem < 8 ==> Rest(d, rem) == d
  {
    if rem < 8 {
      DivModUnique(rem, 8, 0, rem);
    } else {
      DivModUnique(rem, 8, 1, 0);
    }
  }

  lemma RestStart(hours: int, today: int)
    requires hours > 0
    ensures Rest(StartDay(today), hours) == SuggestedDayAsWritten(hours, today)
  {
    if JsDay(today) == 6 {
      JsDayNext(today);
      RestSkip(today + 1, hours);
    }
  }

  /**
   * `calculateSuggestedEndDate` of this page: '' for no hours; otherwise
   * the loop steps over weekends and spends 8 hours per day, and the day
   * it stops on is printed at 18:00.
   */
  method CalculateSuggestedEndDate(hours: int, today: int) returns (r: string)
    ensures hours == 0 ==> r == ""
    ensures hours != 0 ==> r == DateRangePicker.FormatToIso(DateRangePicker.DateAt(SuggestedDayAsWritten(hours, today)),
                                                            DateRangePicker.Time(18, 0))
  {
    if hours == 0 {
      return "";
    }
    var current := today;
    if JsDay(current) == 0 {
      current := current + 1;
    } else if JsDay(current) == 6 {
      current := current + 2;
    } else {
      current := current + 1;
    }
    var remaining := hours;
    if hours > 0 {
      RestStart(hours, today);
    }
    while remaining > 0
      invariant hours <= 0 ==> remaining == hours && current == StartDay(today)
      invariant hours > 0 ==> remaining >= 0
      invariant remaining > 0 ==> Rest(current, remaining) == SuggestedDayAsWritten(hours, today)
      invariant hours > 0 && remaining == 0 ==> current == SuggestedDayAsWritten(hours, today)
      decreases remaining
    {
      while IsWeekend(current)
        invariant Rest(current, remaining) == SuggestedDayAsWritten(hours, today)
        decreases SprintDetails.WeekendGap(current)
      {
        RestSkip(current, remaining);
        JsDayNext(current);
        current := current + 1;
      }
      if remaining >= 8 {
        if remaining > 8 {
          RestStep(current, remaining);
        } else {
          RestLast(current, remaining);
        }
        remaining := remaining - 8;
        current := current + 1;
      } else {
        RestLast(current, remaining);
        remaining := 0;
      }
    }
    r := DateRangePicker.FormatToIso(DateRangePicker.DateAt(current), DateRangePicker.Time(18, 0));
  }

  /**
   * Against the sprint page's suggestion (`ceil(hours / 8)` weekdays from
   * tomorrow): the same day when the hours are not a multiple of 8, and
   * exactly one day later when they are.
   */
  lemma SuggestionAgainstSprintPage(hours: int, today: int)
    requires hours > 0
    ensures hours % 8 != 0 ==> SuggestedDayAsWritten(hours, today) == SprintDetails.SuggestedDay(hours, today)
    ensures hours % 8 == 0 ==> SuggestedDayAsWritten(hours, today) == SprintDetails.SuggestedDay(hours, today) + 1
  {
    var q := hours / 8;
    var m := hours % 8;
    DivModUnique(hours, 8, q, m);
    var c := CeilDiv(hours, 8);
    if m != 0 {
      assert c == q + 1;
    } else {
      assert c == q;
    }
  }

  /** Eight hours estimated on a Thursday are suggested for the Saturday; the sprint page says Friday. */
  lemma EightHoursFromThursday()
    ensures JsDay(0) == 4
    ensures JsDay(SuggestedDayAsWritten(8, 0)) == 6
    ensures JsDay(SprintDetails.SuggestedDay(8, 0)) == 5
  {
    SuggestionAgainstSprintPage(8, 0);
    assert SprintDetails.SuggestedDay(8, 0) == SprintDetails.NthWeekday(1, 1);
  }

  // ------------------------------------------------------------------
  // Deletion
  // ------------------------------------------------------------------

  predicate IsAdminOrSupervisor(role: string)
  {
    role == "admin" || role == "supervisor"
  }

  /** The delete button of a Kanban card: not on a finished sprint, and an inviabilizado card only for admin or supervisor. */
  predicate CanDeleteCard(disabled: bool, status: StageId, userRole: string)
  {
    !disabled && (status != Column(Inviabilizado) || IsAdminOrSupervisor(userRole))
  }

  const CardDeleteRefusal := "Apenas administradores e supervisores podem excluir cards inviabilizados."
  const ProjectRoleRefusal := "Apenas administradores e supervisores podem excluir projetos inviabilizados."

  datatype DeleteStep = NothingToDelete | Refused(message: string) | AskConfirmation(id: string)

  /** `handleCardDelete`: an inviabilizado card is refused to other roles; otherwise the confirmation opens. */
  function HandleCardDelete(cards: seq<KCard>, cardId: string, userRole: string): (r: DeleteStep)
    ensures r.Refused? ==> r.message == CardDeleteRefusal
    ensures !r.Refused? ==> r == AskConfirmation(cardId)
  {
    match FindCard(cards, cardId)
    case Some(c) =>
      if c.status == Column(Inviabilizado) && !IsAdminOrSupervisor(userRole) then Refused(CardDeleteRefusal)
      else AskConfirmation(cardId)
    case None => AskConfirmation(cardId)
  }

  /** The handler and the button agree: on an open sprint a card offered for deletion is never refused, and vice versa. */
  lemma CardDeleteAgreesWithButton(cards: seq<KCard>, cardId: string, userRole: string)
    requires FindCard(cards, cardId).Some?
    ensures HandleCardDelete(cards, cardId, userRole).AskConfirmation?
            <==> CanDeleteCard(false, FindCard(cards, cardId).value.status, userRole)
  {
  }

  /** `handleDeleteProject`: admin or supervisor only, then only a project whose status lowercases to 'inviabilizado'. */
  function HandleDeleteProject(project: Option<(string, string)>, userRole: string): (r: DeleteStep)
    ensures r.AskConfirmation? <==>
              project.Some? && IsAdminOrSupervisor(userRole) && Lower(project.value.1) == "inviabilizado"
    ensures r.AskConfirmation? ==> r.id == project.value.0
    ensures project.Some? && !IsAdminOrSupervisor(userRole) ==> r == Refused(ProjectRoleRefusal)
    ensures project.None? ==> r == NothingToDelete
  {
    match project
    case None => NothingToDelete
    case Some((id, status)) =>
      if !IsAdminOrSupervisor(userRole) then Refused(ProjectRoleRefusal)
      else if Lower(status) != "inviabilizado" then
        Refused("Apenas projetos inviabilizados podem ser excluídos. Status atual: " + status)
      else AskConfirmation(id)
  }

  /** No status a project can hold lowercases to 'inviabilizado', so the page never offers to delete a project. */
  lemma ProjectDeletionNeverOffered(id: string, s: ProjectStatus, userRole: string)
    ensures !HandleDeleteProject(Some((id, ProjectStatusCode(s))), userRole).AskConfirmation?
  {
    assert |Lower(ProjectStatusCode(s))| != |"inviabilizado"|;
  }
}
