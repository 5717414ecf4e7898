/**
 * `movePendingCardsToNextSprint` of frontend/src/pages/SprintDetails.tsx:
 * when a finished sprint is opened, its unfinished cards are carried to
 * the next sprint, which is created when none is planned.
 *
 * The page talks to the REST services; here the function returns the
 * requests it issues, in order. A request that creates something is
 * referred to by later ones as `Created(i)`, the index of that request in
 * the list. Every request is taken to succeed. Days are day numbers;
 * `toLocaleDateString(…, { month: 'long', year: 'numeric' })` is the
 * parameter `monthYear`.
 */
module SprintRollover {
  import opened Common
  import opened Calendar

  datatype SprintRow = SprintRow(id: string, nome: string, dataInicio: int, dataFim: int)
  datatype ProjectRow = ProjectRow(id: string, nome: string, descricao: string)

  /** The fields of a card the copy carries; an empty string stands for an empty or missing value. */
  datatype CardRow = CardRow(
    nome: string, descricao: string, scriptUrl: string, projeto: string,
    area: string, tipo: string, prioridade: string, status: string,
    responsavel: Option<nat>, dataInicio: string, dataFim: string)

  /** The sprint or project a request names: one that exists, or the one an earlier request created. */
  datatype Ref = Existing(id: string) | Created(call: nat)

  datatype ApiCall =
    | CreateSprint(nome: string, dataInicio: int, dataFim: int, duracaoDias: int, supervisor: string)
    | CreateProject(nome: string, descricao: string, sprint: Ref)
    | CreateCard(card: CardRow, projeto: Ref)
    | MoveProject(project: string, sprint: Ref)

  const PendingStatuses: seq<string> := ["a_desenvolver", "em_desenvolvimento", "parado_pendencias", "em_homologacao"]
  const CopyStatuses: seq<string> := ["em_desenvolvimento", "em_homologacao", "a_desenvolver"]

  /** `sprintProjects.find(p => p.id === id)`. */
  function FindProject(projects: seq<ProjectRow>, id: string): (r: Option<ProjectRow>)
    ensures r.Some? ==> r.value.id == id && r.value in projects
  {
    if |projects| == 0 then None
    else if projects[0].id == id then Some(projects[0])
    else FindProject(projects[1..], id)
  }

  /** The search fails exactly when no project has that id. */
  lemma {:induction false} FindProjectMeaning(projects: seq<ProjectRow>, id: string)
    ensures FindProject(projects, id).None? <==> forall p :: p in projects ==> p.id != id
  {
    if |projects| > 0 && projects[0].id != id {
      FindProjectMeaning(projects[1..], id);
      assert forall p :: p in projects ==> p == projects[0] || p in projects[1..];
    }
  }

  /** When several projects have the id, the first of them is found. */
  lemma {:induction false} FindProjectFirst(projects: seq<ProjectRow>, id: string, k: nat)
    requires k < |projects| && projects[k].id == id
    requires forall m :: 0 <= m < k ==> projects[m].id != id
    ensures FindProject(projects, id) == Some(projects[k])
  {
    if k > 0 {
      assert projects[0].id != id;
      assert projects[1..][k - 1] == projects[k];
      FindProjectFirst(projects[1..], id, k - 1);
    }
  }

  predicate InProjects(projects: seq<ProjectRow>, c: CardRow)
  {
    FindProject(projects, c.projeto).Some?
  }

  predicate IsPending(c: CardRow) { c.status in PendingStatuses }
  predicate IsToCopy(c: CardRow) { c.status in CopyStatuses }
  predicate IsToMove(c: CardRow) { c.status == "parado_pendencias" }
  predicate IsInProgress(c: CardRow) { c.status == "em_desenvolvimento" }

  /** Some card of the list belongs to the project. */
  predicate HasCardOf(cards: seq<CardRow>, pid: string)
  {
    exists c :: c in cards && c.projeto == pid
  }

  function SprintCards(projects: seq<ProjectRow>, cards: seq<CardRow>): seq<CardRow>
  {
    FilterSeq(cards, c => InProjects(projects, c))
  }

  /** The pending cards are exactly those to copy and those to move. */
  lemma PendingIsCopyOrMove(c: CardRow)
    ensures IsPending(c) <==> IsToCopy(c) || IsToMove(c)
    ensures !(IsToCopy(c) && IsToMove(c))
  {
  }

  // ------------------------------------------------------------------
  // The destination
  // ------------------------------------------------------------------

  /**
   * Where the sorted, filtered list of future sprints starts: the earliest
   * start after `end`, and among sprints starting that day the one listed
   * first, as the stable sort keeps it first.
   */
  function NextSprintIndex(sprints: seq<SprintRow>, end: int): (r: Option<nat>)
    ensures r.None? <==> forall k :: 0 <= k < |sprints| ==> sprints[k].dataInicio <= end
    ensures r.Some? ==> r.value < |sprints| && sprints[r.value].dataInicio > end
    ensures r.Some? ==> forall k :: 0 <= k < |sprints| && sprints[k].dataInicio > end ==> sprints[r.value].dataInicio <= sprints[k].dataInicio
    ensures r.Some? ==> forall k :: 0 <= k < r.value ==> sprints[k].dataInicio != sprints[r.value].dataInicio
  {
    if |sprints| == 0 then None
    else
      var n := |sprints|;
      var best := NextSprintIndex(sprints[..n - 1], end);
      if sprints[n - 1].dataInicio > end && (best.None? || sprints[n - 1].dataInicio < sprints[best.value].dataInicio) then Some(n - 1)
      else best
  }

  /** `today + (7 - today.getDay())`, the start the page gives a new sprint: always a Sunday. */
  function NextWeekStartAsWritten(today: int): int
  {
    today + (7 - JsDay(today))
  }

  /** The start the comment promises, next Monday: the first Monday after today. */
  function NextMonday(today: int): (r: int)
    ensures today < r <= today + 7 && JsDay(r) == 1
    ensures forall d :: today < d < r ==> JsDay(d) != 1
  {
    var r := today + (if JsDay(today) == 0 then 1 else 8 - JsDay(today));
    assert JsDay(r) == 1;
    assert forall d :: today < d < r ==> JsDay(d) == JsDay(today) + (d - today) || JsDay(d) == JsDay(today) + (d - today) - 7;
    r
  }

  /** The start as written is the Sunday after today, and so never a Monday. */
  lemma NextWeekStartIsSunday(today: int)
    ensures var s := NextWeekStartAsWritten(today);
            today < s <= today + 7 && JsDay(s) == 0 && s != NextMonday(today)
  {
  }

  /** `Sprint <n> - <month year>`. */
  function SprintName(count: nat, start: int, monthYear: int -> string): string
  {
    "Sprint " + NatToString(count + 1) + " - " + monthYear(start)
  }

  /**
   * The sprint created when none is planned: 15 days from today when a
   * card is in development, else 14 days from the start the page computes,
   * which is the next Sunday (see `NextWeekStartIsSunday`).
   */
  function NewSprint(inProgress: bool, today: int, count: nat, supervisor: nat, monthYear: int -> string): (r: ApiCall)
    ensures r.CreateSprint?
    ensures inProgress ==> r.dataInicio == today && r.dataFim == today + 15 && r.duracaoDias == 15
    ensures !inProgress ==> r.dataInicio == NextWeekStartAsWritten(today) && r.dataFim == r.dataInicio + 13 && r.duracaoDias == 14
    ensures !inProgress ==> today < r.dataInicio <= today + 7 && JsDay(r.dataInicio) == 0
    ensures r.nome == SprintName(count, r.dataInicio, monthYear) && r.supervisor == NatToString(supervisor)
  {
    if inProgress then CreateSprint(SprintName(count, today, monthYear), today, today + 15, 15, NatToString(supervisor))
    else
      var start := NextWeekStartAsWritten(today);
      NextWeekStartIsSunday(today);
      CreateSprint(SprintName(count, start, monthYear), start, start + 13, 14, NatToString(supervisor))
  }

  // ------------------------------------------------------------------
  // The copies
  // ------------------------------------------------------------------

  /** The keys of `cardsPorProjeto`, in insertion order: each card's project, first appearance kept. */
  function Keys(cards: seq<CardRow>): (r: seq<string>)
    ensures Distinct(r)
    ensures forall pid :: pid in r <==> HasCardOf(cards, pid)
  {
    if |cards| == 0 then []
    else
      var p := cards[..|cards| - 1];
      assert cards == p + [cards[|cards| - 1]];
      assert forall pid :: HasCardOf(cards, pid) <==> HasCardOf(p, pid) || cards[|cards| - 1].projeto == pid;
      AppendNew(Keys(p), cards[|cards| - 1].projeto)
  }

  /** `cardsPorProjeto.get(pid)`: the cards of that project, in order. */
  function GroupOf(cards: seq<CardRow>, pid: string): (r: seq<CardRow>)
    ensures forall c :: c in r <==> c in cards && c.projeto == pid
  {
    if |cards| == 0 then []
    else
      var p := cards[..|cards| - 1];
      assert cards == p + [cards[|cards| - 1]];
      GroupOf(p, pid) + (if cards[|cards| - 1].projeto == pid then [cards[|cards| - 1]] else [])
  }

  /** A project to copy, with the cards that go into its copy. */
  datatype Block = Block(project: ProjectRow, cards: seq<CardRow>)

  /** One block per key whose project is found (`if (!projetoOriginal) continue`), in key order. */
  function Blocks(keys: seq<string>, copy: seq<CardRow>, projects: seq<ProjectRow>): seq<Block>
  {
    if |keys| == 0 then []
    else Blocks(keys[..|keys| - 1], copy, projects) + BlockOf(keys[|keys| - 1], copy, projects)
  }

  function BlockOf(pid: string, copy: seq<CardRow>, projects: seq<ProjectRow>): seq<Block>
  {
    match FindProject(projects, pid)
    case None => []
    case Some(p) => [Block(p, GroupOf(copy, pid))]
  }

  /** One create request per card, all in the project the given request created. */
  function CardCalls(cards: seq<CardRow>, projeto: Ref): (r: seq<ApiCall>)
    ensures |r| == |cards|
    ensures forall k :: 0 <= k < |cards| ==> r[k] == CreateCard(cards[k], projeto)
  {
    if |cards| == 0 then [] else CardCalls(cards[..|cards| - 1], projeto) + [CreateCard(cards[|cards| - 1], projeto)]
  }

  /** The requests for one block issued from call index `at`: the project copy, then each card copied into it. */
  function BlockCalls(b: Block, target: Ref, at: nat): (r: seq<ApiCall>)
    ensures |r| == 1 + |b.cards|
  {
    [CreateProject(b.project.nome, b.project.descricao, target)] + CardCalls(b.cards, Created(at))
  }

  /** The requests for the blocks, in order, the first at call index `base`. */
  function CopyCalls(blocks: seq<Block>, target: Ref, base: nat): seq<ApiCall>
  {
    if |blocks| == 0 then []
    else
      var prev := CopyCalls(blocks[..|blocks| - 1], target, base);
      prev + BlockCalls(blocks[|blocks| - 1], target, base + |prev|)
  }

  /** The projects moved whole: some card to move and none to copy. */
  predicate MovesWhole(copy: seq<CardRow>, move: seq<CardRow>, p: ProjectRow)
  {
    !HasCardOf(copy, p.id) && HasCardOf(move, p.id)
  }

  function MoveCalls(projects: seq<ProjectRow>, copy: seq<CardRow>, move: seq<CardRow>, target: Ref): (r: seq<ApiCall>)
    ensures forall x :: x in r <==> exists p :: p in projects && MovesWhole(copy, move, p) && x == MoveProject(p.id, target)
  {
    var moved := FilterSeq(projects, p => MovesWhole(copy, move, p));
    var r := seq(|moved|, k requires 0 <= k < |moved| => MoveProject(moved[k].id, target));
    assert forall x :: x in r ==> exists p :: p in projects && MovesWhole(copy, move, p) && x == MoveProject(p.id, target) by {
      forall x | x in r
        ensures exists p :: p in projects && MovesWhole(copy, move, p) && x == MoveProject(p.id, target)
      {
        var k :| 0 <= k < |r| && r[k] == x;
        assert moved[k] in moved;
      }
    }
    assert forall p :: p in moved ==> MoveProject(p.id, target) in r by {
      forall p | p in moved
        ensures MoveProject(p.id, target) in r
      {
        var k :| 0 <= k < |moved| && moved[k] == p;
        assert r[k] == MoveProject(p.id, target);
      }
    }
    r
  }

  // ------------------------------------------------------------------
  // The whole rollover
  // ------------------------------------------------------------------

  /** The inputs of one rollover. */
  datatype Rollover = Rollover(
    finished: SprintRow, projects: seq<ProjectRow>, cards: seq<CardRow>, sprints: seq<SprintRow>,
    today: int, supervisor: nat, monthYear: int -> string)

  function Copies(r: Rollover): seq<CardRow>
  {
    FilterSeq(SprintCards(r.projects, r.cards), IsToCopy)
  }

  function Moves(r: Rollover): seq<CardRow>
  {
    FilterSeq(SprintCards(r.projects, r.cards), IsToMove)
  }

  predicate NothingPending(r: Rollover)
  {
    Count(SprintCards(r.projects, r.cards), IsPending) == 0
  }

  /** The request creating the destination, when none is planned. */
  function SprintPart(r: Rollover): seq<ApiCall>
  {
    if NextSprintIndex(r.sprints, r.finished.dataFim).Some? then []
    else
      var inProgress := Count(SprintCards(r.projects, r.cards), IsInProgress) > 0;
      [NewSprint(inProgress, r.today, |r.sprints|, r.supervisor, r.monthYear)]
  }

  function Target(r: Rollover): Ref
  {
    var next := NextSprintIndex(r.sprints, r.finished.dataFim);
    if next.Some? then Existing(r.sprints[next.value].id) else Created(0)
  }

  function CopyBlocks(r: Rollover): seq<Block>
  {
    Blocks(Keys(Copies(r)), Copies(r), r.projects)
  }

  /** Every request the rollover issues, in order. */
  function RolloverPlan(r: Rollover): seq<ApiCall>
  {
    if NothingPending(r) then []
    else
      var head := SprintPart(r);
      head + CopyCalls(CopyBlocks(r), Target(r), |head|) + MoveCalls(r.projects, Copies(r), Moves(r), Target(r))
  }

  lemma BlocksSnoc(keys: seq<string>, j: nat, copy: seq<CardRow>, projects: seq<ProjectRow>)
    requires j < |keys|
    ensures Blocks(keys[..j + 1], copy, projects) == Blocks(keys[..j], copy, projects) + BlockOf(keys[j], copy, projects)
  {
    assert keys[..j + 1][..j] == keys[..j];
  }

  lemma CopyCallsSnoc(blocks: seq<Block>, b: Block, target: Ref, base: nat, at: nat)
    requires at == base + |CopyCalls(blocks, target, base)|
    ensures CopyCalls(blocks + [b], target, base) == CopyCalls(blocks, target, base) + BlockCalls(b, target, at)
  {
    assert (blocks + [b])[..|blocks|] == blocks;
  }

  /** Issuing one more block after the earlier ones extends the copies by that block. */
  lemma CopyStep(head: seq<ApiCall>, blocks: seq<Block>, b: Block, target: Ref, before: seq<ApiCall>, calls: seq<ApiCall>)
    requires before == head + CopyCalls(blocks, target, |head|)
    requires calls == before + BlockCalls(b, target, |before|)
    ensures calls == head + CopyCalls(blocks + [b], target, |head|)
  {
    var c := CopyCalls(blocks, target, |head|);
    CopyCallsSnoc(blocks, b, target, |head|, |before|);
    AppendAssoc(head, c, BlockCalls(b, target, |before|));
  }

  /** The inner loop's requests: the project copy issued at `at`, then one card copy per card of the group. */
  lemma CardCallsSnoc(cards: seq<CardRow>, l: nat, ref: Ref)
    requires l < |cards|
    ensures CardCalls(cards[..l + 1], ref) == CardCalls(cards[..l], ref) + [CreateCard(cards[l], ref)]
  {
  }

  /**
   * `movePendingCardsToNextSprint`: groups the cards to copy by project
   * in a map, then for each project issues its copy and its cards' copies,
   * then moves the projects whose cards all wait on a dependency.
   */
  method MovePendingCardsToNextSprint(r: Rollover) returns (calls: seq<ApiCall>)
    ensures calls == RolloverPlan(r)
  {
    var sprintCards := SprintCards(r.projects, r.cards);
    var cardsParaCopiar := FilterSeq(sprintCards, IsToCopy);
    var cardsParaMover := FilterSeq(sprintCards, IsToMove);
    if Count(sprintCards, IsPending) == 0 {
      return [];
    }
    calls := SprintPart(r);
    var target := Target(r);

    var keys, groups := GroupByProject(cardsParaCopiar);
    var head := calls;
    ghost var blocks: seq<Block> := [];
    var j := 0;
    while j < |keys|
      invariant 0 <= j <= |keys|
      invariant blocks == Blocks(keys[..j], cardsParaCopiar, r.projects)
      invariant calls == head + CopyCalls(blocks, target, |head|)
    {
      var projetoId := keys[j];
      BlocksSnoc(keys, j, cardsParaCopiar, r.projects);
      var projetoOriginal := FindProject(r.projects, projetoId);
      if projetoOriginal.Some? {
        var before := calls;
        calls := CopyBlock(calls, projetoOriginal.value, groups[projetoId], target);
        var b := Block(projetoOriginal.value, groups[projetoId]);
        CopyStep(head, blocks, b, target, before, calls);
        blocks := blocks + [b];
      }
      j := j + 1;
    }
    assert keys[..j] == keys;
    calls := calls + MoveCalls(r.projects, cardsParaCopiar, cardsParaMover, target);
  }

  /** `cardsPorProjeto`: the cards grouped by project in a map, and its keys in insertion order. */
  method GroupByProject(cards: seq<CardRow>) returns (keys: seq<string>, groups: map<string, seq<CardRow>>)
    ensures keys == Keys(cards)
    ensures forall pid :: pid in groups <==> pid in keys
    ensures forall pid :: pid in groups ==> groups[pid] == GroupOf(cards, pid)
  {
    keys := [];
    groups := map[];
    var i := 0;
    while i < |cards|
      invariant 0 <= i <= |cards|
      invariant keys == Keys(cards[..i])
      invariant forall pid :: pid in groups <==> pid in keys
      invariant forall pid :: pid in groups ==> groups[pid] == GroupOf(cards[..i], pid)
    {
      var card := cards[i];
      ghost var keys0, groups0 := keys, groups;
      var group := [];
      if card.projeto in groups {
        group := groups[card.projeto];
      } else {
        keys := keys + [card.projeto];
      }
      groups := groups[card.projeto := group + [card]];
      GroupsStep(cards, i, keys0, groups0, keys, groups);
      i := i + 1;
    }
    assert cards[..i] == cards;
  }

  /** The requests for one project: its copy into the destination, then its cards copied into that copy. */
  method CopyBlock(calls: seq<ApiCall>, p: ProjectRow, cards: seq<CardRow>, target: Ref) returns (out: seq<ApiCall>)
    ensures out == calls + BlockCalls(Block(p, cards), target, |calls|)
  {
    var project := CreateProject(p.nome, p.descricao, target);
    out := calls + [project];
    out := CopyCards(out, cards, Created(|calls|));
    AppendAssoc(calls, [project], CardCalls(cards, Created(|calls|)));
  }

  lemma AppendAssoc<T>(a: seq<T>, b: seq<T>, c: seq<T>)
    ensures (a + b) + c == a + (b + c)
  {
  }

  /** The inner loop: a copy of each card of the group, in order, into the project copy `ref`. */
  method CopyCards(calls: seq<ApiCall>, cards: seq<CardRow>, ref: Ref) returns (out: seq<ApiCall>)
    ensures out == calls + CardCalls(cards, ref)
  {
    out := calls;
    var l := 0;
    while l < |cards|
      invariant 0 <= l <= |cards|
      invariant out == calls + CardCalls(cards[..l], ref)
    {
      CardCallsSnoc(cards, l, ref);
      out := out + [CreateCard(cards[l], ref)];
      l := l + 1;
    }
    assert cards[..l] == cards;
  }

  /** A project with no card in the list has an empty group. */
  lemma {:induction false} GroupOfNone(cards: seq<CardRow>, pid: string)
    requires !HasCardOf(cards, pid)
    ensures GroupOf(cards, pid) == []
  {
    if |cards| > 0 {
      assert cards[|cards| - 1] in cards;
      assert !HasCardOf(cards[..|cards| - 1], pid);
      GroupOfNone(cards[..|cards| - 1], pid);
    }
  }

  /** One more card adds its project to the keys if new, and itself to its project's group. */
  /** The map and its keys after one more card, given them for the cards before it. */
  lemma GroupsStep(cards: seq<CardRow>, i: nat, keys: seq<string>, groups: map<string, seq<CardRow>>,
                   keys': seq<string>, groups': map<string, seq<CardRow>>)
    requires i < |cards|
    requires keys == Keys(cards[..i])
    requires forall pid :: pid in groups <==> pid in keys
    requires forall pid :: pid in groups ==> groups[pid] == GroupOf(cards[..i], pid)
    requires keys' == if cards[i].projeto in groups then keys else keys + [cards[i].projeto]
    requires groups' == groups[cards[i].projeto := (if cards[i].projeto in groups then groups[cards[i].projeto] else []) + [cards[i]]]
    ensures keys' == Keys(cards[..i + 1])
    ensures forall pid :: pid in groups' <==> pid in keys'
    ensures forall pid :: pid in groups' ==> groups'[pid] == GroupOf(cards[..i + 1], pid)
  {
    var p := cards[i].projeto;
    KeysStep(cards, i);
    if p !in groups {
      GroupOfNone(cards[..i], p);
    }
    forall pid | pid in groups'
      ensures groups'[pid] == GroupOf(cards[..i + 1], pid)
    {
      GroupOfStep(cards, i, pid);
    }
  }

  lemma KeysStep(cards: seq<CardRow>, i: nat)
    requires i < |cards|
    ensures Keys(cards[..i + 1]) == AppendNew(Keys(cards[..i]), cards[i].projeto)
  {
    assert cards[..i + 1][..i] == cards[..i];
  }

  /** One more card joins its own project's group and no other. */
  lemma GroupOfStep(cards: seq<CardRow>, i: nat, pid: string)
    requires i < |cards|
    ensures GroupOf(cards[..i + 1], pid) == GroupOf(cards[..i], pid) + (if cards[i].projeto == pid then [cards[i]] else [])
  {
    assert cards[..i + 1][..i] == cards[..i];
  }

  // ------------------------------------------------------------------
  // What the plan does
  // ------------------------------------------------------------------

  /** The cards the requests copy, in the order they are sent. */
  function CardsCreated(calls: seq<ApiCall>): seq<CardRow>
  {
    if |calls| == 0 then []
    else CardsCreated(calls[..|calls| - 1]) + (if calls[|calls| - 1].CreateCard? then [calls[|calls| - 1].card] else [])
  }

  lemma {:induction false} CardsCreatedConcat(a: seq<ApiCall>, b: seq<ApiCall>)
    ensures CardsCreated(a + b) == CardsCreated(a) + CardsCreated(b)
  {
    if |b| == 0 {
      assert a + b == a;
    } else {
      var bs := b[..|b| - 1];
      assert (a + b)[..|a + b| - 1] == a + bs;
      CardsCreatedConcat(a, bs);
    }
  }

  lemma {:induction false} CardsCreatedNone(calls: seq<ApiCall>)
    requires forall x :: x in calls ==> !x.CreateCard?
    ensures CardsCreated(calls) == []
  {
    if |calls| > 0 {
      assert calls[|calls| - 1] in calls;
      CardsCreatedNone(calls[..|calls| - 1]);
    }
  }

  lemma {:induction false} CardsCreatedOfCardCalls(g: seq<CardRow>, ref: Ref)
    ensures CardsCreated(CardCalls(g, ref)) == g
  {
    if |g| > 0 {
      var gs := g[..|g| - 1];
      assert CardCalls(g, ref)[..|g| - 1] == CardCalls(gs, ref);
      CardsCreatedOfCardCalls(gs, ref);
    }
  }

  lemma BlockCallsCards(b: Block, target: Ref, at: nat)
    ensures CardsCreated(BlockCalls(b, target, at)) == b.cards
  {
    var pc := [CreateProject(b.project.nome, b.project.descricao, target)];
    CardsCreatedConcat(pc, CardCalls(b.cards, Created(at)));
    CardsCreatedOfCardCalls(b.cards, Created(at));
    assert pc[..0] == [];
  }

  /** The cards of the blocks, one block after another. */
  function BlockCards(blocks: seq<Block>): seq<CardRow>
  {
    if |blocks| == 0 then [] else BlockCards(blocks[..|blocks| - 1]) + blocks[|blocks| - 1].cards
  }

  lemma {:induction false} CopyCallsCards(blocks: seq<Block>, target: Ref, base: nat)
    ensures CardsCreated(CopyCalls(blocks, target, base)) == BlockCards(blocks)
  {
    if |blocks| > 0 {
      var bs := blocks[..|blocks| - 1];
      var prev := CopyCalls(bs, target, base);
      var last := blocks[|blocks| - 1];
      var at := base + |prev|;
      assert bs + [last] == blocks;
      CopyCallsSnoc(bs, last, target, base, at);
      CardsCreatedConcat(prev, BlockCalls(last, target, at));
      BlockCallsCards(last, target, at);
      CopyCallsCards(bs, target, base);
    }
  }

  /** The cards of `s` whose project is among `keys`, in order. */
  function CardsIn(s: seq<CardRow>, keys: seq<string>): seq<CardRow>
  {
    if |s| == 0 then []
    else CardsIn(s[..|s| - 1], keys) + (if s[|s| - 1].projeto in keys then [s[|s| - 1]] else [])
  }

  lemma {:induction false} CardsInExtend(s: seq<CardRow>, keys: seq<string>, k: string)
    requires k !in keys
    ensures multiset(CardsIn(s, keys + [k])) == multiset(CardsIn(s, keys)) + multiset(GroupOf(s, k))
  {
    if |s| > 0 {
      CardsInExtend(s[..|s| - 1], keys, k);
    }
  }

  lemma {:induction false} CardsInAll(s: seq<CardRow>, keys: seq<string>)
    requires forall c :: c in s ==> c.projeto in keys
    ensures CardsIn(s, keys) == s
  {
    if |s| > 0 {
      var p := s[..|s| - 1];
      var last := s[|s| - 1];
      assert s == p + [last];
      assert last in s;
      assert forall c :: c in p ==> c in s;
      CardsInAll(p, keys);
      assert CardsIn(s, keys) == p + [last];
    }
  }

  lemma {:induction false} CardsInNone(s: seq<CardRow>, keys: seq<string>)
    requires keys == []
    ensures CardsIn(s, keys) == []
  {
    if |s| > 0 {
      CardsInNone(s[..|s| - 1], keys);
    }
  }

  /** Distinct keys whose projects are all found group every card of theirs exactly once. */
  lemma {:induction false} BlocksMultiset(keys: seq<string>, copy: seq<CardRow>, projects: seq<ProjectRow>)
    requires Distinct(keys) && forall k :: k in keys ==> FindProject(projects, k).Some?
    ensures multiset(BlockCards(Blocks(keys, copy, projects))) == multiset(CardsIn(copy, keys))
  {
    if |keys| == 0 {
      CardsInNone(copy, keys);
    } else {
      var ks := keys[..|keys| - 1];
      var last := keys[|keys| - 1];
      assert keys == ks + [last];
      assert Distinct(ks) && last !in ks;
      assert last in keys;
      BlocksMultiset(ks, copy, projects);
      CardsInExtend(copy, ks, last);
      var bs := Blocks(ks, copy, projects);
      var b := Block(FindProject(projects, last).value, GroupOf(copy, last));
      assert Blocks(keys, copy, projects) == bs + [b];
      assert (bs + [b])[..|bs|] == bs;
    }
  }

  /** A block holds cards of its own project only. */
  predicate BlockFits(b: Block, projects: seq<ProjectRow>)
  {
    forall c :: c in b.cards ==> FindProject(projects, c.projeto) == Some(b.project)
  }

  lemma {:induction false} BlocksFit(keys: seq<string>, copy: seq<CardRow>, projects: seq<ProjectRow>)
    ensures forall b :: b in Blocks(keys, copy, projects) ==> BlockFits(b, projects)
  {
    if |keys| > 0 {
      BlocksFit(keys[..|keys| - 1], copy, projects);
    }
  }

  /** Each card copy goes into the project copy made by an earlier request, a copy of the card's own project. */
  predicate LinkedAt(calls: seq<ApiCall>, base: nat, projects: seq<ProjectRow>, k: nat)
    requires k < |calls|
  {
    calls[k].CreateCard? ==>
      var ref := calls[k].projeto;
      ref.Created? && base <= ref.call < base + k
      && var p := FindProject(projects, calls[k].card.projeto);
         p.Some? && calls[ref.call - base].CreateProject?
         && calls[ref.call - base].nome == p.value.nome && calls[ref.call - base].descricao == p.value.descricao
  }

  predicate Linked(calls: seq<ApiCall>, base: nat, projects: seq<ProjectRow>)
  {
    forall k :: 0 <= k < |calls| ==> LinkedAt(calls, base, projects, k)
  }

  lemma BlockCallsLinked(b: Block, projects: seq<ProjectRow>, target: Ref, at: nat)
    requires BlockFits(b, projects)
    ensures Linked(BlockCalls(b, target, at), at, projects)
  {
    var calls := BlockCalls(b, target, at);
    forall k | 1 <= k < |calls|
      ensures LinkedAt(calls, at, projects, k)
    {
      assert calls[k] == CreateCard(b.cards[k - 1], Created(at));
      assert b.cards[k - 1] in b.cards;
    }
  }

  lemma LinkedConcat(a: seq<ApiCall>, b: seq<ApiCall>, base: nat, projects: seq<ProjectRow>)
    requires Linked(a, base, projects) && Linked(b, base + |a|, projects)
    ensures Linked(a + b, base, projects)
  {
    forall k | 0 <= k < |a + b|
      ensures LinkedAt(a + b, base, projects, k)
    {
      if k < |a| {
        assert LinkedAt(a, base, projects, k);
      } else {
        assert LinkedAt(b, base + |a|, projects, k - |a|);
        assert (a + b)[k] == b[k - |a|];
        if b[k - |a|].CreateCard? {
          var ref := b[k - |a|].projeto;
          assert (a + b)[ref.call - base] == b[ref.call - (base + |a|)];
        }
      }
    }
  }

  lemma {:induction false} CopyCallsLinked(blocks: seq<Block>, projects: seq<ProjectRow>, target: Ref, base: nat)
    requires forall b :: b in blocks ==> BlockFits(b, projects)
    ensures Linked(CopyCalls(blocks, target, base), base, projects)
  {
    if |blocks| > 0 {
      var bs := blocks[..|blocks| - 1];
      var prev := CopyCalls(bs, target, base);
      var last := blocks[|blocks| - 1];
      var at := base + |prev|;
      assert bs + [last] == blocks;
      CopyCallsSnoc(bs, last, target, base, at);
      assert last in blocks;
      assert forall b :: b in bs ==> b in blocks;
      CopyCallsLinked(bs, projects, target, base);
      BlockCallsLinked(last, projects, target, at);
      LinkedConcat(prev, BlockCalls(last, target, at), base, projects);
    }
  }

  /** Requests that copy no card keep the links of what follows them or precedes them. */
  lemma LinkedAround(a: seq<ApiCall>, b: seq<ApiCall>, m: seq<ApiCall>, projects: seq<ProjectRow>)
    requires Linked(b, |a|, projects)
    requires forall x :: x in a ==> !x.CreateCard?
    requires forall x :: x in m ==> !x.CreateCard?
    ensures Linked(a + b + m, 0, projects)
  {
    assert Linked(a, 0, projects) by {
      forall k | 0 <= k < |a|
        ensures LinkedAt(a, 0, projects, k)
      {
        assert a[k] in a;
      }
    }
    LinkedConcat(a, b, 0, projects);
    assert Linked(m, |a + b|, projects) by {
      forall k | 0 <= k < |m|
        ensures LinkedAt(m, |a + b|, projects, k)
      {
        assert m[k] in m;
      }
    }
    LinkedConcat(a + b, m, 0, projects);
  }

  /** A block issues nothing but project copies, into the destination, and card copies. */
  lemma {:induction false} CopyCallsTarget(blocks: seq<Block>, target: Ref, base: nat)
    ensures forall x :: x in CopyCalls(blocks, target, base) ==>
              (x.CreateProject? && x.sprint == target) || x.CreateCard?
  {
    if |blocks| > 0 {
      var bs := blocks[..|blocks| - 1];
      var prev := CopyCalls(bs, target, base);
      var last := blocks[|blocks| - 1];
      var at := base + |prev|;
      assert bs + [last] == blocks;
      CopyCallsSnoc(bs, last, target, base, at);
      CopyCallsTarget(bs, target, base);
      var calls := BlockCalls(last, target, at);
      forall x | x in calls
        ensures (x.CreateProject? && x.sprint == target) || x.CreateCard?
      {
        var k :| 0 <= k < |calls| && calls[k] == x;
      }
    }
  }

  lemma MoveCallsOnlyMoves(projects: seq<ProjectRow>, copy: seq<CardRow>, move: seq<CardRow>, target: Ref)
    ensures forall x :: x in MoveCalls(projects, copy, move, target) ==> x.MoveProject? && x.sprint == target
  {
  }

  /** Without a card in a pending status the rollover issues no request. */
  lemma NoPendingNoRequests(r: Rollover)
    requires forall c :: c in r.cards && InProjects(r.projects, c) ==> !IsPending(c)
    ensures RolloverPlan(r) == []
  {
    CountZero(SprintCards(r.projects, r.cards), IsPending);
  }

  /** The cards to copy all belong to found projects, and their keys are distinct. */
  lemma CopiesGrouped(r: Rollover)
    ensures Distinct(Keys(Copies(r)))
    ensures forall k :: k in Keys(Copies(r)) ==> FindProject(r.projects, k).Some?
    ensures forall c :: c in Copies(r) ==> c.projeto in Keys(Copies(r))
  {
    var copy := Copies(r);
    forall k | k in Keys(copy)
      ensures FindProject(r.projects, k).Some?
    {
      var c :| c in copy && c.projeto == k;
    }
    forall c | c in copy
      ensures c.projeto in Keys(copy)
    {
      assert HasCardOf(copy, c.projeto);
    }
  }

  /** The parts of a plan when something is pending. */
  lemma PlanParts(r: Rollover)
    requires !NothingPending(r)
    ensures RolloverPlan(r) == SprintPart(r) + CopyCalls(CopyBlocks(r), Target(r), |SprintPart(r)|)
                               + MoveCalls(r.projects, Copies(r), Moves(r), Target(r))
    ensures forall x :: x in SprintPart(r) ==> x.CreateSprint?
  {
  }

  /**
   * When something is pending, every card of the sprint in a status to
   * copy is copied exactly once, with its status, and nothing else is
   * copied.
   */
  lemma RolloverCopiesCards(r: Rollover)
    requires !NothingPending(r)
    ensures multiset(CardsCreated(RolloverPlan(r))) == multiset(Copies(r))
    ensures forall c :: c in CardsCreated(RolloverPlan(r)) <==> c in r.cards && InProjects(r.projects, c) && IsToCopy(c)
  {
    var head := SprintPart(r);
    var copy := Copies(r);
    var copyCalls := CopyCalls(CopyBlocks(r), Target(r), |head|);
    var moveCalls := MoveCalls(r.projects, copy, Moves(r), Target(r));
    PlanParts(r);
    MoveCallsOnlyMoves(r.projects, copy, Moves(r), Target(r));
    CopiedCards(r, head, copyCalls, moveCalls);
  }

  /** Each card copy goes into the copy of its own project, made by an earlier request. */
  lemma RolloverLinksCards(r: Rollover)
    requires !NothingPending(r)
    ensures Linked(RolloverPlan(r), 0, r.projects)
  {
    var head := SprintPart(r);
    var copy := Copies(r);
    var keys := Keys(copy);
    var copyCalls := CopyCalls(CopyBlocks(r), Target(r), |head|);
    var moveCalls := MoveCalls(r.projects, copy, Moves(r), Target(r));
    PlanParts(r);
    MoveCallsOnlyMoves(r.projects, copy, Moves(r), Target(r));
    BlocksFit(keys, copy, r.projects);
    CopyCallsLinked(CopyBlocks(r), r.projects, Target(r), |head|);
    LinkedAround(head, copyCalls, moveCalls, r.projects);
  }

  lemma CopiedCards(r: Rollover, head: seq<ApiCall>, copyCalls: seq<ApiCall>, moveCalls: seq<ApiCall>)
    requires !NothingPending(r)
    requires head == SprintPart(r) && copyCalls == CopyCalls(CopyBlocks(r), Target(r), |head|)
    requires forall x :: x in head ==> x.CreateSprint?
    requires forall x :: x in moveCalls ==> x.MoveProject?
    ensures multiset(CardsCreated(head + copyCalls + moveCalls)) == multiset(Copies(r))
    ensures forall c :: c in CardsCreated(head + copyCalls + moveCalls) <==> c in Copies(r)
  {
    var copy := Copies(r);
    var keys := Keys(copy);
    CardsCreatedConcat(head + copyCalls, moveCalls);
    CardsCreatedConcat(head, copyCalls);
    CardsCreatedNone(head);
    CardsCreatedNone(moveCalls);
    CopyCallsCards(CopyBlocks(r), Target(r), |head|);
    CopiesGrouped(r);
    BlocksMultiset(keys, copy, r.projects);
    CardsInAll(copy, keys);
    assert CardsCreated(head + copyCalls + moveCalls) == BlockCards(CopyBlocks(r));
    forall c
      ensures c in CardsCreated(head + copyCalls + moveCalls) <==> c in copy
    {
      assert c in CardsCreated(head + copyCalls + moveCalls) <==> c in multiset(copy);
    }
  }

  /**
   * When something is pending, the projects moved are exactly those with
   * a card waiting on a dependency and none to copy.
   */
  lemma RolloverMovesProjects(r: Rollover, pid: string)
    requires !NothingPending(r)
    ensures MoveProject(pid, Target(r)) in RolloverPlan(r)
            <==> exists p :: p in r.projects && p.id == pid && MovesWhole(Copies(r), Moves(r), p)
  {
    var head := SprintPart(r);
    var copyCalls := CopyCalls(CopyBlocks(r), Target(r), |head|);
    PlanParts(r);
    CopyCallsTarget(CopyBlocks(r), Target(r), |head|);
    assert MoveProject(pid, Target(r)) !in head + copyCalls;
  }

  /**
   * Every project copy and every move goes to the destination: the next
   * planned sprint, or, when none is planned, the one the first request
   * creates.
   */
  lemma RolloverTargets(r: Rollover)
    requires !NothingPending(r)
    ensures forall x :: x in RolloverPlan(r) && (x.CreateProject? || x.MoveProject?) ==> x.sprint == Target(r)
  {
    var head := SprintPart(r);
    PlanParts(r);
    CopyCallsTarget(CopyBlocks(r), Target(r), |head|);
    MoveCallsOnlyMoves(r.projects, Copies(r), Moves(r), Target(r));
  }

  /** A sprint is created, by the first request, exactly when none is planned after the finished one. */
  lemma RolloverCreatesSprint(r: Rollover)
    requires !NothingPending(r)
    ensures NextSprintIndex(r.sprints, r.finished.dataFim).None? ==> RolloverPlan(r)[0].CreateSprint? && Target(r) == Created(0)
    ensures NextSprintIndex(r.sprints, r.finished.dataFim).Some? ==>
              Target(r) == Existing(r.sprints[NextSprintIndex(r.sprints, r.finished.dataFim).value].id)
              && forall x :: x in RolloverPlan(r) ==> !x.CreateSprint?
  {
    var head := SprintPart(r);
    PlanParts(r);
    if NextSprintIndex(r.sprints, r.finished.dataFim).None? {
      assert head[0].CreateSprint?;
    } else {
      assert head == [];
      CopyCallsTarget(CopyBlocks(r), Target(r), |head|);
      MoveCallsOnlyMoves(r.projects, Copies(r), Moves(r), Target(r));
    }
  }

  /**
   * A card waiting on a dependency in a project that also has a card to
   * copy is neither copied nor moved: it stays in the finished sprint.
   */
  lemma MixedProjectLeavesBlockedCard(r: Rollover, c: CardRow, other: CardRow)
    requires !NothingPending(r)
    requires c in r.cards && other in r.cards && InProjects(r.projects, c) && IsToMove(c)
    requires other.projeto == c.projeto && IsToCopy(other)
    ensures c !in CardsCreated(RolloverPlan(r))
    ensures MoveProject(c.projeto, Target(r)) !in RolloverPlan(r)
  {
    RolloverCopiesCards(r);
    assert c !in CardsCreated(RolloverPlan(r)) by {
      PendingIsCopyOrMove(c);
    }
    RolloverMovesProjects(r, c.projeto);
    assert InProjects(r.projects, other);
    assert other in Copies(r);
    assert HasCardOf(Copies(r), c.projeto);
  }
}
