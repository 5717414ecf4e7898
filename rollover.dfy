/**
 * The sprint rollover engine: backend/apps/projects/services.py
 * (`get_proxima_sprint`, `finalizar_sprint_replicacao`), the daily sweep
 * `finalizar_sprints_por_data` of backend/apps/projects/tasks.py and the
 * response mapping of `SprintViewSet.finalizar` in
 * backend/apps/projects/views.py.
 *
 * The database is a `Store` object holding the three tables as sequences;
 * a row's primary key is its position. `today` is a day number.
 */
module Rollover {
  import opened Common
  import opened Models
  import Sorting

  // ------------------------------------------------------------------
  // get_proxima_sprint
  // ------------------------------------------------------------------

  /** Another sprint with `data_inicio <= today <= data_fim`. */
  predicate InProgress(sprints: seq<Sprint>, src: nat, today: int, j: int)
  {
    0 <= j < |sprints| && j != src && sprints[j].dataInicio <= today <= sprints[j].dataFim
  }

  /** A sprint starting strictly after the source sprint ends (the source itself is not excluded). */
  predicate StartsAfter(sprints: seq<Sprint>, src: nat, j: int)
  {
    0 <= j < |sprints| && src < |sprints| && sprints[j].dataInicio > sprints[src].dataFim
  }

  /** The two filters `get_proxima_sprint` runs, in order. */
  datatype Filter = InProgressOn(src: nat, today: int) | StartsAfterEnd(src: nat)

  predicate Eligible(sprints: seq<Sprint>, f: Filter, j: int)
  {
    match f
    case InProgressOn(src, today) => InProgress(sprints, src, today, j)
    case StartsAfterEnd(src) => StartsAfter(sprints, src, j)
  }

  /**
   * `filter(f).order_by('data_inicio').first()` over the first `n` rows:
   * a row of smallest start among those passing `f`; among equal starts
   * the one stored first.
   */
  function EarliestWhere(sprints: seq<Sprint>, f: Filter, n: nat): (r: Option<nat>)
    requires n <= |sprints|
    ensures r.Some? ==> r.value < n && Eligible(sprints, f, r.value)
    ensures r.Some? ==> forall j :: 0 <= j < n && Eligible(sprints, f, j) ==>
                          sprints[r.value].dataInicio <= sprints[j].dataInicio
    ensures r.Some? ==> forall j :: 0 <= j < r.value && Eligible(sprints, f, j) ==>
                          sprints[j].dataInicio > sprints[r.value].dataInicio
    ensures r.None? <==> forall j :: 0 <= j < n ==> !Eligible(sprints, f, j)
  {
    if n == 0 then None
    else
      var prev := EarliestWhere(sprints, f, n - 1);
      if !Eligible(sprints, f, n - 1) then prev
      else if prev.Some? && sprints[prev.value].dataInicio <= sprints[n - 1].dataInicio then prev
      else Some(n - 1)
  }

  /**
   * `get_proxima_sprint`: the in-progress sprint with the earliest start if
   * there is one; otherwise the earliest sprint starting after the source
   * ends; otherwise none.
   */
  function GetProximaSprint(sprints: seq<Sprint>, src: nat, today: int): (r: Option<nat>)
    requires src < |sprints|
    ensures (exists j :: InProgress(sprints, src, today, j)) ==>
              r.Some? && InProgress(sprints, src, today, r.value)
              && forall j :: InProgress(sprints, src, today, j) ==>
                   sprints[r.value].dataInicio <= sprints[j].dataInicio
    ensures (forall j :: !InProgress(sprints, src, today, j)) ==>
              (r.None? <==> forall j :: !StartsAfter(sprints, src, j))
    ensures (forall j :: !InProgress(sprints, src, today, j)) && r.Some? ==>
              StartsAfter(sprints, src, r.value)
              && forall j :: StartsAfter(sprints, src, j) ==>
                   sprints[r.value].dataInicio <= sprints[j].dataInicio
  {
    var now := EarliestWhere(sprints, InProgressOn(src, today), |sprints|);
    EarliestOverAll(sprints, InProgressOn(src, today));
    EarliestOverAll(sprints, StartsAfterEnd(src));
    EligibleMeaning(sprints, src, today);
    if now.Some? then now
    else EarliestWhere(sprints, StartsAfterEnd(src), |sprints|)
  }

  lemma EligibleMeaning(sprints: seq<Sprint>, src: nat, today: int)
    ensures forall j :: Eligible(sprints, InProgressOn(src, today), j) <==> InProgress(sprints, src, today, j)
    ensures forall j :: Eligible(sprints, StartsAfterEnd(src), j) <==> StartsAfter(sprints, src, j)
  {
  }

  /** `EarliestWhere` over the whole table, with the row bound dropped. */
  lemma EarliestOverAll(sprints: seq<Sprint>, f: Filter)
    ensures var r := EarliestWhere(sprints, f, |sprints|);
      (r.None? <==> forall j :: !Eligible(sprints, f, j))
      && (r.Some? ==>
            Eligible(sprints, f, r.value)
            && forall j :: Eligible(sprints, f, j) ==> sprints[r.value].dataInicio <= sprints[j].dataInicio)
  {
    var r := EarliestWhere(sprints, f, |sprints|);
    forall j | Eligible(sprints, f, j)
      ensures 0 <= j < |sprints|
    {
    }
  }

  // ------------------------------------------------------------------
  // What a rollover creates
  // ------------------------------------------------------------------

  /** `project.cards.exclude(status__in=[finalizado, inviabilizado])`, in table order. */
  function PendingOf(cards: seq<Card>, p: nat): (r: seq<Card>)
    ensures |r| <= |cards|
  {
    if |cards| == 0 then []
    else
      var last := cards[|cards| - 1];
      PendingOf(cards[..|cards| - 1], p) + (if last.projeto == p && !IsClosed(last.status) then [last] else [])
  }

  /** The pending cards of `p` are exactly its cards that are neither finished nor abandoned. */
  lemma {:induction false} PendingOfMembers(cards: seq<Card>, p: nat, c: Card)
    ensures c in PendingOf(cards, p) <==> c in cards && c.projeto == p && !IsClosed(c.status)
  {
    if |cards| > 0 {
      var init := cards[..|cards| - 1];
      PendingOfMembers(init, p, c);
      assert cards == init + [cards[|cards| - 1]];
    }
  }

  /** The replica project: same name, description and people, in `dest`, status `criado`. */
  function CopyProject(p: Project, dest: nat): Project
  {
    Project(p.nome, p.descricao, dest, p.gerente, p.desenvolvedor, Criado)
  }

  /** The copied card, attached to project `np`, with `criado_por` the actor when given. */
  function CopyCard(c: Card, np: nat, actor: Option<UserId>): Card
  {
    Card(c.nome, c.descricao, c.scriptUrl, np, c.area, c.tipo, c.responsavel,
         if actor.Some? then actor else c.criadoPor,
         c.status, c.prioridade, c.dataInicio, c.dataFim,
         Some(ListOrEmpty(c.selectedItems)), Some(TextOrEmpty(c.selectedDevelopment)),
         Some(ListOrEmpty(c.customItems)), Some(TextOrEmpty(c.comment)))
  }

  /** Every field the copy is required to keep, as the rollover promises it. */
  lemma CopyCardFields(c: Card, np: nat, actor: Option<UserId>)
    ensures var k := CopyCard(c, np, actor);
      k.nome == c.nome && k.descricao == c.descricao && k.scriptUrl == c.scriptUrl
      && k.area == c.area && k.tipo == c.tipo && k.responsavel == c.responsavel
      && k.status == c.status && k.prioridade == c.prioridade
      && k.dataInicio == c.dataInicio && k.dataFim == c.dataFim && k.projeto == np
      && (actor.Some? ==> k.criadoPor == actor) && (actor.None? ==> k.criadoPor == c.criadoPor)
      && (c.selectedDevelopment.None? ==> k.selectedDevelopment == Some(""))
      && (c.comment.None? ==> k.comment == Some(""))
      && (c.selectedItems.None? ==> k.selectedItems == Some([]))
  {
  }

  /** The copies of a list of cards, in order. */
  function CopyCards(cs: seq<Card>, np: nat, actor: Option<UserId>): (r: seq<Card>)
    ensures |r| == |cs|
  {
    seq(|cs|, k requires 0 <= k < |cs| => CopyCard(cs[k], np, actor))
  }

  /** The `k`-th copy is the copy of the `k`-th card. */
  lemma CopyCardsAt(cs: seq<Card>, np: nat, actor: Option<UserId>)
    ensures forall k :: 0 <= k < |cs| ==> CopyCards(cs, np, actor)[k] == CopyCard(cs[k], np, actor)
  {
  }

  lemma CopyCardsSnoc(cs: seq<Card>, c: Card, np: nat, actor: Option<UserId>)
    ensures CopyCards(cs + [c], np, actor) == CopyCards(cs, np, actor) + [CopyCard(c, np, actor)]
  {
    var a := CopyCards(cs + [c], np, actor);
    var b := CopyCards(cs, np, actor) + [CopyCard(c, np, actor)];
    assert |a| == |b|;
    forall k | 0 <= k < |a|
      ensures a[k] == b[k]
    {
      if k < |cs| {
        assert (cs + [c])[k] == cs[k];
      }
    }
  }

  /**
   * The rows a rollover adds: new projects, new cards, and for each new
   * project the index of the source project it replicates.
   */
  datatype Replica = Replica(projects: seq<Project>, cards: seq<Card>, origins: seq<nat>)

  predicate Replicable(projects: seq<Project>, cards: seq<Card>, src: nat, p: nat)
  {
    p < |projects| && projects[p].sprint == src && |PendingOf(cards, p)| > 0
  }

  /**
   * The loop over `sprint.projects.all()` after its first `i` rows: each
   * project of `src` with a pending card gets one replica in `dest`, with
   * the copies of its pending cards attached to it.
   */
  function Replicate(projects: seq<Project>, cards: seq<Card>, src: nat, dest: nat,
                     actor: Option<UserId>, i: nat): Replica
    requires i <= |projects|
  {
    if i == 0 then Replica([], [], [])
    else Extend(projects, cards, src, dest, actor, i - 1, Replicate(projects, cards, src, dest, actor, i - 1))
  }

  /** One iteration of that loop, on source project `j`. */
  function Extend(projects: seq<Project>, cards: seq<Card>, src: nat, dest: nat,
                  actor: Option<UserId>, j: nat, prev: Replica): Replica
    requires j < |projects|
  {
    if Replicable(projects, cards, src, j) then
      Replica(prev.projects + [CopyProject(projects[j], dest)],
              prev.cards + CopyCards(PendingOf(cards, j), |projects| + |prev.projects|, actor),
              prev.origins + [j])
    else prev
  }

  /** One step of `Replicate`, unfolded. */
  lemma ReplicateStep(projects: seq<Project>, cards: seq<Card>, src: nat, dest: nat,
                      actor: Option<UserId>, i: nat)
    requires i < |projects|
    ensures var prev := Replicate(projects, cards, src, dest, actor, i);
      Replicate(projects, cards, src, dest, actor, i + 1)
        == if Replicable(projects, cards, src, i) then
             Replica(prev.projects + [CopyProject(projects[i], dest)],
                     prev.cards + CopyCards(PendingOf(cards, i), |projects| + |prev.projects|, actor),
                     prev.origins + [i])
           else prev
  {
  }

  /**
   * Each replica project copies its origin into `dest`, and the origins are
   * replicable source projects in increasing order.
   */
  lemma {:induction false} ReplicateShape(projects: seq<Project>, cards: seq<Card>, src: nat,
                                          dest: nat, actor: Option<UserId>, i: nat)
    requires i <= |projects|
    ensures var r := Replicate(projects, cards, src, dest, actor, i);
      |r.origins| == |r.projects| <= i
      && (forall k :: 0 <= k < |r.projects| ==>
            r.origins[k] < i && Replicable(projects, cards, src, r.origins[k])
            && r.projects[k] == CopyProject(projects[r.origins[k]], dest))
      && (forall k, l :: 0 <= k < l < |r.origins| ==> r.origins[k] < r.origins[l])
  {
    if i > 0 {
      ReplicateShape(projects, cards, src, dest, actor, i - 1);
      ReplicateStep(projects, cards, src, dest, actor, i - 1);
    }
  }

  /** Every copied card hangs off one of the new projects. */
  lemma {:induction false} ReplicateAttached(projects: seq<Project>, cards: seq<Card>, src: nat,
                                             dest: nat, actor: Option<UserId>, i: nat)
    requires i <= |projects|
    ensures var r := Replicate(projects, cards, src, dest, actor, i);
      forall c :: c in r.cards ==> |projects| <= c.projeto < |projects| + |r.projects|
  {
    if i > 0 {
      ReplicateAttached(projects, cards, src, dest, actor, i - 1);
      ReplicateLengths(projects, cards, src, dest, actor, i - 1);
      var prev := Replicate(projects, cards, src, dest, actor, i - 1);
      var r := Replicate(projects, cards, src, dest, actor, i);
      if Replicable(projects, cards, src, i - 1) {
        var np := |projects| + |prev.projects|;
        var added := CopyCards(PendingOf(cards, i - 1), np, actor);
        assert r.cards == prev.cards + added;
        CopyCardsAt(PendingOf(cards, i - 1), np, actor);
        forall c | c in r.cards
          ensures |projects| <= c.projeto < |projects| + |r.projects|
        {
          if c !in prev.cards {
            assert c in added;
          }
        }
      }
    }
  }

  /** Exactly the projects with a pending card are replicated, each once. */
  lemma {:induction false} ReplicateProjects(projects: seq<Project>, cards: seq<Card>, src: nat,
                                             dest: nat, actor: Option<UserId>, i: nat, p: nat)
    requires i <= |projects|
    ensures p in Replicate(projects, cards, src, dest, actor, i).origins
            <==> p < i && Replicable(projects, cards, src, p)
  {
    if i > 0 {
      ReplicateProjects(projects, cards, src, dest, actor, i - 1, p);
      ReplicateStep(projects, cards, src, dest, actor, i - 1);
    }
  }

  /** The lengths of the three parts of a replica. */
  lemma {:induction false} ReplicateLengths(projects: seq<Project>, cards: seq<Card>, src: nat,
                                            dest: nat, actor: Option<UserId>, i: nat)
    requires i <= |projects|
    ensures var r := Replicate(projects, cards, src, dest, actor, i);
      |r.origins| == |r.projects| <= i
  {
    if i > 0 {
      ReplicateLengths(projects, cards, src, dest, actor, i - 1);
      ReplicateStep(projects, cards, src, dest, actor, i - 1);
    }
  }

  /**
   * The copies a rollover makes, in order: for the `k`-th replicated
   * project, the copies of its pending cards attached to new project
   * `base + k`.
   */
  function CopiesFor(cards: seq<Card>, origins: seq<nat>, base: nat, actor: Option<UserId>): seq<Card>
  {
    if |origins| == 0 then []
    else
      CopiesFor(cards, origins[..|origins| - 1], base, actor)
        + CopyCards(PendingOf(cards, origins[|origins| - 1]), base + |origins| - 1, actor)
  }

  /** One step of `CopiesFor`, unfolded. */
  lemma CopiesForSnoc(cards: seq<Card>, origins: seq<nat>, o: nat, base: nat, np: nat, actor: Option<UserId>)
    requires np == base + |origins|
    ensures CopiesFor(cards, origins + [o], base, actor)
            == CopiesFor(cards, origins, base, actor) + CopyCards(PendingOf(cards, o), np, actor)
  {
    assert (origins + [o])[..|origins|] == origins;
  }

  /** After `i` steps of the loop, the copied cards are `CopiesFor` of the origins so far. */
  ghost predicate CardsCopied(projects: seq<Project>, cards: seq<Card>, src: nat, dest: nat,
                              actor: Option<UserId>, i: nat)
    requires i <= |projects|
  {
    var r := Replicate(projects, cards, src, dest, actor, i);
    r.cards == CopiesFor(cards, r.origins, |projects|, actor)
  }

  /** One loop step keeps the copied cards equal to `CopiesFor` of the origins. */
  lemma ReplicateCardsStep(projects: seq<Project>, cards: seq<Card>, src: nat, dest: nat,
                           actor: Option<UserId>, i: nat)
    requires 0 < i <= |projects| && CardsCopied(projects, cards, src, dest, actor, i - 1)
    ensures CardsCopied(projects, cards, src, dest, actor, i)
  {
    ReplicateLengths(projects, cards, src, dest, actor, i - 1);
    ExtendCards(projects, cards, src, dest, actor, i - 1, Replicate(projects, cards, src, dest, actor, i - 1));
  }

  /** One iteration keeps the copied cards equal to `CopiesFor` of the origins. */
  lemma ExtendCards(projects: seq<Project>, cards: seq<Card>, src: nat, dest: nat,
                    actor: Option<UserId>, j: nat, prev: Replica)
    requires j < |projects| && |prev.origins| == |prev.projects|
    requires prev.cards == CopiesFor(cards, prev.origins, |projects|, actor)
    ensures var r := Extend(projects, cards, src, dest, actor, j, prev);
      r.cards == CopiesFor(cards, r.origins, |projects|, actor)
  {
    var r := Extend(projects, cards, src, dest, actor, j, prev);
    CopiesForStep(cards, prev, r, j, |projects|, |projects| + |prev.projects|, actor,
                  Replicable(projects, cards, src, j));
  }

  /** A loop step that may add one origin and its copies keeps the cards equal to `CopiesFor` of the origins. */
  lemma CopiesForStep(cards: seq<Card>, prev: Replica, r: Replica, o: nat, base: nat, np: nat,
                      actor: Option<UserId>, grows: bool)
    requires prev.cards == CopiesFor(cards, prev.origins, base, actor) && np == base + |prev.origins|
    requires grows ==> r.cards == prev.cards + CopyCards(PendingOf(cards, o), np, actor) && r.origins == prev.origins + [o]
    requires !grows ==> r.cards == prev.cards && r.origins == prev.origins
    ensures r.cards == CopiesFor(cards, r.origins, base, actor)
  {
    if grows {
      CopiesForSnoc(cards, prev.origins, o, base, np, actor);
    }
  }

  /**
   * The copied cards are, replica project by replica project, the copies of
   * the pending cards of its origin, attached to that replica.
   */
  lemma {:induction false} ReplicateCards(projects: seq<Project>, cards: seq<Card>, src: nat,
                                          dest: nat, actor: Option<UserId>, i: nat)
    requires i <= |projects|
    ensures var r := Replicate(projects, cards, src, dest, actor, i);
      r.cards == CopiesFor(cards, r.origins, |projects|, actor)
  {
    if i > 0 {
      ReplicateCards(projects, cards, src, dest, actor, i - 1);
      ReplicateCardsStep(projects, cards, src, dest, actor, i);
    }
  }

  /** Every copy is the copy of a pending card of a replicated project, attached to its replica. */
  lemma {:induction false} CopiesForSound(cards: seq<Card>, origins: seq<nat>, base: nat,
                                          actor: Option<UserId>, c: Card)
    requires c in CopiesFor(cards, origins, base, actor)
    ensures exists k, o :: 0 <= k < |origins| && o in PendingOf(cards, origins[k])
                           && c == CopyCard(o, base + k, actor)
  {
    var n := |origins| - 1;
    var init := origins[..n];
    var pend := PendingOf(cards, origins[n]);
    var added := CopyCards(pend, base + n, actor);
    if c in CopiesFor(cards, init, base, actor) {
      CopiesForSound(cards, init, base, actor, c);
      var k, o :| 0 <= k < |init| && o in PendingOf(cards, init[k]) && c == CopyCard(o, base + k, actor);
      assert origins[k] == init[k];
    } else {
      assert c in added;
      var m :| 0 <= m < |added| && added[m] == c;
      assert pend[m] in PendingOf(cards, origins[n]);
    }
  }

  /** Every pending card of a replicated project is copied to that project's replica. */
  lemma {:induction false} CopiesForComplete(cards: seq<Card>, origins: seq<nat>, base: nat,
                                             actor: Option<UserId>, k: nat, j: nat)
    requires k < |origins| && j < |PendingOf(cards, origins[k])|
    ensures CopyCard(PendingOf(cards, origins[k])[j], base + k, actor) in CopiesFor(cards, origins, base, actor)
  {
    var n := |origins| - 1;
    var init := origins[..n];
    var copy := CopyCard(PendingOf(cards, origins[k])[j], base + k, actor);
    assert origins == init + [origins[n]];
    CopiesForSnoc(cards, init, origins[n], base, base + n, actor);
    if k < n {
      assert origins[k] == init[k];
      CopiesForComplete(cards, init, base, actor, k, j);
    } else {
      CopyInCopies(PendingOf(cards, origins[n]), base + n, actor, j);
    }
    InConcat(copy, CopiesFor(cards, init, base, actor), CopyCards(PendingOf(cards, origins[n]), base + n, actor));
  }

  /** The copy of each card is among the copies. */
  lemma CopyInCopies(cs: seq<Card>, np: nat, actor: Option<UserId>, j: nat)
    requires j < |cs|
    ensures CopyCard(cs[j], np, actor) in CopyCards(cs, np, actor)
  {
    assert CopyCards(cs, np, actor)[j] == CopyCard(cs[j], np, actor);
  }

  lemma InConcat(x: Card, a: seq<Card>, b: seq<Card>)
    ensures x in a + b <==> x in a || x in b
  {
  }

  /** The number of copied cards is the number of pending cards of the replicated projects. */
  function PendingTotal(cards: seq<Card>, origins: seq<nat>): nat
  {
    if |origins| == 0 then 0
    else PendingTotal(cards, origins[..|origins| - 1]) + |PendingOf(cards, origins[|origins| - 1])|
  }

  lemma {:induction false} ReplicateCount(projects: seq<Project>, cards: seq<Card>, src: nat,
                                          dest: nat, actor: Option<UserId>, i: nat)
    requires i <= |projects|
    ensures var r := Replicate(projects, cards, src, dest, actor, i);
      |r.cards| == PendingTotal(cards, r.origins)
  {
    if i > 0 {
      ReplicateCount(projects, cards, src, dest, actor, i - 1);
      ReplicateStep(projects, cards, src, dest, actor, i - 1);
      var prev := Replicate(projects, cards, src, dest, actor, i - 1);
      var r := Replicate(projects, cards, src, dest, actor, i);
      if Replicable(projects, cards, src, i - 1) {
        assert r.origins[..|r.origins| - 1] == prev.origins;
      }
    }
  }

  /**
   * A source sprint whose one project has an open card and a finished card:
   * one replica project is created and only the open card is copied.
   */
  lemma ReplicateExample(open: Card, done: Card, p: Project)
    requires p.sprint == 0
    requires open.projeto == 0 && open.status == ADesenvolver
    requires done.projeto == 0 && done.status == Finalizado
    ensures var r := Replicate([p], [open, done], 0, 1, None, 1);
      r.origins == [0] && r.projects == [CopyProject(p, 1)] && r.cards == [CopyCard(open, 1, None)]
  {
    var cards := [open, done];
    assert cards[..1] == [open];
    assert [open][..0] == [];
    assert PendingOf(cards, 0) == [open];
    assert Replicable([p], cards, 0, 0);
  }

  // ------------------------------------------------------------------
  // The store and the engine
  // ------------------------------------------------------------------

  datatype FinalizeResult =
    | AlreadyFinalized
    | Replicated(proximaSprint: nat, proximaNome: string, projetosCriados: nat, cardsCopiados: nat)

  /** The sprints due for the daily sweep: ended before today and not finalized, by `data_fim`. */
  function DueSprints(sprints: seq<Sprint>, today: int): seq<nat>
  {
    Sorting.SortBy(DueIndices(sprints, today, |sprints|), EndKey(sprints))
  }

  /** The due list holds exactly the due sprints, each once, in `data_fim` order. */
  lemma DueSprintsSpec(sprints: seq<Sprint>, today: int)
    ensures var r := DueSprints(sprints, today);
      (forall i :: i in r <==> 0 <= i < |sprints| && sprints[i].dataFim < today && !sprints[i].finalizada)
      && (forall a, b :: 0 <= a < b < |r| ==> r[a] != r[b])
      && (forall a, b :: 0 <= a < b < |r| ==>
            r[a] < |sprints| && r[b] < |sprints| && sprints[r[a]].dataFim <= sprints[r[b]].dataFim)
  {
    var candidates := DueIndices(sprints, today, |sprints|);
    DueSprintsFacts(sprints, candidates, Sorting.SortBy(candidates, EndKey(sprints)));
  }

  /** The sort key `data_fim` of a sprint index. */
  function EndKey(sprints: seq<Sprint>): nat -> seq<int>
  {
    (i: nat) => if i < |sprints| then [sprints[i].dataFim] else []
  }

  lemma DueSprintsFacts(sprints: seq<Sprint>, candidates: seq<nat>, sorted: seq<nat>)
    requires sorted == Sorting.SortBy(candidates, EndKey(sprints))
    requires forall a, b :: 0 <= a < b < |candidates| ==> candidates[a] < candidates[b]
    requires forall a :: 0 <= a < |candidates| ==> candidates[a] < |sprints|
    ensures forall i :: i in sorted <==> i in candidates
    ensures forall a, b :: 0 <= a < b < |sorted| ==> sorted[a] != sorted[b]
    ensures forall a, b :: 0 <= a < b < |sorted| ==>
              sorted[a] < |sprints| && sorted[b] < |sprints| && sprints[sorted[a]].dataFim <= sprints[sorted[b]].dataFim
  {
    DueMembers(sprints, candidates, sorted);
    DueDistinct(sprints, candidates, sorted);
    DueSorted(sprints, candidates, sorted);
  }

  lemma DueMembers(sprints: seq<Sprint>, candidates: seq<nat>, sorted: seq<nat>)
    requires sorted == Sorting.SortBy(candidates, EndKey(sprints))
    requires forall a :: 0 <= a < |candidates| ==> candidates[a] < |sprints|
    ensures forall i :: i in sorted <==> i in candidates
    ensures forall a :: 0 <= a < |sorted| ==> sorted[a] < |sprints|
  {
    forall i
      ensures i in sorted <==> i in candidates
    {
      Sorting.SortByMembers(candidates, EndKey(sprints), i);
    }
    forall a | 0 <= a < |sorted|
      ensures sorted[a] < |sprints|
    {
      assert sorted[a] in candidates;
    }
  }

  lemma DueDistinct(sprints: seq<Sprint>, candidates: seq<nat>, sorted: seq<nat>)
    requires sorted == Sorting.SortBy(candidates, EndKey(sprints))
    requires forall a, b :: 0 <= a < b < |candidates| ==> candidates[a] < candidates[b]
    ensures forall a, b :: 0 <= a < b < |sorted| ==> sorted[a] != sorted[b]
  {
    forall a, b | 0 <= a < b < |sorted|
      ensures sorted[a] != sorted[b]
    {
      DistinctMultiset(candidates, sorted, a, b);
    }
  }

  lemma DueSorted(sprints: seq<Sprint>, candidates: seq<nat>, sorted: seq<nat>)
    requires sorted == Sorting.SortBy(candidates, EndKey(sprints))
    requires forall a :: 0 <= a < |sorted| ==> sorted[a] < |sprints|
    ensures forall a, b :: 0 <= a < b < |sorted| ==>
              sorted[a] < |sprints| && sorted[b] < |sprints| && sprints[sorted[a]].dataFim <= sprints[sorted[b]].dataFim
  {
    var key := EndKey(sprints);
    Sorting.SortBySorted(candidates, key);
    forall a, b | 0 <= a < b < |sorted|
      ensures sorted[a] < |sprints| && sorted[b] < |sprints| && sprints[sorted[a]].dataFim <= sprints[sorted[b]].dataFim
    {
      var x, y := sorted[a], sorted[b];
      assert Sorting.LexLe(key(x), key(y));
      assert key(x) == [sprints[x].dataFim] && key(y) == [sprints[y].dataFim];
      Sorting.LexLeSingleton(sprints[x].dataFim, sprints[y].dataFim);
    }
  }

  /** The indices below `n` of due sprints, ascending. */
  function DueIndices(sprints: seq<Sprint>, today: int, n: nat): (r: seq<nat>)
    requires n <= |sprints|
    ensures forall i :: i in r <==> 0 <= i < n && sprints[i].dataFim < today && !sprints[i].finalizada
    ensures forall a, b :: 0 <= a < b < |r| ==> r[a] < r[b]
    ensures forall a :: 0 <= a < |r| ==> r[a] < n
  {
    if n == 0 then []
    else
      var prev := DueIndices(sprints, today, n - 1);
      if sprints[n - 1].dataFim < today && !sprints[n - 1].finalizada then prev + [n - 1] else prev
  }

  /** A permutation of a sequence without repeats has no repeats. */
  lemma DistinctMultiset(s: seq<nat>, t: seq<nat>, a: nat, b: nat)
    requires forall x, y :: 0 <= x < y < |s| ==> s[x] < s[y]
    requires multiset(t) == multiset(s)
    requires a < b < |t|
    ensures t[a] != t[b]
  {
    if t[a] == t[b] {
      var v := t[a];
      assert multiset(t)[v] >= 2 by {
        var t1 := t[..a] + t[a + 1..];
        assert t == t[..a] + [t[a]] + t[a + 1..];
        assert multiset(t) == multiset(t1) + multiset{v};
        assert t1[b - 1] == v;
        assert v in multiset(t1);
      }
      SortedCountOne(s, v);
    }
  }

  lemma {:induction false} SortedCountOne(s: seq<nat>, v: nat)
    requires forall x, y :: 0 <= x < y < |s| ==> s[x] < s[y]
    ensures multiset(s)[v] <= 1
  {
    if |s| > 0 {
      var init := s[..|s| - 1];
      assert s == init + [s[|s| - 1]];
      SortedCountOne(init, v);
      if s[|s| - 1] == v {
        assert v !in init;
      }
    }
  }

  /** The foreign keys of a store's tables point at existing rows. */
  predicate TablesValid(sprints: seq<Sprint>, projects: seq<Project>, cards: seq<Card>)
  {
    (forall p :: 0 <= p < |projects| ==> projects[p].sprint < |sprints|)
    && (forall c :: 0 <= c < |cards| ==> cards[c].projeto < |projects|)
  }

  /** Adding a replica into an existing destination keeps every foreign key valid. */
  lemma ValidAfterReplica(sprints: seq<Sprint>, projects: seq<Project>, cards: seq<Card>,
                          rep: Replica, dest: nat)
    requires TablesValid(sprints, projects, cards) && dest < |sprints|
    requires forall k :: 0 <= k < |rep.projects| ==> rep.projects[k].sprint == dest
    requires forall c :: c in rep.cards ==> c.projeto < |projects| + |rep.projects|
    ensures TablesValid(sprints, projects + rep.projects, cards + rep.cards)
  {
    var ps := projects + rep.projects;
    var cs := cards + rep.cards;
    forall c | 0 <= c < |cs|
      ensures cs[c].projeto < |ps|
    {
      if c >= |cards| {
        assert cs[c] == rep.cards[c - |cards|];
      }
    }
  }

  /** `for card in cards_pendentes: Card.objects.create(...)`, counting the copies. */
  method CopyPending(pendentes: seq<Card>, np: nat, actor: Option<UserId>)
    returns (copies: seq<Card>, copiados: nat)
    ensures copies == CopyCards(pendentes, np, actor)
    ensures copiados == |pendentes|
  {
    copies, copiados := [], 0;
    var j := 0;
    while j < |pendentes|
      invariant 0 <= j <= |pendentes|
      invariant copies == CopyCards(pendentes[..j], np, actor)
      invariant copiados == j
    {
      CopyCardsSnoc(pendentes[..j], pendentes[j], np, actor);
      assert pendentes[..j + 1] == pendentes[..j] + [pendentes[j]];
      copies := copies + [CopyCard(pendentes[j], np, actor)];
      copiados := copiados + 1;
      j := j + 1;
    }
    assert pendentes[..j] == pendentes;
  }

  /**
   * The loop over the source sprint's projects: for each one with pending
   * cards, one replica project and the copies of its cards, with the two
   * counters `projetos_criados` and `cards_copiados`.
   */
  method ReplicateLoop(projects: seq<Project>, cards: seq<Card>, src: nat, dest: nat,
                       actor: Option<UserId>)
    returns (newProjects: seq<Project>, newCards: seq<Card>, projetosCriados: nat, cardsCopiados: nat)
    ensures var rep := Replicate(projects, cards, src, dest, actor, |projects|);
      newProjects == rep.projects && newCards == rep.cards
      && projetosCriados == |rep.projects| && cardsCopiados == |rep.cards|
  {
    newProjects, newCards, projetosCriados, cardsCopiados := [], [], 0, 0;
    var i := 0;
    while i < |projects|
      invariant 0 <= i <= |projects|
      invariant newProjects == Replicate(projects, cards, src, dest, actor, i).projects
      invariant newCards == Replicate(projects, cards, src, dest, actor, i).cards
      invariant projetosCriados == |newProjects| && cardsCopiados == |newCards|
    {
      ReplicateStep(projects, cards, src, dest, actor, i);
      var pendentes := PendingOf(cards, i);
      if projects[i].sprint == src && |pendentes| > 0 {
        var np := |projects| + |newProjects|;
        newProjects := newProjects + [CopyProject(projects[i], dest)];
        projetosCriados := projetosCriados + 1;
        var copies, copiados := CopyPending(pendentes, np, actor);
        newCards := newCards + copies;
        cardsCopiados := cardsCopiados + copiados;
      }
      i := i + 1;
    }
  }

  class Store {
    var sprints: seq<Sprint>
    var projects: seq<Project>
    var cards: seq<Card>

    /** Every foreign key points at an existing row. */
    predicate Valid()
      reads this
    {
      TablesValid(sprints, projects, cards)
    }

    constructor(sprints0: seq<Sprint>, projects0: seq<Project>, cards0: seq<Card>)
      ensures sprints == sprints0 && projects == projects0 && cards == cards0
    {
      sprints := sprints0;
      projects := projects0;
      cards := cards0;
    }

    /**
     * `finalizar_sprint_replicacao`. An already finalized sprint is reported
     * and nothing changes; with no destination nothing changes and the result
     * is `None`; otherwise every project of the sprint with a pending card is
     * replicated in the destination with copies of those cards, the sprint is
     * sealed, and the counts are the numbers of rows created. The new rows
     * are collected first and written together with the seal, as the
     * `transaction.atomic` block commits them all or none.
     */
    method FinalizarSprintReplicacao(src: nat, actor: Option<UserId>, today: int)
      returns (r: Option<FinalizeResult>)
      requires Valid() && src < |sprints|
      modifies this
      ensures Valid()
      ensures old(sprints[src].finalizada) ==>
                r == Some(AlreadyFinalized)
                && sprints == old(sprints) && projects == old(projects) && cards == old(cards)
      ensures !old(sprints[src].finalizada) && GetProximaSprint(old(sprints), src, today).None? ==>
                r.None? && sprints == old(sprints) && projects == old(projects) && cards == old(cards)
      ensures !old(sprints[src].finalizada) && GetProximaSprint(old(sprints), src, today).Some? ==>
                var dest := GetProximaSprint(old(sprints), src, today).value;
                var rep := Replicate(old(projects), old(cards), src, dest, actor, |old(projects)|);
                projects == old(projects) + rep.projects
                && cards == old(cards) + rep.cards
                && sprints == old(sprints)[src := old(sprints)[src].(finalizada := true)]
                && r == Some(Replicated(dest, old(sprints)[dest].nome, |rep.projects|, |rep.cards|))
      ensures |sprints| == |old(sprints)| && old(projects) <= projects && old(cards) <= cards
      ensures r.None? || old(sprints[src].finalizada) ==> sprints == old(sprints)
      ensures r.Some? && !old(sprints[src].finalizada) ==>
                sprints == old(sprints)[src := old(sprints)[src].(finalizada := true)]
    {
      if sprints[src].finalizada {
        return Some(AlreadyFinalized);
      }
      var proxima := GetProximaSprint(sprints, src, today);
      if proxima.None? {
        return None;
      }
      var dest := proxima.value;
      var newProjects, newCards, projetosCriados, cardsCopiados := ReplicateLoop(projects, cards, src, dest, actor);
      ghost var rep := Replicate(projects, cards, src, dest, actor, |projects|);
      ReplicateShape(projects, cards, src, dest, actor, |projects|);
      ReplicateAttached(projects, cards, src, dest, actor, |projects|);
      ValidAfterReplica(sprints, projects, cards, rep, dest);
      projects := projects + newProjects;
      cards := cards + newCards;
      sprints := sprints[src := sprints[src].(finalizada := true)];
      return Some(Replicated(dest, sprints[dest].nome, projetosCriados, cardsCopiados));
    }

    /**
     * `SprintViewSet.finalizar`: 403 for anyone but a supervisor or admin
     * before the sprint is looked up; 404 for an unknown sprint; then the
     * engine runs, with 400 when there is no destination and 200 otherwise
     * (with the already-finalized flag or the counts).
     */
    method Finalizar(role: Role, src: nat, actor: UserId, today: int)
      returns (status: int, result: Option<FinalizeResult>)
      requires Valid()
      modifies this
      ensures Valid()
      ensures !IsSupervisorOrAdmin(role) ==>
                status == 403 && result.None?
                && sprints == old(sprints) && projects == old(projects) && cards == old(cards)
      ensures IsSupervisorOrAdmin(role) && src >= |old(sprints)| ==>
                status == 404 && result.None?
                && sprints == old(sprints) && projects == old(projects) && cards == old(cards)
      ensures IsSupervisorOrAdmin(role) && src < |old(sprints)| ==> (status == 400 <==> result.None?)
      ensures IsSupervisorOrAdmin(role) && src < |old(sprints)| ==> (status == 200 <==> result.Some?)
      ensures IsSupervisorOrAdmin(role) && src < |old(sprints)| && old(sprints[src].finalizada) ==>
                status == 200 && result == Some(AlreadyFinalized)
                && sprints == old(sprints) && projects == old(projects) && cards == old(cards)
      ensures IsSupervisorOrAdmin(role) && src < |old(sprints)| && !old(sprints[src].finalizada)
              && GetProximaSprint(old(sprints), src, today).None? ==>
                status == 400 && result.None?
                && sprints == old(sprints) && projects == old(projects) && cards == old(cards)
      ensures IsSupervisorOrAdmin(role) && src < |old(sprints)| && !old(sprints[src].finalizada)
              && GetProximaSprint(old(sprints), src, today).Some? ==>
                var dest := GetProximaSprint(old(sprints), src, today).value;
                var rep := Replicate(old(projects), old(cards), src, dest, Some(actor), |old(projects)|);
                status == 200
                && result == Some(Replicated(dest, old(sprints)[dest].nome, |rep.projects|, |rep.cards|))
                && projects == old(projects) + rep.projects
                && cards == old(cards) + rep.cards
                && sprints == old(sprints)[src := old(sprints)[src].(finalizada := true)]
    {
      if !IsSupervisorOrAdmin(role) {
        return 403, None;
      }
      if src >= |sprints| {
        return 404, None;
      }
      result := FinalizarSprintReplicacao(src, Some(actor), today);
      if result.None? {
        status := 400;
      } else {
        status := 200;
      }
    }

    /**
     * One step of the sweep: a due sprint is finalized, by replication when
     * it has a successor and directly otherwise.
     */
    method FinalizeDue(s: nat, today: int) returns (replicated: bool)
      requires Valid() && s < |sprints| && !sprints[s].finalizada
      modifies this
      ensures Valid()
      ensures sprints == old(sprints)[s := old(sprints)[s].(finalizada := true)]
      ensures old(projects) <= projects && old(cards) <= cards
      ensures replicated <==> GetProximaSprint(old(sprints), s, today).Some?
      ensures GetProximaSprint(old(sprints), s, today).None? ==>
                projects == old(projects) && cards == old(cards)
      ensures GetProximaSprint(old(sprints), s, today).Some? ==>
                var dest := GetProximaSprint(old(sprints), s, today).value;
                var rep := Replicate(old(projects), old(cards), s, dest, None, |old(projects)|);
                projects == old(projects) + rep.projects && cards == old(cards) + rep.cards
    {
      var result := FinalizarSprintReplicacao(s, None, today);
      if result.None? {
        sprints := sprints[s := sprints[s].(finalizada := true)];
      }
      replicated := result.Some?;
    }

    /**
     * `finalizar_sprints_por_data`: every due sprint is finalized in
     * `data_fim` order, the ones without destination directly. Each step
     * replicates against the tables the earlier steps left, so the projects
     * and cards are those of `Swept`; `processadas` counts the due sprints
     * with a destination and `semDestino` the rest.
     */
    method FinalizarSprintsPorData(today: int) returns (processadas: nat, semDestino: nat)
      requires Valid()
      modifies this
      ensures Valid()
      ensures processadas + semDestino == |DueSprints(old(sprints), today)|
      ensures processadas == WithDestination(old(sprints), DueSprints(old(sprints), today), today)
      ensures |sprints| == |old(sprints)|
      ensures forall i :: 0 <= i < |sprints| ==>
                sprints[i] == if i in DueSprints(old(sprints), today)
                              then old(sprints)[i].(finalizada := true) else old(sprints)[i]
      ensures old(projects) <= projects && old(cards) <= cards
      ensures var t := Swept(old(sprints), Tables(old(projects), old(cards)), DueSprints(old(sprints), today), today);
              projects == t.projects && cards == t.cards
    {
      var due := DueSprints(sprints, today);
      ghost var S0 := sprints;
      ghost var T0 := Tables(projects, cards);
      processadas, semDestino := 0, 0;
      var k := 0;
      while k < |due|
        invariant 0 <= k <= |due|
        invariant Valid()
        invariant processadas + semDestino == k
        invariant processadas == WithDestination(S0, due[..k], today)
        invariant sprints == SealedPrefix(S0, due, k)
        invariant old(projects) <= projects && old(cards) <= cards
        invariant Tables(projects, cards) == Swept(S0, T0, due[..k], today)
      {
        var s := due[k];
        assert s < |S0| && !S0[s].finalizada && sprints[s] == S0[s] by {
          DueSprintsSpec(S0, today);
          SealedPrefixAt(S0, due, k, s);
          assert s in due && s !in due[..k];
        }
        SealedPrefixStep(S0, due, k);
        SealedPrefixDates(S0, due, k);
        ProximaIgnoresSeal(sprints, S0, s, today);
        SweptPrefix(S0, T0, due, k, today);
        ghost var before := Tables(projects, cards);
        ghost var sealedBefore := sprints;
        ghost var hasDest := GetProximaSprint(S0, s, today).Some?;
        var replicated := FinalizeDue(s, today);
        assert replicated == hasDest;
        SweepStepTaken(sealedBefore, S0, before, Tables(projects, cards), s, today);
        if replicated {
          processadas := processadas + 1;
        } else {
          semDestino := semDestino + 1;
        }
        k := k + 1;
      }
      assert due[..k] == due;
      forall i | 0 <= i < |sprints|
        ensures sprints[i] == if i in due then S0[i].(finalizada := true) else S0[i]
      {
        DueSprintsSpec(S0, today);
        SealedPrefixAt(S0, due, k, i);
      }
    }
  }

  /** The project and card tables, as one value. */
  datatype Tables = Tables(projects: seq<Project>, cards: seq<Card>)

  /**
   * One sweep step on the tables: when sprint `s` has a destination in
   * `sprints`, its replica is appended; otherwise nothing is.
   */
  function SweepStep(sprints: seq<Sprint>, t: Tables, s: nat, today: int): (r: Tables)
    ensures t.projects <= r.projects && t.cards <= r.cards
    ensures s >= |sprints| || GetProximaSprint(sprints, s, today).None? ==> r == t
  {
    if s < |sprints| && GetProximaSprint(sprints, s, today).Some? then
      var rep := Replicate(t.projects, t.cards, s, GetProximaSprint(sprints, s, today).value, None, |t.projects|);
      Tables(t.projects + rep.projects, t.cards + rep.cards)
    else t
  }

  /** The tables after the sweep has run over `due`, each step against the tables the previous one left. */
  function Swept(sprints: seq<Sprint>, t: Tables, due: seq<nat>, today: int): (r: Tables)
    ensures t.projects <= r.projects && t.cards <= r.cards
  {
    if |due| == 0 then t
    else SweepStep(sprints, Swept(sprints, t, due[..|due| - 1], today), due[|due| - 1], today)
  }

  /** What `FinalizeDue` does to the tables on a sealed table is the sweep step on the original one. */
  lemma SweepStepTaken(sprints: seq<Sprint>, S0: seq<Sprint>, before: Tables, after: Tables, s: nat, today: int)
    requires s < |sprints| && s < |S0|
    requires GetProximaSprint(sprints, s, today) == GetProximaSprint(S0, s, today)
    requires GetProximaSprint(sprints, s, today).None? ==> after == before
    requires GetProximaSprint(sprints, s, today).Some? ==>
               var rep := Replicate(before.projects, before.cards, s, GetProximaSprint(sprints, s, today).value,
                                    None, |before.projects|);
               after == Tables(before.projects + rep.projects, before.cards + rep.cards)
    ensures after == SweepStep(S0, before, s, today)
  {
  }

  /** One more step of the sweep, on the prefixes of the due list. */
  lemma SweptPrefix(sprints: seq<Sprint>, t: Tables, due: seq<nat>, k: nat, today: int)
    requires k < |due|
    ensures Swept(sprints, t, due[..k + 1], today) == SweepStep(sprints, Swept(sprints, t, due[..k], today), due[k], today)
    ensures WithDestination(sprints, due[..k + 1], today)
            == WithDestination(sprints, due[..k], today)
               + if due[k] < |sprints| && GetProximaSprint(sprints, due[k], today).Some? then 1 else 0
  {
    assert due[..k + 1][..k] == due[..k];
  }

  /** How many of `due` have a destination. */
  function WithDestination(sprints: seq<Sprint>, due: seq<nat>, today: int): (r: nat)
    ensures r <= |due|
  {
    if |due| == 0 then 0
    else
      var last := due[|due| - 1];
      WithDestination(sprints, due[..|due| - 1], today)
      + (if last < |sprints| && GetProximaSprint(sprints, last, today).Some? then 1 else 0)
  }

  /** The start and end of every sprint, in table order. */
  function Dates(sprints: seq<Sprint>): (r: seq<(int, int)>)
    ensures |r| == |sprints|
  {
    seq(|sprints|, j requires 0 <= j < |sprints| => (sprints[j].dataInicio, sprints[j].dataFim))
  }

  /** Two sprint tables with the same rows up to their `finalizada` flags. */
  predicate SameDates(a: seq<Sprint>, b: seq<Sprint>)
  {
    Dates(a) == Dates(b)
  }

  /**
   * `EarliestWhere` is fixed by which rows pass the filter and their starts,
   * so two tables with the same dates give the same row.
   */
  lemma EarliestSameDates(a: seq<Sprint>, b: seq<Sprint>, f: Filter, n: nat)
    requires SameDates(a, b) && n <= |a|
    requires f.src < |a|
    ensures EarliestWhere(a, f, n) == EarliestWhere(b, f, n)
  {
    var ra := EarliestWhere(a, f, n);
    var rb := EarliestWhere(b, f, n);
    if ra.Some? {
      EligibleSameDates(a, b, f, ra.value);
      EligibleSameDates(a, b, f, rb.value);
      assert Dates(a)[ra.value] == Dates(b)[ra.value];
      assert Dates(a)[rb.value] == Dates(b)[rb.value];
    } else if rb.Some? {
      EligibleSameDates(a, b, f, rb.value);
    }
  }

  lemma EligibleSameDates(a: seq<Sprint>, b: seq<Sprint>, f: Filter, j: nat)
    requires SameDates(a, b) && j < |a| && f.src < |a|
    ensures Eligible(a, f, j) == Eligible(b, f, j)
  {
    assert Dates(a)[j] == Dates(b)[j];
    assert Dates(a)[f.src] == Dates(b)[f.src];
  }

  /**
   * `get_proxima_sprint` reads only the dates, so sealing sprints does not
   * change any sprint's destination.
   */
  lemma ProximaIgnoresSeal(a: seq<Sprint>, b: seq<Sprint>, src: nat, today: int)
    requires SameDates(a, b) && src < |a|
    ensures GetProximaSprint(a, src, today) == GetProximaSprint(b, src, today)
  {
    EarliestSameDates(a, b, InProgressOn(src, today), |a|);
    EarliestSameDates(a, b, StartsAfterEnd(src), |a|);
  }

  lemma {:induction false} SealedPrefixDates(S0: seq<Sprint>, due: seq<nat>, k: nat)
    requires k <= |due|
    ensures SameDates(SealedPrefix(S0, due, k), S0)
  {
    if k > 0 {
      SealedPrefixDates(S0, due, k - 1);
      var prev := SealedPrefix(S0, due, k - 1);
      var s := due[k - 1];
      if s < |prev| {
        assert Dates(prev[s := prev[s].(finalizada := true)]) == Dates(prev);
      }
    }
  }

  /** The sprint table after the sweep has sealed the first `k` due sprints, one row at a time. */
  ghost function SealedPrefix(S0: seq<Sprint>, due: seq<nat>, k: nat): (r: seq<Sprint>)
    requires k <= |due|
    ensures |r| == |S0|
  {
    if k == 0 then S0
    else
      var prev := SealedPrefix(S0, due, k - 1);
      var s := due[k - 1];
      if s < |prev| then prev[s := prev[s].(finalizada := true)] else prev
  }

  lemma SealedPrefixStep(S0: seq<Sprint>, due: seq<nat>, k: nat)
    requires k < |due| && due[k] < |S0|
    ensures var prev := SealedPrefix(S0, due, k);
      SealedPrefix(S0, due, k + 1) == prev[due[k] := prev[due[k]].(finalizada := true)]
  {
  }

  /**
   * When the due list has no repeats, a row is sealed after `k` steps
   * exactly when it is among the first `k` due sprints, and is otherwise
   * untouched.
   */
  lemma {:induction false} SealedPrefixAt(S0: seq<Sprint>, due: seq<nat>, k: nat, i: nat)
    requires k <= |due| && i < |S0|
    requires forall a, b :: 0 <= a < b < |due| ==> due[a] != due[b]
    ensures SealedPrefix(S0, due, k)[i] == if i in due[..k] then S0[i].(finalizada := true) else S0[i]
  {
    if k > 0 {
      SealedPrefixAt(S0, due, k - 1, i);
      assert due[..k] == due[..k - 1] + [due[k - 1]];
      if i == due[k - 1] {
        assert i !in due[..k - 1];
      }
    }
  }
}
