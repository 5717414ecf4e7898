/**
 * backend/apps/projects/migrations/0020_populate_card_todos.py: the data
 * migration that gives every existing card the original TODOs of its
 * area checklist, and its reverse, which deletes every original TODO.
 *
 * The card store is a list whose positions are the card ids; the TODO
 * table is a `Serializers.TodoTable`. The two totals the migration prints
 * are returned as results.
 */
module PopulateCardTodos {
  import opened Common
  import opened Models
  import opened Serializers

  // ------------------------------------------------------------------
  // Selecting rows
  // ------------------------------------------------------------------

  /** The TODOs of one card, in table order. */
  function TodosOf(todos: seq<CardTodo>, card: nat): seq<CardTodo>
  {
    if |todos| == 0 then []
    else TodosOf(todos[..|todos| - 1], card) + (if todos[|todos| - 1].card == card then [todos[|todos| - 1]] else [])
  }

  lemma {:induction false} TodosOfConcat(a: seq<CardTodo>, b: seq<CardTodo>, card: nat)
    ensures TodosOf(a + b, card) == TodosOf(a, card) + TodosOf(b, card)
    decreases |b|
  {
    if |b| == 0 {
      assert a + b == a;
    } else {
      assert (a + b)[..|a + b| - 1] == a + b[..|b| - 1];
      TodosOfConcat(a, b[..|b| - 1], card);
    }
  }

  lemma {:induction false} TodosOfMembers(todos: seq<CardTodo>, card: nat, t: CardTodo)
    ensures t in TodosOf(todos, card) <==> t in todos && t.card == card
  {
    if |todos| > 0 {
      var init := todos[..|todos| - 1];
      TodosOfMembers(init, card, t);
      assert todos == init + [todos[|todos| - 1]];
    }
  }

  /** Every row is an original TODO of `card`. */
  predicate OriginalsOf(rows: seq<CardTodo>, card: nat)
  {
    forall k :: 0 <= k < |rows| ==> rows[k].card == card && rows[k].isOriginal
  }

  /** Every row is an original TODO of a card below `n`. */
  predicate OriginalsBelow(rows: seq<CardTodo>, n: nat)
  {
    forall k :: 0 <= k < |rows| ==> rows[k].card < n && rows[k].isOriginal
  }

  /** A list whose rows all belong to `card` is its own selection, and selects nothing for another card. */
  lemma {:induction false} TodosOfUniform(rows: seq<CardTodo>, card: nat, other: nat)
    requires OriginalsOf(rows, card)
    ensures TodosOf(rows, card) == rows
    ensures other != card ==> TodosOf(rows, other) == []
  {
    if |rows| > 0 {
      TodosOfUniform(rows[..|rows| - 1], card, other);
    }
  }

  /** The TODOs that are not original, in table order. */
  function NonOriginals(todos: seq<CardTodo>): seq<CardTodo>
  {
    if |todos| == 0 then []
    else NonOriginals(todos[..|todos| - 1]) + (if todos[|todos| - 1].isOriginal then [] else [todos[|todos| - 1]])
  }

  lemma {:induction false} NonOriginalsConcat(a: seq<CardTodo>, b: seq<CardTodo>)
    ensures NonOriginals(a + b) == NonOriginals(a) + NonOriginals(b)
    decreases |b|
  {
    if |b| == 0 {
      assert a + b == a;
    } else {
      assert (a + b)[..|a + b| - 1] == a + b[..|b| - 1];
      NonOriginalsConcat(a, b[..|b| - 1]);
    }
  }

  /** Rows that are all original leave no trace among the non-original ones. */
  lemma {:induction false} NonOriginalsOfOriginals(rows: seq<CardTodo>)
    requires forall k :: 0 <= k < |rows| ==> rows[k].isOriginal
    ensures NonOriginals(rows) == []
  {
    if |rows| > 0 {
      NonOriginalsOfOriginals(rows[..|rows| - 1]);
    }
  }

  // ------------------------------------------------------------------
  // populate_card_todos
  // ------------------------------------------------------------------

  // The migration carries its own copy of the area checklists. The
  // functions and lemmas below take that table as `templates`; the
  // migration itself runs with `TemplateFor`, whose entries its copy
  // repeats item for item.

  /** Whether the migration works on card `j` rather than skipping it. */
  predicate Processes(templates: string -> seq<TemplateItem>, todos: seq<CardTodo>, j: nat, c: Card)
  {
    NoOriginals(todos, j) && templates(c.area) != []
  }

  /** The checklist items card `c` keeps. */
  function KeptFor(templates: string -> seq<TemplateItem>, c: Card): seq<TemplateItem>
  {
    Kept(templates(c.area), ListOrEmpty(c.selectedItems), c.selectedDevelopment)
  }

  /**
   * The rows the forward migration inserts for card `j`, the table being
   * as it stands when the card's turn comes: none when the card already
   * has an original TODO or its area has no checklist, otherwise one row
   * per kept item whose label the card does not have yet.
   */
  function CardRows(templates: string -> seq<TemplateItem>, todos: seq<CardTodo>, j: nat, c: Card): seq<CardTodo>
  {
    if Processes(templates, todos, j, c) then Rows(todos, j, KeptFor(templates, c)) else []
  }

  /** The rows inserted for the first `n` cards, processed in order. */
  function Populated(templates: string -> seq<TemplateItem>, todos: seq<CardTodo>, cards: seq<Card>, n: nat)
    : seq<CardTodo>
    requires n <= |cards|
  {
    if n == 0 then []
    else
      var prev := Populated(templates, todos, cards, n - 1);
      prev + CardRows(templates, todos + prev, n - 1, cards[n - 1])
  }

  /** How many of the first `n` cards are processed. */
  function ProcessedCount(templates: string -> seq<TemplateItem>, todos: seq<CardTodo>, cards: seq<Card>, n: nat)
    : nat
    requires n <= |cards|
  {
    if n == 0 then 0
    else
      ProcessedCount(templates, todos, cards, n - 1)
      + (if Processes(templates, todos + Populated(templates, todos, cards, n - 1), n - 1, cards[n - 1]) then 1 else 0)
  }

  /** Whether the card has an original TODO (the `count() > 0` query). */
  method AnyOriginal(table: TodoTable, j: nat) returns (b: bool)
    ensures b <==> !NoOriginals(table.todos, j)
  {
    var k := 0;
    while k < |table.todos|
      invariant 0 <= k <= |table.todos|
      invariant forall i :: 0 <= i < k && table.todos[i].card == j ==> !table.todos[i].isOriginal
    {
      if table.todos[k].card == j && table.todos[k].isOriginal {
        return true;
      }
      k := k + 1;
    }
    return false;
  }

  /**
   * `populate_card_todos`: each card without original TODOs whose area has
   * a checklist in `templates` gets the checklist's rows. `processed` and
   * `created` are the totals it reports: the cards worked on and the rows
   * inserted. The migration runs it with its own copy of the checklists,
   * which is `TemplateFor`.
   */
  method Populate(table: TodoTable, cards: seq<Card>, templates: string -> seq<TemplateItem>)
    returns (processed: nat, created: nat)
    modifies table
    ensures table.todos == old(table.todos) + Populated(templates, old(table.todos), cards, |cards|)
    ensures created == |Populated(templates, old(table.todos), cards, |cards|)|
    ensures processed == ProcessedCount(templates, old(table.todos), cards, |cards|)
  {
    ghost var todos0 := table.todos;
    ghost var rows: seq<CardTodo> := [];
    processed, created := 0, 0;
    var j := 0;
    while j < |cards|
      invariant 0 <= j <= |cards|
      invariant rows == Populated(templates, todos0, cards, j)
      invariant table.todos == todos0 + rows
      invariant created == |rows|
      invariant processed == ProcessedCount(templates, todos0, cards, j)
    {
      PopulatedStep(templates, todos0, cards, j);
      var worked, n := PopulateCard(table, j, cards[j], templates);
      rows := rows + CardRows(templates, todos0 + rows, j, cards[j]);
      if worked {
        processed := processed + 1;
      }
      created := created + n;
      j := j + 1;
    }
  }

  /** What one more card adds to the rows and to the count. */
  lemma PopulatedStep(templates: string -> seq<TemplateItem>, todos: seq<CardTodo>, cards: seq<Card>, j: nat)
    requires j < |cards|
    ensures var prev := Populated(templates, todos, cards, j);
            var last := CardRows(templates, todos + prev, j, cards[j]);
            && Populated(templates, todos, cards, j + 1) == prev + last
            && todos + Populated(templates, todos, cards, j + 1) == todos + prev + last
            && ProcessedCount(templates, todos, cards, j + 1)
               == ProcessedCount(templates, todos, cards, j) + (if Processes(templates, todos + prev, j, cards[j]) then 1 else 0)
  {
  }

  /** One turn of the loop: card `j` is skipped or given its checklist rows. */
  method PopulateCard(table: TodoTable, j: nat, c: Card, templates: string -> seq<TemplateItem>)
    returns (worked: bool, created: nat)
    modifies table
    ensures worked == Processes(templates, old(table.todos), j, c)
    ensures table.todos == old(table.todos) + CardRows(templates, old(table.todos), j, c)
    ensures created == |CardRows(templates, old(table.todos), j, c)|
  {
    var has := AnyOriginal(table, j);
    var template := templates(c.area);
    worked := !has && template != [];
    created := 0;
    if worked {
      created := table.Instantiate(j, template, ListOrEmpty(c.selectedItems), c.selectedDevelopment);
    }
  }

  // ------------------------------------------------------------------
  // What the forward migration does to each card
  // ------------------------------------------------------------------

  lemma NoOriginalsIgnoresOthers(todos: seq<CardTodo>, extra: seq<CardTodo>, j: nat)
    requires OriginalsBelow(extra, j)
    ensures NoOriginals(todos + extra, j) == NoOriginals(todos, j)
  {
    if !NoOriginals(todos, j) {
      var k :| 0 <= k < |todos| && todos[k].card == j && todos[k].isOriginal;
      assert (todos + extra)[k] == todos[k];
    }
  }

  /** Rows of other cards do not count as a label already present. */
  lemma HasOriginalIgnoresOthers(a: seq<CardTodo>, extra: seq<CardTodo>, b: seq<CardTodo>, j: nat, name: string)
    requires OriginalsBelow(extra, j)
    ensures HasOriginal(a + extra + b, j, name) == HasOriginal(a + b, j, name)
  {
    var long, short := a + extra + b, a + b;
    if HasOriginal(long, j, name) {
      var k :| 0 <= k < |long| && long[k].card == j && long[k].text == name && long[k].isOriginal;
      if k < |a| {
        assert long[k] == short[k];
      } else if k >= |a| + |extra| {
        assert long[k] == short[k - |extra|];
      }
    }
    if HasOriginal(short, j, name) {
      var k :| 0 <= k < |short| && short[k].card == j && short[k].text == name && short[k].isOriginal;
      if k < |a| {
        assert long[k] == short[k];
      } else {
        assert long[k + |extra|] == short[k];
      }
    }
  }

  lemma {:induction false} RowsIgnoreOthers(todos: seq<CardTodo>, extra: seq<CardTodo>, j: nat, kept: seq<TemplateItem>)
    requires OriginalsBelow(extra, j)
    ensures Rows(todos + extra, j, kept) == Rows(todos, j, kept)
  {
    if |kept| > 0 {
      var init := kept[..|kept| - 1];
      RowsIgnoreOthers(todos, extra, j, init);
      var prev := Rows(todos, j, init);
      HasOriginalIgnoresOthers(todos, extra, prev, j, kept[|kept| - 1].text);
    }
  }

  /** Rows of other cards change neither the skip test nor the rows of card `j`. */
  lemma OtherCardsIgnored(templates: string -> seq<TemplateItem>, todos: seq<CardTodo>, extra: seq<CardTodo>, j: nat, c: Card)
    requires OriginalsBelow(extra, j)
    ensures CardRows(templates, todos + extra, j, c) == CardRows(templates, todos, j, c)
    ensures Processes(templates, todos + extra, j, c) == Processes(templates, todos, j, c)
  {
    NoOriginalsIgnoresOthers(todos, extra, j);
    RowsIgnoreOthers(todos, extra, j, KeptFor(templates, c));
  }

  /** Every row inserted for card `j` is an original TODO of card `j`. */
  lemma CardRowsOwn(templates: string -> seq<TemplateItem>, todos: seq<CardTodo>, j: nat, c: Card)
    ensures OriginalsOf(CardRows(templates, todos, j, c), j)
  {
    if Processes(templates, todos, j, c) {
      RowsShape(todos, j, KeptFor(templates, c));
    }
  }

  /** Original rows of cards below `n` stay so when joined. */
  lemma OwnConcat(prev: seq<CardTodo>, last: seq<CardTodo>, n: nat)
    requires n > 0 && OriginalsBelow(prev, n - 1) && OriginalsOf(last, n - 1)
    ensures OriginalsBelow(prev + last, n)
  {
    forall k | 0 <= k < |prev + last|
      ensures (prev + last)[k].card < n && (prev + last)[k].isOriginal
    {
      if k < |prev| {
        assert (prev + last)[k] == prev[k];
      } else {
        assert (prev + last)[k] == last[k - |prev|];
      }
    }
  }

  /** Appending the rows of card `j` to original rows of the cards below it. */
  lemma OwnNext(templates: string -> seq<TemplateItem>, base: seq<CardTodo>, prev: seq<CardTodo>, j: nat, c: Card)
    requires OriginalsBelow(prev, j)
    ensures OriginalsBelow(prev + CardRows(templates, base, j, c), j + 1)
  {
    CardRowsOwn(templates, base, j, c);
    OwnConcat(prev, CardRows(templates, base, j, c), j + 1);
  }

  /** The rows inserted for the first `n` cards belong to those cards and are original. */
  lemma {:induction false} PopulatedOwn(templates: string -> seq<TemplateItem>, todos: seq<CardTodo>, cards: seq<Card>, n: nat)
    requires n <= |cards|
    ensures OriginalsBelow(Populated(templates, todos, cards, n), n)
  {
    if n > 0 {
      PopulatedOwn(templates, todos, cards, n - 1);
      var prev := Populated(templates, todos, cards, n - 1);
      OwnNext(templates, todos + prev, prev, n - 1, cards[n - 1]);
      PopulatedStep(templates, todos, cards, n - 1);
    }
  }

  /**
   * Each card is handled as if alone: the rows inserted for card `j` are
   * computed against the table as it was before the migration ran.
   */
  lemma {:induction false} PopulatedFor(templates: string -> seq<TemplateItem>, todos: seq<CardTodo>, cards: seq<Card>, n: nat, j: nat)
    requires n <= |cards|
    ensures TodosOf(Populated(templates, todos, cards, n), j) == if j < n then CardRows(templates, todos, j, cards[j]) else []
  {
    if n > 0 {
      var prev := Populated(templates, todos, cards, n - 1);
      var last := CardRows(templates, todos, n - 1, cards[n - 1]);
      PopulatedStep(templates, todos, cards, n - 1);
      PopulatedOwn(templates, todos, cards, n - 1);
      OtherCardsIgnored(templates, todos, prev, n - 1, cards[n - 1]);
      PopulatedFor(templates, todos, cards, n - 1, j);
      TodosOfConcat(prev, last, j);
      CardRowsOwn(templates, todos, n - 1, cards[n - 1]);
      TodosOfUniform(last, n - 1, j);
      if j < n - 1 {
        assert TodosOf(prev + last, j) == CardRows(templates, todos, j, cards[j]) + [];
      } else if j == n - 1 {
        assert TodosOf(prev + last, j) == [] + last;
      } else {
        assert TodosOf(prev + last, j) == [] + [];
      }
    }
  }

  /** The cards among the first `n` that have no original TODO and a checklist. */
  function ProcessedAlone(templates: string -> seq<TemplateItem>, todos: seq<CardTodo>, cards: seq<Card>, n: nat): nat
    requires n <= |cards|
  {
    if n == 0 then 0
    else ProcessedAlone(templates, todos, cards, n - 1) + (if Processes(templates, todos, n - 1, cards[n - 1]) then 1 else 0)
  }

  /** Whether card `j` is worked on is decided against the table as it was before. */
  lemma {:induction false} ProcessedCountAlone(templates: string -> seq<TemplateItem>, todos: seq<CardTodo>, cards: seq<Card>, n: nat)
    requires n <= |cards|
    ensures ProcessedCount(templates, todos, cards, n) == ProcessedAlone(templates, todos, cards, n)
  {
    if n > 0 {
      ProcessedCountAlone(templates, todos, cards, n - 1);
      PopulatedOwn(templates, todos, cards, n - 1);
      OtherCardsIgnored(templates, todos, Populated(templates, todos, cards, n - 1), n - 1, cards[n - 1]);
    }
  }

  /** A card that already has an original TODO gets nothing. */
  lemma SkipsCardWithOriginals(templates: string -> seq<TemplateItem>, todos: seq<CardTodo>, cards: seq<Card>, j: nat)
    requires j < |cards| && !NoOriginals(todos, j)
    ensures TodosOf(Populated(templates, todos, cards, |cards|), j) == []
  {
    PopulatedFor(templates, todos, cards, |cards|, j);
  }

  /** A card whose area has no checklist gets nothing. */
  lemma SkipsAreaWithoutTemplate(templates: string -> seq<TemplateItem>, todos: seq<CardTodo>, cards: seq<Card>, j: nat)
    requires j < |cards| && templates(cards[j].area) == []
    ensures TodosOf(Populated(templates, todos, cards, |cards|), j) == []
  {
    PopulatedFor(templates, todos, cards, |cards|, j);
  }

  /**
   * Every other card gets one original pending TODO per kept checklist
   * item, with orders 0, 1, 2, … — the rows `create` gives a new card.
   */
  lemma FillsFreshCard(todos: seq<CardTodo>, cards: seq<Card>, j: nat)
    requires j < |cards| && NoOriginals(todos, j) && TemplateFor(cards[j].area) != []
    ensures TodosOf(Populated(TemplateFor, todos, cards, |cards|), j) == CreatedTodos(todos, j, cards[j])
    ensures var kept := KeptFor(TemplateFor, cards[j]);
            var mine := TodosOf(Populated(TemplateFor, todos, cards, |cards|), j);
            |mine| == |kept| && forall k :: 0 <= k < |kept| ==> mine[k] == OriginalTodo(j, kept[k].text, k)
  {
    PopulatedFor(TemplateFor, todos, cards, |cards|, j);
    CreatedTodosOfNewCard(todos, j, cards[j]);
  }

  /** The migration reports the cards that had no original TODO and whose area has a checklist. */
  lemma ProcessedIsFreshCards(todos: seq<CardTodo>, cards: seq<Card>)
    ensures ProcessedCount(TemplateFor, todos, cards, |cards|) == ProcessedAlone(TemplateFor, todos, cards, |cards|)
  {
    ProcessedCountAlone(TemplateFor, todos, cards, |cards|);
  }

  // ------------------------------------------------------------------
  // Running it again
  // ------------------------------------------------------------------

  /** A card without original TODOs gets at least one row from a non-empty kept list. */
  lemma {:induction false} RowsNonEmpty(todos: seq<CardTodo>, card: nat, kept: seq<TemplateItem>)
    requires NoOriginals(todos, card) && |kept| > 0
    ensures |Rows(todos, card, kept)| > 0
  {
    var init := kept[..|kept| - 1];
    if |init| > 0 {
      RowsNonEmpty(todos, card, init);
    } else {
      assert todos + Rows(todos, card, init) == todos;
    }
  }

  /** The first item of every checklist is always kept. */
  ghost predicate FirstItemsKept(templates: string -> seq<TemplateItem>)
  {
    forall area :: templates(area) != [] ==> templates(area)[0].id !in DevelopmentIds
  }

  lemma TemplateForFirstItemsKept()
    ensures FirstItemsKept(TemplateFor)
  {
    forall area | TemplateFor(area) != []
      ensures TemplateFor(area)[0].id !in DevelopmentIds
    {
      BackendNoSizes();
      FrontendNoSizes();
      AutomationNoSizes();
    }
  }

  /** After the forward migration every card has an original TODO or has no checklist. */
  lemma PopulatedCoversCards(templates: string -> seq<TemplateItem>, todos: seq<CardTodo>, cards: seq<Card>, j: nat)
    requires FirstItemsKept(templates) && j < |cards|
    ensures !Processes(templates, todos + Populated(templates, todos, cards, |cards|), j, cards[j])
  {
    var p := Populated(templates, todos, cards, |cards|);
    var after := todos + p;
    var c := cards[j];
    if Processes(templates, todos, j, c) {
      PopulatedFor(templates, todos, cards, |cards|, j);
      var t := templates(c.area);
      KeptMembers(t, ListOrEmpty(c.selectedItems), c.selectedDevelopment, t[0]);
      RowsNonEmpty(todos, j, KeptFor(templates, c));
      CardRowsOwn(templates, todos, j, c);
      var row := TodosOf(p, j)[0];
      TodosOfMembers(p, j, row);
      var k :| 0 <= k < |p| && p[k] == row;
      assert after[|todos| + k] == row;
    } else if !NoOriginals(todos, j) {
      var k :| 0 <= k < |todos| && todos[k].card == j && todos[k].isOriginal;
      assert after[k] == todos[k];
    }
  }

  /** When no card would get rows, nothing is inserted. */
  lemma {:induction false} NothingToDo(templates: string -> seq<TemplateItem>, todos: seq<CardTodo>, cards: seq<Card>, n: nat)
    requires n <= |cards|
    requires forall j :: 0 <= j < |cards| ==> !Processes(templates, todos, j, cards[j])
    ensures Populated(templates, todos, cards, n) == []
  {
    if n > 0 {
      NothingToDo(templates, todos, cards, n - 1);
      assert todos + [] == todos;
    }
  }

  /** Running the forward migration a second time inserts nothing. */
  lemma RerunIsNoOp(todos: seq<CardTodo>, cards: seq<Card>)
    ensures Populated(TemplateFor, todos + Populated(TemplateFor, todos, cards, |cards|), cards, |cards|) == []
  {
    TemplateForFirstItemsKept();
    forall j | 0 <= j < |cards|
      ensures !Processes(TemplateFor, todos + Populated(TemplateFor, todos, cards, |cards|), j, cards[j])
    {
      PopulatedCoversCards(TemplateFor, todos, cards, j);
    }
    NothingToDo(TemplateFor, todos + Populated(TemplateFor, todos, cards, |cards|), cards, |cards|);
  }

  // ------------------------------------------------------------------
  // reverse_populate_card_todos
  // ------------------------------------------------------------------

  /** `reverse_populate_card_todos`: delete every original TODO. */
  method ReversePopulate(table: TodoTable)
    modifies table
    ensures table.todos == NonOriginals(old(table.todos))
  {
    table.todos := NonOriginals(table.todos);
  }

  /**
   * Migrating forward and back leaves exactly the non-original TODOs there
   * were before, in their order; original TODOs that existed before the
   * forward run are deleted as well.
   */
  lemma ForwardThenReverse(templates: string -> seq<TemplateItem>, todos: seq<CardTodo>, cards: seq<Card>)
    ensures NonOriginals(todos + Populated(templates, todos, cards, |cards|)) == NonOriginals(todos)
  {
    var p := Populated(templates, todos, cards, |cards|);
    NonOriginalsConcat(todos, p);
    PopulatedOwn(templates, todos, cards, |cards|);
    NonOriginalsOfOriginals(p);
    assert NonOriginals(todos) + [] == NonOriginals(todos);
  }

  /** The reversed table keeps exactly the TODOs that are not original. */
  lemma {:induction false} NonOriginalsMembers(todos: seq<CardTodo>, t: CardTodo)
    ensures t in NonOriginals(todos) <==> t in todos && !t.isOriginal
  {
    if |todos| > 0 {
      var init := todos[..|todos| - 1];
      NonOriginalsMembers(init, t);
      assert todos == init + [todos[|todos| - 1]];
    }
  }

  /** After the reverse migration no card has an original TODO, so a new forward run processes every card with a checklist. */
  lemma ReverseThenForward(templates: string -> seq<TemplateItem>, todos: seq<CardTodo>, cards: seq<Card>, j: nat)
    requires j < |cards|
    ensures NoOriginals(NonOriginals(todos), j)
    ensures Processes(templates, NonOriginals(todos), j, cards[j]) <==> templates(cards[j].area) != []
  {
    var r := NonOriginals(todos);
    forall k | 0 <= k < |r| && r[k].card == j
      ensures !r[k].isOriginal
    {
      NonOriginalsMembers(todos, r[k]);
    }
  }
}
