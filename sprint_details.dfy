/**
 * frontend/src/pages/SprintDetails.tsx, the logic behind the card form:
 * the time estimator, the required-data check of the stages that need a
 * developer and dates, the suggested delivery date and the change list
 * written to a card's history.
 *
 * A `Date` at local midnight is a day number (module Calendar); "today"
 * is a parameter. The label lookups of cardService (areas, types,
 * priorities, stages) and `formatDateTime` are parameters.
 */
module SprintDetails {
  import opened Common
  import opened Calendar
  import opened DateUtils
  import DateRangePicker

  // ------------------------------------------------------------------
  // The time estimator
  // ------------------------------------------------------------------

  /** An estimate row; custom rows are the same shape without the development flag. */
  datatype TimeItem = TimeItem(id: string, name: string, hours: int, isDevelopment: bool)

  /** The initial `timeEstimates` state. */
  const DefaultEstimates: seq<TimeItem> := [
    TimeItem("ler_script", "Ler Script E Conferir Informações Do Video", 1, false),
    TimeItem("solicitar_usuario", "Solicitar Criação De Usuário / Vm", 1, false),
    TimeItem("testes_iniciais", "Testes Iniciais Na Maquina", 3, false),
    TimeItem("configurar_projeto", "Configurar Projeto Na Vm", 1, false),
    TimeItem("desenvolvimento_basico", "Desenvolvimento Básico", 8, true),
    TimeItem("desenvolvimento_medio", "Desenvolvimento Médio", 24, true),
    TimeItem("desenvolvimento_dificil", "Desenvolvimento Difícil", 40, true)
  ]

  /** `items.find(t => t.id === id)`: the first row with that id. */
  function FindItem(items: seq<TimeItem>, id: string): (r: Option<TimeItem>)
    ensures r.None? <==> forall k :: 0 <= k < |items| ==> items[k].id != id
    ensures r.Some? ==> r.value.id == id && r.value in items
  {
    if |items| == 0 then None
    else if items[0].id == id then Some(items[0])
    else FindItem(items[1..], id)
  }

  /** The row found is the first with that id. */
  lemma {:induction false} FindItemFirst(items: seq<TimeItem>, id: string, k: nat)
    requires k < |items| && items[k].id == id
    requires forall j :: 0 <= j < k ==> items[j].id != id
    ensures FindItem(items, id) == Some(items[k])
  {
    if k > 0 {
      assert items[0].id != id;
      assert forall j :: 0 <= j < k - 1 ==> items[1..][j] == items[j + 1];
      FindItemFirst(items[1..], id, k - 1);
    }
  }

  /** The item names a development level of the estimates. */
  predicate IsDevelopmentId(estimates: seq<TimeItem>, id: string)
  {
    FindItem(estimates, id).Some? && FindItem(estimates, id).value.isDevelopment
  }

  /** The hours an id contributes: the estimate's, else the custom row's, else none. */
  function ItemHours(estimates: seq<TimeItem>, custom: seq<TimeItem>, id: string): int
  {
    match FindItem(estimates, id)
    case Some(t) => t.hours
    case None =>
      match FindItem(custom, id)
      case Some(c) => c.hours
      case None => 0
  }

  /** Sum of `ItemHours` over the selected ids, in order. */
  function SelectedHours(estimates: seq<TimeItem>, custom: seq<TimeItem>, ids: seq<string>): int
  {
    if |ids| == 0 then 0
    else SelectedHours(estimates, custom, ids[..|ids| - 1]) + ItemHours(estimates, custom, ids[|ids| - 1])
  }

  /** The hours of the chosen development level, when it names an estimate. */
  function DevelopmentHours(estimates: seq<TimeItem>, dev: Option<string>): int
  {
    if dev.Some? && dev.value != "" && FindItem(estimates, dev.value).Some? then FindItem(estimates, dev.value).value.hours
    else 0
  }

  function TotalTime(estimates: seq<TimeItem>, custom: seq<TimeItem>, ids: seq<string>, dev: Option<string>): int
  {
    SelectedHours(estimates, custom, ids) + DevelopmentHours(estimates, dev)
  }

  /** `Set.delete`: the selection without `x`, order kept. */
  function Without(s: seq<string>, x: string): (r: seq<string>)
    ensures forall y :: y in r <==> y in s && y != x
    ensures Distinct(s) ==> Distinct(r)
    ensures x !in s ==> r == s
  {
    if |s| == 0 then []
    else
      var p := s[..|s| - 1];
      var rest := Without(p, x);
      assert s == p + [s[|s| - 1]];
      assert Distinct(s) ==> Distinct(p) && s[|s| - 1] !in p;
      if s[|s| - 1] == x then rest else rest + [s[|s| - 1]]
  }

  /** `toggleTimeItem` on the selection of a non-development item. */
  function Toggled(s: seq<string>, x: string): seq<string>
  {
    if x in s then Without(s, x) else s + [x]
  }

  /** Leaving out one present id takes exactly its hours off the sum. */
  lemma {:induction false} SelectedHoursWithout(estimates: seq<TimeItem>, custom: seq<TimeItem>, s: seq<string>, x: string)
    requires Distinct(s)
    ensures SelectedHours(estimates, custom, Without(s, x))
            == SelectedHours(estimates, custom, s) - (if x in s then ItemHours(estimates, custom, x) else 0)
  {
    if |s| > 0 {
      var p := s[..|s| - 1];
      assert s == p + [s[|s| - 1]];
      assert Distinct(p);
      SelectedHoursWithout(estimates, custom, p, x);
      if s[|s| - 1] == x {
        assert x !in p;
      } else {
        var rest := Without(p, x);
        assert (rest + [s[|s| - 1]])[..|rest|] == rest;
      }
    }
  }

  /** Toggling an item twice gives back the same selected set, and the very same order when it was not selected. */
  lemma ToggleTwice(s: seq<string>, x: string)
    requires Distinct(s)
    ensures forall y :: y in Toggled(Toggled(s, x), x) <==> y in s
    ensures x !in s ==> Toggled(Toggled(s, x), x) == s
    ensures Distinct(Toggled(s, x))
  {
    if x !in s {
      var t := s + [x];
      assert t[..|s|] == s;
      assert Without(t, x) == Without(s, x);
    }
  }

  /** Toggling a non-development item adds or removes exactly its hours. */
  lemma ToggleChangesTotal(estimates: seq<TimeItem>, custom: seq<TimeItem>, s: seq<string>, x: string)
    requires Distinct(s)
    ensures SelectedHours(estimates, custom, Toggled(s, x))
            == SelectedHours(estimates, custom, s)
               + (if x in s then -ItemHours(estimates, custom, x) else ItemHours(estimates, custom, x))
  {
    if x in s {
      SelectedHoursWithout(estimates, custom, s, x);
    } else {
      assert (s + [x])[..|s|] == s;
    }
  }

  /** `timeEstimates.map(i => i.id === id ? { ...i, hours } : i)`. */
  function SetHours(items: seq<TimeItem>, id: string, h: int): (r: seq<TimeItem>)
    ensures |r| == |items|
  {
    seq(|items|, k requires 0 <= k < |items| => if items[k].id == id then items[k].(hours := h) else items[k])
  }

  /** After an edit the item's first row carries the new hours and every other id finds what it found before. */
  lemma {:induction false} FindAfterSetHours(items: seq<TimeItem>, id: string, h: int, y: string)
    ensures y != id ==> FindItem(SetHours(items, id, h), y) == FindItem(items, y)
    ensures y == id ==> FindItem(SetHours(items, id, h), y)
                        == (if FindItem(items, y).Some? then Some(FindItem(items, y).value.(hours := h)) else None)
  {
    if |items| > 0 {
      assert SetHours(items, id, h)[1..] == SetHours(items[1..], id, h);
      FindAfterSetHours(items[1..], id, h, y);
    }
  }

  /** The ids and development flags of two estimate lists agree row by row. */
  predicate SameShape(a: seq<TimeItem>, b: seq<TimeItem>)
  {
    |a| == |b| && forall k :: 0 <= k < |a| ==> a[k].id == b[k].id && a[k].isDevelopment == b[k].isDevelopment
  }

  lemma {:induction false} SameShapeDevelopment(a: seq<TimeItem>, b: seq<TimeItem>, id: string)
    requires SameShape(a, b)
    ensures IsDevelopmentId(a, id) <==> IsDevelopmentId(b, id)
    ensures FindItem(a, id).Some? <==> FindItem(b, id).Some?
  {
    if |a| > 0 {
      assert SameShape(a[1..], b[1..]);
      SameShapeDevelopment(a[1..], b[1..], id);
    }
  }

  /** A custom id (`custom_<ms>`) never names a development level of the defaults, which all start with 'd'. */
  lemma CustomIdNotDevelopment(stamp: string)
    ensures !IsDevelopmentId(DefaultEstimates, "custom_" + stamp)
  {
    var id := "custom_" + stamp;
    assert id[0] == 'c';
    forall k | 0 <= k < |DefaultEstimates| && DefaultEstimates[k].isDevelopment
      ensures DefaultEstimates[k].id[0] == 'd'
    {
    }
  }

  /** Removing by id keeps the rows with other ids, in order. */
  function WithoutId(items: seq<TimeItem>, id: string): (r: seq<TimeItem>)
    ensures forall t :: t in r <==> t in items && t.id != id
  {
    if |items| == 0 then []
    else (if items[0].id != id then [items[0]] else []) + WithoutId(items[1..], id)
  }

  lemma {:induction false} WithoutIdOfFresh(items: seq<TimeItem>, t: TimeItem)
    requires forall k :: 0 <= k < |items| ==> items[k].id != t.id
    ensures WithoutId(items + [t], t.id) == items
  {
    if |items| == 0 {
      assert [t][1..] == [];
    } else {
      var s := items + [t];
      assert s[1..] == items[1..] + [t];
      assert forall k :: 0 <= k < |items[1..]| ==> items[1..][k] == items[k + 1];
      WithoutIdOfFresh(items[1..], t);
      WithoutIdCons(s, t.id);
      assert items == [items[0]] + items[1..];
    }
  }

  lemma WithoutIdCons(s: seq<TimeItem>, id: string)
    requires |s| > 0 && s[0].id != id
    ensures WithoutId(s, id) == [s[0]] + WithoutId(s[1..], id)
  {
  }

  /** An appended row is found only for an id no earlier row had. */
  lemma {:induction false} FindAfterAppend(items: seq<TimeItem>, t: TimeItem, y: string)
    ensures FindItem(items, y).Some? ==> FindItem(items + [t], y) == FindItem(items, y)
    ensures FindItem(items, y).None? ==> FindItem(items + [t], y) == (if t.id == y then Some(t) else None)
  {
    if |items| == 0 {
      assert [t][1..] == [];
    } else {
      assert (items + [t])[1..] == items[1..] + [t];
      FindAfterAppend(items[1..], t, y);
    }
  }

  /** Ids whose hours agree in two configurations give the same sum. */
  lemma {:induction false} SelectedHoursCongruent(e1: seq<TimeItem>, c1: seq<TimeItem>, e2: seq<TimeItem>, c2: seq<TimeItem>, s: seq<string>)
    requires forall k :: 0 <= k < |s| ==> ItemHours(e1, c1, s[k]) == ItemHours(e2, c2, s[k])
    ensures SelectedHours(e1, c1, s) == SelectedHours(e2, c2, s)
  {
    if |s| > 0 {
      SelectedHoursCongruent(e1, c1, e2, c2, s[..|s| - 1]);
    }
  }

  /** The text `startEditingTime` puts in the field reads back as the same hours. */
  lemma EditTextReadsBack(h: int)
    requires h > 0
    ensures JsIntString(h) != "" && JsParseInt(JsIntString(h)) == Some(h)
  {
    NatToStringValue(h);
    ParseIntOfDigits(NatToString(h));
  }

  /** No selected id is a development level. */
  predicate NoDevelopment(estimates: seq<TimeItem>, ids: seq<string>)
  {
    forall y :: y in ids ==> !IsDevelopmentId(estimates, y)
  }

  /**
   * The estimator's invariant on its values: the selection is a set with
   * no development level in it, the chosen level is one, and the estimates
   * keep the ids and flags of the defaults.
   */
  predicate EstimatorInvariant(estimates: seq<TimeItem>, selected: seq<string>, dev: Option<string>)
  {
    Distinct(selected)
    && SameShape(estimates, DefaultEstimates)
    && NoDevelopment(estimates, selected)
    && (dev.Some? ==> IsDevelopmentId(estimates, dev.value))
  }

  /** An accepted hours edit keeps the invariant. */
  lemma InvariantAfterSetHours(estimates: seq<TimeItem>, selected: seq<string>, dev: Option<string>, id: string, h: int)
    requires EstimatorInvariant(estimates, selected, dev)
    ensures EstimatorInvariant(SetHours(estimates, id, h), selected, dev)
  {
    var e := SetHours(estimates, id, h);
    assert SameShape(e, estimates);
    forall y | y in selected
      ensures !IsDevelopmentId(e, y)
    {
      SameShapeDevelopment(e, estimates, y);
    }
    if dev.Some? {
      SameShapeDevelopment(e, estimates, dev.value);
    }
  }

  /** Selecting a fresh custom id keeps the invariant. */
  lemma InvariantAfterAddCustom(estimates: seq<TimeItem>, selected: seq<string>, dev: Option<string>, stamp: string)
    requires EstimatorInvariant(estimates, selected, dev)
    ensures EstimatorInvariant(estimates, AppendNew(selected, "custom_" + stamp), dev)
  {
    var id := "custom_" + stamp;
    CustomIdNotDevelopment(stamp);
    SameShapeDevelopment(estimates, DefaultEstimates, id);
    SelectNonDevelopment(estimates, selected, dev, id);
  }

  /** Selecting an id that is no development level keeps the invariant. */
  lemma SelectNonDevelopment(estimates: seq<TimeItem>, selected: seq<string>, dev: Option<string>, id: string)
    requires EstimatorInvariant(estimates, selected, dev) && !IsDevelopmentId(estimates, id)
    ensures EstimatorInvariant(estimates, AppendNew(selected, id), dev)
  {
    if id !in selected {
      DistinctSnoc(selected, id);
    }
  }

  /** Toggling keeps the invariant. */
  lemma InvariantAfterToggle(estimates: seq<TimeItem>, selected: seq<string>, dev: Option<string>, id: string)
    requires EstimatorInvariant(estimates, selected, dev)
    ensures !IsDevelopmentId(estimates, id) ==> EstimatorInvariant(estimates, Toggled(selected, id), dev)
    ensures IsDevelopmentId(estimates, id) ==>
              EstimatorInvariant(estimates, selected, Some(id)) && EstimatorInvariant(estimates, selected, None)
  {
    ToggleTwice(selected, id);
  }

  /** Removing an id from the selection keeps the invariant. */
  lemma InvariantAfterRemove(estimates: seq<TimeItem>, selected: seq<string>, dev: Option<string>, id: string)
    requires EstimatorInvariant(estimates, selected, dev)
    ensures EstimatorInvariant(estimates, Without(selected, id), dev)
  {
  }

  /** The component state of the estimator dialog. */
  class TimeEstimator {
    var timeEstimates: seq<TimeItem>
    var customTimeItems: seq<TimeItem>
    var selectedTimeItems: seq<string>
    var selectedDevelopment: Option<string>
    var customTimeLabel: string
    var customTimeHours: string
    var editingTimeItemId: Option<string>
    var editTimeValue: string

    /**
     * The selection is a set; it never holds a development level, of
     * which at most one is chosen, in `selectedDevelopment`; edits keep
     * the ids and flags of the default estimates.
     */
    ghost predicate Valid()
      reads this
    {
      EstimatorInvariant(timeEstimates, selectedTimeItems, selectedDevelopment)
    }

    constructor()
      ensures Valid()
      ensures timeEstimates == DefaultEstimates && customTimeItems == [] && selectedTimeItems == []
      ensures selectedDevelopment.None? && editingTimeItemId.None?
      ensures customTimeLabel == "" && customTimeHours == "" && editTimeValue == ""
    {
      timeEstimates := DefaultEstimates;
      customTimeItems := [];
      selectedTimeItems := [];
      selectedDevelopment := None;
      customTimeLabel := "";
      customTimeHours := "";
      editingTimeItemId := None;
      editTimeValue := "";
    }

    /** `calculateTotalTime`: the selected items' hours plus the development level's. */
    method CalculateTotalTime() returns (total: int)
      ensures total == TotalTime(timeEstimates, customTimeItems, selectedTimeItems, selectedDevelopment)
    {
      total := 0;
      var i := 0;
      while i < |selectedTimeItems|
        invariant 0 <= i <= |selectedTimeItems|
        invariant total == SelectedHours(timeEstimates, customTimeItems, selectedTimeItems[..i])
      {
        var itemId := selectedTimeItems[i];
        assert selectedTimeItems[..i + 1][..i] == selectedTimeItems[..i];
        var item := FindItem(timeEstimates, itemId);
        if item.Some? {
          total := total + item.value.hours;
        } else {
          var customItem := FindItem(customTimeItems, itemId);
          if customItem.Some? {
            total := total + customItem.value.hours;
          }
        }
        i := i + 1;
      }
      assert selectedTimeItems[..i] == selectedTimeItems;
      if selectedDevelopment.Some? && selectedDevelopment.value != "" {
        var devItem := FindItem(timeEstimates, selectedDevelopment.value);
        if devItem.Some? {
          total := total + devItem.value.hours;
        }
      }
    }

    /**
     * `toggleTimeItem`: a development level becomes the chosen one, or is
     * unchosen when it already was; any other id enters or leaves the
     * selection.
     */
    method ToggleTimeItem(itemId: string)
      requires Valid()
      modifies this
      ensures Valid()
      ensures IsDevelopmentId(timeEstimates, itemId) ==>
                selectedTimeItems == old(selectedTimeItems)
                && selectedDevelopment == (if old(selectedDevelopment) == Some(itemId) then None else Some(itemId))
      ensures !IsDevelopmentId(timeEstimates, itemId) ==>
                selectedTimeItems == Toggled(old(selectedTimeItems), itemId)
                && selectedDevelopment == old(selectedDevelopment)
      ensures timeEstimates == old(timeEstimates) && customTimeItems == old(customTimeItems)
      ensures customTimeLabel == old(customTimeLabel) && customTimeHours == old(customTimeHours)
      ensures editingTimeItemId == old(editingTimeItemId) && editTimeValue == old(editTimeValue)
    {
      InvariantAfterToggle(timeEstimates, selectedTimeItems, selectedDevelopment, itemId);
      var item := FindItem(timeEstimates, itemId);
      if item.Some? && item.value.isDevelopment {
        if selectedDevelopment == Some(itemId) {
          selectedDevelopment := None;
        } else {
          selectedDevelopment := Some(itemId);
        }
        return;
      }
      selectedTimeItems := Toggled(selectedTimeItems, itemId);
    }

    /** `startEditingTime`: the field shows the current hours. */
    method StartEditingTime(itemId: string, currentHours: int)
      modifies this
      ensures editingTimeItemId == Some(itemId) && editTimeValue == JsIntString(currentHours)
      ensures timeEstimates == old(timeEstimates) && customTimeItems == old(customTimeItems)
      ensures selectedTimeItems == old(selectedTimeItems) && selectedDevelopment == old(selectedDevelopment)
      ensures customTimeLabel == old(customTimeLabel) && customTimeHours == old(customTimeHours)
    {
      editingTimeItemId := Some(itemId);
      editTimeValue := JsIntString(currentHours);
    }

    /**
     * `saveEditedTime`: a non-empty text whose `parseInt` is positive sets
     * the hours of the estimate with that id, or else of the custom rows
     * with it, and closes the editor; any other text changes nothing.
     */
    method SaveEditedTime(itemId: string)
      requires Valid()
      modifies this
      ensures Valid()
      ensures var h := JsParseInt(old(editTimeValue));
              if old(editTimeValue) != "" && h.Some? && h.value > 0 then
                (if FindItem(old(timeEstimates), itemId).Some?
                 then timeEstimates == SetHours(old(timeEstimates), itemId, h.value) && customTimeItems == old(customTimeItems)
                 else timeEstimates == old(timeEstimates) && customTimeItems == SetHours(old(customTimeItems), itemId, h.value))
                && editingTimeItemId.None? && editTimeValue == ""
              else
                timeEstimates == old(timeEstimates) && customTimeItems == old(customTimeItems)
                && editingTimeItemId == old(editingTimeItemId) && editTimeValue == old(editTimeValue)
      ensures selectedTimeItems == old(selectedTimeItems) && selectedDevelopment == old(selectedDevelopment)
      ensures customTimeLabel == old(customTimeLabel) && customTimeHours == old(customTimeHours)
    {
      if editTimeValue != "" {
        var hoursNum := JsParseInt(editTimeValue);
        if hoursNum.Some? && hoursNum.value > 0 {
          var item := FindItem(timeEstimates, itemId);
          if item.Some? {
            InvariantAfterSetHours(timeEstimates, selectedTimeItems, selectedDevelopment, itemId, hoursNum.value);
            timeEstimates := SetHours(timeEstimates, itemId, hoursNum.value);
          } else {
            customTimeItems := SetHours(customTimeItems, itemId, hoursNum.value);
          }
          editingTimeItemId := None;
          editTimeValue := "";
        }
      }
    }

    /** `cancelEditingTime`. */
    method CancelEditingTime()
      modifies this
      ensures editingTimeItemId.None? && editTimeValue == ""
      ensures timeEstimates == old(timeEstimates) && customTimeItems == old(customTimeItems)
      ensures selectedTimeItems == old(selectedTimeItems) && selectedDevelopment == old(selectedDevelopment)
      ensures customTimeLabel == old(customTimeLabel) && customTimeHours == old(customTimeHours)
    {
      editingTimeItemId := None;
      editTimeValue := "";
    }

    /**
     * `addCustomTime`: with a label and an hours text whose `parseInt` is
     * positive, a row `custom_<now>` is appended, selected, and the two
     * fields are cleared; otherwise nothing changes.
     */
    method AddCustomTime(now: int)
      requires Valid()
      modifies this
      ensures Valid()
      ensures var h := JsParseInt(old(customTimeHours));
              var id := "custom_" + JsIntString(now);
              if old(customTimeLabel) != "" && old(customTimeHours) != "" && h.Some? && h.value > 0 then
                customTimeItems == old(customTimeItems) + [TimeItem(id, old(customTimeLabel), h.value, false)]
                && selectedTimeItems == AppendNew(old(selectedTimeItems), id)
                && customTimeLabel == "" && customTimeHours == ""
              else
                customTimeItems == old(customTimeItems) && selectedTimeItems == old(selectedTimeItems)
                && customTimeLabel == old(customTimeLabel) && customTimeHours == old(customTimeHours)
      ensures timeEstimates == old(timeEstimates) && selectedDevelopment == old(selectedDevelopment)
      ensures editingTimeItemId == old(editingTimeItemId) && editTimeValue == old(editTimeValue)
    {
      if customTimeLabel != "" && customTimeHours != "" {
        var hoursNum := JsParseInt(customTimeHours);
        if hoursNum.Some? && hoursNum.value > 0 {
          var stamp := JsIntString(now);
          var customId := "custom_" + stamp;
          InvariantAfterAddCustom(timeEstimates, selectedTimeItems, selectedDevelopment, stamp);
          customTimeItems := customTimeItems + [TimeItem(customId, customTimeLabel, hoursNum.value, false)];
          selectedTimeItems := AppendNew(selectedTimeItems, customId);
          customTimeLabel := "";
          customTimeHours := "";
        }
      }
    }

    /** `removeCustomTime`: the rows with that id leave the list and the id leaves the selection. */
    method RemoveCustomTime(itemId: string)
      requires Valid()
      modifies this
      ensures Valid()
      ensures customTimeItems == WithoutId(old(customTimeItems), itemId)
      ensures selectedTimeItems == Without(old(selectedTimeItems), itemId)
      ensures timeEstimates == old(timeEstimates) && selectedDevelopment == old(selectedDevelopment)
      ensures customTimeLabel == old(customTimeLabel) && customTimeHours == old(customTimeHours)
      ensures editingTimeItemId == old(editingTimeItemId) && editTimeValue == old(editTimeValue)
    {
      InvariantAfterRemove(timeEstimates, selectedTimeItems, selectedDevelopment, itemId);
      customTimeItems := WithoutId(customTimeItems, itemId);
      selectedTimeItems := Without(selectedTimeItems, itemId);
    }
  }

  /** An accepted edit sets the hours that id contributes to the total. */
  lemma EditSetsHours(estimates: seq<TimeItem>, custom: seq<TimeItem>, id: string, h: int)
    ensures FindItem(estimates, id).Some? ==> ItemHours(SetHours(estimates, id, h), custom, id) == h
    ensures FindItem(estimates, id).None? && FindItem(custom, id).Some? ==>
              ItemHours(estimates, SetHours(custom, id, h), id) == h
  {
    FindAfterSetHours(estimates, id, h, id);
    FindAfterSetHours(custom, id, h, id);
  }

  /** Adding a custom row under a fresh id raises the selected total by its hours. */
  lemma AddCustomRaisesTotal(estimates: seq<TimeItem>, custom: seq<TimeItem>, s: seq<string>, t: TimeItem)
    requires FindItem(estimates, t.id).None? && FindItem(custom, t.id).None? && t.id !in s
    ensures SelectedHours(estimates, custom + [t], AppendNew(s, t.id)) == SelectedHours(estimates, custom, s) + t.hours
  {
    forall k | 0 <= k < |s|
      ensures ItemHours(estimates, custom + [t], s[k]) == ItemHours(estimates, custom, s[k])
    {
      FindAfterAppend(custom, t, s[k]);
    }
    SelectedHoursCongruent(estimates, custom + [t], estimates, custom, s);
    FindAfterAppend(custom, t, t.id);
    assert (s + [t.id])[..|s|] == s;
  }

  /** Removing a custom row under a fresh id undoes adding it: the list and the selection are as before. */
  lemma RemoveUndoesAdd(custom: seq<TimeItem>, s: seq<string>, t: TimeItem)
    requires FindItem(custom, t.id).None? && t.id !in s
    ensures WithoutId(custom + [t], t.id) == custom
    ensures Without(AppendNew(s, t.id), t.id) == s
  {
    WithoutIdOfFresh(custom, t);
    var u := s + [t.id];
    assert u[..|s|] == s;
  }

  // ------------------------------------------------------------------
  // Required data
  // ------------------------------------------------------------------

  /** The three form fields the check reads; an empty string is an unset field. */
  datatype CardForm = CardForm(responsavel: string, dataInicio: string, dataFim: string)

  const MissingResponsavel := "desenvolvedor atribuído"
  const MissingInicio := "data de início"
  const MissingFim := "data de entrega"

  /** The position of a missing-field label in the order the check reports them. */
  function LabelOrder(text: string): int
  {
    if text == MissingResponsavel then 0 else if text == MissingInicio then 1 else 2
  }

  /** The missing-field list of `validateCardRequiredData`. */
  function MissingRequired(card: CardForm): (missing: seq<string>)
    ensures MissingResponsavel in missing <==> card.responsavel == ""
    ensures MissingInicio in missing <==> card.dataInicio == ""
    ensures MissingFim in missing <==> card.dataFim == ""
    ensures forall x :: x in missing ==> x == MissingResponsavel || x == MissingInicio || x == MissingFim
    ensures forall i, j :: 0 <= i < j < |missing| ==> LabelOrder(missing[i]) < LabelOrder(missing[j])
  {
    (if card.responsavel == "" then [MissingResponsavel] else [])
    + (if card.dataInicio == "" then [MissingInicio] else [])
    + (if card.dataFim == "" then [MissingFim] else [])
  }

  datatype RequiredCheck = RequiredCheck(valid: bool, missing: seq<string>)

  /** `validateCardRequiredData`: valid exactly when the developer and both dates are filled in. */
  function ValidateCardRequiredData(card: CardForm): (r: RequiredCheck)
    ensures r.valid <==> r.missing == []
    ensures r.valid <==> card.responsavel != "" && card.dataInicio != "" && card.dataFim != ""
    ensures r.missing == MissingRequired(card)
  {
    var missing := MissingRequired(card);
    RequiredCheck(|missing| == 0, missing)
  }

  const DataStages: seq<string> := ["em_desenvolvimento", "parado_pendencias", "em_homologacao", "finalizado"]

  /** `requiresRequiredData`: every stage but the backlog and the dropped one. */
  function RequiresRequiredData(stageId: string): (r: bool)
    ensures forall s: CardStatus :: stageId == StatusCode(s) ==> (r <==> !(s.ADesenvolver? || s.Inviabilizado?))
  {
    stageId in DataStages
  }

  /** A stage outside the six statuses never asks for data. */
  lemma UnknownStageNeedsNoData(stageId: string)
    requires forall s: CardStatus :: stageId != StatusCode(s)
    ensures !RequiresRequiredData(stageId)
  {
    assert stageId != StatusCode(EmDesenvolvimento) && stageId != StatusCode(ParadoPendencias);
    assert stageId != StatusCode(EmHomologacao) && stageId != StatusCode(Finalizado);
  }

  // ------------------------------------------------------------------
  // The suggested delivery date
  // ------------------------------------------------------------------

  /** Days left in a weekend before the Monday: 2 on Saturday, 1 on Sunday. */
  function WeekendGap(d: int): nat
  {
    if JsDay(d) == 6 then 2 else if JsDay(d) == 0 then 1 else 0
  }

  /** The `k`-th Monday–Friday day counting from `from` itself. */
  function NthWeekday(from: int, k: int): int
    decreases Max(k, 0), WeekendGap(from)
  {
    if IsWeekend(from) then
      assert WeekendGap(from + 1) < WeekendGap(from) by { JsDayNext(from); }
      NthWeekday(from + 1, k)
    else if k <= 1 then from
    else NthWeekday(from + 1, k - 1)
  }

  /** Monday–Friday days in `[a, b)`. */
  function WeekdaysIn(a: int, b: int): nat
    decreases b - a
  {
    if a >= b then 0 else (if IsWeekend(a) then 0 else 1) + WeekdaysIn(a + 1, b)
  }

  /** The `k`-th weekday is a weekday, not before `from`, and exactly `k` weekdays lie from `from` up to it. */
  lemma {:induction false} NthWeekdayMeaning(from: int, k: int)
    requires k >= 1
    ensures var d := NthWeekday(from, k);
            !IsWeekend(d) && d >= from && WeekdaysIn(from, d + 1) == k
    decreases k, WeekendGap(from)
  {
    if IsWeekend(from) {
      JsDayNext(from);
      NthWeekdayMeaning(from + 1, k);
    } else if k > 1 {
      NthWeekdayMeaning(from + 1, k - 1);
    }
  }

  /** The day the estimate points at: `ceil(hours / 8)` weekdays from tomorrow, at least one. */
  function SuggestedDay(hours: int, today: int): int
  {
    NthWeekday(today + 1, Max(1, CeilDiv(hours, 8)))
  }

  /**
   * `calculateSuggestedEndDate`: '' for no hours; otherwise the date of
   * the `ceil(hours / 8)`-th weekday from tomorrow at 18:00.
   */
  method CalculateSuggestedEndDate(hours: int, today: int) returns (r: string)
    ensures hours == 0 ==> r == ""
    ensures hours != 0 ==> r == DateRangePicker.FormatToIso(DateRangePicker.DateAt(SuggestedDay(hours, today)), DateRangePicker.Time(18, 0))
  {
    if hours == 0 {
      return "";
    }
    var diasUteis := CeilDiv(hours, 8);
    var target := Max(1, diasUteis);
    var diasAdicionados := 0;
    var dataFinal := today + 1;
    while IsWeekend(dataFinal)
      invariant NthWeekday(dataFinal, target) == SuggestedDay(hours, today)
      decreases WeekendGap(dataFinal)
    {
      JsDayNext(dataFinal);
      dataFinal := dataFinal + 1;
    }
    while diasAdicionados < diasUteis
      invariant 0 <= diasAdicionados <= Max(diasUteis, 0)
      invariant diasAdicionados < diasUteis ==> NthWeekday(dataFinal, diasUteis - diasAdicionados) == SuggestedDay(hours, today)
      invariant diasAdicionados == diasUteis ==> dataFinal == SuggestedDay(hours, today)
      invariant diasUteis <= 0 ==> dataFinal == SuggestedDay(hours, today)
      decreases diasUteis - diasAdicionados, WeekendGap(dataFinal)
    {
      if !IsWeekend(dataFinal) {
        diasAdicionados := diasAdicionados + 1;
      }
      if diasAdicionados < diasUteis {
        JsDayNext(dataFinal);
        dataFinal := dataFinal + 1;
      }
    }
    r := DateRangePicker.FormatToIso(DateRangePicker.DateAt(dataFinal), DateRangePicker.Time(18, 0));
  }

  /**
   * The suggested day is a weekday after today with exactly
   * `max(1, ceil(hours / 8))` weekdays from tomorrow up to it.
   */
  lemma SuggestedDayMeaning(hours: int, today: int)
    ensures var d := SuggestedDay(hours, today);
            !IsWeekend(d) && d > today && WeekdaysIn(today + 1, d + 1) == Max(1, CeilDiv(hours, 8))
  {
    NthWeekdayMeaning(today + 1, Max(1, CeilDiv(hours, 8)));
  }

  /** The date-time picker reads the suggested text back as the suggested day. */
  lemma SuggestedTextReadsBack(hours: int, today: int)
    requires CivilFromDays(SuggestedDay(hours, today)).year >= 100
    ensures DateRangePicker.ParseIso(DateRangePicker.FormatToIso(DateRangePicker.DateAt(SuggestedDay(hours, today)), DateRangePicker.Time(18, 0)))
            == Some(DateRangePicker.DateAt(SuggestedDay(hours, today)))
  {
    DateRangePicker.ParseFormatted(SuggestedDay(hours, today), DateRangePicker.Time(18, 0));
  }

  // ------------------------------------------------------------------
  // detectCardChanges
  // ------------------------------------------------------------------

  /**
   * The fields of a card the change list compares; an empty string is an
   * empty or missing value, and `responsavelName` is the stored card's
   * `responsavel_name`.
   */
  datatype CardFields = CardFields(
    nome: string, descricao: string, scriptUrl: string,
    area: string, tipo: string, prioridade: string, status: string,
    responsavel: Option<nat>, responsavelName: string,
    dataInicio: string, dataFim: string)

  /**
   * The lookups the change list renders with: the label tables of areas,
   * types, priorities and stages, the users' first names and
   * `formatDateTime`.
   */
  datatype Labels = Labels(
    areas: string -> Option<string>, types: string -> Option<string>,
    priorities: string -> Option<string>, stages: string -> Option<string>,
    firstName: nat -> Option<string>, formatDateTime: string -> string)

  datatype Field = Nome | Descricao | ScriptUrl | Area | Tipo | Prioridade | Status | Responsavel | DataInicio | DataFim

  function FieldIndex(f: Field): nat
  {
    match f
    case Nome => 0 case Descricao => 1 case ScriptUrl => 2 case Area => 3 case Tipo => 4
    case Prioridade => 5 case Status => 6 case Responsavel => 7 case DataInicio => 8 case DataFim => 9
  }

  function FieldTitle(f: Field): string
  {
    match f
    case Nome => "Nome" case Descricao => "Descrição" case ScriptUrl => "Link do script"
    case Area => "Área" case Tipo => "Tipo" case Prioridade => "Prioridade" case Status => "Status"
    case Responsavel => "Responsável" case DataInicio => "Data de início" case DataFim => "Data de entrega"
  }

  /** One entry of the list, before it is rendered. */
  datatype Change = Change(field: Field, before: string, after: string)

  /** `Campo: "antes" → "depois"`. */
  function Render(c: Change): string
  {
    FieldTitle(c.field) + ": \"" + c.before + "\" → \"" + c.after + "\""
  }

  /** `newData.responsavel || null`: a falsy id is no developer. */
  function NewResponsavel(n: CardFields): Option<nat>
  {
    if n.responsavel == Some(0) then None else n.responsavel
  }

  /** Whether a field differs between the stored card and the form, after normalising empty values. */
  predicate Differs(f: Field, o: CardFields, n: CardFields, excludeStatus: bool)
  {
    match f
    case Nome => o.nome != n.nome
    case Descricao => o.descricao != n.descricao
    case ScriptUrl => o.scriptUrl != n.scriptUrl
    case Area => o.area != n.area
    case Tipo => o.tipo != n.tipo
    case Prioridade => o.prioridade != n.prioridade
    case Status => !excludeStatus && o.status != n.status
    case Responsavel => o.responsavel != NewResponsavel(n)
    case DataInicio => o.dataInicio != n.dataInicio
    case DataFim => o.dataFim != n.dataFim
  }

  /** A label from a lookup table, falling back to the raw value (`?.label || value`). */
  function LabelOr(lookup: string -> Option<string>, v: string): string
  {
    if lookup(v).Some? && lookup(v).value != "" then lookup(v).value else v
  }

  function OrVazio(s: string): string
  {
    if s == "" then "Vazio" else s
  }

  function DateText(formatDateTime: string -> string, s: string): string
  {
    if s == "" then "Não definida" else formatDateTime(s)
  }

  /** The developer's name on the form side: the first name of the chosen user, if any. */
  function NewResponsavelName(n: CardFields, firstName: nat -> Option<string>): string
  {
    var r := NewResponsavel(n);
    if r.Some? && firstName(r.value).Some? && firstName(r.value).value != "" then firstName(r.value).value
    else "Não atribuído"
  }

  /** The rendered before/after pair of one field. */
  function ChangeOf(f: Field, o: CardFields, n: CardFields, L: Labels): (c: Change)
    ensures c.field == f
  {
    match f
    case Nome => Change(f, o.nome, n.nome)
    case Descricao => Change(f, OrVazio(o.descricao), OrVazio(n.descricao))
    case ScriptUrl => Change(f, OrVazio(o.scriptUrl), OrVazio(n.scriptUrl))
    case Area => Change(f, LabelOr(L.areas, o.area), LabelOr(L.areas, n.area))
    case Tipo => Change(f, LabelOr(L.types, o.tipo), LabelOr(L.types, n.tipo))
    case Prioridade => Change(f, LabelOr(L.priorities, o.prioridade), LabelOr(L.priorities, n.prioridade))
    case Status => Change(f, LabelOr(L.stages, o.status), LabelOr(L.stages, n.status))
    case Responsavel =>
      Change(f, if o.responsavelName == "" then "Não atribuído" else o.responsavelName, NewResponsavelName(n, L.firstName))
    case DataInicio => Change(f, DateText(L.formatDateTime, o.dataInicio), DateText(L.formatDateTime, n.dataInicio))
    case DataFim => Change(f, DateText(L.formatDateTime, o.dataFim), DateText(L.formatDateTime, n.dataFim))
  }

  const AllFields: seq<Field> := [Nome, Descricao, ScriptUrl, Area, Tipo, Prioridade, Status, Responsavel, DataInicio, DataFim]

  /** The entries for the fields of `fields` that differ, in that order. */
  function ChangesOver(fields: seq<Field>, o: CardFields, n: CardFields, excludeStatus: bool, L: Labels): (r: seq<Change>)
    ensures forall c :: c in r ==> c.field in fields && Differs(c.field, o, n, excludeStatus)
    ensures forall f :: f in fields && Differs(f, o, n, excludeStatus) ==> ChangeOf(f, o, n, L) in r
  {
    if |fields| == 0 then []
    else
      var rest := ChangesOver(fields[1..], o, n, excludeStatus, L);
      if Differs(fields[0], o, n, excludeStatus) then [ChangeOf(fields[0], o, n, L)] + rest else rest
  }

  /** `detectCardChanges(oldCard, newData, excludeStatus)` before rendering. */
  function CardChanges(o: CardFields, n: CardFields, excludeStatus: bool, L: Labels): seq<Change>
  {
    ChangesOver(AllFields, o, n, excludeStatus, L)
  }

  /** `detectCardChanges`: the rendered list, one string per entry. */
  function DetectCardChanges(o: CardFields, n: CardFields, excludeStatus: bool, L: Labels): (r: seq<string>)
    ensures |r| == |CardChanges(o, n, excludeStatus, L)|
    ensures forall k :: 0 <= k < |r| ==> r[k] == Render(CardChanges(o, n, excludeStatus, L)[k])
  {
    var cs := CardChanges(o, n, excludeStatus, L);
    seq(|cs|, k requires 0 <= k < |cs| => Render(cs[k]))
  }

  /** Fields in strictly increasing order appear at most once, in the card's order. */
  predicate FieldsAscending(cs: seq<Change>)
  {
    forall i, j :: 0 <= i < j < |cs| ==> FieldIndex(cs[i].field) < FieldIndex(cs[j].field)
  }

  lemma {:induction false} ChangesOverAscending(fields: seq<Field>, o: CardFields, n: CardFields, excludeStatus: bool, L: Labels)
    requires forall i, j :: 0 <= i < j < |fields| ==> FieldIndex(fields[i]) < FieldIndex(fields[j])
    ensures FieldsAscending(ChangesOver(fields, o, n, excludeStatus, L))
  {
    if |fields| > 0 {
      ChangesOverAscending(fields[1..], o, n, excludeStatus, L);
      var rest := ChangesOver(fields[1..], o, n, excludeStatus, L);
      forall c | c in rest
        ensures FieldIndex(fields[0]) < FieldIndex(c.field)
      {
        var k :| 0 <= k < |fields[1..]| && fields[1..][k] == c.field;
        assert fields[k + 1] == c.field;
      }
      if Differs(fields[0], o, n, excludeStatus) {
        AscendingCons(ChangeOf(fields[0], o, n, L), rest);
      }
    }
  }

  lemma AscendingCons(c: Change, rest: seq<Change>)
    requires FieldsAscending(rest)
    requires forall d :: d in rest ==> FieldIndex(c.field) < FieldIndex(d.field)
    ensures FieldsAscending([c] + rest)
  {
    var r := [c] + rest;
    forall i, j | 0 <= i < j < |r|
      ensures FieldIndex(r[i].field) < FieldIndex(r[j].field)
    {
      assert r[j] == rest[j - 1];
      if i > 0 {
        assert r[i] == rest[i - 1];
      } else {
        assert rest[j - 1] in rest;
      }
    }
  }

  /** Every field is compared. */
  lemma AllFieldsComplete(f: Field)
    ensures f in AllFields
  {
    assert AllFields[FieldIndex(f)] == f;
  }

  /**
   * The change list has one entry for each field that differs, rendered
   * from the two values, and none for the others, in the form's order;
   * status has none when the change is a move.
   */
  lemma CardChangesMeaning(o: CardFields, n: CardFields, excludeStatus: bool, L: Labels)
    ensures FieldsAscending(CardChanges(o, n, excludeStatus, L))
    ensures forall f :: Differs(f, o, n, excludeStatus) ==> ChangeOf(f, o, n, L) in CardChanges(o, n, excludeStatus, L)
    ensures forall c :: c in CardChanges(o, n, excludeStatus, L) ==> Differs(c.field, o, n, excludeStatus)
    ensures excludeStatus ==> forall c :: c in CardChanges(o, n, excludeStatus, L) ==> c.field != Status
  {
    AllFieldsAscending();
    forall f | true
      ensures f in AllFields
    {
      AllFieldsComplete(f);
    }
    ChangesOverMeaning(AllFields, o, n, excludeStatus, L);
  }

  lemma AllFieldsAscending()
    ensures forall i, j :: 0 <= i < j < |AllFields| ==> FieldIndex(AllFields[i]) < FieldIndex(AllFields[j])
  {
    forall i | 0 <= i < |AllFields|
      ensures FieldIndex(AllFields[i]) == i
    {
    }
  }

  /** The same facts for any complete list of fields in ascending order. */
  lemma ChangesOverMeaning(fields: seq<Field>, o: CardFields, n: CardFields, excludeStatus: bool, L: Labels)
    requires forall i, j :: 0 <= i < j < |fields| ==> FieldIndex(fields[i]) < FieldIndex(fields[j])
    requires forall f: Field :: f in fields
    ensures FieldsAscending(ChangesOver(fields, o, n, excludeStatus, L))
    ensures forall f :: Differs(f, o, n, excludeStatus) ==> ChangeOf(f, o, n, L) in ChangesOver(fields, o, n, excludeStatus, L)
    ensures forall c :: c in ChangesOver(fields, o, n, excludeStatus, L) ==> Differs(c.field, o, n, excludeStatus)
    ensures excludeStatus ==> forall c :: c in ChangesOver(fields, o, n, excludeStatus, L) ==> c.field != Status
  {
    ChangesOverAscending(fields, o, n, excludeStatus, L);
  }

  /** The list is empty exactly when no field differs. */
  lemma NoChangesIffSame(o: CardFields, n: CardFields, excludeStatus: bool, L: Labels)
    ensures DetectCardChanges(o, n, excludeStatus, L) == [] <==> forall f :: !Differs(f, o, n, excludeStatus)
  {
    CardChangesMeaning(o, n, excludeStatus, L);
    var cs := CardChanges(o, n, excludeStatus, L);
    if cs != [] {
      assert cs[0] in cs;
    }
  }
}
