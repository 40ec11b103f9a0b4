/**
 * The tracker page: its state (the selected date, the day logs, the drag in
 * progress, the drop waiting for a portion, the mobile view and the touch
 * coordinates of a swipe) and the handlers that change it. The day logs
 * are replaced by new maps built from the old ones, as the page does with
 * object spreads before committing them.
 */
module Tracker {
  import opened Wrappers
  import opened Logs

  /** The mobile view: the food sources or the meal slots. */
  datatype ViewMode = Foods | Meals

  /** A dropped food waiting for the user to pick a portion. */
  datatype PendingDrop = PendingDrop(categoryId: string, mealId: string)

  /** `MEAL_SLOTS`: the drop targets, one per meal. */
  const MealSlots: seq<string> := ["Breakfast", "Snack 1", "Lunch", "Snack 2", "Dinner"]

  /** `CATEGORIES`: the draggable foods, id and label. */
  const Categories: seq<(string, string)> := [
    ("Verdure", "Verdure Foglia"), ("Frutta", "Frutta Fresca"), ("Ortaggi", "Ortaggi/Radici"),
    ("Aromi", "Erbe/Spezie"), ("CerealiInt", "Cereali Integrali"), ("Pseudo", "Pseudocereali"),
    ("Tuberi", "Patate/Tuberi"), ("Oli", "Oli Vegetali (EVO)"), ("Noci", "Frutta Guscio"),
    ("Legumi", "Legumi"), ("Pesce", "Pesce"), ("CarneB", "Carne Bianche"), ("Uova", "Uova"),
    ("Latticini", "Latticini"), ("VegProt", "Alt. Vegetali"), ("CarneR", "Carni Rosse"),
    ("GrassiA", "Grassi Animali"), ("Salse", "Salse Grasse"), ("Insaccati", "Insaccati"),
    ("Dolci", "Dolci"), ("Snack", "Snack Salati"), ("Bevande", "Bev. Zuccherate"),
    ("CerealiRaf", "Cereali Raffinati")
  ]

  /** `PORTIONS`: the portions offered after a drop, id and label. */
  const Portions: seq<(string, string)> := [
    ("teaspoon", "Cucchiaino"), ("spoon", "Cucchiaio"), ("cup", "Tazzina"), ("bowl", "Ciotola"), ("plate", "Piatto")
  ]

  /** `minSwipeDistance`: how far, in pixels, a touch must travel to count as a swipe. */
  const MinSwipeDistance: real := 50.0

  /** Narrower windows, in pixels, switch to the meals view when a drag starts. */
  const MobileWidth: int := 768

  // Storage migration

  /** One day's meals with every item normalized. */
  function MigrateDay(day: map<string, seq<Item>>): (migrated: map<string, seq<Item>>)
  {
    map m | m in day :: NormalizeAll(day[m])
  }

  /** The day logs with every item of every meal normalized. */
  function MigrateStore(store: Store): (migrated: Store)
  {
    map d | d in store :: MigrateDay(store[d])
  }

  /**
   * The migration keeps every date, every meal and every list length; a
   * bare id becomes a plate entry of that id, and an object item is kept.
   */
  lemma MigrateShape(store: Store, d: string, m: string, i: int)
    ensures MigrateStore(store).Keys == store.Keys
    ensures d in store ==> MigrateStore(store)[d].Keys == store[d].Keys
    ensures d in store && m in store[d] ==> |MigrateStore(store)[d][m]| == |store[d][m]|
    ensures d in store && m in store[d] && 0 <= i < |store[d][m]| ==>
      var before, after := store[d][m][i], MigrateStore(store)[d][m][i];
      (before.Legacy? ==> after == Entry(before.id, Some(PlatePortion))) && (before.Entry? ==> after == before)
  {
  }

  /** Migrating migrated day logs changes nothing. */
  lemma MigrateIdempotent(store: Store)
    ensures MigrateStore(MigrateStore(store)) == MigrateStore(store)
  {
    forall d | d in store
      ensures MigrateDay(MigrateDay(store[d])) == MigrateDay(store[d])
    {
      forall m | m in store[d]
        ensures NormalizeAll(NormalizeAll(store[d][m])) == NormalizeAll(store[d][m])
      {
      }
    }
  }

  /** The migration loop over one day's meals: every meal list is replaced by its normalized copy. */
  method MigrateMeals(day: map<string, seq<Item>>) returns (migrated: map<string, seq<Item>>)
    ensures migrated == MigrateDay(day)
  {
    migrated := day;
    var pending := day.Keys;
    while pending != {}
      invariant pending <= day.Keys && migrated.Keys == day.Keys
      invariant forall m :: m in day ==> migrated[m] == if m in pending then day[m] else NormalizeAll(day[m])
      decreases pending
    {
      var m :| m in pending;
      migrated := migrated[m := NormalizeAll(migrated[m])];
      pending := pending - {m};
    }
  }

  /** The migration loop over the dates of the parsed day logs. */
  method MigrateLogs(parsed: Store) returns (migrated: Store)
    ensures migrated == MigrateStore(parsed)
  {
    migrated := parsed;
    var pending := parsed.Keys;
    while pending != {}
      invariant pending <= parsed.Keys && migrated.Keys == parsed.Keys
      invariant forall d :: d in parsed ==> migrated[d] == if d in pending then parsed[d] else MigrateDay(parsed[d])
      decreases pending
    {
      var d :| d in pending;
      var day := MigrateMeals(migrated[d]);
      migrated := migrated[d := day];
      pending := pending - {d};
    }
  }

  // Day-log updates

  /** The day logs with `item` appended to meal `mealId` of date `date`, creating the day and the meal when absent. */
  function AppendItem(store: Store, date: string, mealId: string, item: Item): (updated: Store)
  {
    var day := if date in store then store[date] else map[];
    var list := if mealId in day then day[mealId] else [];
    store[date := day[mealId := list + [item]]]
  }

  /**
   * Appending puts the item last in its meal and keeps the items before it;
   * every other meal of the day and every other date keep their items, and
   * no date or meal disappears.
   */
  lemma AppendItemEffect(store: Store, date: string, mealId: string, item: Item)
    ensures var after := AppendItem(store, date, mealId, item);
      after.Keys == store.Keys + {date} &&
      var dayBefore := if date in store then store[date] else map[];
      after[date].Keys == dayBefore.Keys + {mealId} &&
      after[date][mealId] == (if mealId in dayBefore then dayBefore[mealId] else []) + [item] &&
      (forall m :: m in dayBefore && m != mealId ==> after[date][m] == dayBefore[m]) &&
      (forall d :: d in store && d != date ==> after[d] == store[d])
  {
  }

  /** `newMealData.splice(index, 1)`'s start: a negative index counts from the end, and the start is clamped to the list. */
  function SpliceStart(length: int, index: int): (start: int)
  {
    if index < 0 then (if length + index < 0 then 0 else length + index)
    else if index < length then index else length
  }

  /** `list` after `splice(index, 1)`: the element at the start position removed, if there is one. */
  function RemoveAt(list: seq<Item>, index: int): (r: seq<Item>)
  {
    var start := SpliceStart(|list|, index);
    if start < |list| then list[..start] + list[start + 1..] else list
  }

  /**
   * For an index within the list, exactly that element goes and the others
   * keep their order; an index at or past the end changes nothing; a
   * negative index counts back from the end, and one before the start
   * removes the first element.
   */
  lemma RemoveAtEffect(list: seq<Item>, index: int)
    ensures 0 <= index < |list| ==>
      |RemoveAt(list, index)| == |list| - 1 &&
      (forall k :: 0 <= k < index ==> RemoveAt(list, index)[k] == list[k]) &&
      (forall k :: index <= k < |list| - 1 ==> RemoveAt(list, index)[k] == list[k + 1])
    ensures index >= |list| ==> RemoveAt(list, index) == list
    ensures -|list| <= index < 0 ==> RemoveAt(list, index) == list[..|list| + index] + list[|list| + index + 1..]
    ensures index < -|list| && |list| > 0 ==> RemoveAt(list, index) == list[1..]
  {
  }

  /** The day logs after `removeItem(mealId, index)` on date `date`. */
  function RemoveItemFrom(store: Store, date: string, mealId: string, index: int): (updated: Store)
  {
    var day := if date in store then store[date] else map[];
    var list := if mealId in day then day[mealId] else [];
    store[date := day[mealId := RemoveAt(list, index)]]
  }

  /**
   * Removing touches only meal `mealId` of date `date`: every other meal and
   * date keeps its items. When the date had no entry, the only change is a
   * new entry holding an empty list for the meal.
   */
  lemma RemoveItemEffect(store: Store, date: string, mealId: string, index: int)
    ensures var after := RemoveItemFrom(store, date, mealId, index);
      var dayBefore := if date in store then store[date] else map[];
      after.Keys == store.Keys + {date} &&
      after[date].Keys == dayBefore.Keys + {mealId} &&
      after[date][mealId] == RemoveAt(if mealId in dayBefore then dayBefore[mealId] else [], index) &&
      (forall m :: m in dayBefore && m != mealId ==> after[date][m] == dayBefore[m]) &&
      (forall d :: d in store && d != date ==> after[d] == store[d])
    ensures date !in store ==> RemoveItemFrom(store, date, mealId, index) == store[date := map[mealId := []]]
  {
  }

  // Display normalisation of a meal slot

  /** The label and the portion title a meal slot chip shows for an item. */
  datatype Chip = Chip(labelText: string, portionTitle: string)

  /** The chip of `MealSlot`: a bare id is shown as a plate; an unknown category shows its raw id, an unknown portion no title. */
  function ChipOf(item: Item): (r: Chip)
    ensures (item.id, r.labelText) in Categories || (r.labelText == item.id && forall i :: 0 <= i < |Categories| ==> Categories[i].0 != item.id)
    ensures r.portionTitle == "" || (ShownPortion(item).Some? && (ShownPortion(item).value, r.portionTitle) in Portions)
    ensures ShownPortion(item).Some? && (exists i :: 0 <= i < |Portions| && Portions[i].0 == ShownPortion(item).value) ==> (ShownPortion(item).value, r.portionTitle) in Portions
    ensures ShownPortion(item).None? || (forall i :: 0 <= i < |Portions| ==> Portions[i].0 != ShownPortion(item).value) ==> r.portionTitle == ""
  {
    var categoryId := item.id;
    var portionId := ShownPortion(item);
    var categoryLabel := Lookup(Categories, categoryId);
    var portionLabel := if portionId.Some? then Lookup(Portions, portionId.value) else None;
    LookupMissing(Categories, categoryId);
    LookupFound(Categories, categoryId);
    LookupFound(Portions, if portionId.Some? then portionId.value else "");
    LookupMissing(Portions, if portionId.Some? then portionId.value else "");
    Chip(if categoryLabel.Some? then categoryLabel.value else categoryId,
         if portionLabel.Some? then portionLabel.value else "")
  }

  /** The portion id a chip looks up: a bare id stands for a plate. */
  function ShownPortion(item: Item): (portionId: Option<string>)
  {
    match item
    case Legacy(_) => Some(PlatePortion)
    case Entry(_, portion) => portion
  }

  /**
   * A meal slot shows a bare id exactly as the plate entry the migration
   * turns it into, and shows a food the category list lacks by its id.
   */
  lemma ChipNormalization(item: Item)
    ensures ChipOf(Normalize(item)) == ChipOf(item)
    ensures item.Legacy? ==> ChipOf(item).portionTitle == "Piatto"
    ensures (forall i :: 0 <= i < |Categories| ==> Categories[i].0 != item.id) ==> ChipOf(item).labelText == item.id
  {
    assert ShownPortion(Normalize(item)) == ShownPortion(item);
    if item.Legacy? {
      assert Lookup(Portions, PlatePortion) == Some("Piatto");
    }
  }

  /** Truthiness of a touch coordinate: `null` and `0` are falsy. */
  predicate Truthy(x: Option<real>)
  {
    x.Some? && x.value != 0.0
  }

  /** The view a swipe from `start` to `end` selects, or `None` when it leaves the view alone. */
  function SwipeView(touchStart: Option<real>, touchEnd: Option<real>): (v: Option<ViewMode>)
    ensures v.Some? ==> Truthy(touchStart) && Truthy(touchEnd)
    ensures Truthy(touchStart) && Truthy(touchEnd) ==>
      (v == Some(Meals) <==> touchStart.value - touchEnd.value > MinSwipeDistance) &&
      (v == Some(Foods) <==> touchStart.value - touchEnd.value < -MinSwipeDistance)
  {
    if !Truthy(touchStart) || !Truthy(touchEnd) then None
    else
      var distance := touchStart.value - touchEnd.value;
      if distance > MinSwipeDistance then Some(Meals)
      else if distance < -MinSwipeDistance then Some(Foods)
      else None
  }

  class Tracker {
    var date: string
    var dayLogs: Store
    var activeDragId: Option<string>
    var pendingDrop: Option<PendingDrop>
    var viewMode: ViewMode
    var touchStart: Option<real>
    var touchEnd: Option<real>

    /** The initial state: `today`'s date, no logs, no drag, no pending drop, the foods view, no touch. */
    constructor(today: string)
      ensures date == today && dayLogs == map[]
      ensures activeDragId == None && pendingDrop == None && viewMode == Foods
      ensures touchStart == None && touchEnd == None
    {
      date := today;
      dayLogs := map[];
      activeDragId := None;
      pendingDrop := None;
      viewMode := Foods;
      touchStart := None;
      touchEnd := None;
    }

    /** The load effect: parsed day logs, when storage held any, are migrated and become the day logs. */
    method Load(stored: Option<Store>)
      modifies this
      ensures dayLogs == if stored.Some? then MigrateStore(stored.value) else old(dayLogs)
      ensures date == old(date) && activeDragId == old(activeDragId) && pendingDrop == old(pendingDrop)
      ensures viewMode == old(viewMode) && touchStart == old(touchStart) && touchEnd == old(touchEnd)
    {
      if stored.Some? {
        var parsed := MigrateLogs(stored.value);
        dayLogs := parsed;
      }
    }

    /** `setDate`: another day's logs are shown. */
    method SetDate(newDate: string)
      modifies this
      ensures date == newDate && dayLogs == old(dayLogs) && activeDragId == old(activeDragId)
      ensures pendingDrop == old(pendingDrop) && viewMode == old(viewMode)
      ensures touchStart == old(touchStart) && touchEnd == old(touchEnd)
    {
      date := newDate;
    }

    /** `handleDragStart`: remembers the dragged food and, on a narrow window, shows the meals. */
    method HandleDragStart(activeId: string, innerWidth: int)
      modifies this
      ensures activeDragId == Some(activeId)
      ensures viewMode == if innerWidth < MobileWidth then Meals else old(viewMode)
      ensures date == old(date) && dayLogs == old(dayLogs) && pendingDrop == old(pendingDrop)
      ensures touchStart == old(touchStart) && touchEnd == old(touchEnd)
    {
      activeDragId := Some(activeId);
      if innerWidth < MobileWidth {
        viewMode := Meals;
      }
    }

    /**
     * `handleDragEnd`: the drag is over; a drop on one of the meal slots
     * waits for its portion, any other drop is ignored.
     */
    method HandleDragEnd(activeId: string, overId: Option<string>)
      modifies this
      ensures activeDragId == None
      ensures pendingDrop == if overId.Some? && overId.value in MealSlots then Some(PendingDrop(activeId, overId.value)) else old(pendingDrop)
      ensures date == old(date) && dayLogs == old(dayLogs) && viewMode == old(viewMode)
      ensures touchStart == old(touchStart) && touchEnd == old(touchEnd)
    {
      activeDragId := None;
      if overId.Some? && overId.value in MealSlots {
        pendingDrop := Some(PendingDrop(activeId, overId.value));
      }
    }

    /**
     * `confirmDrop(portionId)`: with no pending drop nothing happens;
     * otherwise the food is appended with the portion to its meal of the
     * selected date, and the pending drop is cleared.
     */
    method ConfirmDrop(portionId: string)
      modifies this
      ensures old(pendingDrop).None? ==> dayLogs == old(dayLogs) && pendingDrop == old(pendingDrop)
      ensures old(pendingDrop).Some? ==>
        dayLogs == AppendItem(old(dayLogs), old(date), old(pendingDrop).value.mealId, Entry(old(pendingDrop).value.categoryId, Some(portionId))) &&
        pendingDrop == None
      ensures date == old(date) && activeDragId == old(activeDragId) && viewMode == old(viewMode)
      ensures touchStart == old(touchStart) && touchEnd == old(touchEnd)
    {
      if pendingDrop.None? {
        return;
      }
      var PendingDrop(categoryId, mealId) := pendingDrop.value;
      var currentDayData := if date in dayLogs then dayLogs[date] else map[];
      var currentMealData := if mealId in currentDayData then currentDayData[mealId] else [];
      var newItem := Entry(categoryId, Some(portionId));
      var newDayData := currentDayData[mealId := currentMealData + [newItem]];
      var newLogs := dayLogs[date := newDayData];
      dayLogs := newLogs;
      pendingDrop := None;
    }

    /** The portion dialog's cancel: the pending drop is discarded and the logs stay as they are. */
    method CancelDrop()
      modifies this
      ensures pendingDrop == None
      ensures date == old(date) && dayLogs == old(dayLogs) && activeDragId == old(activeDragId)
      ensures viewMode == old(viewMode) && touchStart == old(touchStart) && touchEnd == old(touchEnd)
    {
      pendingDrop := None;
    }

    /** `removeItem(mealId, index)`: the item at `index` of the meal of the selected date is spliced out. */
    method RemoveItem(mealId: string, index: int)
      modifies this
      ensures dayLogs == RemoveItemFrom(old(dayLogs), old(date), mealId, index)
      ensures date == old(date) && activeDragId == old(activeDragId) && pendingDrop == old(pendingDrop)
      ensures viewMode == old(viewMode) && touchStart == old(touchStart) && touchEnd == old(touchEnd)
    {
      var currentDayData := if date in dayLogs then dayLogs[date] else map[];
      var currentMealData := if mealId in currentDayData then currentDayData[mealId] else [];
      var newMealData := RemoveAt(currentMealData, index);
      dayLogs := dayLogs[date := currentDayData[mealId := newMealData]];
    }

    /** `onTouchStart`: a new touch starts at `x`, with no end yet. */
    method OnTouchStart(x: real)
      modifies this
      ensures touchStart == Some(x) && touchEnd == None
      ensures date == old(date) && dayLogs == old(dayLogs) && activeDragId == old(activeDragId)
      ensures pendingDrop == old(pendingDrop) && viewMode == old(viewMode)
    {
      touchEnd := None;
      touchStart := Some(x);
    }

    /** `onTouchMove`: the touch is now at `x`. */
    method OnTouchMove(x: real)
      modifies this
      ensures touchEnd == Some(x) && touchStart == old(touchStart)
      ensures date == old(date) && dayLogs == old(dayLogs) && activeDragId == old(activeDragId)
      ensures pendingDrop == old(pendingDrop) && viewMode == old(viewMode)
    {
      touchEnd := Some(x);
    }

    /**
     * `onTouchEnd`: a swipe left by more than the minimum distance shows the
     * meals, one right by more shows the foods; a shorter one, or a missing
     * or zero coordinate, leaves the view alone.
     */
    method OnTouchEnd()
      modifies this
      ensures viewMode == if SwipeView(old(touchStart), old(touchEnd)).Some? then SwipeView(old(touchStart), old(touchEnd)).value else old(viewMode)
      ensures date == old(date) && dayLogs == old(dayLogs) && activeDragId == old(activeDragId)
      ensures pendingDrop == old(pendingDrop) && touchStart == old(touchStart) && touchEnd == old(touchEnd)
    {
      if touchStart.None? || touchStart.value == 0.0 || touchEnd.None? || touchEnd.value == 0.0 {
        return;
      }
      var distance := touchStart.value - touchEnd.value;
      var isLeftSwipe := distance > MinSwipeDistance;
      var isRightSwipe := distance < -MinSwipeDistance;
      if isLeftSwipe {
        viewMode := Meals;
      } else if isRightSwipe {
        viewMode := Foods;
      }
    }
  }
}
