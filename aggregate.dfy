/**
 * `aggregateWeek` of the statistics page: the items logged on the dates of
 * an inclusive range are scored by portion, tallied per food id into
 * ranking entries that carry the food's label and colour, and the entries
 * are sorted into ranking order.
 */
module Aggregate {
  import opened Wrappers
  import opened Text
  import opened Logs
  import opened Ranking
  import opened Seqs
  import opened Week

  datatype FoodMeta = FoodMeta(labelText: string, color: string)

  /** `FOOD_META`: the label and colour of the foods the statistics page knows. */
  const FoodMetaTable: seq<(string, FoodMeta)> := [
    ("Verdure", FoodMeta("Vegetables", "#10b981")),
    ("Frutta", FoodMeta("Fruit", "#10b981")),
    ("CerealiPatate", FoodMeta("Whole grains or potatoes", "#f59e0b")),
    ("OlioOliva", FoodMeta("Olive oil", "#f59e0b")),
    ("Latticini", FoodMeta("Dairy (preferably low-fat)", "#3b82f6")),
    ("OliveNociSemi", FoodMeta("Vegetable oils/Nuts/Seeds", "#eab308")),
    ("ErbeSpezie", FoodMeta("Herbs/Spices/Garlic/Onion", "#84cc16")),
    ("Legumi", FoodMeta("Legumes", "#84cc16")),
    ("CarneProcessata", FoodMeta("Processed meat", "#f97316")),
    ("Dolci", FoodMeta("Sweets", "#8b5cf6")),
    ("CerealiRaffinati", FoodMeta("Refined grains", "#8b5cf6")),
    ("CarneBianca", FoodMeta("White meat", "#ef4444")),
    ("PesceFruttiMare", FoodMeta("Fish/Seafood", "#ef4444")),
    ("Uova", FoodMeta("Eggs", "#ef4444")),
    ("CarneRossa", FoodMeta("Red meat", "#f97316"))
  ]

  /** The colour of a food `FOOD_META` does not know. */
  const FallbackColor: string := "#64748b"

  /** `FOOD_META[foodId] || { label: foodId, color: '#64748b' }` */
  function MetaOf(foodId: string): (meta: FoodMeta)
  {
    match Lookup(FoodMetaTable, foodId)
    case Some(meta) => meta
    case None => FoodMeta(foodId, FallbackColor)
  }

  /** `PORTION_SCORE`: a portion's weight in the ranking. */
  const PortionScoreTable: seq<(string, int)> := [("teaspoon", 1), ("spoon", 2), ("cup", 3), ("bowl", 4), ("plate", 5)]

  /** `normalized.portion || 'plate'`: a missing or empty portion counts as a plate. */
  function EffectivePortion(portion: Option<string>): (portionId: string)
  {
    match portion
    case None => PlatePortion
    case Some(p) => if p == "" then PlatePortion else p
  }

  /** `PORTION_SCORE[portion] || 1`: an unknown portion scores 1. */
  function PortionScore(portion: string): (score: int)
    ensures 1 <= score <= 5
  {
    match Lookup(PortionScoreTable, portion)
    case Some(score) => LookupFound(PortionScoreTable, portion); score
    case None => 1
  }

  /** The score one item adds to its food's weighted score. */
  function ItemScore(item: Item): (score: int)
  {
    PortionScore(EffectivePortion(Normalize(item).portion))
  }

  /**
   * The portion rules: a bare id scores as a plate, 5, and so does an object
   * item without a portion or with an empty one; the five known portions
   * score 1 to 5; any other portion scores 1.
   */
  lemma ScoringRules(foodId: string, portion: string)
    ensures ItemScore(Legacy(foodId)) == ItemScore(Entry(foodId, Some("plate"))) == 5
    ensures ItemScore(Entry(foodId, None)) == 5 && ItemScore(Entry(foodId, Some(""))) == 5
    ensures ItemScore(Entry(foodId, Some("teaspoon"))) == 1 && ItemScore(Entry(foodId, Some("spoon"))) == 2
    ensures ItemScore(Entry(foodId, Some("cup"))) == 3 && ItemScore(Entry(foodId, Some("bowl"))) == 4
    ensures portion !in {"", "teaspoon", "spoon", "cup", "bowl", "plate"} ==> ItemScore(Entry(foodId, Some(portion))) == 1
  {
    LookupMissing(PortionScoreTable, portion);
  }

  /** `date < startDate || date > endDate` fails: the date lies in the inclusive range, as strings. */
  predicate InRange(date: string, startDate: string, endDate: string)
  {
    !StrLt(date, startDate) && !StrLt(endDate, date)
  }

  /**
   * For dates written by `formatDateISO` with four-digit years, the string
   * range test is the day range test: the date's day lies from the start day
   * to the end day, both included.
   */
  lemma InRangeDays(n: int, startDay: int, endDay: int)
    requires FourDigitYear(n) && FourDigitYear(startDay) && FourDigitYear(endDay)
    ensures InRange(FormatDateISO(n), FormatDateISO(startDay), FormatDateISO(endDay)) <==> startDay <= n <= endDay
  {
    FormatDateISOOrder(n, startDay);
    FormatDateISOOrder(endDay, n);
  }

  /** One `[date, meals]` pair of `Object.entries(dayLogs)`: the meal lists in key order, `None` for null. */
  datatype DayEntry = DayEntry(date: string, meals: Option<seq<Option<seq<Item>>>>)

  /** `mealItems || []` */
  function ListItems(list: Option<seq<Item>>): (items: seq<Item>)
  {
    match list
    case None => []
    case Some(items) => items
  }

  /** The items of the meal lists, one meal after the other. */
  function MealItems(lists: seq<Option<seq<Item>>>): (items: seq<Item>)
  {
    if |lists| == 0 then [] else MealItems(lists[..|lists| - 1]) + ListItems(lists[|lists| - 1])
  }

  /** `Object.values(meals || {})`: the meal lists of a day, none for null. */
  function MealLists(meals: Option<seq<Option<seq<Item>>>>): (lists: seq<Option<seq<Item>>>)
  {
    match meals
    case None => []
    case Some(lists) => lists
  }

  /** Every item of every meal of the dates in range, in the order `aggregateWeek` visits them. */
  function WeekItems(days: seq<DayEntry>, startDate: string, endDate: string): (items: seq<Item>)
  {
    if |days| == 0 then []
    else
      var day := days[|days| - 1];
      WeekItems(days[..|days| - 1], startDate, endDate)
        + (if InRange(day.date, startDate, endDate) then MealItems(MealLists(day.meals)) else [])
  }

  /** A store without a date in range contributes no item. */
  lemma {:induction false} NoDateInRange(days: seq<DayEntry>, startDate: string, endDate: string)
    requires forall i :: 0 <= i < |days| ==> !InRange(days[i].date, startDate, endDate)
    ensures WeekItems(days, startDate, endDate) == []
  {
    if |days| > 0 {
      NoDateInRange(days[..|days| - 1], startDate, endDate);
    }
  }

  /** The entry a food starts with, before its first item is counted. */
  function NewEntry(foodId: string): (entry: RankEntry)
  {
    RankEntry(foodId, MetaOf(foodId).labelText, MetaOf(foodId).color, 0, 0)
  }

  /** Counting one item into the buckets: its food's entry, created if new, gains one time and the item's score. */
  function AddItem(bucket: map<string, RankEntry>, item: Item): (updated: map<string, RankEntry>)
  {
    var created := Created(bucket, item.id);
    created[item.id := Counted(created[item.id], ItemScore(item))]
  }

  /** `if (!bucket[foodId]) bucket[foodId] = { ... }`: the buckets with an entry for `foodId`. */
  function Created(bucket: map<string, RankEntry>, foodId: string): (created: map<string, RankEntry>)
    ensures foodId in created
  {
    if foodId in bucket then bucket else bucket[foodId := NewEntry(foodId)]
  }

  /** An entry with one more time eaten and `score` more points. */
  function Counted(entry: RankEntry, score: int): (bumped: RankEntry)
  {
    entry.(timesEaten := entry.timesEaten + 1, weightedScore := entry.weightedScore + score)
  }

  /** The entry of `foodId` after counting `item`: the item's food gains the item, the others keep theirs. */
  lemma AddItemAt(bucket: map<string, RankEntry>, item: Item, foodId: string)
    ensures foodId in AddItem(bucket, item) <==> foodId in bucket || foodId == item.id
    ensures foodId in AddItem(bucket, item) ==>
      AddItem(bucket, item)[foodId] ==
        if foodId != item.id then bucket[foodId]
        else Counted(if foodId in bucket then bucket[foodId] else NewEntry(foodId), ItemScore(item))
  {
  }

  /** The buckets after counting `items` in order. */
  function Tally(items: seq<Item>): (bucket: map<string, RankEntry>)
  {
    if |items| == 0 then map[] else AddItem(Tally(items[..|items| - 1]), items[|items| - 1])
  }

  /** The food ids of `items` in the order of their first occurrence: the key order of the buckets. */
  function FirstOrder(items: seq<Item>): (order: seq<string>)
  {
    if |items| == 0 then []
    else
      var order := FirstOrder(items[..|items| - 1]);
      if items[|items| - 1].id in order then order else order + [items[|items| - 1].id]
  }

  /** How many of `items` are of food `foodId`. */
  function Count(items: seq<Item>, foodId: string): (count: nat)
  {
    if |items| == 0 then 0 else (if items[0].id == foodId then 1 else 0) + Count(items[1..], foodId)
  }

  /** The sum of the scores of the items of food `foodId`. */
  function ScoreSum(items: seq<Item>, foodId: string): (sum: int)
  {
    if |items| == 0 then 0 else (if items[0].id == foodId then ItemScore(items[0]) else 0) + ScoreSum(items[1..], foodId)
  }

  /** The ranking entry of food `foodId` over `items`, defined by counting. */
  function Bucket(items: seq<Item>, foodId: string): (entry: RankEntry)
  {
    RankEntry(foodId, MetaOf(foodId).labelText, MetaOf(foodId).color, Count(items, foodId), ScoreSum(items, foodId))
  }

  lemma {:induction false} CountSnoc(items: seq<Item>, item: Item, foodId: string)
    ensures Count(items + [item], foodId) == Count(items, foodId) + (if item.id == foodId then 1 else 0)
    ensures ScoreSum(items + [item], foodId) == ScoreSum(items, foodId) + (if item.id == foodId then ItemScore(item) else 0)
  {
    if |items| > 0 {
      assert (items + [item])[1..] == items[1..] + [item];
      CountSnoc(items[1..], item, foodId);
    } else {
      assert (items + [item])[1..] == [];
    }
  }

  /**
   * The buckets hold exactly the foods that occur in `items`, each with its
   * label and colour, the number of its items and the sum of their scores.
   */
  lemma {:induction false} TallyMeaning(items: seq<Item>, foodId: string)
    ensures foodId in Tally(items) <==> Count(items, foodId) > 0
    ensures foodId in Tally(items) ==> Tally(items)[foodId] == Bucket(items, foodId)
  {
    if |items| > 0 {
      var prefix, last := items[..|items| - 1], items[|items| - 1];
      assert items == prefix + [last];
      TallyMeaning(prefix, foodId);
      CountSnoc(prefix, last, foodId);
      ScoreBounds(prefix, foodId);
      AddItemAt(Tally(prefix), last, foodId);
    }
  }

  /** The bucket keys are the ids in first-occurrence order, and that order repeats no id. */
  lemma {:induction false} OrderMatchesKeys(items: seq<Item>)
    ensures forall foodId :: foodId in Tally(items) <==> foodId in FirstOrder(items)
    ensures Distinct(FirstOrder(items))
  {
    if |items| > 0 {
      OrderMatchesKeys(items[..|items| - 1]);
    }
  }

  /** A food's score is at least one point and at most five points per item. */
  lemma {:induction false} ScoreBounds(items: seq<Item>, foodId: string)
    ensures Count(items, foodId) <= ScoreSum(items, foodId) <= 5 * Count(items, foodId)
  {
    if |items| > 0 {
      ScoreBounds(items[1..], foodId);
    }
  }

  /**
   * Every entry of the ranking of `items` has been eaten at least once and
   * has between one and five points per time eaten.
   */
  lemma BucketBounds(items: seq<Item>, foodId: string)
    requires Count(items, foodId) > 0
    ensures var e := Bucket(items, foodId);
      1 <= e.timesEaten <= e.weightedScore <= 5 * e.timesEaten
  {
    ScoreBounds(items, foodId);
  }

  /** An entry's label and colour are the food's `FOOD_META` ones, or its id and the grey fallback colour. */
  lemma BucketMeta(items: seq<Item>, foodId: string)
    ensures var e := Bucket(items, foodId);
      (Lookup(FoodMetaTable, foodId).Some? ==>
        (foodId, FoodMeta(e.labelText, e.color)) in FoodMetaTable && FoodMeta(e.labelText, e.color) == Lookup(FoodMetaTable, foodId).value) &&
      ((forall i :: 0 <= i < |FoodMetaTable| ==> FoodMetaTable[i].0 != foodId) ==> e.labelText == foodId && e.color == FallbackColor)
  {
    LookupMissing(FoodMetaTable, foodId);
    if Lookup(FoodMetaTable, foodId).Some? {
      LookupFound(FoodMetaTable, foodId);
    }
  }

  /** `Object.values(bucket)`: the entries in key order. */
  function Values(bucket: map<string, RankEntry>, order: seq<string>): (values: seq<RankEntry>)
    requires forall foodId :: foodId in order ==> foodId in bucket
    ensures |values| == |order|
  {
    seq(|order|, i requires 0 <= i < |order| => bucket[order[i]])
  }

  /** The sum of `timesEaten` over a list of entries. */
  function SumTimes(entries: seq<RankEntry>): (total: int)
  {
    if |entries| == 0 then 0 else entries[0].timesEaten + SumTimes(entries[1..])
  }

  lemma {:induction false} SumTimesConcat(a: seq<RankEntry>, b: seq<RankEntry>)
    ensures SumTimes(a + b) == SumTimes(a) + SumTimes(b)
  {
    if |a| > 0 {
      assert (a + b)[1..] == a[1..] + b;
      SumTimesConcat(a[1..], b);
    } else {
      assert a + b == b;
    }
  }

  /** Rearranging entries does not change the sum of their `timesEaten`. */
  lemma {:induction false} SumTimesPermutation(a: seq<RankEntry>, b: seq<RankEntry>)
    requires multiset(a) == multiset(b)
    ensures SumTimes(a) == SumTimes(b)
    decreases |a|
  {
    if |a| == 0 {
      assert |b| == |multiset(b)|;
    } else {
      assert a[0] in multiset(b);
      var k := IndexOf(b, a[0]);
      MultisetRemove(a, b, k);
      SumTimesPermutation(a[1..], b[..k] + b[k + 1..]);
      SumTimesRemove(b, k);
    }
  }

  /** The first position of `e` in `b`. */
  function IndexOf<T(==)>(b: seq<T>, e: T): (k: int)
    requires e in b
    ensures 0 <= k < |b| && b[k] == e
  {
    if b[0] == e then 0 else 1 + IndexOf(b[1..], e)
  }

  /** Taking the first entry of `a` and its copy at `k` in `b` leaves lists with equal multisets. */
  lemma MultisetRemove(a: seq<RankEntry>, b: seq<RankEntry>, k: int)
    requires multiset(a) == multiset(b) && 0 < |a| && 0 <= k < |b| && b[k] == a[0]
    ensures multiset(a[1..]) == multiset(b[..k] + b[k + 1..])
  {
    assert b == b[..k] + [b[k]] + b[k + 1..];
    assert a == [a[0]] + a[1..];
    assert multiset(b[..k] + b[k + 1..]) == multiset(b) - multiset{a[0]};
    assert multiset(a[1..]) == multiset(a) - multiset{a[0]};
  }

  /** Taking entry `k` out of a list takes its `timesEaten` off the sum. */
  lemma SumTimesRemove(b: seq<RankEntry>, k: int)
    requires 0 <= k < |b|
    ensures SumTimes(b) == SumTimes(b[..k] + b[k + 1..]) + b[k].timesEaten
  {
    assert b[..k] + b[k..] == b;
    SumTimesConcat(b[..k], b[k..]);
    assert b[k..][1..] == b[k + 1..];
    SumTimesConcat(b[..k], b[k + 1..]);
  }

  /** The entries of the buckets of `items` eat up all of the items between them. */
  lemma {:induction false} TallyTotal(items: seq<Item>)
    ensures OrderInBucket(items)
    ensures SumTimes(Buckets(items)) == |items|
  {
    OrderMatchesKeys(items);
    if |items| > 0 {
      var prefix, last := items[..|items| - 1], items[|items| - 1];
      TallyTotal(prefix);
      OrderMatchesKeys(prefix);
      var bucket, order := Tally(prefix), FirstOrder(prefix);
      if last.id in order {
        ExistingFoodStep(bucket, order, last);
      } else {
        NewFoodStep(bucket, order, last);
      }
    }
  }

  /** Every id of the first-occurrence order has a bucket, so `Values` is defined. */
  predicate OrderInBucket(items: seq<Item>)
  {
    forall foodId :: foodId in FirstOrder(items) ==> foodId in Tally(items)
  }

  /** The entries of the buckets of `items`, in key order: `Object.values(bucket)`. */
  function Buckets(items: seq<Item>): (values: seq<RankEntry>)
    ensures |values| == |FirstOrder(items)|
  {
    OrderMatchesKeys(items);
    Values(Tally(items), FirstOrder(items))
  }

  /** Counting an item of a food already in the buckets adds one to their times eaten. */
  lemma ExistingFoodStep(bucket: map<string, RankEntry>, order: seq<string>, item: Item)
    requires forall foodId :: foodId in order ==> foodId in bucket
    requires Distinct(order) && item.id in order
    ensures SumTimes(Values(AddItem(bucket, item), order)) == SumTimes(Values(bucket, order)) + 1
  {
    var k :| 0 <= k < |order| && order[k] == item.id;
    var before, after := Values(bucket, order), Values(AddItem(bucket, item), order);
    assert after == before[k := after[k]];
    SumTimesUpdate(before, k, after[k]);
  }

  /** Counting an item of a new food appends its entry, eaten once, to the bucket values. */
  lemma NewFoodStep(bucket: map<string, RankEntry>, order: seq<string>, item: Item)
    requires forall foodId :: foodId in order ==> foodId in bucket
    requires item.id !in order
    ensures SumTimes(Values(AddItem(bucket, item), order + [item.id])) == SumTimes(Values(bucket, order)) + AddItem(bucket, item)[item.id].timesEaten
  {
    var before, after := Values(bucket, order), Values(AddItem(bucket, item), order + [item.id]);
    assert after == before + [after[|order|]];
    SumTimesConcat(before, [after[|order|]]);
  }

  lemma {:induction false} SumTimesUpdate(entries: seq<RankEntry>, k: int, e: RankEntry)
    requires 0 <= k < |entries|
    ensures SumTimes(entries[k := e]) == SumTimes(entries) - entries[k].timesEaten + e.timesEaten
  {
    if k > 0 {
      assert entries[k := e][1..] == entries[1..][k - 1 := e];
      SumTimesUpdate(entries[1..], k - 1, e);
    } else {
      assert entries[k := e][1..] == entries[1..];
    }
  }

  /** The food ids of a list of entries. */
  function IdsOf(entries: seq<RankEntry>): (ids: set<string>)
  {
    set e | e in entries :: e.id
  }

  /** An entry at two positions of a list is counted at least twice. */
  lemma TwiceCounted(a: seq<RankEntry>, i: int, j: int)
    requires 0 <= i < j < |a| && a[i] == a[j]
    ensures multiset(a)[a[i]] >= 2
  {
    assert a == a[..i] + [a[i]] + a[i + 1..j] + [a[j]] + a[j + 1..];
  }

  /** In a list whose ids are distinct, each entry is counted once. */
  lemma OnceCounted(b: seq<RankEntry>, p: int)
    requires forall i, j :: 0 <= i < j < |b| ==> b[i].id != b[j].id
    requires 0 <= p < |b|
    ensures multiset(b)[b[p]] == 1
  {
    assert b == b[..p] + [b[p]] + b[p + 1..];
    assert b[p] !in b[..p] && b[p] !in b[p + 1..];
  }

  /** A rearrangement of entries with distinct ids has distinct ids. */
  lemma DistinctIdsPermutation(a: seq<RankEntry>, b: seq<RankEntry>, i: int, j: int)
    requires multiset(a) == multiset(b)
    requires forall p, q :: 0 <= p < q < |b| ==> b[p].id != b[q].id
    requires 0 <= i < j < |a|
    ensures a[i].id != a[j].id
  {
    if a[i].id == a[j].id {
      assert a[i] in multiset(b) && a[j] in multiset(b);
      var p :| 0 <= p < |b| && b[p] == a[i];
      var q :| 0 <= q < |b| && b[q] == a[j];
      assert p == q;
      TwiceCounted(a, i, j);
      OnceCounted(b, p);
    }
  }

  /** Every entry of a rearrangement of the buckets of `items` is its food's counted bucket. */
  lemma RankingEntries(items: seq<Item>, ranking: seq<RankEntry>)
    requires multiset(ranking) == multiset(Buckets(items))
    ensures forall e :: e in ranking ==> e == Bucket(items, e.id)
  {
    var values := Buckets(items);
    forall e | e in ranking
      ensures e == Bucket(items, e.id)
    {
      assert e in multiset(values);
      var k :| 0 <= k < |values| && values[k] == e;
      OrderMatchesKeys(items);
      assert values[k] == Tally(items)[FirstOrder(items)[k]];
      TallyMeaning(items, FirstOrder(items)[k]);
    }
  }

  /** A rearrangement of the buckets of `items` has an entry for exactly the foods that occur in `items`. */
  lemma RankingFoods(items: seq<Item>, ranking: seq<RankEntry>)
    requires multiset(ranking) == multiset(Buckets(items))
    ensures forall foodId :: foodId in IdsOf(ranking) <==> Count(items, foodId) > 0
  {
    var values, order := Buckets(items), FirstOrder(items);
    OrderMatchesKeys(items);
    forall foodId
      ensures foodId in IdsOf(ranking) <==> Count(items, foodId) > 0
    {
      TallyMeaning(items, foodId);
      if Count(items, foodId) > 0 {
        var k :| 0 <= k < |order| && order[k] == foodId;
        assert values[k] == Tally(items)[foodId];
        assert values[k] in multiset(ranking);
      } else if foodId in IdsOf(ranking) {
        var e :| e in ranking && e.id == foodId;
        assert e in multiset(values);
        var k :| 0 <= k < |values| && values[k] == e;
        assert values[k] == Tally(items)[order[k]];
        TallyMeaning(items, order[k]);
      }
    }
  }

  /** The buckets of `items` have distinct ids. */
  lemma BucketsDistinct(items: seq<Item>)
    ensures forall p, q :: 0 <= p < q < |Buckets(items)| ==> Buckets(items)[p].id != Buckets(items)[q].id
  {
    var values, order := Buckets(items), FirstOrder(items);
    OrderMatchesKeys(items);
    forall p, q | 0 <= p < q < |values|
      ensures values[p].id != values[q].id
    {
      TallyMeaning(items, order[p]);
      TallyMeaning(items, order[q]);
    }
  }

  /** No food has two entries in a rearrangement of the buckets of `items`. */
  lemma RankingDistinct(items: seq<Item>, ranking: seq<RankEntry>)
    requires multiset(ranking) == multiset(Buckets(items))
    ensures forall i, j :: 0 <= i < j < |ranking| ==> ranking[i].id != ranking[j].id
  {
    BucketsDistinct(items);
    forall i, j | 0 <= i < j < |ranking|
      ensures ranking[i].id != ranking[j].id
    {
      DistinctIdsPermutation(ranking, Buckets(items), i, j);
    }
  }

  /**
   * The times eaten of a rearrangement of the buckets of `items` add up to
   * the number of items, and it is empty exactly when there are no items.
   */
  lemma RankingTotal(items: seq<Item>, ranking: seq<RankEntry>)
    requires multiset(ranking) == multiset(Buckets(items))
    ensures SumTimes(ranking) == |items|
    ensures |ranking| == 0 <==> |items| == 0
  {
    TallyTotal(items);
    SumTimesPermutation(ranking, Buckets(items));
    assert |ranking| == |multiset(ranking)| == |Buckets(items)|;
    if |items| > 0 {
      TallyMeaning(items, items[0].id);
      OrderMatchesKeys(items);
    }
  }

  /**
   * `aggregateWeek(dayLogs, startDate, endDate)`: tallies the items of the
   * dates in range into buckets, then sorts the buckets into the ranking.
   */
  method AggregateWeek(dayLogs: seq<DayEntry>, startDate: string, endDate: string)
    returns (ranking: seq<RankEntry>, totalItems: int)
    ensures var items := WeekItems(dayLogs, startDate, endDate);
      totalItems == |items| && Ranked(ranking) && multiset(ranking) == multiset(Buckets(items))
  {
    var bucket: map<string, RankEntry> := map[];
    var order: seq<string> := [];
    totalItems := 0;
    ghost var seen: seq<Item> := [];
    var d := 0;
    while d < |dayLogs|
      invariant 0 <= d <= |dayLogs|
      invariant seen == WeekItems(dayLogs[..d], startDate, endDate)
      invariant bucket == Tally(seen) && order == FirstOrder(seen) && totalItems == |seen|
    {
      var date, meals := dayLogs[d].date, dayLogs[d].meals;
      WeekItemsStep(dayLogs, d, startDate, endDate);
      if !(StrLt(date, startDate) || StrLt(endDate, date)) {
        bucket, order, totalItems := TallyDay(bucket, order, totalItems, MealLists(meals), seen);
        seen := seen + MealItems(MealLists(meals));
      }
      d := d + 1;
    }
    assert dayLogs[..d] == dayLogs;
    OrderMatchesKeys(seen);
    var values := Values(bucket, order);
    var a := new RankEntry[|values|](i requires 0 <= i < |values| => values[i]);
    assert a[..] == values;
    SortRanking(a);
    ranking := a[..];
  }

  /**
   * The middle `forEach` of `aggregateWeek`: counts the items of every meal
   * of one day into the buckets of the items `seen` before them.
   */
  method TallyDay(bucket: map<string, RankEntry>, order: seq<string>, totalItems: int, lists: seq<Option<seq<Item>>>, ghost seen: seq<Item>)
    returns (bucket': map<string, RankEntry>, order': seq<string>, totalItems': int)
    requires bucket == Tally(seen) && order == FirstOrder(seen) && totalItems == |seen|
    ensures bucket' == Tally(seen + MealItems(lists)) && order' == FirstOrder(seen + MealItems(lists))
    ensures totalItems' == |seen + MealItems(lists)|
  {
    bucket', order', totalItems' := bucket, order, totalItems;
    ghost var done := seen;
    var m := 0;
    assert lists[..m] == [];
    while m < |lists|
      invariant 0 <= m <= |lists|
      invariant done == seen + MealItems(lists[..m])
      invariant bucket' == Tally(done) && order' == FirstOrder(done) && totalItems' == |done|
    {
      var mealItems := ListItems(lists[m]);
      bucket', order', totalItems' := TallyMeal(bucket', order', totalItems', mealItems, done);
      MealItemsStep(seen, lists, m);
      done := done + mealItems;
      m := m + 1;
    }
    assert lists[..m] == lists;
  }

  /**
   * The innermost `forEach` of `aggregateWeek`: counts the items of one
   * meal into the buckets of the items `seen` before them.
   */
  method TallyMeal(bucket: map<string, RankEntry>, order: seq<string>, totalItems: int, mealItems: seq<Item>, ghost seen: seq<Item>)
    returns (bucket': map<string, RankEntry>, order': seq<string>, totalItems': int)
    requires bucket == Tally(seen) && order == FirstOrder(seen) && totalItems == |seen|
    ensures bucket' == Tally(seen + mealItems) && order' == FirstOrder(seen + mealItems) && totalItems' == |seen + mealItems|
  {
    bucket', order', totalItems' := bucket, order, totalItems;
    var k := 0;
    assert seen + mealItems[..k] == seen;
    while k < |mealItems|
      invariant 0 <= k <= |mealItems|
      invariant bucket' == Tally(seen + mealItems[..k]) && order' == FirstOrder(seen + mealItems[..k])
      invariant totalItems' == |seen| + k
    {
      var item := mealItems[k];
      var normalized := Normalize(item);
      var foodId := normalized.id;
      var portion := EffectivePortion(normalized.portion);
      var score := PortionScore(portion);
      var meta := MetaOf(foodId);
      ghost var prefix, before := seen + mealItems[..k], bucket';
      TallySnoc(prefix, item);
      PrefixStep(seen, mealItems, k);
      if foodId !in bucket' {
        bucket' := bucket'[foodId := RankEntry(foodId, meta.labelText, meta.color, 0, 0)];
        order' := order' + [foodId];
      }
      assert bucket' == Created(before, foodId);
      bucket' := bucket'[foodId := Counted(bucket'[foodId], score)];
      totalItems' := totalItems' + 1;
      assert bucket' == AddItem(before, item);
      k := k + 1;
    }
    assert mealItems[..k] == mealItems;
  }

  lemma PrefixStep(seen: seq<Item>, s: seq<Item>, k: int)
    requires 0 <= k < |s|
    ensures seen + s[..k + 1] == (seen + s[..k]) + [s[k]]
  {
    assert s[..k + 1] == s[..k] + [s[k]];
  }

  lemma WeekItemsStep(days: seq<DayEntry>, d: int, startDate: string, endDate: string)
    requires 0 <= d < |days|
    ensures WeekItems(days[..d + 1], startDate, endDate) ==
      WeekItems(days[..d], startDate, endDate) + (if InRange(days[d].date, startDate, endDate) then MealItems(MealLists(days[d].meals)) else [])
  {
    assert days[..d + 1][..d] == days[..d];
  }

  lemma MealItemsStep(dayStart: seq<Item>, lists: seq<Option<seq<Item>>>, m: int)
    requires 0 <= m < |lists|
    ensures dayStart + MealItems(lists[..m + 1]) == (dayStart + MealItems(lists[..m])) + ListItems(lists[m])
  {
    assert lists[..m + 1][..m] == lists[..m];
  }

  /** The buckets and key order after one more item. */
  lemma TallySnoc(seen: seq<Item>, item: Item)
    ensures Tally(seen + [item]) == AddItem(Tally(seen), item)
    ensures FirstOrder(seen + [item]) == if item.id in Tally(seen) then FirstOrder(seen) else FirstOrder(seen) + [item.id]
  {
    assert (seen + [item])[..|seen|] == seen;
    OrderMatchesKeys(seen);
  }

  /**
   * The statistics page reads the same ranking from a store whether or not
   * the tracker has rewritten its bare-id items as plate entries.
   */
  lemma {:induction false} MigrationInvariant(items: seq<Item>)
    ensures Tally(NormalizeAll(items)) == Tally(items)
    ensures FirstOrder(NormalizeAll(items)) == FirstOrder(items)
  {
    if |items| > 0 {
      var prefix := items[..|items| - 1];
      assert NormalizeAll(items)[..|items| - 1] == NormalizeAll(prefix);
      MigrationInvariant(prefix);
    }
  }
}
