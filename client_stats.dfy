/**
 * The statistics page of the server-backed revision: it lists the fetched
 * logs in reverse, newest appended first, and counts the logs per food type.
 */
module ClientStats {
  import opened Seqs

  /** A log the server hands out; the creation timestamp plays no part here. */
  datatype Log = Log(id: int, date: string, place: string, foodType: string)

  /** The food types of `logs`, in order. */
  function FoodTypes(logs: seq<Log>): (types: seq<string>)
    ensures |types| == |logs|
    ensures forall i :: 0 <= i < |logs| ==> types[i] == logs[i].foodType
  {
    seq(|logs|, i requires 0 <= i < |logs| => logs[i].foodType)
  }

  /** How many of `logs` have food type `t`. */
  function Occurrences(logs: seq<Log>, t: string): (count: nat)
  {
    multiset(FoodTypes(logs))[t]
  }

  /** The sum of the counts `stats` holds for `keys`. */
  function SumCounts(stats: map<string, int>, keys: seq<string>): (sum: int)
    requires forall k :: k in keys ==> k in stats
  {
    if |keys| == 0 then 0 else stats[keys[0]] + SumCounts(stats, keys[1..])
  }

  /**
   * `stats` and `keys` are the count of `logs`: `stats` maps each food type
   * that occurs to its number of logs, `keys` lists those types once each,
   * and the counts add up to the number of logs.
   */
  ghost predicate Counted(stats: map<string, int>, keys: seq<string>, logs: seq<Log>)
  {
    (forall t :: t in stats <==> Occurrences(logs, t) > 0)
    && (forall t :: t in stats ==> stats[t] == Occurrences(logs, t))
    && stats.Keys == (set k | k in keys) && Distinct(keys)
    && SumCounts(stats, keys) == |logs|
  }

  /**
   * The `logs.reduce` count, with `keys` the food types in the order they
   * were first met, which is the order `Object.entries` lists them in apart
   * from integer-like keys. No logs give no keys.
   */
  method CountByFoodType(logs: seq<Log>) returns (stats: map<string, int>, keys: seq<string>)
    ensures Counted(stats, keys, logs)
    ensures |keys| == 0 <==> |logs| == 0
  {
    stats := map[];
    keys := [];
    var i := 0;
    assert logs[..0] == [];
    while i < |logs|
      invariant 0 <= i <= |logs|
      invariant Counted(stats, keys, logs[..i])
    {
      var foodType := logs[i].foodType;
      assert logs[..i + 1] == logs[..i] + [logs[i]];
      if foodType in stats {
        CountExisting(stats, keys, logs[..i], logs[i]);
        stats := stats[foodType := stats[foodType] + 1];
      } else {
        CountNew(stats, keys, logs[..i], logs[i]);
        stats := stats[foodType := 1];
        keys := keys + [foodType];
      }
      i := i + 1;
    }
    assert logs[..i] == logs;
  }

  /** One more log of each type: its count goes up by one, every other count stays. */
  lemma OccurrencesSnoc(logs: seq<Log>, log: Log)
    ensures forall t :: Occurrences(logs + [log], t) == Occurrences(logs, t) + (if t == log.foodType then 1 else 0)
  {
    assert FoodTypes(logs + [log]) == FoodTypes(logs) + [log.foodType];
  }

  /** Counting a log of a type already counted increments that type's count. */
  lemma CountExisting(stats: map<string, int>, keys: seq<string>, logs: seq<Log>, log: Log)
    requires Counted(stats, keys, logs) && log.foodType in stats
    ensures Counted(stats[log.foodType := stats[log.foodType] + 1], keys, logs + [log])
  {
    OccurrencesSnoc(logs, log);
    SumCountsIncrement(stats, keys, log.foodType);
  }

  /** Counting a log of a new type adds the type, last, with count one. */
  lemma CountNew(stats: map<string, int>, keys: seq<string>, logs: seq<Log>, log: Log)
    requires Counted(stats, keys, logs) && log.foodType !in stats
    ensures Counted(stats[log.foodType := 1], keys + [log.foodType], logs + [log])
  {
    OccurrencesSnoc(logs, log);
    SumCountsAppend(stats, keys, log.foodType);
  }

  /** Counting one more log of a type already present adds one to the sum. */
  lemma {:induction false} SumCountsIncrement(stats: map<string, int>, keys: seq<string>, t: string)
    requires forall k :: k in keys ==> k in stats
    requires t in stats && t in keys && Distinct(keys)
    ensures forall k :: k in keys ==> k in stats[t := stats[t] + 1]
    ensures SumCounts(stats[t := stats[t] + 1], keys) == SumCounts(stats, keys) + 1
  {
    if keys[0] == t {
      SumCountsUnchanged(stats, stats[t := stats[t] + 1], keys[1..]);
    } else {
      SumCountsIncrement(stats, keys[1..], t);
    }
  }

  /** Counts of keys other than the one updated are untouched, so their sum is too. */
  lemma {:induction false} SumCountsUnchanged(stats: map<string, int>, updated: map<string, int>, keys: seq<string>)
    requires forall k :: k in keys ==> k in stats && k in updated && stats[k] == updated[k]
    ensures SumCounts(updated, keys) == SumCounts(stats, keys)
  {
    if |keys| > 0 {
      SumCountsUnchanged(stats, updated, keys[1..]);
    }
  }

  /** A first log of a new type adds a key with count one, and one to the sum. */
  lemma {:induction false} SumCountsAppend(stats: map<string, int>, keys: seq<string>, t: string)
    requires forall k :: k in keys ==> k in stats
    requires t !in stats
    ensures SumCounts(stats[t := 1], keys + [t]) == SumCounts(stats, keys) + 1
  {
    if |keys| == 0 {
      assert ([] + [t])[1..] == [];
    } else {
      assert (keys + [t])[1..] == keys[1..] + [t];
      SumCountsAppend(stats, keys[1..], t);
    }
  }

  /**
   * `data.reverse()`: reverses the fetched logs in place by swapping
   * elements from both ends towards the middle.
   */
  method ReverseLogs(a: array<Log>)
    modifies a
    ensures a[..] == Reversed(old(a[..]))
  {
    var i := 0;
    while i < a.Length / 2
      invariant 0 <= i <= a.Length / 2
      invariant forall k :: 0 <= k < i ==> a[k] == old(a[a.Length - 1 - k]) && a[a.Length - 1 - k] == old(a[k])
      invariant forall k :: i <= k < a.Length - i ==> a[k] == old(a[k])
    {
      a[i], a[a.Length - 1 - i] := a[a.Length - 1 - i], a[i];
      i := i + 1;
    }
    MirroredIsReversed(old(a[..]), a[..]);
  }

  /**
   * The counts depend only on which logs there are, not on their order, so
   * the reversal does not change them.
   */
  lemma ReversalKeepsCounts(logs: seq<Log>, t: string)
    ensures Occurrences(Reversed(logs), t) == Occurrences(logs, t)
  {
    FoodTypesReversed(logs);
    ReversedMultiset(FoodTypes(logs));
  }

  /** The food types of the reversed logs are the food types reversed. */
  lemma {:induction false} FoodTypesReversed(logs: seq<Log>)
    ensures FoodTypes(Reversed(logs)) == Reversed(FoodTypes(logs))
  {
    if |logs| > 0 {
      FoodTypesReversed(logs[1..]);
      assert FoodTypes(logs)[1..] == FoodTypes(logs[1..]);
      assert FoodTypes(Reversed(logs[1..]) + [logs[0]]) == FoodTypes(Reversed(logs[1..])) + [logs[0].foodType];
    }
  }

  /**
   * The server appends each new log at the end, so after the reversal the
   * most recently appended log is listed first, whatever its date.
   */
  lemma NewestFirst(stored: seq<Log>, newLog: Log)
    ensures Reversed(stored + [newLog])[0] == newLog
    ensures Reversed(stored + [newLog])[1..] == Reversed(stored)
  {
    ReversedSnoc(stored, newLog);
  }
}
