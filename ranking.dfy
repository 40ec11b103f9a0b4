/**
 * The weekly ranking: one entry per food with its tallies, the three-key
 * order the statistics page sorts the entries into, the in-place sort, and
 * the pyramid, which lists the ranking bottom up with its ranks.
 */
module Ranking {
  import opened Text
  import opened Seqs

  /** A bucket of `aggregateWeek`; `labelText` is its `label` field. */
  datatype RankEntry = RankEntry(id: string, labelText: string, color: string, timesEaten: int, weightedScore: int)

  /** `a.localeCompare(b)` as a sign, with code-point order standing in for the locale's collation. */
  function LabelCompare(a: string, b: string): (order: int)
  {
    if StrLt(a, b) then -1 else if a == b then 0 else 1
  }

  /**
   * The sort's comparator as written: the first nonzero of the score
   * difference, the count difference and the label comparison, as `||`
   * picks it. A negative value puts `a` first.
   */
  function Compare(a: RankEntry, b: RankEntry): (order: int)
  {
    var byScore := b.weightedScore - a.weightedScore;
    var byTimes := b.timesEaten - a.timesEaten;
    if byScore != 0 then byScore
    else if byTimes != 0 then byTimes
    else LabelCompare(a.labelText, b.labelText)
  }

  /**
   * `a` belongs before `b`: a higher weighted score, then more times eaten,
   * then the label in ascending order. This is exactly a negative comparator.
   */
  predicate Before(a: RankEntry, b: RankEntry)
    ensures Before(a, b) <==> Compare(a, b) < 0
  {
    a.weightedScore > b.weightedScore
    || (a.weightedScore == b.weightedScore && a.timesEaten > b.timesEaten)
    || (a.weightedScore == b.weightedScore && a.timesEaten == b.timesEaten && StrLt(a.labelText, b.labelText))
  }

  /** No entry of `s` belongs before an entry ahead of it. */
  predicate Ranked(s: seq<RankEntry>)
  {
    forall i, j :: 0 <= i < j < |s| ==> !Before(s[j], s[i])
  }

  /** Entries the comparator ties: the same score, count and label. */
  predicate Tied(a: RankEntry, b: RankEntry)
  {
    a.weightedScore == b.weightedScore && a.timesEaten == b.timesEaten && a.labelText == b.labelText
  }

  lemma BeforeIrreflexive(a: RankEntry)
    ensures !Before(a, a)
  {
    StrLtIrreflexive(a.labelText);
  }

  lemma BeforeAsymmetric(a: RankEntry, b: RankEntry)
    requires Before(a, b)
    ensures !Before(b, a)
  {
    if a.weightedScore == b.weightedScore && a.timesEaten == b.timesEaten {
      StrLtAsymmetric(a.labelText, b.labelText);
    }
  }

  /** Exactly one of: `a` first, `b` first, or a tie. */
  lemma BeforeTrichotomy(a: RankEntry, b: RankEntry)
    ensures Before(a, b) || Before(b, a) || Tied(a, b)
  {
    if a.weightedScore == b.weightedScore && a.timesEaten == b.timesEaten && a.labelText != b.labelText {
      StrLtTotal(a.labelText, b.labelText);
    }
  }

  lemma BeforeTransitive(a: RankEntry, b: RankEntry, c: RankEntry)
    requires Before(a, b) && Before(b, c)
    ensures Before(a, c)
  {
    if a.weightedScore == c.weightedScore && a.timesEaten == c.timesEaten {
      StrLtTransitive(a.labelText, b.labelText, c.labelText);
    }
  }

  /** "Not before" chains: if `b` is not before `a` and `c` not before `b`, `c` is not before `a`. */
  lemma NotBeforeTransitive(a: RankEntry, b: RankEntry, c: RankEntry)
    requires !Before(b, a) && !Before(c, b)
    ensures !Before(c, a)
  {
    BeforeTrichotomy(a, b);
    BeforeTrichotomy(b, c);
    if Before(c, a) {
      if Before(a, b) {
        BeforeTransitive(c, a, b);
      }
    }
  }

  /**
   * `ranking.sort(...)`: the entries of `a`, rearranged into ranking order
   * by an insertion sort that swaps neighbours only when the later one
   * strictly belongs first.
   */
  method SortRanking(a: array<RankEntry>)
    modifies a
    ensures Ranked(a[..])
    ensures multiset(a[..]) == multiset(old(a[..]))
  {
    var i := 0;
    while i < a.Length
      invariant 0 <= i <= a.Length
      invariant Ranked(a[..i])
      invariant multiset(a[..]) == multiset(old(a[..]))
    {
      SinkLast(a, i);
      i := i + 1;
    }
  }

  /**
   * One insertion step: with `a[..i]` in ranking order, moves `a[i]` down
   * past every entry it belongs before, leaving `a[..i + 1]` in ranking order.
   */
  method SinkLast(a: array<RankEntry>, i: int)
    requires 0 <= i < a.Length && Ranked(a[..i])
    modifies a
    ensures Ranked(a[..i + 1])
    ensures multiset(a[..]) == multiset(old(a[..]))
    ensures a[i + 1..] == old(a[i + 1..])
  {
    var j := i;
    while j > 0 && Before(a[j], a[j - 1])
      invariant 0 <= j <= i
      invariant multiset(a[..]) == multiset(old(a[..]))
      invariant a[i + 1..] == old(a[i + 1..])
      invariant SortedExcept(a[..], i, j) && InFrontOf(a[..], i, j)
    {
      SwapStep(a[..], i, j);
      a[j - 1], a[j] := a[j], a[j - 1];
      j := j - 1;
    }
    SinkDone(a[..], i, j);
  }

  /** The entries up to index `i`, apart from the one at `j`, are in ranking order. */
  predicate SortedExcept(s: seq<RankEntry>, i: int, j: int)
    requires i < |s|
  {
    forall k, l :: 0 <= k < l <= i && k != j && l != j ==> !Before(s[l], s[k])
  }

  /** No entry after index `j`, up to index `i`, belongs before the one at `j`. */
  predicate InFrontOf(s: seq<RankEntry>, i: int, j: int)
    requires 0 <= j <= i < |s|
  {
    forall l :: j < l <= i ==> !Before(s[l], s[j])
  }

  /** Swapping the sinking entry at `j` with the one below it that it belongs before keeps both invariants. */
  lemma SwapStep(s: seq<RankEntry>, i: int, j: int)
    requires 0 < j <= i < |s| && Before(s[j], s[j - 1])
    requires SortedExcept(s, i, j) && InFrontOf(s, i, j)
    ensures var t := s[j - 1 := s[j]][j := s[j - 1]];
      SortedExcept(t, i, j - 1) && InFrontOf(t, i, j - 1)
  {
    BeforeAsymmetric(s[j], s[j - 1]);
  }

  /** Once the sinking entry stops, everything up to index `i` is in ranking order. */
  lemma SinkDone(s: seq<RankEntry>, i: int, j: int)
    requires 0 <= j <= i < |s| && (j == 0 || !Before(s[j], s[j - 1]))
    requires SortedExcept(s, i, j) && InFrontOf(s, i, j)
    ensures Ranked(s[..i + 1])
  {
    forall k, l | 0 <= k < l <= i
      ensures !Before(s[l], s[k])
    {
      if l == j && k < j - 1 {
        NotBeforeTransitive(s[k], s[j - 1], s[j]);
      }
    }
  }

  /** The rank `ranking.length - index` the pyramid shows for its `index`-th tier. */
  function PyramidRank(ranking: seq<RankEntry>, index: int): (rank: int)
  {
    |ranking| - index
  }

  /**
   * The pyramid emits its tiers from `ranking.slice().reverse()`, so its
   * first tier shows rank `|ranking|` and its last, widest tier rank 1. Tier
   * `index` shows the entry whose 1-based position in the ranking is the rank
   * it prints, and no two tiers print the same rank.
   */
  lemma PyramidRankPosition(ranking: seq<RankEntry>, index: int)
    requires 0 <= index < |ranking|
    ensures 1 <= PyramidRank(ranking, index) <= |ranking|
    ensures Reversed(ranking)[index] == ranking[PyramidRank(ranking, index) - 1]
    ensures forall other :: 0 <= other < |ranking| && other != index ==> PyramidRank(ranking, other) != PyramidRank(ranking, index)
  {
    var position := |ranking| - 1 - index;
    assert PyramidRank(ranking, index) - 1 == position;
    ReversedIndex(ranking, index);
  }

  /**
   * The last tier the pyramid emits, its base, shows rank 1: the ranking's
   * first entry, which no entry belongs before.
   */
  lemma PyramidBase(ranking: seq<RankEntry>)
    requires Ranked(ranking) && |ranking| > 0
    ensures var base := Reversed(ranking)[|ranking| - 1];
      PyramidRank(ranking, |ranking| - 1) == 1 && base == ranking[0] && forall e :: e in ranking ==> !Before(e, base)
  {
    ReversedIndex(ranking, |ranking| - 1);
    forall e | e in ranking
      ensures !Before(e, ranking[0])
    {
      var k :| 0 <= k < |ranking| && ranking[k] == e;
      if k == 0 {
        BeforeIrreflexive(e);
      }
    }
  }
}
