/**
 * Sequences without repeats, and sequence reversal, the
 * `Array.prototype.reverse` both statistics pages rely on: the pyramid lists
 * the ranking bottom up, and the server-backed statistics page lists its
 * fetched logs in reverse.
 */
module Seqs {
  /** No element of `s` appears twice. */
  predicate Distinct<T(==)>(s: seq<T>)
  {
    forall i, j :: 0 <= i < j < |s| ==> s[i] != s[j]
  }

  /** `s` reversed: its last element first. */
  function Reversed<T>(s: seq<T>): (r: seq<T>)
    ensures |r| == |s|
  {
    if |s| == 0 then [] else Reversed(s[1..]) + [s[0]]
  }

  /** The element at index `i` of the reversed sequence is the one `i` places from the end. */
  lemma {:induction false} ReversedIndex<T>(s: seq<T>, i: int)
    requires 0 <= i < |s|
    ensures Reversed(s)[i] == s[|s| - 1 - i]
  {
    if i < |s| - 1 {
      ReversedIndex(s[1..], i);
    }
  }

  /** A sequence that holds `s`'s elements mirrored end to end is `s` reversed. */
  lemma MirroredIsReversed<T>(s: seq<T>, r: seq<T>)
    requires |r| == |s| && forall k :: 0 <= k < |s| ==> r[k] == s[|s| - 1 - k]
    ensures r == Reversed(s)
  {
    forall k | 0 <= k < |s|
      ensures r[k] == Reversed(s)[k]
    {
      ReversedIndex(s, k);
    }
  }

  /** Reversal only reorders: it keeps every element with its multiplicity. */
  lemma {:induction false} ReversedMultiset<T>(s: seq<T>)
    ensures multiset(Reversed(s)) == multiset(s)
  {
    if |s| > 0 {
      ReversedMultiset(s[1..]);
      assert s == [s[0]] + s[1..];
    }
  }

  /** Reversing a sequence with `x` appended puts `x` first. */
  lemma {:induction false} ReversedSnoc<T>(s: seq<T>, x: T)
    ensures Reversed(s + [x]) == [x] + Reversed(s)
  {
    if |s| > 0 {
      assert (s + [x])[1..] == s[1..] + [x];
      ReversedSnoc(s[1..], x);
    } else {
      assert (s + [x])[1..] == [];
    }
  }
}
