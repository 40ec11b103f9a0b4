/**
 * Optional values, JavaScript's `null`/`undefined` next to a present value,
 * and lookups in the constant tables the pages declare as object or array
 * literals, kept as lists of key/value pairs in declaration order.
 */
module Wrappers {

  datatype Option<T> = None | Some(value: T)

  /** The value of the first pair with key `key`, or `None` when no pair has it. */
  function Lookup<V>(entries: seq<(string, V)>, key: string): (found: Option<V>)
  {
    if |entries| == 0 then None
    else if entries[0].0 == key then Some(entries[0].1)
    else Lookup(entries[1..], key)
  }

  /** A found value comes from a pair of the table with the key looked up. */
  lemma {:induction false} LookupFound<V>(entries: seq<(string, V)>, key: string)
    ensures Lookup(entries, key).Some? ==> (key, Lookup(entries, key).value) in entries
  {
    if |entries| > 0 && entries[0].0 != key {
      LookupFound(entries[1..], key);
    }
  }

  /** A key that no pair has is not found, and a key some pair has is. */
  lemma {:induction false} LookupMissing<V>(entries: seq<(string, V)>, key: string)
    ensures Lookup(entries, key).None? <==> forall i :: 0 <= i < |entries| ==> entries[i].0 != key
  {
    if |entries| > 0 && entries[0].0 != key {
      LookupMissing(entries[1..], key);
      assert forall i :: 1 <= i < |entries| ==> entries[i].0 == entries[1..][i - 1].0;
    }
  }
}
