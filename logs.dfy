/**
 * The items of the tracker's day logs. A day log maps a date text to its
 * meals, a meal name to its list of items. Early versions of the tracker
 * stored an item as the bare food id; later ones store an object with the id
 * and the portion chosen on drop, whose portion may be missing.
 */
module Logs {
  import opened Wrappers

  datatype Item =
    | Legacy(id: string)                          // a bare id string
    | Entry(id: string, portion: Option<string>)  // `{ id, portion }`

  /** The day logs: date text to meal name to the meal's items. */
  type Store = map<string, map<string, seq<Item>>>

  /** The portion every legacy item stands for. */
  const PlatePortion: string := "plate"

  /** A bare id becomes `{ id, portion: 'plate' }`; an object item is kept as it is. */
  function Normalize(item: Item): (r: Item)
    ensures r.Entry? && r.id == item.id
    ensures item.Entry? ==> r == item
    ensures item.Legacy? ==> r.portion == Some(PlatePortion)
  {
    match item
    case Legacy(id) => Entry(id, Some(PlatePortion))
    case Entry(_, _) => item
  }

  /** `items.map(...)` with the normalization of the storage migration. */
  function NormalizeAll(items: seq<Item>): (r: seq<Item>)
    ensures |r| == |items|
  {
    seq(|items|, i requires 0 <= i < |items| => Normalize(items[i]))
  }
}
