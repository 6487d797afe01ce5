/**
 * The key/value tables of an extension's details: the `items` both tables
 * build from `Object.entries` with a `reduce` that appends one pair per entry.
 */
module Tables {

  import opened Records

  datatype KeyValuePair<V> = KeyValuePair(key: string, value: V)

  /** The reduce `(previous, [key, value]) => [...previous, { key, value }]` over `entries`, from `previous`. */
  function AppendPairs<V>(previous: seq<KeyValuePair<V>>, entries: Record<V>): (r: seq<KeyValuePair<V>>)
    decreases |entries|
    ensures |r| == |previous| + |entries|
    ensures r[..|previous|] == previous
    ensures forall i :: 0 <= i < |entries| ==> r[|previous| + i] == KeyValuePair(entries[i].0, entries[i].1)
  {
    if |entries| == 0 then previous
    else
      var r := AppendPairs(previous + [KeyValuePair(entries[0].0, entries[0].1)], entries[1..]);
      assert forall i :: 1 <= i < |entries| ==> entries[i] == entries[1..][i - 1];
      r
  }

  /** `items`: one pair per entry, in entry order, key and value unchanged. */
  function Items<V>(entries: Record<V>): (items: seq<KeyValuePair<V>>)
    ensures |items| == |entries|
    ensures forall i :: 0 <= i < |entries| ==> items[i] == KeyValuePair(entries[i].0, entries[i].1)
  {
    AppendPairs([], entries)
  }
}
