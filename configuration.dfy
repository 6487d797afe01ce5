/** The Configuration table: one row per setting. */
module Configuration {

  import opened Records
  import opened Tables

  /** The rows as displayed: `item.key` and `item.value` of every item. */
  function Rows(config: Record<string>): (rows: seq<(string, string)>)
    ensures rows == config
  {
    var items := Items(config);
    var rows := seq(|items|, i requires 0 <= i < |items| => (items[i].key, items[i].value));
    assert forall i :: 0 <= i < |rows| ==> rows[i] == config[i];
    rows
  }
}
