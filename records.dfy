/**
 * A JavaScript object used as a dictionary, seen as the sequence of its
 * `[key, value]` pairs in `Object.entries` order.
 */
module Records {

  import opened Wrappers

  type Record<V> = seq<(string, V)>

  /** `Object.values(r)`. */
  function Values<V>(r: Record<V>): (vs: seq<V>)
    ensures |vs| == |r|
    ensures forall i :: 0 <= i < |r| ==> vs[i] == r[i].1
  {
    if |r| == 0 then [] else [r[0].1] + Values(r[1..])
  }

  /** `r[key]`: the value stored under `key`, or `undefined`. */
  function Lookup<V>(r: Record<V>, key: string): (v: Option<V>)
    ensures v.None? <==> forall i :: 0 <= i < |r| ==> r[i].0 != key
    ensures v.Some? ==> exists i :: 0 <= i < |r| && r[i] == (key, v.value)
  {
    if |r| == 0 then None
    else if r[0].0 == key then Some(r[0].1)
    else
      var v := Lookup(r[1..], key);
      assert v.Some? ==> exists i :: 0 <= i < |r[1..]| && r[1..][i] == (key, v.value);
      v
  }
}
