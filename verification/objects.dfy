/**
 * Plain JavaScript objects with string keys, as the screens use them for their
 * per-room state (`{ quarto: 0, sala: 0 }`, `{ ...prev, [room]: v }`, `obj[k] = v`).
 * Besides the key/value map, an object remembers the order in which its keys were
 * first inserted: that is the order in which `Object.keys` lists them.
 */
module Objects {
  import opened Wrappers

  datatype Dict<V> = Dict(keys: seq<string>, vals: map<string, V>)

  /** The representation invariant: `keys` lists every key of `vals` exactly once. */
  ghost predicate Valid<V>(d: Dict<V>) {
    && (forall i, j :: 0 <= i < j < |d.keys| ==> d.keys[i] != d.keys[j])
    && (forall k :: k in d.vals <==> k in d.keys)
  }

  /** The object with no keys, `{}`. */
  function Empty<V>(): (r: Dict<V>)
    ensures Valid(r) && r.keys == [] && r.vals == map[]
  {
    Dict([], map[])
  }

  /** Property read `d[k]`; `None` is `undefined`. */
  function Get<V>(d: Dict<V>, k: string): (r: Option<V>)
    ensures r.Some? <==> k in d.vals
    ensures r.Some? ==> r.value == d.vals[k]
  {
    if k in d.vals then Some(d.vals[k]) else None
  }

  /**
   * Property assignment `d[k] = v`, also the copy `{ ...d, [k]: v }`: `k` now holds `v`,
   * every other key keeps its value, an existing key keeps its position and a new key
   * is listed last.
   */
  function Put<V>(d: Dict<V>, k: string, v: V): (r: Dict<V>)
    ensures Valid(d) ==> Valid(r)
    ensures Get(r, k) == Some(v)
    ensures forall j :: j != k ==> Get(r, j) == Get(d, j)
    ensures r.keys == if k in d.vals then d.keys else d.keys + [k]
  {
    Dict(if k in d.vals then d.keys else d.keys + [k], d.vals[k := v])
  }
}
