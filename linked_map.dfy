/**
 * An insertion-ordered map, as java.util.LinkedHashMap: `keys` lists the keys
 * in the order they were first put, `entries` holds the values.
 */
module LinkedMaps {
  import opened Sequences

  datatype LinkedMap<K(!new), V> = LinkedMap(keys: seq<K>, entries: map<K, V>) {

    ghost predicate Valid()
    {
      Distinct(keys) && entries.Keys == (set k | k in keys)
    }
  }

  function Empty<K(!new), V>(): (m: LinkedMap<K, V>)
    ensures m.Valid() && m.keys == [] && m.entries == map[]
  {
    LinkedMap([], map[])
  }

  /**
   * LinkedHashMap.put: a new key goes to the end of the iteration order,
   * an existing key keeps its place and gets the new value.
   */
  function Put<K(!new), V>(m: LinkedMap<K, V>, k: K, v: V): (r: LinkedMap<K, V>)
    requires m.Valid()
    ensures r.Valid()
    ensures r.entries == m.entries[k := v]
    ensures r.keys == if k in m.entries then m.keys else m.keys + [k]
  {
    if k in m.entries then LinkedMap(m.keys, m.entries[k := v])
    else LinkedMap(m.keys + [k], m.entries[k := v])
  }
}
