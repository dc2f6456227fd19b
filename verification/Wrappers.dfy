/** Optional values (a missing dictionary entry, an absent header or form field, Python's None)
    and dictionaries, as values and as shared objects. */
module Wrappers {
  datatype Option<+T> = None | Some(value: T)

  function Lookup<K, V>(m: map<K, V>, k: K): (r: Option<V>)
  {
    if k in m then Some(m[k]) else None
  }

  /** `m.get(k, d)` */
  function GetOr<K, V>(m: map<K, V>, k: K, d: V): V {
    if k in m then m[k] else d
  }

  /** A dictionary filled pair by pair: a later pair replaces an earlier one of the same key. */
  function FromPairs<K, V>(pairs: seq<(K, V)>): map<K, V> {
    if pairs == [] then map[] else FromPairs(pairs[..|pairs| - 1])[pairs[|pairs| - 1].0 := pairs[|pairs| - 1].1]
  }

  lemma FromPairsSnoc<K, V>(pairs: seq<(K, V)>, k: K, v: V)
    ensures FromPairs(pairs + [(k, v)]) == FromPairs(pairs)[k := v]
  {
  }

  /** A dictionary object: callers share it and see each other's updates. */
  class Dict<V> {
    var m: map<string, V>

    constructor (m: map<string, V>)
      ensures this.m == m
    {
      this.m := m;
    }

    /** `clear()` followed by `update(n)`. */
    method Refill(n: map<string, V>)
      modifies this
      ensures m == n
    {
      m := map[];
      m := m + n;
    }
  }
}
