/** Shared wrapper types. */
module Common {

  datatype Option<+T> = None | Some(value: T)

  /** Value stored under a key, as a read of one file sees it. */
  function Get<K, V>(m: map<K, V>, k: K): Option<V> {
    if k in m then Some(m[k]) else None
  }
}
