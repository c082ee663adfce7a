/** The one shared wrapper: a value that may be absent. */
module Options {
  datatype Option<+T> = None | Some(value: T)

  /** What a map holds under a key. */
  function Get<K, V>(m: map<K, V>, k: K): Option<V> {
    if k in m then Some(m[k]) else None
  }
}
