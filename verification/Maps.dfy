/** BPF hash maps as the programs see them. */
module Maps {
  datatype Option<+T> = None | Some(value: T)

  /** A lookup in a BPF hash map: a null pointer is None. */
  function Lookup<K, V>(m: map<K, V>, k: K): Option<V> {
    if k in m then Some(m[k]) else None
  }
}
