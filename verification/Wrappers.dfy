/** The Some/None datatype used for absent values throughout the model. */
module Wrappers {
  datatype Option<+T> = None | Some(value: T)

  /** Map lookup that answers None for an absent key. */
  function Lookup<K, V>(m: map<K, V>, k: K): (r: Option<V>) {
    if k in m then Some(m[k]) else None
  }
}
