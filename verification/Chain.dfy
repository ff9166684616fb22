/** Values every part of the model shares. */
module Chain {

  type Address = nat
  /** A 32-byte word; 0 is the empty hash. */
  type Hash = nat

  datatype Slot = Slot(addr: Address, key: Hash)

  datatype Option<T> = None | Some(value: T)

  function Get<K, V>(m: map<K, V>, k: K, default: V): V {
    if k in m then m[k] else default
  }
}
