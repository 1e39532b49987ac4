/** Small datatypes every other module uses. */
module Prelude {

  datatype Option<+T> = None | Some(value: T)

  datatype Result<+T, +E> = Ok(value: T) | Err(error: E)

  /** The row a table holds under a key, if any. */
  function Lookup<K, V>(table: map<K, V>, key: K): Option<V> {
    if key in table then Some(table[key]) else None
  }

  /** The table after the row under a key is replaced, inserted or removed. */
  function Put<K(!new), V>(table: map<K, V>, key: K, row: Option<V>): (after: map<K, V>)
    ensures Lookup(after, key) == row
    ensures forall k :: k != key ==> Lookup(after, k) == Lookup(table, k)
  {
    match row
    case Some(v) => table[key := v]
    case None => table - {key}
  }
}
