/** Option and Result values, used for Java's nullable references and for
    operations that throw IllegalArgumentException. */
module Wrappers {
  datatype Option<T> = None | Some(value: T)

  /** The one exception kind the modelled classes throw. */
  datatype Error = IllegalArgument

  datatype Result<T> = Ok(value: T) | Err(error: Error)

  /** HashMap.get: the value stored under k, or null. */
  function Get<K, V>(m: map<K, V>, k: K): (r: Option<V>)
    ensures r.Some? <==> k in m
    ensures r.Some? ==> r.value == m[k]
  {
    if k in m then Some(m[k]) else None
  }
}
