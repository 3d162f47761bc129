// Option and Result, the two failure-carrying values the model uses:
// Option stands for a JavaScript value that may be `undefined` (or a number
// that may be NaN), Result for an operation that may throw.
module Wrappers {

  datatype Option<+T> = None | Some(value: T)

  datatype Result<+T, +E> = Ok(value: T) | Err(error: E)

  /** Dictionary lookup that yields `undefined` (None) for a missing key. */
  function Get<K, V>(m: map<K, V>, k: K): (r: Option<V>)
    ensures r.Some? <==> k in m
    ensures r.Some? ==> r.value == m[k]
  {
    if k in m then Some(m[k]) else None
  }
}
