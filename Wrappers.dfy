/** Optional values and results, standing in for PHP's nullable values and exceptions. */
module Wrappers {

  /** A nullable value: `Nothing` is PHP's `null`. */
  datatype Option<+T> = Nothing | Some(value: T)

  /** The outcome of an operation that may throw: `Err` carries the exception. */
  datatype Result<+T, +E> = Ok(value: T) | Err(error: E)

  /** The outcome of an operation that returns nothing but may throw. */
  datatype Outcome<+E> = Pass | Fail(error: E)

  /** The value at `k`, or `Nothing` when `k` is absent (PHP's `$array[$k] ?? null`). */
  function Get<K, V>(m: map<K, V>, k: K): (r: Option<V>)
    ensures r.Some? <==> k in m
    ensures r.Some? ==> r.value == m[k]
  {
    if k in m then Some(m[k]) else Nothing
  }
}
