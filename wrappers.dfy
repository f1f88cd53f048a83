/** Failure-carrying values used in place of JavaScript's `undefined` and `throw`. */
module Wrappers {

  /** A value that may be absent (`undefined` in the source). */
  datatype Option<+T> = None | Some(value: T)

  /** The result of an operation that either returns a value or throws. */
  datatype Result<+R, +E> = Success(value: R) | Failure(error: E)

  /** The result of an operation that returns nothing or throws. */
  datatype Outcome<+E> = Pass | Fail(error: E)

  /**
   * `m.get(k)` on a JavaScript Map, or `obj[k]` on a plain object for a key
   * that is not an inherited property name: `undefined` when absent.
   */
  function Lookup<K, V>(m: map<K, V>, k: K): Option<V>
  {
    if k in m then Some(m[k]) else None
  }
}
