/** Optional values and results with an error, shared by every module of the model. */
module Wrappers {

  /** A value that may be missing; Java's null and Python's None become None. */
  datatype Option<+T> = None | Some(value: T)

  /** The outcome of an operation that can throw: Err carries what was thrown. */
  datatype Result<+T, +E> = Ok(value: T) | Err(error: E) {
    predicate IsFailure() { Err? }

    function PropagateFailure<U>(): Result<U, E>
      requires Err?
    {
      Err(error)
    }

    function Extract(): T
      requires Ok?
    {
      value
    }
  }

  /** HashMap.get: the value stored under k, None (null) when there is none. */
  function Get<K, V>(m: map<K, Option<V>>, k: K): (r: Option<V>)
    ensures k !in m ==> r.None?
    ensures k in m ==> r == m[k]
  {
    if k in m then m[k] else None
  }
}
