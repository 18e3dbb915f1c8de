/** Small containers shared by every module. */
module Wrappers {
  datatype Option<+T> = None | Some(value: T)

  /** A value, or the exception thrown instead of it. */
  datatype Result<+R, +E> = Success(value: R) | Failure(error: E) {

    predicate IsFailure() {
      Failure?
    }

    function PropagateFailure<U>(): Result<U, E>
      requires Failure?
    {
      Failure(error)
    }

    function Extract(): R
      requires Success?
    {
      value
    }
  }

  /** Looking a row up by its key. */
  function Lookup<K, V>(m: map<K, V>, k: K): Option<V> {
    if k in m then Some(m[k]) else None
  }

  function Abs(n: int): nat {
    if n < 0 then -n else n
  }
}
