/** The Option and Result types used by the validator. */
module Wrappers {

  /** A value that may be absent: JavaScript's `null`/`undefined` made explicit. */
  datatype Option<+T> = None | Some(value: T)

  /** The outcome of a validation pass: a normalised value or an error description. */
  datatype Result<+R, +E> = Success(value: R) | Failure(error: E)

  /** Looks a key up in a map, turning a missing key into `None`. */
  function Lookup<K, V>(m: map<K, V>, k: K): (r: Option<V>)
    ensures r.Some? <==> k in m
    ensures r.Some? ==> m[k] == r.value
  {
    if k in m then Some(m[k]) else None
  }
}
