/** Optional values and error returns, standing in for Go's `(value, error)` pairs. */
module Wrappers {

  datatype Option<+T> = None | Some(value: T)

  /** `Ok` carries the value of a call that returned a nil error, `Err` the error. */
  datatype Result<+T, +E> = Ok(value: T) | Err(error: E)

  /** Go's map lookup `m[k]`: the stored value, or the zero value `default` when `k` is absent. */
  function Lookup<K, V>(m: map<K, V>, k: K, default: V): V
  {
    if k in m then m[k] else default
  }
}
