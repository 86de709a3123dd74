/** Option and Result, the two failure-carrying values the game code passes around. */
module Wrappers {

  /** Rust's `Option<T>`. */
  datatype Option<+T> = None | Some(value: T)

  /** Rust's `Result<T, String>`: every error of the game is a message string. */
  datatype Result<+T> = Ok(value: T) | Err(error: string)

  /** `map.get(key)` on a map. */
  function Get<K, V>(m: map<K, V>, k: K): (r: Option<V>)
    ensures r.Some? <==> k in m
    ensures r.Some? ==> r.value == m[k]
  {
    if k in m then Some(m[k]) else None
  }
}
