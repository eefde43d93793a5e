/** Small value types shared by the two pallets: an optional value and the
    result a dispatchable call returns. */
module Support {

  /** A value that may be missing (Rust's `Option`). */
  datatype Option<+T> = None | Some(value: T)

  /** A value or the error that prevented computing it (Rust's `Result`). */
  datatype Result<+T, +E> = Success(value: T) | Failure(error: E)

  /** What a dispatchable returns: `Ok(())` or the error that aborted it.
      An aborted call commits none of its storage writes. */
  datatype DispatchResult<+E> = Ok | Err(error: E)

  /** Looks a key up in a storage map; a missing key reads as `None`. */
  function Get<K, V>(m: map<K, V>, k: K): (r: Option<V>)
    ensures r.Some? <==> k in m
    ensures r.Some? ==> r.value == m[k]
  {
    if k in m then Some(m[k]) else None
  }
}
