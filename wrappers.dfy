/** Option and Result: `None` returns such as `compute_audit_hash()`'s, and raised exceptions such as `KeyError` and `TypeError`, as values. */
module Wrappers {

  datatype Option<+T> = None | Some(value: T)

  datatype Result<+T, +E> = Ok(value: T) | Err(error: E)
}
