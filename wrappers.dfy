/** Optional values and results, used for the empty schedule slots and for the
    outcomes of the database and chat calls. */
module Wrappers {

  datatype Option<+T> = None | Some(value: T)

  datatype Result<+T, +E> = Ok(value: T) | Err(error: E)
}
