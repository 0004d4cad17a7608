/** Optional values (JavaScript `null` / `undefined`) and results that may fail
    (a handler invocation that throws). */
module Wrappers {

  datatype Option<+T> = None | Some(value: T)

  datatype Result<+T, +E> = Ok(value: T) | Err(error: E)
}
