/** Optional values and success-or-error results, standing in for Swift's
    optionals and for initialisers and methods that `throw`. */
module Wrappers {

  datatype Option<+T> = None | Some(value: T)

  datatype Result<+T, +E> = Ok(value: T) | Err(error: E)
}
