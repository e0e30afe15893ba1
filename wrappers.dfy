/** Option and Result values, the Dafny counterparts of fp-ts's Option and Either. */
module Wrappers {

  datatype Option<+T> = None | Some(value: T)

  datatype Result<+T, +E> = Success(value: T) | Failure(error: E)
}
