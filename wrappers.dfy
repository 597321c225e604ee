/** Failure-carrying wrappers: a thrown JavaScript error becomes `Err`, an absent value `None`. */
module Wrappers {

  datatype Option<+T> = None | Some(value: T)

  datatype Result<+T, +E> = Ok(value: T) | Err(error: E)
}
