/** Small failure-carrying datatypes shared by the modules of this model.
    `Option` stands for a Java reference that may be null; `Result` stands
    for a call that either returns normally or throws. */
module Wrappers {

  datatype Option<+T> = None | Some(value: T)

  datatype Result<+T, +E> = Success(value: T) | Failure(error: E)
}
