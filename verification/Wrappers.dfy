/** The two failure-carrying types used across the model. `Failure` stands for
    a C++ exception or an error return, `None` for an empty std::optional. */
module Wrappers {

  datatype Option<+T> = None | Some(value: T)

  datatype Result<+T, +E> = Success(value: T) | Failure(error: E)
}
