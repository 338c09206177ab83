/** Failure-carrying values shared by the modules of the model: a Python
    function that either returns a value or raises becomes a function that
    returns a `Result`. */
module Wrappers {

  datatype Option<+T> = None | Some(value: T)

  datatype Result<+T, +E> = Ok(value: T) | Err(error: E)
}
