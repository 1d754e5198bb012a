/** Option and Result, used for the scripts' "nothing found" answers and for
    the exceptions they raise or rethrow. */
module Wrappers {

  datatype Option<+T> = None | Some(value: T)

  datatype Result<+T, +E> = Ok(value: T) | Err(error: E)
}
