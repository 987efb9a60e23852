/** Result type used wherever the PHP code throws: a thrown exception becomes `Err`. */
module Wrappers {

  datatype Result<+T, +E> = Ok(value: T) | Err(error: E)
}
