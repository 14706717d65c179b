/** Option and Result values for the error paths of the recommender script.
    The error constructors are named after the Python exceptions the script raises. */
module Wrappers {

  datatype Option<+T> = None | Some(value: T)

  /** IndexError: a missing field or list element (`b[1]`, `collect()[0]`, `top5[i]`).
      ValueError: `int()` of a non-integer text, or `reduce()` of an empty collection.
      ZeroDivisionError: a division by a zero count. */
  datatype Error = IndexError | ValueError | ZeroDivisionError

  datatype Result<+T> = Ok(value: T) | Err(error: Error)
}
