/** The Option and Result types shared by every module of the model. */
module Wrappers {

  /** A value that may be missing: pandas' NaN cell, or Python's implicit `None` return. */
  datatype Option<+T> = None | Some(value: T)

  /** The outcome of an operation that raises a Python exception on some inputs. */
  datatype Result<+T> = Ok(value: T) | Err(error: string)
}
