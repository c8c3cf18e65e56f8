/** Option and Result types shared by every module, and the error the source raises. */
module Wrappers {

  datatype Option<+T> = None | Some(value: T)

  /** The Python exception classes the core raises, with the message it gives. */
  datatype Error =
    | ValueError(message: string)
    | RuntimeError(message: string)
    | TypeError(message: string)
    | AttributeError(message: string)
    | OverflowError(message: string)
    | AnalysisError(message: string)

  datatype Result<+T> = Ok(value: T) | Err(error: Error)
}
