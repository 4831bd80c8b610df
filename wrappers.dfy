/** Failure-carrying result types shared by the two downloader models. */
module Wrappers {

  datatype Option<+T> = None | Some(value: T)

  /** The outcome of a call into a library that may raise: the value, or the exception's text. */
  datatype Result<+R> = Success(value: R) | Failure(error: string)
}
