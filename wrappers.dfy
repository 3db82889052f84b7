/** Option and Result, used for regex matches that may fail and for the
    TypeErrors the parser throws on a document that does not fit its template. */
module Wrappers {

  datatype Option<+T> = None | Some(value: T)

  datatype Result<+R, +E> = Success(value: R) | Failure(error: E)
}
