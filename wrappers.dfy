/** Option and Result, the two wrappers the rest of the model returns. */
module Wrappers {

  datatype Option<+T> = None | Some(value: T)
  {
    function GetOr(default: T): T
    {
      match this
      case Some(v) => v
      case None => default
    }
  }

  /** A Python call that either returns a value or raises the exception described by `error`. */
  datatype Result<+T, +E> = Ok(value: T) | Err(error: E)
}
