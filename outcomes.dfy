/** Optional values and the outcomes the handlers answer with: success, or
    one of the error kinds the controllers reply (`notFound`, `conflict`,
    `forbidden`, `badImplementation`). */
module Outcomes {

  datatype Option<T> = None | Some(value: T)
  {
    function GetOr(default: T): T
    {
      match this
      case Some(v) => v
      case None => default
    }
  }

  /** The reply kind of a handler: `Ok` for a success reply, `Internal` for
      the `badImplementation` catch-all. */
  datatype Outcome = Ok | NotFound | Conflict | Forbidden | Internal

  /** A reply that carries a value on success. */
  datatype Result<T> = Success(value: T) | Failure(error: Outcome)
}
