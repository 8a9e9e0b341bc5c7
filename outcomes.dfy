/** Optional values and the broker's error results. The source reports every
    failure as a human-readable string; the model keeps only the kind. */
module Outcomes {

  datatype Option<+T> = None | Some(value: T) {
    /** The wrapped value, or `default` when there is none (Rust's `unwrap_or`). */
    function GetOr(default: T): T {
      match this
      case Some(v) => v
      case None => default
    }
  }

  /** The failures the broker reports, one per situation the source detects. */
  datatype ErrorKind =
    | AlreadyExists      // a queue with that name is already registered
    | NotFound           // no queue with that name is registered
    | AlreadySubscriber  // `sub` by a client that already subscribes
    | NotSubscriber      // `unsub` by a client that does not subscribe
    | AlreadyPublisher   // `add_publisher` for a client that already publishes
    | NotPublisher       // `remove_publisher` or `push` by a client that does not publish

  datatype Result<+T> = Ok(value: T) | Err(error: ErrorKind)
}
