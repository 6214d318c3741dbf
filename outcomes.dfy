/** Failure values shared by the board model and the search node. */
module Outcomes {

  /** The Java exceptions the core can raise. */
  datatype Error =
    | IllegalArgument        // IllegalArgumentException from the board's constructor checks
    | ArrayIndexOutOfBounds  // more than five anchors overrun the five-slot array
    | NoSuchElement          // a second iterator.next() on a one-entry map

  datatype Option<T> = None | Some(value: T)

  datatype Result<T> = Success(value: T) | Failure(error: Error)
}
