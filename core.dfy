/**
 * Shared building blocks of the domain layer: the optional value, the
 * two-sided `Either` result every use case returns, entity identifiers and
 * instants of time.
 */
module Core {

  /** A value that may be absent (`undefined` / `null` in the source). */
  datatype Option<+T> = None | Some(value: T) {

    /** The value, or `default` when absent: the `??` operator. */
    function GetOr(default: T): T {
      match this
      case Some(v) => v
      case None => default
    }
  }

  /**
   * Failure-or-success: `Left` carries an expected business failure,
   * `Right` the successful value. Exactly one side is populated.
   */
  datatype Either<+L, +R> = Left(left: L) | Right(right: R)

  /** An opaque entity identifier; two identifiers are equal iff their values are. */
  datatype UniqueEntityID = UniqueEntityID(value: string) {

    function ToString(): string { value }
  }

  /** A point in time as read from the clock (milliseconds); only stored and compared. */
  type Instant = int
}
