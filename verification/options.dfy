/** Failure-carrying values used across the model.

    JavaScript produces `NaN` or `undefined` where a number cannot be
    computed (a division by a zero count, the median of nothing, `Number`
    of a non-numeric string).  The model never computes with such a value:
    it is `None`, and a thrown exception is a `Failure`.
 */
module Options {

  /** A value that may be absent (`undefined` or `NaN` in the source). */
  datatype Option<+T> = None | Some(value: T) {

    /** The wrapped value, or `default` when absent (the `??` operator). */
    function GetOr(default: T): T {
      match this
      case Some(v) => v
      case None => default
    }
  }

  /** A computation that either returns a value or throws. */
  datatype Result<+R, +E> = Success(value: R) | Failure(error: E)
}
