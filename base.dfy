/** Small value wrappers shared by the model: Swift's `Optional` and `Result`,
    and `Outcome`, which records whether a call returned or reached a runtime
    trap (`fatalError()`, an out-of-range array subscript) that aborts the
    process. */
module Base {

  datatype Option<+T> = None | Some(value: T) {
    function GetOr(default: T): T {
      match this
      case Some(v) => v
      case None => default
    }
  }

  datatype Result<+R, +E> = Success(value: R) | Failure(error: E)

  /** The result of a call that may abort the program instead of returning. */
  datatype Outcome<+T> = Returned(value: T) | Trapped
}
