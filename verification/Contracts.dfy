/** Result types shared by the whole model. A C++ exception is a Failure, and an empty std::optional is None. */
module Contracts {

  datatype Option<+T> = None | Some(value: T) {
    function GetOr(default: T): T {
      match this
      case Some(v) => v
      case None => default
    }
  }

  /** The exception classes that the code could let escape. */
  datatype Violation =
    | FrameContractViolation
    | NumericContractViolation
    | UnapprovedTwistSemantics
    | OutOfRange         // std::unordered_map::at on a missing key
    | BadOptionalAccess  // reading an empty optional
    | InvalidArgument    // std::invalid_argument, from the gate's constructor

  datatype Result<+T> = Success(value: T) | Failure(error: Violation) {
    predicate IsFailure() {
      Failure?
    }

    function PropagateFailure<U>(): Result<U>
      requires Failure?
    {
      Failure(error)
    }

    function Extract(): T
      requires Success?
    {
      value
    }
  }
}
