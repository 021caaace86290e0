/** The `Option` and `Result` types shared by the whole model, and the exceptions it names. */
module Wrappers {

  /** A value that may be absent: Ruby's `nil` or a missing hash key. */
  datatype Option<+T> = None | Some(value: T) {

    /** The wrapped value, or `default` when absent (Ruby's `x || default`). */
    function GetOr(default: T): T {
      match this
      case Some(v) => v
      case None => default
    }
  }

  /** The outcome of a computation that may raise: `Failure` names the exception. */
  datatype Result<+R> = Success(value: R) | Failure(exception: string)

  /** The exception Ruby raises when a method is sent to `nil`. */
  const NoMethodError := "NoMethodError"

  /** The exception ActiveModel raises when a hash names an attribute the model lacks. */
  const UnknownAttributeError := "ActiveModel::UnknownAttributeError"
}
