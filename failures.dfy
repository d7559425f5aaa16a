/** The ways an action ends other than by returning its result. */
module Failures {
  import Validator

  /** The exception an action raises. */
  datatype Failure =
    /** A `ValidationError` because the identifier is missing or empty. */
    | MissingId
    /** `NotAuthorized` from the access check. */
    | NotAuthorized
    /** `ObjectNotFound`: no such record, or the platform found no such object. */
    | NotFound
    /** A `ValidationError` from the validator, with its error dictionary. */
    | Invalid(errors: Validator.Errors)
    /** The `ValidationError` of closing a request that is already closed. */
    | AlreadyClosed
    /** The `ValidationError` of following a request the user already follows. */
    | AlreadyFollowing
    /** The `ObjectNotFound` of unfollowing a request the user does not follow. */
    | NotFollowing
    /** The `ValidationError` of the creation throttle, with the minutes to wait. */
    | TooManyRequests(minutes: int)
    /** Any other exception: a `TypeError`, `KeyError` or `AttributeError`, or a
        failure of the platform's own services. */
    | Crashed

  datatype Result<T> = Ok(value: T) | Fail(failure: Failure)
}
