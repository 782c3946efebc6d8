/** Failure-carrying datatypes and the registry's three error kinds.

    The service throws one of three `Error` subclasses (src/service.ts:144-162);
    here a thrown error becomes the `Failure` arm of a `Result` and the
    subclass becomes an `Error` tag. Message texts are not modelled, except
    that `InvalidArgument` names what was missing.
 */
module Errors {

  /** `undefined` / absent, or a present value. */
  datatype Option<+T> = None | Some(value: T)

  /** A value, or the error an operation rejected with. */
  datatype Result<+T> = Success(value: T) | Failure(error: Error)

  /** A check that either passes or rejects with an error. */
  datatype Outcome = Pass | Fail(error: Error)

  /** The error tags of the service. `subject` is the name of the missing
      field (validation) or "query" (a null search query). */
  datatype Error =
    | InvalidArgument(subject: string)
    | NotFound
    | StateConflict
}
