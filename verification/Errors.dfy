/** Errors as callers can tell them apart; their wording is abstract. */
module Errors {
  /** The reasons of API status errors that the code inspects. */
  datatype Status = NotFound | AlreadyExists | Conflict | Forbidden | OtherStatus

  datatype Error =
    | Api(status: Status)
    | NoMatch                       // the kind is not served
    | Discovery                     // discovery failed, or the kind is not in its answer
    | Panicked
    | ContextDone(deadline: bool)   // context.DeadlineExceeded or context.Canceled
    | LateSuccess                   // a success noticed only after the deadline
    | Invalid                       // an unusable test file
    | Wrapped(inner: Error)         // fmt.Errorf with %w

  function Innermost(e: Error): Error
  {
    if e.Wrapped? then Innermost(e.inner) else e
  }

  /** apierrors.IsNotFound and its siblings look through wrapping. */
  predicate Has(e: Error, status: Status)
  {
    Innermost(e) == Api(status)
  }

  /** errors.Is(err, context.DeadlineExceeded). */
  predicate IsDeadline(e: Error)
  {
    Innermost(e) == ContextDone(true)
  }
}
