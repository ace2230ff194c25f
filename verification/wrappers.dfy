/** Failure-carrying values shared by every handler of the model. */
module Wrappers {

  datatype Option<+T> = None | Some(value: T) {
    function GetOr(default: T): T {
      match this
      case Some(v) => v
      case None => default
    }

    /** This value when present, otherwise `other`: a field an update leaves out keeps its value. */
    function Or(other: Option<T>): Option<T> {
      if Some? then this else other
    }
  }

  /**
   * How a request ends when it does not end well.  The source signals errors by
   * setting a status and throwing, by throwing without a status (including the
   * TypeErrors and ReferenceErrors a missing record or an undeclared name
   * provokes), or by returning without answering at all.
   */
  datatype Error =
    | BadRequest        // 400 set before the throw
    | Unauthorized      // 401
    | Forbidden         // 403
    | NotFound          // 404
    | Thrown            // an exception with no status set: the error middleware decides
    | Unanswered        // the handler falls through every branch and sends nothing
    | ProviderStatus(code: Option<int>)  // status copied from an external provider's code

  datatype Result<+T> = Ok(value: T) | Err(error: Error) {
    predicate IsFailure() { Err? }

    function PropagateFailure<U>(): Result<U>
      requires Err?
    {
      Err(error)
    }

    function Extract(): T
      requires Ok?
    {
      value
    }
  }

  /** What a state-changing handler answered. */
  datatype Reply =
    | Done             // success response
    | Refused          // a 200 response carrying `success: false`
    | Fail(error: Error)
}
