/** Failure-carrying wrappers and the error taxonomy shared by every page of the panel. */
module Basics {

  /** An optional value: a document field that may be absent. */
  datatype Option<+T> = None | Some(value: T) {
    /** The wrapped value, or `default` when absent. */
    function GetOr(default: T): T {
      match this
      case Some(v) => v
      case None => default
    }
  }

  /** The ways an operation of the panel can refuse or fail. */
  datatype Error =
    | ValidationError      // a required field is missing; nothing is written
    | InvalidTransition    // a status change other than pending -> paid or paid -> delivered
    | NotFound             // the referenced document does not exist
    | StorageError         // a document-store call failed

  /** The result of an operation that either produces a value or fails with an `Error`. */
  datatype Result<+T> = Ok(value: T) | Err(error: Error) {
    predicate IsFailure() {
      Err?
    }

    function PropagateFailure<U>(): Result<U>
      requires Err?
    {
      Err(error)
    }

    function Extract(): T
      requires Ok?
    {
      value
    }
  }
}
