/** Small failure-compatible datatypes shared by every module of the model. */
module Wrappers {

  /** A value that may be absent: JavaScript's `undefined`/`null` for an optional field. */
  datatype Option<+T> = None | Some(value: T) {
    function GetOr(default: T): T {
      match this
      case Some(v) => v
      case None => default
    }
  }

  /** The outcome of one asynchronous call: it resolves with a value or rejects with an error. */
  datatype Attempt<+T> = Ok(value: T) | Fail(error: string)
}
