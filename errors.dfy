/** The failure kinds of the tool and the wrappers that carry them.
    Each exception class of index.js becomes one constructor of Error;
    a thrown exception becomes an Err (or Fail) value. */
module Errors {

  /** One constructor per exception class declared in index.js. */
  datatype Error =
    | UnrecognisableProtocol
    | BadHttpMethod
    | BodyNotAllowedMethod
    | SocketConnectionError
    | NoContentTypeHeader
    | NoBodyError

  /** A JavaScript value that may be `undefined`. */
  datatype Option<+T> = None | Some(value: T)

  /** The outcome of an operation that returns a value or throws. */
  datatype Result<+T> = Ok(value: T) | Err(error: Error)

  /** The outcome of a check that returns nothing or throws. */
  datatype Outcome = Pass | Fail(error: Error)

  /** JavaScript truthiness of an optional string: `undefined` and "" are falsy. */
  predicate Truthy(s: Option<string>) {
    s.Some? && s.value != ""
  }
}
