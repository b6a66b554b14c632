/**
  Failure-carrying values shared by every part of the model.

  The client signals every failure by throwing; the model returns the thrown
  value instead.  Three kinds of throw occur in the client:
  - `Thrown(message)`: the client's own `throw new Error(message)`;
  - `TypeFault`: a TypeError raised by the runtime when the client reads a
    property of `undefined` (a missing `Set-Cookie` entry, a missing table
    cell, a reply with neither known root element);
  - `TransportFault`: a `fetch` call whose promise rejected.
 */
module Results {

  /** A value that may be absent (`undefined` / `null` in the client). */
  datatype Option<+T> = None | Some(value: T) {

    /** The value, or `default` when absent: the `??` operator. */
    function GetOr(default: T): T {
      match this
      case Some(v) => v
      case None => default
    }
  }

  /** What a failed client operation raises. */
  datatype Error =
    | Thrown(message: string)
    | TypeFault
    | TransportFault

  /** The value an operation returns, or the error it raises. */
  datatype Result<+T> = Ok(value: T) | Err(error: Error)

  /** The completion of an operation that returns nothing. */
  datatype Outcome = Pass | Fail(error: Error)
}
