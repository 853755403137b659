/** Option and Result, and the exceptions the services throw, as values. */
module Wrappers {

  datatype Option<+T> = None | Some(value: T) {
    function GetOr(default: T): T {
      match this
      case Some(v) => v
      case None => default
    }
  }

  /** The exceptions thrown by the modelled code. The HTTP ones carry what their
      constructor was given; `Error` is a plain JavaScript `Error`. */
  datatype Failure =
    | NotFound(message: string)
    | Conflict(errors: seq<string>)
    | BadRequest(message: string)
    | Unauthorized(errors: seq<string>)
    | BadGateway(message: string)
    | Error(message: string)
    | TypeError(message: string)
  {
    /** The `message` property of the thrown object: an HTTP exception built from a
        string uses that string, one built from an object without a `message` field
        uses its class name spelled out. */
    function Message(): string {
      match this
      case NotFound(m) => m
      case Conflict(_) => "Conflict Exception"
      case BadRequest(m) => m
      case Unauthorized(_) => "Unauthorized Exception"
      case BadGateway(m) => m
      case Error(m) => m
      case TypeError(m) => m
    }
  }

  datatype Result<+T> = Ok(value: T) | Err(error: Failure) {
    predicate IsFailure() { Err? }
    function PropagateFailure<U>(): Result<U>
      requires Err?
    {
      Err(error)
    }
    function Extract(): T
      requires Ok?
    {
      value
    }
  }

  /** A field of an update DTO: `Keep` when the key is absent (`=== undefined`),
      `Set(v)` when it is present, whatever its value. */
  datatype Patch<+T> = Keep | Set(value: T) {
    /** The value written over `current`. */
    function GetOr(current: T): T {
      match this
      case Set(v) => v
      case Keep => current
    }
  }
}
