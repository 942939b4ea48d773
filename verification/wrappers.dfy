/** Optional values and the outcome of a call into a remote service
    (sign-in, a document write, a file upload). */
module Wrappers {

  datatype Option<+T> = None | Some(value: T) {
    function GetOr(default: T): T {
      match this
      case Some(v) => v
      case None => default
    }
  }

  /** What a remote call settles with: its value, or the message it was rejected with. */
  datatype Result<+T> = Success(value: T) | Failure(msg: string)

  /** JavaScript truthiness of an optional string: absent and empty are both falsy. */
  predicate Truthy(s: Option<string>) {
    s.Some? && s.value != ""
  }
}
