/**
 * Values shared by every layer of the backend: optional values, the
 * `{statusCode, message}` objects that services and handlers throw, the
 * result of an operation that may throw one, and the JavaScript view of a
 * request-body field (absent, `null`, or a string).
 */
module Common {

  datatype Option<+T> = None | Some(value: T) {
    function GetOr(default: T): T {
      match this
      case Some(v) => v
      case None => default
    }
  }

  /** A thrown error object. `statusCode` is absent for a plain `new Error(...)`. */
  datatype Thrown = Thrown(statusCode: Option<int>, message: string, details: Option<string>)

  /** An error object of the shape `{ statusCode, message }` the services throw. */
  function Status(code: int, message: string): (e: Thrown)
    ensures e.statusCode == Some(code) && e.message == message && e.details.None?
  {
    Thrown(Some(code), message, None)
  }

  /** The outcome of an asynchronous operation: its value, or the object it threw. */
  datatype Result<+T> = Ok(value: T) | Err(error: Thrown)

  /**
   * A field destructured from a parsed JSON body: `undefined` when the key is
   * missing, `null`, or a string.
   */
  datatype Field = Undefined | Null | Str(text: string) {
    /** JavaScript truthiness: only a non-empty string is truthy. */
    predicate Truthy() {
      Str? && text != ""
    }
  }

  /** `s.startsWith(prefix)` */
  predicate StartsWith(s: string, prefix: string) {
    |prefix| <= |s| && s[..|prefix|] == prefix
  }

  /** The header the edge middleware sets to the verified user id and handlers read. */
  const UserIdHeader := "x-user-id"

  /**
   * An incoming request: its path, its cookies by name, its headers by
   * lower-case name, and its parsed JSON body.
   */
  datatype Request<+B> = Request(path: string, cookies: map<string, string>, headers: map<string, string>, body: B)
}
