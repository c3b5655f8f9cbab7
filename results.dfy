/** Option, result and error types shared by the deployment-state engine. */
module Results {

  datatype Option<+T> = None | Some(value: T) {
    predicate IsFailure() { None? }

    function PropagateFailure<U>(): Option<U>
      requires None?
    {
      None
    }

    function Extract(): T
      requires Some?
    {
      value
    }

    /** `Option::unwrap_or` */
    function UnwrapOr(default: T): T {
      match this
      case Some(v) => v
      case None => default
    }
  }

  /** The failures of the engine (`HelmError`). Library error kinds are kept
      apart only as far as the engine's own code distinguishes them. */
  datatype Error =
    | NoCaData             // neither CA data nor an explicit skip of TLS verification
    | CmdFailed(cmd: string) // a shell command exited unsuccessfully
    | UrlParse             // the server URL does not parse, or cannot take path segments
    | Io                   // a file, pipe or process-spawn failure
    | Template             // rendering the client configuration failed
    | Curl                 // the HTTP transfer failed
    | Yaml                 // serialising chart overrides failed

  datatype Result<+T> = Success(value: T) | Failure(error: Error) {
    predicate IsFailure() { Failure? }

    function PropagateFailure<U>(): Result<U>
      requires Failure?
    {
      Failure(error)
    }

    function Extract(): T
      requires Success?
    {
      value
    }
  }

  /** A check that either passes or fails with an error. */
  datatype Outcome = Pass | Fail(error: Error)
}
