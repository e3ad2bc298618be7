/** Option and Result, the two wrappers the Rust code returns everywhere. */
module Wrappers {
  datatype Option<T> = None | Some(value: T)
  {
    /** `Option::unwrap_or`. */
    function UnwrapOr(default: T): T
    {
      match this
      case None => default
      case Some(v) => v
    }

    /** `Option::or`: this value if present, otherwise `other`. */
    function Or(other: Option<T>): Option<T>
    {
      match this
      case None => other
      case Some(_) => this
    }
  }

  datatype Result<T, E> = Ok(value: T) | Err(error: E)
}

/** The backend's error kinds (errors.rs); each carries a message. */
module Errors {
  import opened Wrappers

  datatype AppError =
    | Cli(message: string)
    | Policy(message: string)
    | Io(message: string)
    | NotFound(message: string)
    | Internal(message: string)
  {
    /** The `Display` text: a kind tag, a colon and the message. */
    function ToString(): (r: string)
      ensures |r| > |message|
      ensures r[|r| - |message|..] == message
    {
      match this
      case Cli(m) => "CLI_INVALID: " + m
      case Policy(m) => "POLICY_DENIED: " + m
      case Io(m) => "IO_FAILURE: " + m
      case NotFound(m) => "NOT_FOUND: " + m
      case Internal(m) => "INTERNAL: " + m
    }
  }

  type AppResult<T> = Result<T, AppError>
}
