/** Option and Result values standing in for Python's `None` and for raised exceptions. */
module Wrappers {

  datatype Option<+T> = None | Some(value: T) {
    /** `value if self is not None else default`. */
    function GetOr(default: T): T {
      match this
      case Some(v) => v
      case None => default
    }
  }

  /** The exceptions the modelled code raises or lets propagate. */
  datatype Error =
    | UnknownProvider(provider: string)   // ValueError from a factory
    | MissingApiKey                       // ValueError from an OpenAI constructor
    | DimensionUnknown                    // ValueError from a dimension probe
    | BackendFailed                       // an exception from a client library, re-raised
    | InvalidSettings                     // a validation error while loading the settings

  datatype Result<+T> = Ok(value: T) | Err(error: Error)
}
