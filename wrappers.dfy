/** Optional values and results that stand for Python's `None` and raised exceptions. */
module Wrappers {

  datatype Option<+T> = None | Some(value: T) {
    function GetOr(default: T): T {
      match this
      case Some(v) => v
      case None => default
    }
  }

  /** The Python exceptions that the modelled code can raise and let escape. */
  datatype PyError =
    | KeyError(key: string)
    | TypeError(reason: string)
    | IndexError
    | NameError(name: string)
    | AttributeError(attr: string)
    | StructError
    | UnboundLocalError(local: string)
    | IoctlError
    | RecursionLimit

  datatype Result<+R> = Ok(value: R) | Err(error: PyError)
}
