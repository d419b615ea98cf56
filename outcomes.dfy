/** Option and Result values, and the exceptions the modelled code can raise. */
module Outcomes {

  datatype Option<+T> = None | Some(value: T)

  /** The Python and JavaScript exceptions that escape the modelled code paths. */
  datatype Error =
    | ValueError(message: string)
    | KeyError(key: string)
    | IndexError
    | AttributeError(attribute: string)
    | TypeError(message: string)
    | NameError(name: string)

  datatype Result<+T> = Ok(value: T) | Err(error: Error)
}
