/** The two small result types the models share. */
module Wrappers {
  datatype Option<+T> = None | Some(value: T)

  datatype Result<+T> = Ok(value: T) | Err(error: Error)

  /** The Python exceptions that the modelled code lets escape. */
  datatype Error = ValueError | TypeError | AttributeError | KeyError | SyntaxError | IndexError | ConversionError
}
