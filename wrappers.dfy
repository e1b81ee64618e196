/** Failure-carrying results used throughout the model. */
module Wrappers {

  datatype Option<+T> = None | Some(value: T)

  /** The Python exceptions the modelled scripts can raise, as values. */
  datatype Error =
    | EndOfInput            // input() reached the end of the answers (EOFError)
    | IndexOutOfRange       // indexing an empty or too-short list (IndexError)
    | MissingArrow(token: string)   // dot.edge(*parts) with a single part (TypeError)
    | TooManyParts(token: string)   // dot.edge(*parts) with four or more parts
    | Rejected(reason: string)      // a form refused by its own validation

  datatype Result<+T> = Ok(value: T) | Err(error: Error)
}
