/** Failure-carrying values used across the model: `Option` for the source's
    `std::optional`/null returns, `Result` for the operations that throw. */
module Wrappers {

  datatype Option<+T> = None | Some(value: T)

  /** `Err` carries the message the source throws with. */
  datatype Result<+T> = Ok(value: T) | Err(msg: string)
}
